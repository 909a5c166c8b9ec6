/** What each memory transaction does, column by column and event by event, down to the order of the states. */
module MemoryEffects {
  import opened Common
  import opened Memory
  import opened MemoryRuns
  import opened MemoryReplay
  import opened MemoryHistory

  // ----- the mutations of one memory

  predicate Targets(step: Step) {
    step.DoUpdate? || step.DoForget? || step.DoValidate? || step.DoPin?
  }

  /** Whoever asks: the source of the mutation, and the operator for a pin. */
  function By(step: Step): Source
    requires Targets(step)
  {
    if step.DoPin? then Operator else step.source
  }

  /** A mutation of a memory is refused in exactly three cases, told apart in this order. */
  lemma RefusedExactly(s: Store, step: Step)
    requires Targets(step)
    ensures var live := step.target in s.rows;
            var own := live && s.rows[step.target].agent == step.agent;
            var guarded := own && s.rows[step.target].pinned && By(step) != Operator;
            && (Attempt(s, step) == Err(NotFound) <==> !live)
            && (Attempt(s, step) == Err(WrongAgent) <==> live && !own)
            && (Attempt(s, step) == Err(PinnedImmutable) <==> guarded)
            && (Attempt(s, step).Ok? <==> own && !guarded)
            && (Attempt(s, step).Err? ==> Apply(s, step) == s)
  {
  }

  /** The journal gained this one event. */
  predicate Journals(s: Store, s': Store, e: Event) {
    s'.journal == s.journal + [e]
  }

  lemma WriteWrites(s: Store, step: Step)
    requires step.DoWrite?
    ensures var s', turn := Apply(s, step), if step.source.Turn? then Some(step.source.id) else None;
            && s'.rows == s.rows[step.id := Row(step.agent, step.kind, step.content, step.state, step.pinned, turn,
                                                step.now, step.now, step.now, 0, Some(step.embedding))]
            && Journals(s, s', Event(step.agent, step.id, step.source, step.now,
                                     Write(step.content, step.kind, step.state, step.pinned)))
  {
  }

  lemma UpdateWrites(s: Store, step: Step)
    requires step.DoUpdate? && Attempt(s, step).Ok?
    ensures var s', r := Apply(s, step), s.rows[step.target];
            && s'.rows == s.rows[step.target := r.(content := step.content, state := step.state,
                                                   embedding := Some(step.embedding))]
            && Journals(s, s', Event(step.agent, step.target, step.source, step.now,
                                     Update(r.content, step.content, r.kind, step.state, r.pinned)))
  {
  }

  lemma ForgetWrites(s: Store, step: Step)
    requires step.DoForget? && Attempt(s, step).Ok?
    ensures var s', r := Apply(s, step), s.rows[step.target];
            && s'.rows == s.rows - {step.target}
            && Journals(s, s', Event(step.agent, step.target, step.source, step.now, Forget(r.content)))
  {
  }

  /** A validation climbs one rung, tentative to held or held to validated, and moves the validation clock. */
  lemma ValidateWrites(s: Store, step: Step)
    requires step.DoValidate? && Attempt(s, step).Ok?
    ensures var s', r := Apply(s, step), s.rows[step.target];
            var state := if r.state == Tentative then Held else if r.state == Held then Validated else r.state;
            && s'.rows == s.rows[step.target := r.(state := state, lastValidated := step.now)]
            && Journals(s, s', Event(step.agent, step.target, step.source, step.now,
                                     Update(r.content, r.content, r.kind, state, r.pinned)))
  {
  }

  lemma PinWrites(s: Store, step: Step)
    requires step.DoPin? && Attempt(s, step).Ok?
    ensures var s', r := Apply(s, step), s.rows[step.target];
            && s'.rows == s.rows[step.target := r.(pinned := step.pinned)]
            && Journals(s, s', Event(step.agent, step.target, Operator, step.now,
                                     Update(r.content, r.content, r.kind, r.state, step.pinned)))
  {
  }

  lemma AccessWrites(s: Store, step: Step)
    requires step.DoAccess?
    ensures var s' := Apply(s, step);
            && s'.journal == s.journal && s'.rows.Keys == s.rows.Keys
            && forall id :: id in s.rows ==>
                 s'.rows[id] == if id !in step.ids then s.rows[id]
                                else s.rows[id].(lastAccessed := step.now, accessCount := s.rows[id].accessCount + 1)
  {
  }

  // ----- reverts

  /** There is no such event, or it is another agent's. */
  lemma RevertsOwnEventsOnly(s: Store, step: Step)
    requires step.DoRevert?
    ensures Attempt(s, step) == Err(EventNotFound) <==>
              !(step.event < |s.journal| && s.journal[step.event].agent == step.agent)
  {
  }

  /**
   Reverting any update of a live memory, the latest or an older one, gives the row the text before that update under
   the state and the pin which that update had set, whatever they have become since, and journals just that.
   */
  lemma RevertUpdateWrites(s: Store, step: Step)
    requires Owned(s) && step.DoRevert? && step.event < |s.journal|
    requires s.journal[step.event].agent == step.agent && s.journal[step.event].payload.Update?
    ensures var s', e := Apply(s, step), s.journal[step.event];
            && (e.target !in s.rows ==> Attempt(s, step) == Err(NotFound))
            && (e.target in s.rows ==>
                  var r, p := s.rows[e.target], e.payload;
                  && Attempt(s, step).Ok?
                  && s'.rows == s.rows[e.target := r.(content := p.before, state := p.state, pinned := p.pinned)]
                  && Journals(s, s', Event(step.agent, e.target, Operator, step.now,
                                           Update(r.content, p.before, r.kind, p.state, p.pinned))))
  {
    var e := s.journal[step.event];
    if e.target in s.rows { assert Backs(s.journal, e.target, s.rows[e.target]); }
  }

  /** Reverting a write forgets the memory, pinned or not. */
  lemma RevertWriteWrites(s: Store, step: Step)
    requires Owned(s) && step.DoRevert? && step.event < |s.journal|
    requires s.journal[step.event].agent == step.agent && s.journal[step.event].payload.Write?
    ensures var s', e := Apply(s, step), s.journal[step.event];
            && (e.target !in s.rows ==> Attempt(s, step) == Err(NotFound))
            && (e.target in s.rows ==>
                  && Attempt(s, step).Ok? && s'.rows == s.rows - {e.target}
                  && Journals(s, s', Event(step.agent, e.target, Operator, step.now,
                                           Forget(s.rows[e.target].content))))
  {
    var e := s.journal[step.event];
    if e.target in s.rows { assert Backs(s.journal, e.target, s.rows[e.target]); }
  }

  /** Reverting a forget of a memory that is live again writes a second birth into the journal and no row. */
  lemma RevertForgetOfLiveWrites(s: Store, step: Step)
    requires Owned(s) && Enabled(s, step) && step.DoRevert? && step.event < |s.journal|
    requires s.journal[step.event].agent == step.agent && s.journal[step.event].payload.Forget?
    requires s.journal[step.event].target in s.rows
    ensures var s', e := Apply(s, step), s.journal[step.event];
            && Attempt(s, step).Ok? && s'.rows == s.rows
            && exists state, pinned ::
                 Journals(s, s', Event(step.agent, e.target, Operator, step.now,
                                       Write(e.payload.before, s.rows[e.target].kind, state, pinned)))
  {
    var e := s.journal[step.event];
    assert Backs(s.journal, e.target, s.rows[e.target]);
    LiveAttrsFound(s, step.agent, e.target, step.read);
    var a, journal := RestoreAttrs(step.read, step.agent, e.target).value, Apply(s, step).journal;
    StepKeepsOwned(s, step);
    var i :| 0 <= i < |s.journal| && s.journal[i].target == e.target && CarriesKind(s.journal[i]);
    assert journal[i] == s.journal[i] && journal[|s.journal|].payload.kind == a.kind;
    assert Journals(s, Apply(s, step), Event(step.agent, e.target, Operator, step.now,
                                             Write(e.payload.before, s.rows[e.target].kind, a.state, a.pinned)));
  }

  // ----- decay and maturation

  /** The pass over `order` stores Held in each of its rows and journals that, one event each, in this order. */
  ghost predicate HeldInTurn(s: Store, s': Store, order: seq<MemoryId>, now: int) {
    && s'.rows.Keys == s.rows.Keys
    && (forall id :: id in s.rows ==>
          s'.rows[id] == if id in order then s.rows[id].(state := Held) else s.rows[id])
    && |s'.journal| == |s.journal| + |order| && s.journal <= s'.journal
    && (forall i :: 0 <= i < |order| ==> order[i] in s.rows)
    && forall i :: 0 <= i < |order| ==>
         var r := s.rows[order[i]];
         s'.journal[|s.journal| + i] ==
           Event(r.agent, order[i], Librarian, now, Update(r.content, r.content, r.kind, Held, r.pinned))
  }

  lemma {:induction false} HoldInTurn(s: Store, order: seq<MemoryId>, now: int)
    requires forall id :: id in order ==> id in s.rows
    ensures HeldInTurn(s, HoldAll(s, order, now), order, now)
  {
    if order != [] {
      var front, last := order[..|order| - 1], order[|order| - 1];
      assert order == front + [last];
      HoldInTurn(s, front, now);
    }
  }

  /** The agent's validated, unpinned rows whose last validation lies before the cutoff. */
  function StaleValidated(s: Store, agent: AgentId, cutoff: int): set<MemoryId> {
    set id | id in s.rows && s.rows[id].agent == agent && s.rows[id].state == Validated && !s.rows[id].pinned
          && s.rows[id].lastValidated < cutoff
  }

  /** The agent's tentative, unpinned rows created before the cutoff and in no open contradiction. */
  function OldTentative(s: Store, agent: AgentId, cutoff: int, entangled: set<MemoryId>): set<MemoryId> {
    set id | id in s.rows && s.rows[id].agent == agent && s.rows[id].state == Tentative && !s.rows[id].pinned
          && s.rows[id].createdAt < cutoff && id !in entangled
  }

  /** Exactly these rows are Held afterwards, with every other column kept; each move is one librarian event. */
  lemma DecayWrites(s: Store, agent: AgentId, cutoff: int, order: seq<MemoryId>, now: int)
    requires Lists(order, DecaySelection(s, agent, cutoff))
    ensures Lists(order, StaleValidated(s, agent, cutoff))
    ensures HeldInTurn(s, Apply(s, DoDecay(agent, cutoff, order, now)), order, now)
  {
    HoldInTurn(s, order, now);
  }

  lemma MatureWrites(s: Store, agent: AgentId, cutoff: int, entangled: set<MemoryId>, order: seq<MemoryId>, now: int)
    requires Lists(order, RipeSelection(s, agent, cutoff, entangled))
    ensures Lists(order, OldTentative(s, agent, cutoff, entangled))
    ensures HeldInTurn(s, Apply(s, DoMature(agent, cutoff, entangled, order, now)), order, now)
  {
    HoldInTurn(s, order, now);
  }

  // ----- eviction

  ghost predicate DroppedInTurn(s: Store, s': Store, order: seq<MemoryId>, now: int) {
    && s'.rows == (map id | id in s.rows && id !in order :: s.rows[id])
    && |s'.journal| == |s.journal| + |order| && s.journal <= s'.journal
    && (forall i :: 0 <= i < |order| ==> order[i] in s.rows)
    && forall i :: 0 <= i < |order| ==>
         var r := s.rows[order[i]];
         s'.journal[|s.journal| + i] == Event(r.agent, order[i], Librarian, now, Forget(r.content))
  }

  lemma {:induction false} DropInTurn(s: Store, order: seq<MemoryId>, now: int)
    requires forall id :: id in order ==> id in s.rows
    requires forall i, j :: 0 <= i < j < |order| ==> order[i] != order[j]
    ensures DroppedInTurn(s, RemoveAll(s, order, now), order, now)
  {
    if order != [] {
      var front, last := order[..|order| - 1], order[|order| - 1];
      assert order == front + [last];
      DropInTurn(s, front, now);
      assert last !in front;
    }
  }

  function Owns(s: Store, agent: AgentId): set<MemoryId> {
    set id | id in s.rows && s.rows[id].agent == agent
  }

  /**
   An eviction forgets unpinned rows of the agent, the lowest first, each with one librarian event: as many as the agent
   has over its quota, or all of its unpinned rows when those are fewer.
   */
  lemma EvictionWrites(s: Store, step: Step)
    requires step.DoEvict? && Enabled(s, step)
    ensures DroppedInTurn(s, Apply(s, step), step.order, step.now)
    ensures forall id :: id in step.order ==> id in Owns(s, step.agent) && !s.rows[id].pinned
    ensures forall v, w :: v in step.order && w in Owns(s, step.agent) && !s.rows[w].pinned && w !in step.order ==>
              NoHigher(s.rows[v], s.rows[w])
    ensures forall i, j :: 0 <= i < j < |step.order| ==> NoHigher(s.rows[step.order[i]], s.rows[step.order[j]])
    ensures var own := |Owns(s, step.agent)|;
            var loose := |set id | id in Owns(s, step.agent) && !s.rows[id].pinned|;
            |step.order| ==
              if own <= step.quota then 0 else if own - step.quota <= loose then own - step.quota else loose
  {
    var agent, quota, order := step.agent, step.quota, step.order;
    EvictionFacts(s, agent, quota, order);
    EvictionListing(s, agent, quota, order);
    forall id | id in order ensures id in Owns(s, agent) && !s.rows[id].pinned { assert id in Elements(order); }
    DropInTurn(s, order, step.now);
    forall v, w | v in order && w in Owns(s, agent) && !s.rows[w].pinned && w !in order
      ensures NoHigher(s.rows[v], s.rows[w])
    {
      assert w in Evictable(s, agent);
    }
    assert Owns(s, agent) == OwnRows(s, agent);
    assert (set id | id in Owns(s, agent) && !s.rows[id].pinned) == Evictable(s, agent);
  }

  lemma EvictionListing(s: Store, agent: AgentId, quota: nat, order: seq<MemoryId>)
    requires EvictionChoice(s, agent, quota, order)
    ensures forall i, j :: 0 <= i < j < |order| ==> order[i] != order[j]
    ensures forall i :: 0 <= i < |order| ==> order[i] in s.rows
    ensures forall i, j :: 0 <= i < j < |order| ==> NoHigher(s.rows[order[i]], s.rows[order[j]])
    ensures |order| == |Elements(order)|
  {
    var listing :| RankedListing(s, agent, listing) && order == listing[..Min(Over(s, agent, quota), |listing|)];
    forall i | 0 <= i < |order| ensures order[i] in s.rows { assert listing[i] in listing; }
    forall i, j | 0 <= i < j < |order| ensures NoHigher(s.rows[order[i]], s.rows[order[j]]) {
      assert RankedAs(s.rows, listing[i], listing[j]);
      NotBetterIsNoHigher(s.rows[order[i]], s.rows[order[j]]);
    }
    ListsSize(order, Elements(order));
  }

  // ----- the validation clock

  /**
   The validation clock of a memory that stays live moves in two cases: to the reading of a validation recorded for it,
   and back to its creation time when its agent is rebuilt. Aging, access, maturation, updates, pins and reverts leave
   it alone.
   */
  lemma ClockMovesOnlyBy(s: Store, step: Step, id: MemoryId)
    requires Owned(s) && Enabled(s, step) && id in s.rows && id in Apply(s, step).rows
    ensures var clock, clock' := s.rows[id].lastValidated, Apply(s, step).rows[id].lastValidated;
            if step.DoValidate? && step.target == id && Attempt(s, step).Ok? then clock' == step.now
            else if step.DoRebuild? && step.agent == s.rows[id].agent && Attempt(s, step).Ok? then
              clock' == Apply(s, step).rows[id].createdAt
            else clock' == clock
  {
    match step
    case DoDecay(_, _, order, now) => HoldInTurn(s, order, now);
    case DoMature(_, _, _, order, now) => HoldInTurn(s, order, now);
    case DoEvict(_, _, order, now) => RemoveAllJournals(s, order, now, id);
    case DoRebuild(agent, read) =>
      if RebuildTx(s, agent, read).Ok? {
        RebuiltCells(s, agent, read, id);
        RowOwner(s, agent, id);
      }
    case _ =>
  }

  // ----- the rungs of trust over whole runs

  /** Writes and updates name at most Held; what is above comes from elsewhere. */
  predicate Modest(step: Step) {
    step.DoWrite? || step.DoUpdate? ==> step.state == Tentative || step.state == Held
  }

  ghost predicate Confirmed(steps: seq<Step>, id: MemoryId) {
    exists i :: 0 <= i < |steps| && steps[i].DoValidate? && steps[i].target == id
  }

  /** The state an event stores is below Validated, or it is Validated and the memory was confirmed. */
  predicate Earned(e: Event, confirmed: bool) {
    e.payload.Forget? || e.payload.state == Tentative || e.payload.state == Held
    || (e.payload.state == Validated && confirmed)
  }

  ghost predicate AllEarned(journal: seq<Event>, id: MemoryId, confirmed: bool) {
    forall i :: 0 <= i < |journal| && journal[i].target == id ==> Earned(journal[i], confirmed)
  }

  lemma {:induction false} AttrsEarned(journal: seq<Event>, agent: AgentId, id: MemoryId, confirmed: bool)
    requires AllEarned(journal, id, confirmed) && RestoreAttrs(journal, agent, id).Some?
    ensures var state := RestoreAttrs(journal, agent, id).value.state;
            state == Tentative || state == Held || (state == Validated && confirmed)
  {
    var front, e := journal[..|journal| - 1], journal[|journal| - 1];
    if !(e.agent == agent && e.target == id && !e.payload.Forget?) {
      assert forall i :: 0 <= i < |front| ==> front[i] == journal[i];
      AttrsEarned(front, agent, id, confirmed);
    }
  }

  lemma RowEarned(s: Store, id: MemoryId, confirmed: bool)
    requires Base(s) && id in s.rows && AllEarned(s.journal, id, confirmed)
    ensures s.rows[id].state == Tentative || s.rows[id].state == Held || (s.rows[id].state == Validated && confirmed)
  {
    assert Carries(s.journal, id, s.rows[id]);
    AttrsEarned(s.journal, s.rows[id].agent, id, confirmed);
  }

  lemma ReadEarned(read: seq<Event>, journal: seq<Event>, id: MemoryId, confirmed: bool)
    requires Permutes(read, journal) && AllEarned(journal, id, confirmed)
    ensures AllEarned(read, id, confirmed)
  {
    forall i | 0 <= i < |read| && read[i].target == id ensures Earned(read[i], confirmed) {
      assert read[i] in multiset(journal);
    }
  }

  lemma {:induction false} EvictedEarned(s: Store, order: seq<MemoryId>, now: int, id: MemoryId, confirmed: bool)
    requires AllEarned(s.journal, id, confirmed)
    ensures AllEarned(RemoveAll(s, order, now).journal, id, confirmed)
  {
    if order != [] { EvictedEarned(s, order[..|order| - 1], now, id, confirmed); }
  }

  lemma {:induction false} HeldEarned(s: Store, order: seq<MemoryId>, now: int, id: MemoryId, confirmed: bool)
    requires AllEarned(s.journal, id, confirmed)
    ensures AllEarned(HoldAll(s, order, now).journal, id, confirmed)
  {
    if order != [] { HeldEarned(s, order[..|order| - 1], now, id, confirmed); }
  }

  lemma EarnedStep(s: Store, step: Step, id: MemoryId, confirmed: bool)
    requires Base(s) && Enabled(s, step) && Modest(step) && AllEarned(s.journal, id, confirmed)
    requires step.DoValidate? && step.target == id ==> confirmed
    ensures AllEarned(Apply(s, step).journal, id, confirmed)
  {
    if id in s.rows { RowEarned(s, id, confirmed); }
    match step
    case DoDecay(_, _, order, now) => HeldEarned(s, order, now, id, confirmed);
    case DoMature(_, _, _, order, now) => HeldEarned(s, order, now, id, confirmed);
    case DoEvict(_, _, order, now) => EvictedEarned(s, order, now, id, confirmed);
    case DoRevert(agent, _, read, _) => RevertEarned(s, step, id, confirmed);
    case _ =>
  }

  lemma RevertEarned(s: Store, step: Step, id: MemoryId, confirmed: bool)
    requires step.DoRevert? && Permutes(step.read, s.journal) && AllEarned(s.journal, id, confirmed)
    ensures AllEarned(Apply(s, step).journal, id, confirmed)
  {
    ReadEarned(step.read, s.journal, id, confirmed);
    if RestoreAttrs(step.read, step.agent, id).Some? { AttrsEarned(step.read, step.agent, id, confirmed); }
  }

  /** All events of a memory stay below Validated until the memory is confirmed. */
  lemma {:induction false} JournalEarned(steps: seq<Step>, id: MemoryId)
    requires IsRun(steps) && OrderlyReads(steps) && forall i :: 0 <= i < |steps| ==> Modest(steps[i])
    ensures AllEarned(After(steps).journal, id, Confirmed(steps, id))
  {
    if steps != [] {
      var before, last := steps[..|steps| - 1], steps[|steps| - 1];
      var s := After(before);
      JournalEarned(before, id);
      ReachableBase(before);
      if Confirmed(before, id) {
        var i :| 0 <= i < |before| && before[i].DoValidate? && before[i].target == id;
        assert steps[i] == before[i];
      }
      assert last.DoValidate? && last.target == id ==> Confirmed(steps, id);
      EarnedStep(s, last, id, Confirmed(steps, id));
    }
  }

  /**
   Validated is reserved for a real signal. On every run of orderly reads whose writes and updates name no higher state
   than Held, no memory is ever Core, and a memory that is Validated had a validation recorded for it: maturation,
   decay, pins, restores, reverts and rebuilds never get one there.
   */
  lemma {:induction false} ValidatedHasSignal(steps: seq<Step>, id: MemoryId)
    requires IsRun(steps) && OrderlyReads(steps) && forall i :: 0 <= i < |steps| ==> Modest(steps[i])
    requires id in After(steps).rows
    ensures After(steps).rows[id].state != Core
    ensures After(steps).rows[id].state == Validated ==>
              exists i :: 0 <= i < |steps| && steps[i].DoValidate? && steps[i].target == id
  {
    JournalEarned(steps, id);
    ReachableBase(steps);
    RowEarned(After(steps), id, Confirmed(steps, id));
  }
}
