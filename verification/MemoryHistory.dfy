/** What the journal guarantees over whole runs: rebuild, undo, pin protection and eviction. */
module MemoryHistory {
  import opened Common
  import opened Memory
  import opened MemoryRuns
  import opened MemoryReplay
  import opened MemoryOrder

  // ----- runs

  const EMPTY := Store(map[], [])

  ghost predicate IsRun(steps: seq<Step>)
    decreases |steps|, 0
  {
    steps == [] || (IsRun(steps[..|steps| - 1]) && Enabled(After(steps[..|steps| - 1]), steps[|steps| - 1]))
  }

  ghost function After(steps: seq<Step>): Store
    requires IsRun(steps)
    decreases |steps|, 1
  {
    if steps == [] then EMPTY else Apply(After(steps[..|steps| - 1]), steps[|steps| - 1])
  }

  /** No step of the run reverts the forget event of a memory that is live at that point. */
  ghost predicate OnlyCleanReverts(steps: seq<Step>)
    requires IsRun(steps)
  {
    steps == [] ||
    (OnlyCleanReverts(steps[..|steps| - 1]) && !RevertsForgetOfLive(After(steps[..|steps| - 1]), steps[|steps| - 1]))
  }

  /** Every step of the run that reads the journal back read it in a harmless order. */
  ghost predicate OrderlyReads(steps: seq<Step>)
    requires IsRun(steps)
  {
    steps == [] ||
    (OrderlyReads(steps[..|steps| - 1]) && OrderlyRead(After(steps[..|steps| - 1]), steps[|steps| - 1]))
  }

  /** Ownership and kinds hold in every reachable store, whatever order the journal is read in. */
  lemma {:induction false} ReachableOwned(steps: seq<Step>)
    requires IsRun(steps)
    ensures Owned(After(steps))
  {
    if steps != [] {
      ReachableOwned(steps[..|steps| - 1]);
      StepKeepsOwned(After(steps[..|steps| - 1]), steps[|steps| - 1]);
    }
  }

  lemma {:induction false} ReachableBase(steps: seq<Step>)
    requires IsRun(steps) && OrderlyReads(steps)
    ensures Base(After(steps))
  {
    if steps != [] {
      ReachableBase(steps[..|steps| - 1]);
      StepCommits(After(steps[..|steps| - 1]), steps[|steps| - 1]);
    }
  }

  /** As long as every memory's stamps increase with its events, every read of a run is harmless, and so is the next. */
  lemma {:induction false} StampedRunsReadInOrder(steps: seq<Step>)
    requires IsRun(steps) && Stamped(After(steps).journal)
    ensures OrderlyReads(steps)
    ensures forall read, agent :: Reads(read, After(steps).journal) ==> InOrderFor(read, After(steps).journal, agent)
  {
    if steps != [] {
      var before := steps[..|steps| - 1];
      JournalGrows(After(before), steps[|steps| - 1]);
      forall id ensures StampedAt(After(before).journal, id) {
        StampedPrefix(After(before).journal, After(steps).journal, id);
      }
      StampedRunsReadInOrder(before);
      StampedStepReads(After(before), steps[|steps| - 1]);
    }
    forall read, agent | Reads(read, After(steps).journal) ensures InOrderFor(read, After(steps).journal, agent) {
      forall id ensures Own(read, id) == Own(After(steps).journal, id) {
        assert StampedAt(After(steps).journal, id);
        StampedReadsInOrder(read, After(steps).journal, id);
      }
    }
  }

  /** The journal only ever grows, one step at a time. */
  lemma {:induction false} HoldAllGrows(s: Store, order: seq<MemoryId>, now: int)
    ensures s.journal <= HoldAll(s, order, now).journal
  {
    if order != [] { HoldAllGrows(s, order[..|order| - 1], now); }
  }

  lemma {:induction false} RemoveAllGrows(s: Store, order: seq<MemoryId>, now: int)
    ensures s.journal <= RemoveAll(s, order, now).journal
  {
    if order != [] { RemoveAllGrows(s, order[..|order| - 1], now); }
  }

  lemma JournalGrows(s: Store, step: Step)
    ensures s.journal <= Apply(s, step).journal
  {
    match step
    case DoDecay(_, _, order, now) => HoldAllGrows(s, order, now);
    case DoMature(_, _, _, order, now) => HoldAllGrows(s, order, now);
    case DoEvict(_, _, order, now) => RemoveAllGrows(s, order, now);
    case _ =>
  }

  lemma {:induction false} BrokenStays(journal: seq<Event>, longer: seq<Event>, id: MemoryId)
    requires journal <= longer && JournalCell(journal, id).Broken?
    ensures JournalCell(longer, id).Broken?
  {
    if journal != longer {
      assert journal <= longer[..|longer| - 1];
      BrokenStays(journal, longer[..|longer| - 1], id);
    } else {
      assert journal == longer;
    }
  }

  ghost predicate SomeBroken(s: Store) {
    exists id :: JournalCell(s.journal, id).Broken?
  }

  /**
   On every run of orderly reads the table equals the replay of the journal, memory by memory, if and only if no
   step reverted the forget of a live memory; after such a step some memory's history clashes for good.
   */
  lemma {:induction false} ConsistentIffCleanReverts(steps: seq<Step>)
    requires IsRun(steps) && OrderlyReads(steps)
    ensures Consistent(After(steps)) <==> OnlyCleanReverts(steps)
    ensures !OnlyCleanReverts(steps) ==> SomeBroken(After(steps))
  {
    if steps == [] {
      assert forall id :: JournalCell(EMPTY.journal, id) == TableCell(EMPTY.rows, id);
    } else {
      var before, last := steps[..|steps| - 1], steps[|steps| - 1];
      var s, s' := After(before), After(steps);
      ConsistentIffCleanReverts(before);
      ReachableBase(before);
      StepCommits(s, last);
      JournalGrows(s, last);
      if !OnlyCleanReverts(before) {
        var id :| JournalCell(s.journal, id).Broken?;
        BrokenStays(s.journal, s'.journal, id);
        assert JournalCell(s'.journal, id) != TableCell(s'.rows, id);
      } else if RevertsForgetOfLive(s, last) {
        BreakingRevert(s, last);
      }
    }
  }

  lemma BreakingRevert(s: Store, step: Step)
    requires Base(s) && Enabled(s, step) && OrderlyRead(s, step) && RevertsForgetOfLive(s, step)
    ensures JournalCell(Apply(s, step).journal, s.journal[step.event].target).Broken?
  {
    SameOwnSameReading(step.read, s.journal, step.agent, s.journal[step.event].target);
    RevertForgetCommits(s, step.agent, step.event, step.read, step.now);
  }

  // ----- rebuild

  /** `s'` holds the same memories as `s`, up to the usage counters. */
  ghost predicate SameMemories(s: Store, s': Store) {
    && s'.journal == s.journal && s'.rows.Keys == s.rows.Keys
    && forall id :: id in s.rows ==>
         ViewOf(s'.rows[id]) == ViewOf(s.rows[id]) && s'.rows[id].embedding == s.rows[id].embedding
  }

  /**
   After a run of orderly reads, a rebuild that reads in a harmless order either fails or changes nothing but usage
   counters, in which case a second one changes nothing at all. If all reverts were clean it does not fail.
   */
  lemma RebuildIsIdentity(steps: seq<Step>, agent: AgentId, read: seq<Event>)
    requires IsRun(steps) && OrderlyReads(steps)
    requires Reads(read, After(steps).journal) && InOrderFor(read, After(steps).journal, agent)
    ensures var s := After(steps);
            RebuildTx(s, agent, read).Ok? ==>
              && SameMemories(s, RebuildTx(s, agent, read).store)
              && RebuildTx(RebuildTx(s, agent, read).store, agent, read) == RebuildTx(s, agent, read)
    ensures OnlyCleanReverts(steps) ==> RebuildTx(After(steps), agent, read).Ok?
  {
    var s := After(steps);
    ReachableBase(steps);
    if OnlyCleanReverts(steps) {
      ConsistentIffCleanReverts(steps);
      ConsistentRebuilds(s, agent, read);
    }
    if RebuildTx(s, agent, read).Ok? { RebuiltSame(s, agent, read); }
  }

  lemma RebuiltSame(s: Store, agent: AgentId, read: seq<Event>)
    requires Base(s) && RebuildTx(s, agent, read).Ok?
    requires Permutes(read, s.journal) && InOrderFor(read, s.journal, agent)
    ensures SameMemories(s, RebuildTx(s, agent, read).store)
    ensures RebuildTx(RebuildTx(s, agent, read).store, agent, read) == RebuildTx(s, agent, read)
  {
    RebuildRestores(s, agent, read);
    RebuildTwice(s, agent, read);
  }

  lemma RebuiltAgain(s: Store, t: Store, agent: AgentId, read: seq<Event>)
    requires Base(s) && Base(t) && t.journal == s.journal && RebuildTx(s, agent, read).Ok?
    requires Permutes(read, s.journal) && InOrderFor(read, s.journal, agent)
    ensures RebuildTx(t, agent, read) == Ok(t.(rows := RefreshOwn(t.rows, agent)))
  {
    RebuildFailsIffClash(s, agent, read);
    RebuildFailsIffClash(t, agent, read);
    RebuildRestores(t, agent, read);
  }

  lemma RebuildTwice(s: Store, agent: AgentId, read: seq<Event>)
    requires Base(s) && RebuildTx(s, agent, read).Ok?
    requires Permutes(read, s.journal) && InOrderFor(read, s.journal, agent)
    ensures RebuildTx(RebuildTx(s, agent, read).store, agent, read) == RebuildTx(s, agent, read)
  {
    var t := s.(rows := RefreshOwn(s.rows, agent));
    RebuildRestores(s, agent, read);
    SameViews(s, t);
    RebuiltAgain(s, t, agent, read);
    RefreshTwice(s.rows, agent);
  }

  lemma RefreshTwice(rows: map<MemoryId, Row>, agent: AgentId)
    ensures RefreshOwn(RefreshOwn(rows, agent), agent) == RefreshOwn(rows, agent)
  {
  }

  /** Once a forget of a live memory was reverted, every later orderly rebuild of that agent fails. */
  lemma {:induction false} RebuildBrokenForever(steps: seq<Step>, k: nat, read: seq<Event>)
    requires IsRun(steps) && OrderlyReads(steps) && k < |steps| && IsRun(steps[..k])
    requires RevertsForgetOfLive(After(steps[..k]), steps[k])
    requires Reads(read, After(steps).journal) && InOrderFor(read, After(steps).journal, steps[k].agent)
    ensures RebuildTx(After(steps), steps[k].agent, read) == Err(Conflict)
  {
    var s, t := After(steps[..k]), After(steps);
    StaysBroken(steps, k);
    ReachableOwned(steps);
    assert t.journal[steps[k].event] == s.journal[steps[k].event];
    SameClashes(t, steps[k].agent, read);
    RebuildFailsIffClash(t, steps[k].agent, read);
  }

  lemma {:induction false} StaysBroken(steps: seq<Step>, k: nat)
    requires IsRun(steps) && OrderlyReads(steps) && k < |steps| && IsRun(steps[..k])
    requires RevertsForgetOfLive(After(steps[..k]), steps[k])
    ensures JournalCell(After(steps).journal, After(steps[..k]).journal[steps[k].event].target).Broken?
    ensures After(steps[..k]).journal <= After(steps).journal
  {
    var s := After(steps[..k]);
    var before, last := steps[..|steps| - 1], steps[|steps| - 1];
    JournalGrows(After(before), last);
    if k == |steps| - 1 {
      ReachableBase(before);
      BreakingRevert(s, last);
    } else {
      assert before[..k] == steps[..k];
      StaysBroken(before, k);
      BrokenStays(After(before).journal, After(steps).journal, s.journal[steps[k].event].target);
    }
  }

  // ----- exactly which reverts break a rebuild

  /** No event after `journal` writes memory `id`. */
  ghost predicate NoNewWrite(journal: seq<Event>, longer: seq<Event>, id: MemoryId) {
    && journal <= longer
    && forall i :: |journal| <= i < |longer| && longer[i].target == id ==> !longer[i].payload.Write?
  }

  /** Only a write can make a history clash. */
  lemma {:induction false} StaysWhole(journal: seq<Event>, longer: seq<Event>, id: MemoryId)
    requires NoNewWrite(journal, longer, id) && !JournalCell(journal, id).Broken?
    ensures !JournalCell(longer, id).Broken?
  {
    if |journal| == |longer| {
      assert journal == longer;
    } else {
      StaysWhole(journal, longer[..|longer| - 1], id);
    }
  }

  lemma {:induction false} HoldAllWritesNothing(s: Store, order: seq<MemoryId>, now: int, id: MemoryId)
    ensures NoNewWrite(s.journal, HoldAll(s, order, now).journal, id)
  {
    if order != [] { HoldAllWritesNothing(s, order[..|order| - 1], now, id); }
  }

  lemma {:induction false} RemoveAllWritesNothing(s: Store, order: seq<MemoryId>, now: int, id: MemoryId)
    ensures NoNewWrite(s.journal, RemoveAll(s, order, now).journal, id)
  {
    if order != [] { RemoveAllWritesNothing(s, order[..|order| - 1], now, id); }
  }

  lemma {:induction false} UnseenIsAbsent(journal: seq<Event>, id: MemoryId)
    requires forall i :: 0 <= i < |journal| ==> journal[i].target != id
    ensures JournalCell(journal, id) == Absent
  {
    if journal != [] { UnseenIsAbsent(journal[..|journal| - 1], id); }
  }

  /** A step breaks no history but that of the live memory whose forget it reverts. */
  lemma BreaksOnlyItsTarget(s: Store, step: Step, id: MemoryId)
    requires Base(s) && Enabled(s, step) && !JournalCell(s.journal, id).Broken?
    requires !(RevertsForgetOfLive(s, step) && s.journal[step.event].target == id)
    ensures !JournalCell(Apply(s, step).journal, id).Broken?
  {
    var s' := Apply(s, step);
    match step
    case DoWrite(target, _, _, _, _, _, _, _, _) =>
      if target == id { UnseenIsAbsent(s.journal, id); }
      JournalCellAppend(s.journal, s'.journal[|s.journal|], id);
    case DoRevert(_, _, _, _) => RevertBreaksOnlyItsTarget(s, step, id);
    case DoDecay(_, _, order, now) =>
      HoldAllWritesNothing(s, order, now, id);
      StaysWhole(s.journal, s'.journal, id);
    case DoMature(_, _, _, order, now) =>
      HoldAllWritesNothing(s, order, now, id);
      StaysWhole(s.journal, s'.journal, id);
    case DoEvict(_, _, order, now) =>
      RemoveAllWritesNothing(s, order, now, id);
      StaysWhole(s.journal, s'.journal, id);
    case _ =>
      StaysWhole(s.journal, s'.journal, id);
  }

  lemma RevertBreaksOnlyItsTarget(s: Store, step: Step, id: MemoryId)
    requires Base(s) && step.DoRevert? && !JournalCell(s.journal, id).Broken?
    requires !(RevertsForgetOfLive(s, step) && s.journal[step.event].target == id)
    ensures !JournalCell(Apply(s, step).journal, id).Broken?
  {
    var s' := Apply(s, step);
    if s'.journal != s.journal {
      JournalCellAppend(s.journal, s'.journal[|s.journal|], id);
      assert s'.journal == s.journal + [s'.journal[|s.journal|]];
      assert JournalCell(s.journal, id) == TableCell(s.rows, id);
    }
  }

  lemma ClashStays(journal: seq<Event>, longer: seq<Event>, agent: AgentId)
    requires journal <= longer && HasClash(journal, agent)
    ensures HasClash(longer, agent)
  {
    var i :| 0 <= i < |journal| && journal[i].agent == agent && JournalCell(journal, journal[i].target).Broken?;
    BrokenStays(journal, longer, journal[i].target);
    assert longer[i] == journal[i];
  }

  /** One step gives an agent a clashing history exactly when it reverts the forget of one of its live memories. */
  lemma ClashesExactly(s: Store, step: Step, agent: AgentId)
    requires Base(s) && Enabled(s, step) && OrderlyRead(s, step)
    ensures HasClash(Apply(s, step).journal, agent) <==>
              HasClash(s.journal, agent) || (RevertsForgetOfLive(s, step) && step.agent == agent)
  {
    var s' := Apply(s, step);
    JournalGrows(s, step);
    StepCommits(s, step);
    if HasClash(s.journal, agent) {
      ClashStays(s.journal, s'.journal, agent);
    } else if RevertsForgetOfLive(s, step) && step.agent == agent {
      BreakingRevert(s, step);
      assert s'.journal[step.event] == s.journal[step.event];
    } else {
      forall i | 0 <= i < |s'.journal| && s'.journal[i].agent == agent
        ensures !JournalCell(s'.journal, s'.journal[i].target).Broken?
      {
        StaysUnbroken(s, step, agent, i);
      }
    }
  }

  lemma StaysUnbroken(s: Store, step: Step, agent: AgentId, i: nat)
    requires Base(s) && Owned(Apply(s, step)) && Enabled(s, step) && s.journal <= Apply(s, step).journal
    requires !HasClash(s.journal, agent) && !(RevertsForgetOfLive(s, step) && step.agent == agent)
    requires i < |Apply(s, step).journal| && Apply(s, step).journal[i].agent == agent
    ensures !JournalCell(Apply(s, step).journal, Apply(s, step).journal[i].target).Broken?
  {
    var s' := Apply(s, step);
    var id := s'.journal[i].target;
    if j :| 0 <= j < |s.journal| && s.journal[j].target == id {
      assert s'.journal[j] == s.journal[j] && s.journal[j].agent == agent;
    } else {
      UnseenIsAbsent(s.journal, id);
    }
    if RevertsForgetOfLive(s, step) { assert s'.journal[step.event] == s.journal[step.event]; }
    BreaksOnlyItsTarget(s, step, id);
  }

  /** No step of the run reverted the forget of a memory of `agent` while it was live. */
  ghost predicate CleanFor(steps: seq<Step>, agent: AgentId)
    requires IsRun(steps)
  {
    steps == [] ||
    (&& CleanFor(steps[..|steps| - 1], agent)
     && var s, last := After(steps[..|steps| - 1]), steps[|steps| - 1];
        !(RevertsForgetOfLive(s, last) && last.agent == agent))
  }

  /**
   On every run of orderly reads, an agent's orderly rebuild succeeds if and only if none of its live memories had its
   forget reverted.
   */
  lemma {:induction false} RebuildSucceedsIffClean(steps: seq<Step>, agent: AgentId, read: seq<Event>)
    requires IsRun(steps) && OrderlyReads(steps)
    requires Reads(read, After(steps).journal) && InOrderFor(read, After(steps).journal, agent)
    ensures RebuildTx(After(steps), agent, read).Ok? <==> CleanFor(steps, agent)
  {
    ReachableOwned(steps);
    RebuildFailsIffClash(After(steps), agent, read);
    SameClashes(After(steps), agent, read);
    ClashIffUnclean(steps, agent);
  }

  lemma {:induction false} ClashIffUnclean(steps: seq<Step>, agent: AgentId)
    requires IsRun(steps) && OrderlyReads(steps)
    ensures HasClash(After(steps).journal, agent) <==> !CleanFor(steps, agent)
  {
    if steps != [] {
      ClashIffUnclean(steps[..|steps| - 1], agent);
      ReachableBase(steps[..|steps| - 1]);
      ClashesExactly(After(steps[..|steps| - 1]), steps[|steps| - 1], agent);
    }
  }

  /**
   So, when the stamps of every memory increase with its events: whatever order ties are read in, an agent's rebuild
   succeeds if and only if no forget of its live memories was reverted, and then changes nothing but usage counters.
   */
  lemma StampedRunRebuilds(steps: seq<Step>, agent: AgentId, read: seq<Event>)
    requires IsRun(steps) && Stamped(After(steps).journal) && Reads(read, After(steps).journal)
    ensures RebuildTx(After(steps), agent, read).Ok? <==> CleanFor(steps, agent)
    ensures CleanFor(steps, agent) ==> SameMemories(After(steps), RebuildTx(After(steps), agent, read).store)
  {
    StampedRunsReadInOrder(steps);
    RebuildSucceedsIffClean(steps, agent, read);
    RebuildIsIdentity(steps, agent, read);
  }

  ghost function Others(journal: seq<Event>, agent: AgentId, ids: set<MemoryId>): set<MemoryId> {
    set id | id in ids && !OwnsEvents(journal, agent, id)
  }

  /**
   Usage counters are not journalled: a rebuild of an agent, in whatever order it reads, undoes every access to the
   agent's memories and no other.
   */
  lemma AccessIsForgotten(s: Store, ids: set<MemoryId>, now: int, agent: AgentId, read: seq<Event>)
    requires Owned(s) && Permutes(read, s.journal)
    ensures match RebuildTx(s, agent, read)
            case Ok(r) =>
              RebuildTx(AccessTx(s, ids, now), agent, read) == Ok(AccessTx(r, Others(s.journal, agent, ids), now))
            case Err(e) => RebuildTx(AccessTx(s, ids, now), agent, read) == Err(e)
  {
    var t := AccessTx(s, ids, now);
    AccessCommits(s, ids, now);
    RebuildFailsIffClash(s, agent, read);
    RebuildFailsIffClash(t, agent, read);
    if RebuildTx(s, agent, read).Ok? { AccessForgottenRows(s, ids, now, agent, read); }
  }

  lemma AccessForgottenRows(s: Store, ids: set<MemoryId>, now: int, agent: AgentId, read: seq<Event>)
    requires Owned(s) && Owned(AccessTx(s, ids, now)) && Permutes(read, s.journal)
    requires RebuildTx(s, agent, read).Ok? && RebuildTx(AccessTx(s, ids, now), agent, read).Ok?
    ensures RebuildTx(AccessTx(s, ids, now), agent, read).store.rows ==
            AccessTx(RebuildTx(s, agent, read).store, Others(s.journal, agent, ids), now).rows
  {
    var q := RebuildTx(AccessTx(s, ids, now), agent, read).store.rows;
    var expected := AccessTx(RebuildTx(s, agent, read).store, Others(s.journal, agent, ids), now).rows;
    forall id ensures (id in q <==> id in expected) && (id in q ==> q[id] == expected[id]) {
      AccessForgottenAt(s, ids, now, agent, read, id);
    }
  }

  lemma AccessForgottenAt(s: Store, ids: set<MemoryId>, now: int, agent: AgentId, read: seq<Event>, id: MemoryId)
    requires Owned(s) && Owned(AccessTx(s, ids, now)) && Permutes(read, s.journal)
    requires RebuildTx(s, agent, read).Ok? && RebuildTx(AccessTx(s, ids, now), agent, read).Ok?
    ensures var q := RebuildTx(AccessTx(s, ids, now), agent, read).store.rows;
            var expected := AccessTx(RebuildTx(s, agent, read).store, Others(s.journal, agent, ids), now).rows;
            (id in q <==> id in expected) && (id in q ==> q[id] == expected[id])
  {
    var t := AccessTx(s, ids, now);
    var r, q := RebuildTx(s, agent, read).store, RebuildTx(t, agent, read).store;
    RebuiltCells(s, agent, read, id);
    RebuiltCells(t, agent, read, id);
    AccessedRow(s, ids, now, id);
    AccessedRow(r, Others(s.journal, agent, ids), now, id);
    if OwnsEvents(s.journal, agent, id) { OwnRebuiltAlike(r.rows, q.rows, id); }
  }

  lemma AccessedRow(s: Store, ids: set<MemoryId>, now: int, id: MemoryId)
    ensures var t := AccessTx(s, ids, now);
            && t.journal == s.journal && TableCell(t.rows, id) == TableCell(s.rows, id)
            && (id in s.rows ==>
                  && t.rows[id].embedding == s.rows[id].embedding
                  && t.rows[id] ==
                       if id !in ids then s.rows[id]
                       else s.rows[id].(lastAccessed := now, accessCount := s.rows[id].accessCount + 1))
  {
  }

  /** A rebuilt row is determined by its view and its embedding. */
  lemma OwnRebuiltAlike(r: map<MemoryId, Row>, q: map<MemoryId, Row>, id: MemoryId)
    requires TableCell(r, id) == TableCell(q, id)
    requires id in r ==> r[id] == Refreshed(r[id])
    requires id in q ==> q[id] == Refreshed(q[id])
    requires id in r && id in q ==> r[id].embedding == q[id].embedding
    ensures id in r <==> id in q
    ensures id in r ==> r[id] == q[id]
  {
  }

  /** One more enabled step; keeps track of clean reverts. */
  lemma Extend(steps: seq<Step>, step: Step) returns (longer: seq<Step>)
    requires IsRun(steps) && Enabled(After(steps), step)
    ensures longer == steps + [step] && IsRun(longer) && After(longer) == Apply(After(steps), step)
    ensures OnlyCleanReverts(longer) <==> OnlyCleanReverts(steps) && !RevertsForgetOfLive(After(steps), step)
  {
    longer := steps + [step];
    assert longer[..|longer| - 1] == steps;
  }

  lemma CleanExtends(steps: seq<Step>, step: Step, agent: AgentId)
    requires IsRun(steps) && CleanFor(steps, agent) && IsRun(steps + [step])
    requires !(RevertsForgetOfLive(After(steps), step) && step.agent == agent)
    ensures CleanFor(steps + [step], agent)
  {
    assert (steps + [step])[..|steps|] == steps;
  }

  // ----- forget, then revert

  lemma {:induction false} AttrsSurvive(journal: seq<Event>, longer: seq<Event>, agent: AgentId, id: MemoryId)
    requires journal <= longer
    requires forall i :: |journal| <= i < |longer| ==> longer[i].target != id || longer[i].payload.Forget?
    ensures RestoreAttrs(longer, agent, id) == RestoreAttrs(journal, agent, id)
  {
    if |journal| < |longer| {
      AttrsSurvive(journal, longer[..|longer| - 1], agent, id);
    } else {
      assert journal == longer;
    }
  }

  /** Event `f` is the only event of memory `id` between `s` and `t`, and forgets the content `id` has in `s`. */
  ghost predicate ForgottenAs(s: Store, t: Store, id: MemoryId, f: nat)
    requires id in s.rows
  {
    && s.journal <= t.journal && |s.journal| <= f < |t.journal| && id !in t.rows
    && t.journal[f].target == id && t.journal[f].agent == s.rows[id].agent
    && t.journal[f].payload == Forget(s.rows[id].content)
    && forall i :: |s.journal| <= i < |t.journal| && t.journal[i].target == id ==> i == f
  }

  /**
   Undo of a forget. `s` is a store reached by orderly reads with memory `id` live. Some step journals its forget as
   event `f` (a tool call, an eviction, or the revert of its write), and anything may happen after that except to this
   memory. Reverting event `f` then brings the memory back with the content, kind, state and pin it had, under a new
   creation time, without source turn and embedding, if the memory's own events are read back in sequence.
   */
  lemma ForgetRevertRoundTrip(s: Store, t: Store, id: MemoryId, f: nat, read: seq<Event>, now: int)
    requires Base(s) && id in s.rows && ForgottenAs(s, t, id, f)
    requires Own(read, id) == Own(t.journal, id)
    ensures var was := s.rows[id];
            RevertTx(t, was.agent, f, read, now) == Ok(Store(
              t.rows[id := NewRow(was.agent, was.kind, was.content, was.state, was.pinned, None, now, None)],
              t.journal + [Event(was.agent, id, Operator, now, Write(was.content, was.kind, was.state, was.pinned))]))
  {
    assert Carries(s.journal, id, s.rows[id]);
    AttrsSurvive(s.journal, t.journal, s.rows[id].agent, id);
    SameOwnSameReading(read, t.journal, s.rows[id].agent, id);
  }

  lemma ForgetJournals(s: Store, agent: AgentId, target: MemoryId, source: Source, now: int, id: MemoryId)
    requires id in s.rows && ForgetTx(s, agent, target, source, now).Ok?
    requires id !in ForgetTx(s, agent, target, source, now).store.rows
    ensures ForgottenAs(s, ForgetTx(s, agent, target, source, now).store, id, |s.journal|)
  {
  }

  /** Whichever step removes a live memory journals exactly that: one event, holding the content it had. */
  lemma ForgetsJournalContent(s: Store, step: Step, id: MemoryId)
    requires Base(s) && Enabled(s, step) && OrderlyRead(s, step) && id in s.rows && id !in Apply(s, step).rows
    ensures exists f :: ForgottenAs(s, Apply(s, step), id, f)
  {
    match step
    case DoForget(agent, target, source, now) => ForgetJournals(s, agent, target, source, now, id);
    case DoRevert(agent, event, _, now) =>
      if HasEvent(s, agent, event) && s.journal[event].payload.Write? {
        ForgetJournals(s, agent, s.journal[event].target, Operator, now, id);
      }
    case DoEvict(_, _, order, now) => RemoveAllJournals(s, order, now, id);
    case DoDecay(_, _, order, now) => HoldAllKeepsRows(s, order, now);
    case DoMature(_, _, _, order, now) => HoldAllKeepsRows(s, order, now);
    case DoRebuild(agent, read) => if RebuildTx(s, agent, read).Ok? { RebuildRestores(s, agent, read); }
    case _ =>
  }

  /** So, on every run of orderly reads: what the last step removed is restored by reverting the event it journalled. */
  lemma {:induction false} LastForgetIsUndone(steps: seq<Step>, id: MemoryId, read: seq<Event>, now: int)
    returns (f: nat)
    requires IsRun(steps) && OrderlyReads(steps) && steps != []
    requires id in After(steps[..|steps| - 1]).rows && id !in After(steps).rows
    requires Own(read, id) == Own(After(steps).journal, id)
    ensures var was := After(steps[..|steps| - 1]).rows[id];
            var t := RevertTx(After(steps), was.agent, f, read, now);
            && t.Ok? && id in t.store.rows
            && var row := t.store.rows[id];
               (row.content, row.kind, row.state, row.pinned) == (was.content, was.kind, was.state, was.pinned)
  {
    var s := After(steps[..|steps| - 1]);
    ReachableBase(steps[..|steps| - 1]);
    ForgetsJournalContent(s, steps[|steps| - 1], id);
    f :| ForgottenAs(s, After(steps), id, f);
    ForgetRevertRoundTrip(s, After(steps), id, f, read, now);
  }

  /** In particular on every run whose stamps increase, whatever order ties are read in. */
  lemma {:induction false} StampedForgetIsUndone(steps: seq<Step>, id: MemoryId, read: seq<Event>, now: int)
    returns (f: nat)
    requires IsRun(steps) && steps != [] && Stamped(After(steps).journal) && Reads(read, After(steps).journal)
    requires id in After(steps[..|steps| - 1]).rows && id !in After(steps).rows
    ensures var was := After(steps[..|steps| - 1]).rows[id];
            var t := RevertTx(After(steps), was.agent, f, read, now);
            && t.Ok? && id in t.store.rows
            && var row := t.store.rows[id];
               (row.content, row.kind, row.state, row.pinned) == (was.content, was.kind, was.state, was.pinned)
  {
    StampedRunsReadInOrder(steps);
    assert StampedAt(After(steps).journal, id);
    StampedReadsInOrder(read, After(steps).journal, id);
    f := LastForgetIsUndone(steps, id, read, now);
  }

  lemma {:induction false} HoldAllKeepsRows(s: Store, order: seq<MemoryId>, now: int)
    ensures HoldAll(s, order, now).rows.Keys == s.rows.Keys
    ensures forall id :: id in s.rows && id !in order ==> HoldAll(s, order, now).rows[id] == s.rows[id]
  {
    if order != [] { HoldAllKeepsRows(s, order[..|order| - 1], now); }
  }

  lemma {:induction false} RemoveAllJournals(s: Store, order: seq<MemoryId>, now: int, id: MemoryId)
    requires id in s.rows
    ensures var s' := RemoveAll(s, order, now);
            && s.journal <= s'.journal
            && (id in s'.rows <==> id !in order) && (id in s'.rows ==> s'.rows[id] == s.rows[id])
            && (id in s'.rows ==> forall i :: |s.journal| <= i < |s'.journal| ==> s'.journal[i].target != id)
            && (id !in s'.rows ==> exists f :: ForgottenAs(s, s', id, f))
  {
    if order != [] {
      RemoveAllJournals(s, order[..|order| - 1], now, id);
      var b, s' := RemoveAll(s, order[..|order| - 1], now), RemoveAll(s, order, now);
      assert b.journal <= s'.journal;
      if id !in b.rows {
        var f :| ForgottenAs(s, b, id, f);
        assert ForgottenAs(s, s', id, f);
      } else if id == order[|order| - 1] {
        assert ForgottenAs(s, s', id, |b.journal|);
      }
    }
  }

  // ----- update, then revert

  lemma {:induction false} LatestEventAttrs(journal: seq<Event>, i: nat)
    requires i < |journal| && CarriesKind(journal[i])
    requires forall j :: i < j < |journal| ==> journal[j].target != journal[i].target
    ensures RestoreAttrs(journal, journal[i].agent, journal[i].target) ==
              Some(Attrs(journal[i].payload.kind, journal[i].payload.state, journal[i].payload.pinned))
  {
    if i < |journal| - 1 { LatestEventAttrs(journal[..|journal| - 1], i); }
  }

  /** Reverting a memory's latest update undoes its content and nothing else: state, pin and embedding stay. */
  lemma RevertingLatestUpdate(s: Store, event: nat, read: seq<Event>, now: int)
    requires Base(s) && event < |s.journal| && s.journal[event].payload.Update?
    requires s.journal[event].target in s.rows
    requires forall j :: event < j < |s.journal| ==> s.journal[j].target != s.journal[event].target
    ensures var e := s.journal[event];
            && RevertTx(s, e.agent, event, read, now).Ok?
            && RevertTx(s, e.agent, event, read, now).store.rows ==
                 s.rows[e.target := s.rows[e.target].(content := e.payload.before)]
  {
    var e := s.journal[event];
    assert Backs(s.journal, e.target, s.rows[e.target]);
    assert Carries(s.journal, e.target, s.rows[e.target]);
    LatestEventAttrs(s.journal, event);
  }

  /**
   So an update followed by its revert leaves the state and the embedding of the update behind: the row carries its
   old text under the new text's embedding. It is undone exactly when the update had changed neither.
   */
  lemma UpdateRevertRoundTrip(s: Store, step: Step, read: seq<Event>, now: int)
    requires step.DoUpdate? && Attempt(s, step).Ok?
    ensures var t := Apply(s, step);
            && RevertTx(t, step.agent, |s.journal|, read, now).Ok?
            && var row := s.rows[step.target];
               var row' := RevertTx(t, step.agent, |s.journal|, read, now).store.rows[step.target];
               && row' == row.(state := step.state, embedding := Some(step.embedding))
               && (row' == row <==> step.state == row.state && row.embedding == Some(step.embedding))
  {
  }

  /** Reverting a pin or unpin never undoes it: the whole row stays as the pin left it. */
  lemma PinRevertRoundTrip(s: Store, step: Step, read: seq<Event>, now: int)
    requires step.DoPin? && Attempt(s, step).Ok?
    ensures var t := Apply(s, step);
            && RevertTx(t, step.agent, |s.journal|, read, now).Ok?
            && RevertTx(t, step.agent, |s.journal|, read, now).store.rows == t.rows
            && t.rows[step.target] == s.rows[step.target].(pinned := step.pinned)
  {
  }

  // ----- pinned rows

  /** Steps agents and the librarian can take; everything of the operator is excluded. */
  predicate Unprivileged(step: Step) {
    match step
    case DoWrite(_, _, _, _, _, _, source, _, _) => source != Operator
    case DoUpdate(_, _, _, _, source, _, _) => source != Operator
    case DoForget(_, _, source, _) => source != Operator
    case DoValidate(_, _, source, _) => source != Operator
    case DoPin(_, _, _, _) => false
    case DoRevert(_, _, _, _) => false
    case _ => true
  }

  lemma PinnedStep(s: Store, step: Step, id: MemoryId)
    requires Base(s) && Enabled(s, step) && OrderlyRead(s, step) && Unprivileged(step)
    requires id in s.rows && s.rows[id].pinned
    ensures id in Apply(s, step).rows && ViewOf(Apply(s, step).rows[id]) == ViewOf(s.rows[id])
  {
    match step
    case DoEvict(agent, quota, order, now) =>
      PinnedNotEvicted(s, agent, quota, order, id);
      RemoveAllJournals(s, order, now, id);
    case DoDecay(_, _, order, now) => HoldAllKeepsRows(s, order, now);
    case DoMature(_, _, _, order, now) => HoldAllKeepsRows(s, order, now);
    case DoRebuild(agent, read) => if RebuildTx(s, agent, read).Ok? { RebuildRestores(s, agent, read); }
    case _ =>
  }

  lemma PinnedNotEvicted(s: Store, agent: AgentId, quota: nat, order: seq<MemoryId>, id: MemoryId)
    requires EvictionChoice(s, agent, quota, order) && id in s.rows && s.rows[id].pinned
    ensures id !in order
  {
    EvictionFacts(s, agent, quota, order);
    assert id in order ==> id in Elements(order);
  }

  /** No sequence of agent and librarian steps, orderly rebuilds included, changes or removes a pinned memory. */
  lemma {:induction false} PinnedImmune(steps: seq<Step>, k: nat, id: MemoryId)
    requires IsRun(steps) && OrderlyReads(steps) && k <= |steps| && IsRun(steps[..k])
    requires forall i :: k <= i < |steps| ==> Unprivileged(steps[i])
    requires id in After(steps[..k]).rows && After(steps[..k]).rows[id].pinned
    ensures id in After(steps).rows && ViewOf(After(steps).rows[id]) == ViewOf(After(steps[..k]).rows[id])
  {
    if k == |steps| {
      assert steps[..k] == steps;
    } else {
      var before := steps[..|steps| - 1];
      assert before[..k] == steps[..k];
      PinnedImmune(before, k, id);
      ReachableBase(before);
      PinnedStep(After(before), steps[|steps| - 1], id);
    }
  }

  // ----- eviction

  lemma {:induction false} RemoveAllRows(s: Store, order: seq<MemoryId>, now: int)
    ensures RemoveAll(s, order, now).rows == s.rows - Elements(order)
  {
    if order != [] {
      RemoveAllRows(s, order[..|order| - 1], now);
      assert Elements(order) == Elements(order[..|order| - 1]) + {order[|order| - 1]};
    }
  }

  lemma DifferenceSize(a: set<MemoryId>, b: set<MemoryId>)
    requires b <= a
    ensures |a - b| == |a| - |b|
  {
    assert a == (a - b) + b;
  }

  lemma {:induction false} ListsSize(order: seq<MemoryId>, ids: set<MemoryId>)
    requires Lists(order, ids)
    ensures |order| == |ids| && Elements(order) == ids
  {
    if order == [] {
      assert ids == {};
    } else {
      var last := order[|order| - 1];
      assert order == order[..|order| - 1] + [last];
      ListsSize(order[..|order| - 1], ids - {last});
    }
  }

  /** `v` stands no higher than `w`: by state, tentative lowest and core highest, then by last access, then by use. */
  predicate NoHigher(v: Row, w: Row) {
    && (w.state == Tentative ==> v.state == Tentative)
    && (w.state == Held ==> v.state == Tentative || v.state == Held)
    && (w.state == Validated ==> v.state != Core)
    && (v.state == w.state ==> v.lastAccessed <= w.lastAccessed)
    && (v.state == w.state && v.lastAccessed == w.lastAccessed ==> v.accessCount <= w.accessCount)
  }

  lemma NotBetterIsNoHigher(v: Row, w: Row)
    ensures NotBetter(v, w) <==> NoHigher(v, w)
  {
  }

  /** The first rows of a ranked listing: unpinned, as many as asked for, and none ranks above one that is left. */
  lemma EvictionFacts(s: Store, agent: AgentId, quota: nat, order: seq<MemoryId>)
    requires EvictionChoice(s, agent, quota, order)
    ensures Elements(order) <= Evictable(s, agent)
    ensures |Elements(order)| == Min(Over(s, agent, quota), |Evictable(s, agent)|)
    ensures forall v, w :: v in order && w in Evictable(s, agent) && w !in order ==> NoHigher(s.rows[v], s.rows[w])
  {
    var listing :| RankedListing(s, agent, listing) && order == listing[..Min(Over(s, agent, quota), |listing|)];
    ListsSize(listing, Evictable(s, agent));
    ListsSize(order, Elements(order));
    forall v | v in order ensures v in Evictable(s, agent) { assert v in listing; }
    forall v, w | v in order && w in Evictable(s, agent) && w !in order ensures NoHigher(s.rows[v], s.rows[w]) {
      var i :| 0 <= i < |order| && order[i] == v;
      var j :| 0 <= j < |listing| && listing[j] == w;
      assert forall n :: 0 <= n < |order| ==> order[n] == listing[n] && order[n] != w;
      assert RankedAs(s.rows, listing[i], listing[j]);
      NotBetterIsNoHigher(s.rows[v], s.rows[w]);
    }
  }

  /** Over quota, eviction leaves exactly max(quota, pinned) rows. */
  lemma EvictionCount(s: Store, agent: AgentId, quota: nat, order: seq<MemoryId>, now: int)
    requires EvictionChoice(s, agent, quota, order)
    ensures var pinned := |OwnRows(s, agent) - Evictable(s, agent)|;
            |OwnRows(RemoveAll(s, order, now), agent)| ==
              if |OwnRows(s, agent)| <= quota then |OwnRows(s, agent)| else if quota <= pinned then pinned else quota
  {
    EvictionFacts(s, agent, quota, order);
    RemoveAllRows(s, order, now);
    assert OwnRows(RemoveAll(s, order, now), agent) == OwnRows(s, agent) - Elements(order);
    DifferenceSize(OwnRows(s, agent), Elements(order));
    DifferenceSize(OwnRows(s, agent), Evictable(s, agent));
  }

  /** Only unpinned rows of the agent go, and no surviving unpinned row ranks strictly below one that went. */
  lemma EvictionSelects(s: Store, agent: AgentId, quota: nat, order: seq<MemoryId>, now: int)
    requires EvictionChoice(s, agent, quota, order)
    ensures var s' := RemoveAll(s, order, now);
            && (forall id :: id in s'.rows ==> id in s.rows && s'.rows[id] == s.rows[id])
            && (forall id :: id in s.rows && id !in s'.rows ==> s.rows[id].agent == agent && !s.rows[id].pinned)
            && (forall v, w :: v in s.rows && v !in s'.rows && w in Evictable(s', agent) ==>
                  NoHigher(s.rows[v], s.rows[w]))
  {
    EvictionFacts(s, agent, quota, order);
    RemoveAllRows(s, order, now);
    var s' := RemoveAll(s, order, now);
    forall v, w | v in s.rows && v !in s'.rows && w in Evictable(s', agent) ensures NoHigher(s.rows[v], s.rows[w]) {
      assert v in Elements(order) && w in Evictable(s, agent) && w !in Elements(order);
    }
  }
}
