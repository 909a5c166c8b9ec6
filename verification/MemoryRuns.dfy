/** What the journal says about each memory, and that every mutation path keeps the table to it. */
module MemoryRuns {
  import opened Common
  import opened Memory

  // ----- one memory's history

  /** The columns the journal determines. */
  datatype View = View(agent: AgentId, kind: Kind, content: string, state: Trust, pinned: bool,
                       sourceTurn: Option<TurnId>, createdAt: int)

  datatype Cell = Absent | Live(view: View) | Broken

  function ViewOf(row: Row): View {
    View(row.agent, row.kind, row.content, row.state, row.pinned, row.sourceTurn, row.createdAt)
  }

  function TableCell(rows: map<MemoryId, Row>, id: MemoryId): Cell {
    if id in rows then Live(ViewOf(rows[id])) else Absent
  }

  function CellStep(cell: Cell, e: Event): Cell {
    match e.payload
    case Write(content, kind, state, pinned) =>
      if cell.Absent? then Live(View(e.agent, kind, content, state, pinned, TurnOf(e.source), e.at)) else Broken
    case Update(_, after, _, state, pinned) =>
      if cell.Live? then Live(cell.view.(content := after, state := state, pinned := pinned)) else cell
    case Forget(_) =>
      if cell.Live? then Absent else cell
  }

  /** The journal's own subsequence for one memory. */
  function Own(journal: seq<Event>, id: MemoryId): seq<Event> {
    if journal == [] then []
    else
      var e := journal[|journal| - 1];
      Own(journal[..|journal| - 1], id) + if e.target == id then [e] else []
  }

  function Fold(events: seq<Event>): Cell {
    if events == [] then Absent else CellStep(Fold(events[..|events| - 1]), events[|events| - 1])
  }

  /** What the journal says about one memory. */
  function JournalCell(journal: seq<Event>, id: MemoryId): Cell {
    if journal == [] then Absent
    else
      var e := journal[|journal| - 1];
      var before := JournalCell(journal[..|journal| - 1], id);
      if e.target == id then CellStep(before, e) else before
  }

  lemma {:induction false} CellIsFoldOfOwn(journal: seq<Event>, id: MemoryId)
    ensures JournalCell(journal, id) == Fold(Own(journal, id))
  {
    if journal != [] {
      var before, e := journal[..|journal| - 1], journal[|journal| - 1];
      CellIsFoldOfOwn(before, id);
      if e.target == id {
        assert Own(journal, id)[..|Own(journal, id)| - 1] == Own(before, id);
      } else {
        assert Own(journal, id) == Own(before, id);
      }
    }
  }

  lemma JournalCellAppend(journal: seq<Event>, e: Event, id: MemoryId)
    ensures JournalCell(journal + [e], id) ==
              if e.target == id then CellStep(JournalCell(journal, id), e) else JournalCell(journal, id)
  {
    assert (journal + [e])[..|journal + [e]| - 1] == journal;
  }

  lemma RestoreAttrsAppend(journal: seq<Event>, e: Event, agent: AgentId, id: MemoryId)
    requires e.target != id || e.payload.Forget?
    ensures RestoreAttrs(journal + [e], agent, id) == RestoreAttrs(journal, agent, id)
  {
    assert (journal + [e])[..|journal + [e]| - 1] == journal;
  }

  // ----- what holds in every reachable store

  predicate CarriesKind(e: Event) {
    e.payload.Write? || e.payload.Update?
  }

  /** All events of one memory belong to one agent and carry one kind. */
  ghost predicate OneOwner(journal: seq<Event>) {
    forall i, j :: 0 <= i < |journal| && 0 <= j < |journal| && journal[i].target == journal[j].target ==>
      journal[i].agent == journal[j].agent
  }

  ghost predicate OneKind(journal: seq<Event>) {
    forall i, j ::
      (0 <= i < |journal| && 0 <= j < |journal| && journal[i].target == journal[j].target
       && CarriesKind(journal[i]) && CarriesKind(journal[j]))
      ==> journal[i].payload.kind == journal[j].payload.kind
  }

  ghost predicate Backs(journal: seq<Event>, id: MemoryId, row: Row) {
    && (exists i :: 0 <= i < |journal| && journal[i].target == id && CarriesKind(journal[i]))
    && (forall i :: 0 <= i < |journal| && journal[i].target == id ==>
          journal[i].agent == row.agent && (CarriesKind(journal[i]) ==> journal[i].payload.kind == row.kind))
  }

  /** A live row has a write event, and every event of its memory names its agent and kind. */
  ghost predicate RowsBacked(s: Store) {
    forall id :: id in s.rows ==> Backs(s.journal, id, s.rows[id])
  }

  ghost predicate Owned(s: Store) {
    OneOwner(s.journal) && OneKind(s.journal) && RowsBacked(s)
  }

  /** Unless a memory's own history clashes, the table holds what it says. */
  ghost predicate Tracks(s: Store) {
    forall id :: JournalCell(s.journal, id).Broken? || JournalCell(s.journal, id) == TableCell(s.rows, id)
  }

  predicate Carries(journal: seq<Event>, id: MemoryId, row: Row) {
    RestoreAttrs(journal, row.agent, id) == Some(Attrs(row.kind, row.state, row.pinned))
  }

  /** The latest write or update event of a live memory carries its current kind, state and pin. */
  ghost predicate Attributed(s: Store) {
    forall id :: id in s.rows ==> Carries(s.journal, id, s.rows[id])
  }

  /** Holds in every reachable store, whatever was reverted. */
  ghost predicate Base(s: Store) {
    Owned(s) && Tracks(s) && Attributed(s)
  }

  /** The table is what the journal says, memory by memory, and no history clashes. */
  ghost predicate Consistent(s: Store) {
    forall id :: JournalCell(s.journal, id) == TableCell(s.rows, id)
  }

  // ----- the three journalled shapes keep both

  /** One event is appended and only its target's row changes. */
  ghost predicate Commits(s: Store, s': Store, e: Event) {
    && s'.journal == s.journal + [e]
    && forall id :: id != e.target ==>
         (id in s'.rows <==> id in s.rows) && (id in s.rows ==> s'.rows[id] == s.rows[id])
  }

  lemma CommitConsistent(s: Store, s': Store, e: Event)
    requires Consistent(s) && Commits(s, s', e)
    requires TableCell(s'.rows, e.target) == CellStep(TableCell(s.rows, e.target), e)
    ensures Consistent(s')
  {
    forall id ensures JournalCell(s'.journal, id) == TableCell(s'.rows, id) {
      JournalCellAppend(s.journal, e, id);
    }
  }

  /** The appended event fits the memory's owner and kind. */
  ghost predicate Fits(journal: seq<Event>, e: Event) {
    forall i :: 0 <= i < |journal| && journal[i].target == e.target ==>
      journal[i].agent == e.agent
      && (CarriesKind(journal[i]) && CarriesKind(e) ==> journal[i].payload.kind == e.payload.kind)
  }

  lemma AppendKeepsOneOwner(journal: seq<Event>, e: Event)
    requires OneOwner(journal) && OneKind(journal) && Fits(journal, e)
    ensures OneOwner(journal + [e]) && OneKind(journal + [e])
  {
  }

  lemma AppendKeepsBacking(journal: seq<Event>, e: Event, id: MemoryId, row: Row)
    requires Backs(journal, id, row) && e.target != id
    ensures Backs(journal + [e], id, row)
  {
    var i :| 0 <= i < |journal| && journal[i].target == id && CarriesKind(journal[i]);
    assert (journal + [e])[i] == journal[i];
  }

  lemma AppendBacks(journal: seq<Event>, e: Event, row: Row)
    requires Fits(journal, e) && CarriesKind(e) && row.agent == e.agent && row.kind == e.payload.kind
    ensures Backs(journal + [e], e.target, row)
  {
    assert (journal + [e])[|journal|] == e;
  }

  lemma CommitOwned(s: Store, s': Store, e: Event)
    requires Owned(s) && Commits(s, s', e) && Fits(s.journal, e) && Names(e, s'.rows)
    ensures Owned(s')
  {
    AppendKeepsOneOwner(s.journal, e);
    forall id | id in s'.rows ensures Backs(s'.journal, id, s'.rows[id]) {
      if id == e.target {
        AppendBacks(s.journal, e, s'.rows[id]);
      } else {
        AppendKeepsBacking(s.journal, e, id, s'.rows[id]);
      }
    }
  }

  /** The event carries the agent and the kind of its memory's row, if it has one. */
  predicate Names(e: Event, rows: map<MemoryId, Row>) {
    e.target in rows ==>
      CarriesKind(e) && rows[e.target].agent == e.agent && rows[e.target].kind == e.payload.kind
  }

  /** And its state and pin. */
  predicate Describes(e: Event, rows: map<MemoryId, Row>) {
    Names(e, rows) &&
    (e.target in rows ==> rows[e.target].state == e.payload.state && rows[e.target].pinned == e.payload.pinned)
  }

  lemma CommitAttributed(s: Store, s': Store, e: Event)
    requires Attributed(s) && Commits(s, s', e) && Describes(e, s'.rows)
    ensures Attributed(s')
  {
    assert (s.journal + [e])[..|s.journal|] == s.journal;
    forall id | id in s'.rows ensures Carries(s'.journal, id, s'.rows[id]) {
      if id != e.target { RestoreAttrsAppend(s.journal, e, s'.rows[id].agent, id); }
    }
  }

  lemma CommitTracks(s: Store, s': Store, e: Event)
    requires Tracks(s) && Commits(s, s', e)
    requires var cell := CellStep(TableCell(s.rows, e.target), e); cell.Broken? || TableCell(s'.rows, e.target) == cell
    ensures Tracks(s')
  {
    forall id ensures JournalCell(s'.journal, id).Broken? || JournalCell(s'.journal, id) == TableCell(s'.rows, id) {
      JournalCellAppend(s.journal, e, id);
    }
  }

  lemma CommitBase(s: Store, s': Store, e: Event)
    requires Base(s) && Commits(s, s', e) && Fits(s.journal, e) && Describes(e, s'.rows)
    requires var cell := CellStep(TableCell(s.rows, e.target), e); cell.Broken? || TableCell(s'.rows, e.target) == cell
    ensures Base(s')
  {
    CommitOwned(s, s', e);
    CommitTracks(s, s', e);
    CommitAttributed(s, s', e);
  }

  /** Ownership is kept, and so is each of the stronger invariants. */
  ghost predicate Keeps(s: Store, s': Store) {
    Owned(s') && (Base(s) ==> Base(s')) && (Consistent(s) ==> Consistent(s'))
  }

  lemma CommitKeeps(s: Store, s': Store, e: Event)
    requires Owned(s) && Commits(s, s', e) && Fits(s.journal, e) && Describes(e, s'.rows)
    requires TableCell(s'.rows, e.target) == CellStep(TableCell(s.rows, e.target), e)
    ensures Keeps(s, s')
  {
    CommitOwned(s, s', e);
    if Base(s) { CommitBase(s, s', e); }
    if Consistent(s) { CommitConsistent(s, s', e); }
  }

  lemma RewriteCommits(s: Store, id: MemoryId, row: Row, source: Source, now: int, kind: Kind)
    requires Owned(s) && id in s.rows && kind == row.kind == s.rows[id].kind && row.agent == s.rows[id].agent
    requires row.sourceTurn == s.rows[id].sourceTurn && row.createdAt == s.rows[id].createdAt
    ensures Keeps(s, Rewrite(s, id, row, source, now, kind))
  {
    var e := Event(row.agent, id, source, now, Update(s.rows[id].content, row.content, kind, row.state, row.pinned));
    assert Backs(s.journal, id, s.rows[id]);
    CommitKeeps(s, Rewrite(s, id, row, source, now, kind), e);
  }

  lemma RemoveCommits(s: Store, id: MemoryId, source: Source, now: int)
    requires Owned(s) && id in s.rows
    ensures Keeps(s, Remove(s, id, source, now))
  {
    var e := Event(s.rows[id].agent, id, source, now, Forget(s.rows[id].content));
    assert Backs(s.journal, id, s.rows[id]);
    CommitKeeps(s, Remove(s, id, source, now), e);
  }

  lemma {:induction false} HoldAllCommits(s: Store, order: seq<MemoryId>, now: int)
    requires Owned(s)
    ensures Keeps(s, HoldAll(s, order, now))
  {
    if order != [] {
      HoldAllCommits(s, order[..|order| - 1], now);
      var before, id := HoldAll(s, order[..|order| - 1], now), order[|order| - 1];
      if id in before.rows {
        RewriteCommits(before, id, before.rows[id].(state := Held), Librarian, now, before.rows[id].kind);
      }
    }
  }

  lemma {:induction false} RemoveAllCommits(s: Store, order: seq<MemoryId>, now: int)
    requires Owned(s)
    ensures Keeps(s, RemoveAll(s, order, now))
  {
    if order != [] {
      RemoveAllCommits(s, order[..|order| - 1], now);
      var before, id := RemoveAll(s, order[..|order| - 1], now), order[|order| - 1];
      if id in before.rows { RemoveCommits(before, id, Librarian, now); }
    }
  }

  /** The attributes a restore finds come from an event of the same memory, hence its one kind. */
  lemma {:induction false} RestoredKind(journal: seq<Event>, agent: AgentId, id: MemoryId) returns (i: nat)
    requires RestoreAttrs(journal, agent, id).Some?
    ensures i < |journal| && journal[i].target == id && journal[i].agent == agent && CarriesKind(journal[i])
    ensures journal[i].payload.kind == RestoreAttrs(journal, agent, id).value.kind
  {
    var e := journal[|journal| - 1];
    if e.agent == agent && e.target == id && CarriesKind(e) {
      i := |journal| - 1;
    } else {
      i := RestoredKind(journal[..|journal| - 1], agent, id);
    }
  }

  // ----- reverting a forget

  /** The one step after which the journal can no longer be replayed. */
  predicate RevertsForgetOfLive(s: Store, step: Step) {
    && step.DoRevert? && HasEvent(s, step.agent, step.event)
    && s.journal[step.event].payload.Forget?
    && s.journal[step.event].target in s.rows
  }

  lemma {:induction false} AttrsFound(read: seq<Event>, agent: AgentId, id: MemoryId, e: Event)
    requires e in read && e.agent == agent && e.target == id && CarriesKind(e)
    ensures RestoreAttrs(read, agent, id).Some?
  {
    var last := read[|read| - 1];
    if !(last.agent == agent && last.target == id && CarriesKind(last)) {
      assert read == read[..|read| - 1] + [last];
      AttrsFound(read[..|read| - 1], agent, id, e);
    }
  }

  /** The lookup of a live memory's attributes cannot fail, in whatever order the journal is read. */
  lemma LiveAttrsFound(s: Store, agent: AgentId, id: MemoryId, read: seq<Event>)
    requires Owned(s) && Permutes(read, s.journal) && id in s.rows && s.rows[id].agent == agent
    ensures RestoreAttrs(read, agent, id).Some?
  {
    assert Backs(s.journal, id, s.rows[id]);
    var i :| 0 <= i < |s.journal| && s.journal[i].target == id && CarriesKind(s.journal[i]);
    assert s.journal[i] in multiset(read);
    AttrsFound(read, agent, id, s.journal[i]);
  }

  lemma RestoredFits(s: Store, agent: AgentId, event: nat, read: seq<Event>, e: Event)
    requires Owned(s) && HasEvent(s, agent, event) && Permutes(read, s.journal)
    requires e.agent == agent && e.target == s.journal[event].target && e.payload.Write?
    requires RestoreAttrs(read, agent, e.target).Some?
    requires e.payload.kind == RestoreAttrs(read, agent, e.target).value.kind
    ensures Fits(s.journal, e)
    ensures e.target in s.rows ==> s.rows[e.target].agent == agent && s.rows[e.target].kind == e.payload.kind
  {
    var i := RestoredKind(read, agent, e.target);
    assert read[i] in multiset(s.journal);
    var j :| 0 <= j < |s.journal| && s.journal[j] == read[i];
    assert e.target in s.rows ==> Backs(s.journal, e.target, s.rows[e.target]);
  }

  /**
   Reverting a forget keeps ownership whatever the read order. If the lookup finds the latest attributes, the
   stronger invariants are kept too, except that reverting the forget of a live memory makes its history clash.
   */
  lemma RevertForgetCommits(s: Store, agent: AgentId, event: nat, read: seq<Event>, now: int)
    requires Owned(s) && HasEvent(s, agent, event) && s.journal[event].payload.Forget? && Permutes(read, s.journal)
    ensures var target := s.journal[event].target;
            match RevertForget(s, agent, target, s.journal[event].payload.before, read, now)
            case Err(_) => target !in s.rows
            case Ok(s') =>
              && Owned(s')
              && (Base(s) && RestoreAttrs(read, agent, target) == RestoreAttrs(s.journal, agent, target) ==>
                    && Base(s')
                    && (Consistent(s) ==> (Consistent(s') <==> target !in s.rows))
                    && (target in s.rows ==> JournalCell(s'.journal, target).Broken?))
  {
    var target, before := s.journal[event].target, s.journal[event].payload.before;
    if target in s.rows {
      assert Backs(s.journal, target, s.rows[target]);
      LiveAttrsFound(s, agent, target, read);
    }
    match RevertForget(s, agent, target, before, read, now)
    case Err(_) =>
    case Ok(s') =>
      var e := s'.journal[|s.journal|];
      RestoredFits(s, agent, event, read, e);
      CommitOwned(s, s', e);
      if Base(s) && RestoreAttrs(read, agent, target) == RestoreAttrs(s.journal, agent, target) {
        RestoreKeepsBase(s, s', e);
      }
  }

  lemma RestoreKeepsBase(s: Store, s': Store, e: Event)
    requires Base(s) && Commits(s, s', e) && Fits(s.journal, e) && e.payload.Write? && e.target in s'.rows
    requires RestoreAttrs(s.journal, e.agent, e.target) ==
               Some(Attrs(e.payload.kind, e.payload.state, e.payload.pinned))
    requires if e.target in s.rows then s'.rows[e.target] == s.rows[e.target] && s.rows[e.target].agent == e.agent
             else TableCell(s'.rows, e.target) == CellStep(Absent, e)
    ensures Base(s')
    ensures Consistent(s) ==> (Consistent(s') <==> e.target !in s.rows)
    ensures e.target in s.rows ==> JournalCell(s'.journal, e.target).Broken?
  {
    if e.target in s.rows { assert Carries(s.journal, e.target, s.rows[e.target]); }
    CommitBase(s, s', e);
    JournalCellAppend(s.journal, e, e.target);
    if e.target in s.rows {
      assert JournalCell(s.journal, e.target).Live? || JournalCell(s.journal, e.target).Broken?;
    } else if Consistent(s) {
      CommitConsistent(s, s', e);
    }
  }

  /** The lookup of a restore, if the step makes one, finds the latest attributes. */
  predicate FindsLatest(s: Store, step: Step)
    requires step.DoRevert?
  {
    HasEvent(s, step.agent, step.event) && s.journal[step.event].payload.Forget? ==>
      RestoreAttrs(step.read, step.agent, s.journal[step.event].target) ==
      RestoreAttrs(s.journal, step.agent, s.journal[step.event].target)
  }

  lemma RevertCommits(s: Store, step: Step)
    requires Owned(s) && step.DoRevert? && Enabled(s, step)
    ensures Owned(Apply(s, step))
    ensures Base(s) && FindsLatest(s, step) ==> Base(Apply(s, step))
    ensures Base(s) && FindsLatest(s, step) && Consistent(s) && !RevertsForgetOfLive(s, step) ==>
              Consistent(Apply(s, step))
  {
    if HasEvent(s, step.agent, step.event) {
      var target := s.journal[step.event].target;
      match s.journal[step.event].payload
      case Write(_, _, _, _) =>
        if Locked(s, step.agent, target, Operator).None? { RemoveCommits(s, target, Operator, step.now); }
      case Update(before, _, kind, state, pinned) =>
        if Locked(s, step.agent, target, Operator).None? {
          assert CarriesKind(s.journal[step.event]) && Backs(s.journal, target, s.rows[target]);
          var row := s.rows[target].(content := before, state := state, pinned := pinned);
          RewriteCommits(s, target, row, Operator, step.now, kind);
        }
      case Forget(_) => RevertForgetCommits(s, step.agent, step.event, step.read, step.now);
    }
  }

  // ----- the steps that do not read the journal

  lemma WriteCommits(s: Store, step: Step)
    requires Owned(s) && Enabled(s, step) && step.DoWrite?
    ensures Keeps(s, Apply(s, step))
  {
    var e := Event(step.agent, step.id, step.source, step.now, Write(step.content, step.kind, step.state, step.pinned));
    CommitKeeps(s, Apply(s, step), e);
  }

  lemma {:induction false} ChangeCommits(s: Store, step: Step)
    requires Owned(s) && Enabled(s, step) && (step.DoUpdate? || step.DoForget? || step.DoValidate? || step.DoPin?)
    ensures Keeps(s, Apply(s, step))
  {
    match step
    case DoUpdate(agent, target, content, state, source, embedding, now) =>
      if Locked(s, agent, target, source).None? {
        var row := s.rows[target].(content := content, state := state, embedding := Some(embedding));
        RewriteCommits(s, target, row, source, now, row.kind);
      }
    case DoForget(agent, target, source, now) =>
      if Locked(s, agent, target, source).None? { RemoveCommits(s, target, source, now); }
    case DoValidate(agent, target, source, now) =>
      if Locked(s, agent, target, source).None? {
        var row := s.rows[target].(state := Promoted(s.rows[target].state), lastValidated := now);
        RewriteCommits(s, target, row, source, now, row.kind);
      }
    case DoPin(agent, target, pinned, now) =>
      if Locked(s, agent, target, Operator).None? {
        RewriteCommits(s, target, s.rows[target].(pinned := pinned), Operator, now, s.rows[target].kind);
      }
  }

  lemma SameViews(s: Store, s': Store)
    requires Owned(s) && s'.journal == s.journal && s'.rows.Keys == s.rows.Keys
    requires forall id :: id in s.rows ==> ViewOf(s'.rows[id]) == ViewOf(s.rows[id])
    ensures Keeps(s, s')
  {
    assert forall id :: TableCell(s'.rows, id) == TableCell(s.rows, id);
    forall id | id in s'.rows ensures Backs(s'.journal, id, s'.rows[id]) {
      assert Backs(s.journal, id, s.rows[id]);
    }
    forall id | Attributed(s) && id in s'.rows ensures Carries(s'.journal, id, s'.rows[id]) {
      assert Carries(s.journal, id, s.rows[id]);
    }
  }

  lemma AccessCommits(s: Store, ids: set<MemoryId>, now: int)
    requires Owned(s)
    ensures Keeps(s, AccessTx(s, ids, now))
  {
    SameViews(s, AccessTx(s, ids, now));
  }

  lemma PlainStepCommits(s: Store, step: Step)
    requires Owned(s) && Enabled(s, step) && !step.DoRevert? && !step.DoRebuild?
    ensures Keeps(s, Apply(s, step))
  {
    match step
    case DoWrite(_, _, _, _, _, _, _, _, _) => WriteCommits(s, step);
    case DoDecay(_, _, order, now) => HoldAllCommits(s, order, now);
    case DoMature(_, _, _, order, now) => HoldAllCommits(s, order, now);
    case DoEvict(_, _, order, now) => RemoveAllCommits(s, order, now);
    case DoAccess(ids, now) => AccessCommits(s, ids, now);
    case _ => ChangeCommits(s, step);
  }
}
