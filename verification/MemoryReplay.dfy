/** Reading the journal back: what a rebuild and a restore do with the order they are given, and when it is harmless. */
module MemoryReplay {
  import opened Common
  import opened Memory
  import opened MemoryRuns

  // ----- replaying the table is replaying every memory by itself

  /** `agent`'s events of one memory, applied to a starting cell. */
  function AgentCell(start: Cell, journal: seq<Event>, agent: AgentId, id: MemoryId): Cell {
    if journal == [] then start
    else
      var e := journal[|journal| - 1];
      var before := AgentCell(start, journal[..|journal| - 1], agent, id);
      if e.target == id && e.agent == agent then CellStep(before, e) else before
  }

  /** Replay clashes exactly when some memory's own history does; otherwise the tables agree cell by cell. */
  lemma {:induction false} ReplayIsPointwise(rows: map<MemoryId, Row>, journal: seq<Event>, agent: AgentId)
    ensures match Replay(rows, journal, agent)
            case Clash => exists id :: AgentCell(TableCell(rows, id), journal, agent, id).Broken?
            case Table(r) => forall id :: TableCell(r, id) == AgentCell(TableCell(rows, id), journal, agent, id)
  {
    if journal != [] {
      var before, e := journal[..|journal| - 1], journal[|journal| - 1];
      ReplayIsPointwise(rows, before, agent);
      match Replay(rows, before, agent)
      case Clash =>
        var id :| AgentCell(TableCell(rows, id), before, agent, id).Broken?;
        assert AgentCell(TableCell(rows, id), journal, agent, id).Broken?;
      case Table(r) =>
        assert TableCell(r, e.target) == AgentCell(TableCell(rows, e.target), before, agent, e.target);
        if Replay(rows, journal, agent).Clash? {
          assert AgentCell(TableCell(rows, e.target), journal, agent, e.target).Broken?;
        } else {
          var r' := Replay(rows, journal, agent).rows;
          forall id ensures TableCell(r', id) == AgentCell(TableCell(rows, id), journal, agent, id) {
            assert TableCell(r, id) == AgentCell(TableCell(rows, id), before, agent, id);
          }
        }
    }
  }

  /** A replayed row that was not there at the start has fresh counters and no embedding. */
  predicate Blank(row: Row) {
    && row.lastValidated == row.createdAt && row.lastAccessed == row.createdAt
    && row.accessCount == 0 && row.embedding.None?
  }

  ghost predicate CarrierFor(journal: seq<Event>, agent: AgentId, id: MemoryId) {
    exists i :: 0 <= i < |journal| && journal[i].agent == agent && journal[i].target == id && CarriesKind(journal[i])
  }

  lemma {:induction false} ReplayedRows(rows: map<MemoryId, Row>, journal: seq<Event>, agent: AgentId, id: MemoryId)
    requires Replay(rows, journal, agent).Table?
    ensures var r := Replay(rows, journal, agent).rows;
            && ((forall i :: 0 <= i < |journal| && journal[i].agent == agent ==> journal[i].target != id) ==>
                  (id in r <==> id in rows) && (id in rows ==> r[id] == rows[id]))
            && (id !in rows && id in r ==> Blank(r[id]) && r[id].agent == agent)
            && (id !in rows && id in r ==> CarrierFor(journal, agent, id))
  {
    if journal != [] {
      var before, e := journal[..|journal| - 1], journal[|journal| - 1];
      ReplayedRows(rows, before, agent, id);
      var b, r := Replay(rows, before, agent).rows, Replay(rows, journal, agent).rows;
      assert forall i :: 0 <= i < |before| ==> journal[i] == before[i];
      if id !in rows && id in r && id in b {
        var i :| 0 <= i < |before| && before[i].agent == agent && before[i].target == id && CarriesKind(before[i]);
        assert journal[i] == before[i];
      }
    }
  }

  lemma {:induction false} AgentCellIsJournalCell(journal: seq<Event>, agent: AgentId, id: MemoryId)
    requires forall i :: 0 <= i < |journal| && journal[i].target == id ==> journal[i].agent == agent
    ensures AgentCell(Absent, journal, agent, id) == JournalCell(journal, id)
  {
    if journal != [] {
      var before := journal[..|journal| - 1];
      assert forall i :: 0 <= i < |before| ==> before[i] == journal[i];
      AgentCellIsJournalCell(before, agent, id);
    }
  }

  lemma {:induction false} AgentCellIdle(start: Cell, journal: seq<Event>, agent: AgentId, id: MemoryId)
    requires forall i :: 0 <= i < |journal| && journal[i].target == id ==> journal[i].agent != agent
    ensures AgentCell(start, journal, agent, id) == start
  {
    if journal != [] {
      var before := journal[..|journal| - 1];
      assert forall i :: 0 <= i < |before| ==> before[i] == journal[i];
      AgentCellIdle(start, before, agent, id);
    }
  }

  // ----- a rebuild, in whatever order the journal is read

  ghost predicate OwnsEvents(journal: seq<Event>, agent: AgentId, id: MemoryId) {
    exists i :: 0 <= i < |journal| && journal[i].agent == agent && journal[i].target == id
  }

  lemma ReadEvent(read: seq<Event>, journal: seq<Event>, i: nat) returns (j: nat)
    requires Permutes(read, journal) && i < |read|
    ensures j < |journal| && journal[j] == read[i]
  {
    assert read[i] in multiset(journal);
    j :| 0 <= j < |journal| && journal[j] == read[i];
  }

  lemma PermutesBack(read: seq<Event>, journal: seq<Event>)
    requires Permutes(read, journal)
    ensures Permutes(journal, read)
  {
  }

  /** All events of a memory are its owner's, in any order. */
  lemma ReadOwner(s: Store, agent: AgentId, read: seq<Event>, id: MemoryId, i: nat)
    requires Owned(s) && Permutes(read, s.journal) && i < |read| && read[i].target == id
    ensures read[i].agent == agent <==> OwnsEvents(s.journal, agent, id)
  {
    var j := ReadEvent(read, s.journal, i);
  }

  lemma RowOwner(s: Store, agent: AgentId, id: MemoryId)
    requires Owned(s) && id in s.rows
    ensures s.rows[id].agent == agent <==> OwnsEvents(s.journal, agent, id)
  {
    assert Backs(s.journal, id, s.rows[id]);
    var i :| 0 <= i < |s.journal| && s.journal[i].target == id && CarriesKind(s.journal[i]);
    assert s.journal[i].agent == s.rows[id].agent;
  }

  /** What a replay makes of a memory: the fold of the events read, or the row as it was if it is another agent's. */
  lemma ReplayCells(s: Store, agent: AgentId, read: seq<Event>, id: MemoryId)
    requires Owned(s) && Permutes(read, s.journal)
    ensures AgentCell(TableCell(OthersRows(s, agent), id), read, agent, id) ==
            if OwnsEvents(s.journal, agent, id) then JournalCell(read, id) else TableCell(s.rows, id)
  {
    forall i | 0 <= i < |read| && read[i].target == id
      ensures read[i].agent == agent <==> OwnsEvents(s.journal, agent, id)
    {
      ReadOwner(s, agent, read, id, i);
    }
    if id in s.rows { RowOwner(s, agent, id); }
    if OwnsEvents(s.journal, agent, id) {
      AgentCellIsJournalCell(read, agent, id);
    } else {
      AgentCellIdle(TableCell(OthersRows(s, agent), id), read, agent, id);
    }
  }

  /** One of the agent's memories has, in this order, a write that meets a live memory. */
  ghost predicate HasClash(read: seq<Event>, agent: AgentId) {
    exists i :: 0 <= i < |read| && read[i].agent == agent && JournalCell(read, read[i].target).Broken?
  }

  /** A rebuild fails exactly when, in the order read, one of the agent's memories has a clashing history. */
  lemma RebuildFailsIffClash(s: Store, agent: AgentId, read: seq<Event>)
    requires Owned(s) && Permutes(read, s.journal)
    ensures RebuildTx(s, agent, read).Err? <==> HasClash(read, agent)
  {
    var others := OthersRows(s, agent);
    ReplayIsPointwise(others, read, agent);
    if RebuildTx(s, agent, read).Err? {
      var id :| AgentCell(TableCell(others, id), read, agent, id).Broken?;
      ReplayCells(s, agent, read, id);
      var i :| 0 <= i < |s.journal| && s.journal[i].agent == agent && s.journal[i].target == id;
      PermutesBack(read, s.journal);
      var j := ReadEvent(s.journal, read, i);
      assert read[j].agent == agent && JournalCell(read, read[j].target).Broken?;
    }
    if i :| 0 <= i < |read| && read[i].agent == agent && JournalCell(read, read[i].target).Broken? {
      ReadOwner(s, agent, read, read[i].target, i);
      ReplayCells(s, agent, read, read[i].target);
      assert AgentCell(TableCell(others, read[i].target), read, agent, read[i].target).Broken?;
    }
  }

  /** The row a rebuild leaves behind: journalled columns and embedding kept, counters back to the creation time. */
  function Refreshed(row: Row): Row {
    row.(lastValidated := row.createdAt, lastAccessed := row.createdAt, accessCount := 0)
  }

  function RefreshOwn(rows: map<MemoryId, Row>, agent: AgentId): map<MemoryId, Row> {
    map id | id in rows :: if rows[id].agent == agent then Refreshed(rows[id]) else rows[id]
  }

  /** The rows a successful rebuild leaves: the folds for the agent's memories, everything else untouched. */
  lemma RebuiltCells(s: Store, agent: AgentId, read: seq<Event>, id: MemoryId)
    requires Owned(s) && Permutes(read, s.journal) && RebuildTx(s, agent, read).Ok?
    ensures var rows := RebuildTx(s, agent, read).store.rows;
            && TableCell(rows, id) ==
                 (if OwnsEvents(s.journal, agent, id) then JournalCell(read, id) else TableCell(s.rows, id))
            && (id in rows && !OwnsEvents(s.journal, agent, id) ==> rows[id] == s.rows[id])
            && (id in rows && OwnsEvents(s.journal, agent, id) ==>
                  && rows[id] == Refreshed(rows[id])
                  && rows[id].embedding == (if id in s.rows then s.rows[id].embedding else None))
  {
    var others := OthersRows(s, agent);
    var r := Replay(others, read, agent).rows;
    ReplayIsPointwise(others, read, agent);
    ReplayCells(s, agent, read, id);
    ReplayedRows(others, read, agent, id);
    assert TableCell(r, id) == AgentCell(TableCell(others, id), read, agent, id);
    if id in s.rows { RowOwner(s, agent, id); }
    if !OwnsEvents(s.journal, agent, id) {
      forall i | 0 <= i < |read| && read[i].agent == agent ensures read[i].target != id {
        var j := ReadEvent(read, s.journal, i);
      }
    }
  }

  /** A rebuild gives back exactly the table, counters aside, if and only if the events read fold to it. */
  lemma RebuildIdentityIff(s: Store, agent: AgentId, read: seq<Event>)
    requires Owned(s) && Permutes(read, s.journal)
    ensures RebuildTx(s, agent, read) == Ok(s.(rows := RefreshOwn(s.rows, agent))) <==>
              forall id :: OwnsEvents(s.journal, agent, id) ==> JournalCell(read, id) == TableCell(s.rows, id)
  {
    var same := s.(rows := RefreshOwn(s.rows, agent));
    if RebuildTx(s, agent, read) == Ok(same) {
      forall id | OwnsEvents(s.journal, agent, id) ensures JournalCell(read, id) == TableCell(s.rows, id) {
        RebuiltCells(s, agent, read, id);
        assert TableCell(same.rows, id) == TableCell(s.rows, id);
      }
    }
    if forall id :: OwnsEvents(s.journal, agent, id) ==> JournalCell(read, id) == TableCell(s.rows, id) {
      FoldsRebuild(s, agent, read);
    }
  }

  lemma FoldsRebuild(s: Store, agent: AgentId, read: seq<Event>)
    requires Owned(s) && Permutes(read, s.journal)
    requires forall id :: OwnsEvents(s.journal, agent, id) ==> JournalCell(read, id) == TableCell(s.rows, id)
    ensures RebuildTx(s, agent, read) == Ok(s.(rows := RefreshOwn(s.rows, agent)))
  {
    RebuildFailsIffClash(s, agent, read);
    forall i | 0 <= i < |read| && read[i].agent == agent ensures !JournalCell(read, read[i].target).Broken? {
      ReadOwner(s, agent, read, read[i].target, i);
    }
    var rows := RebuildTx(s, agent, read).store.rows;
    forall id ensures id in rows <==> id in s.rows
              ensures id in rows ==> rows[id] == RefreshOwn(s.rows, agent)[id]
    {
      RebuiltCells(s, agent, read, id);
      assert TableCell(rows, id) == TableCell(s.rows, id);
      if id in s.rows { RowOwner(s, agent, id); }
    }
    assert rows == RefreshOwn(s.rows, agent);
  }

  /** A live memory's agent and kind come from one of its events. */
  lemma {:induction false} LiveHasEvent(read: seq<Event>, id: MemoryId) returns (i: nat)
    requires JournalCell(read, id).Live?
    ensures i < |read| && read[i].target == id && CarriesKind(read[i])
    ensures read[i].agent == JournalCell(read, id).view.agent && read[i].payload.kind == JournalCell(read, id).view.kind
  {
    var e := read[|read| - 1];
    if e.target == id && e.payload.Write? {
      i := |read| - 1;
    } else {
      i := LiveHasEvent(read[..|read| - 1], id);
    }
  }

  lemma RebuildKeepsOwned(s: Store, agent: AgentId, read: seq<Event>)
    requires Owned(s) && Permutes(read, s.journal) && RebuildTx(s, agent, read).Ok?
    ensures Owned(RebuildTx(s, agent, read).store)
  {
    var rows := RebuildTx(s, agent, read).store.rows;
    forall id | id in rows ensures Backs(s.journal, id, rows[id]) {
      RebuiltCells(s, agent, read, id);
      if OwnsEvents(s.journal, agent, id) {
        assert JournalCell(read, id) == Live(ViewOf(rows[id]));
        var i := LiveHasEvent(read, id);
        var j := ReadEvent(read, s.journal, i);
      } else {
        assert Backs(s.journal, id, s.rows[id]);
      }
    }
  }

  // ----- an order is harmless when it keeps every memory's own events in sequence

  ghost predicate InOrderFor(read: seq<Event>, journal: seq<Event>, agent: AgentId) {
    forall id :: OwnsEvents(journal, agent, id) ==> Own(read, id) == Own(journal, id)
  }

  lemma {:induction false} AttrsOfOwn(journal: seq<Event>, agent: AgentId, id: MemoryId)
    ensures RestoreAttrs(journal, agent, id) == RestoreAttrs(Own(journal, id), agent, id)
  {
    if journal != [] {
      var before, e := journal[..|journal| - 1], journal[|journal| - 1];
      AttrsOfOwn(before, agent, id);
      if e.target == id {
        assert Own(journal, id)[..|Own(journal, id)| - 1] == Own(before, id);
      } else {
        assert Own(journal, id) == Own(before, id);
      }
    }
  }

  lemma SameOwnSameReading(read: seq<Event>, journal: seq<Event>, agent: AgentId, id: MemoryId)
    requires Own(read, id) == Own(journal, id)
    ensures RestoreAttrs(read, agent, id) == RestoreAttrs(journal, agent, id)
    ensures JournalCell(read, id) == JournalCell(journal, id)
  {
    AttrsOfOwn(read, agent, id);
    AttrsOfOwn(journal, agent, id);
    CellIsFoldOfOwn(read, id);
    CellIsFoldOfOwn(journal, id);
  }

  /** An order that keeps the agent's own sequences rebuilds to what the order of commits does. */
  lemma RebuildIgnoresInterleaving(s: Store, agent: AgentId, read: seq<Event>)
    requires Owned(s) && Permutes(read, s.journal) && InOrderFor(read, s.journal, agent)
    ensures RebuildTx(s, agent, read) == RebuildTx(s, agent, s.journal)
    ensures HasClash(read, agent) <==> HasClash(s.journal, agent)
  {
    RebuildFailsIffClash(s, agent, read);
    RebuildFailsIffClash(s, agent, s.journal);
    SameClashes(s, agent, read);
    if RebuildTx(s, agent, read).Ok? {
      var r, q := RebuildTx(s, agent, read).store.rows, RebuildTx(s, agent, s.journal).store.rows;
      forall id ensures (id in r <==> id in q) && (id in r ==> r[id] == q[id]) {
        RebuiltCells(s, agent, read, id);
        RebuiltCells(s, agent, s.journal, id);
        if OwnsEvents(s.journal, agent, id) { SameOwnSameReading(read, s.journal, agent, id); }
        assert TableCell(r, id) == TableCell(q, id);
      }
      assert r == q;
    }
  }

  lemma SameClashes(s: Store, agent: AgentId, read: seq<Event>)
    requires Owned(s) && Permutes(read, s.journal) && InOrderFor(read, s.journal, agent)
    ensures HasClash(read, agent) <==> HasClash(s.journal, agent)
  {
    if i :| 0 <= i < |read| && read[i].agent == agent && JournalCell(read, read[i].target).Broken? {
      var j := ReadEvent(read, s.journal, i);
      assert OwnsEvents(s.journal, agent, read[i].target);
      SameOwnSameReading(read, s.journal, agent, read[i].target);
      assert s.journal[j].agent == agent && JournalCell(s.journal, s.journal[j].target).Broken?;
    }
    if i :| 0 <= i < |s.journal| && s.journal[i].agent == agent && JournalCell(s.journal, s.journal[i].target).Broken? {
      PermutesBack(read, s.journal);
      var j := ReadEvent(s.journal, read, i);
      assert OwnsEvents(s.journal, agent, s.journal[i].target);
      SameOwnSameReading(read, s.journal, agent, s.journal[i].target);
      assert read[j].agent == agent && JournalCell(read, read[j].target).Broken?;
    }
  }

  /**
   A rebuild that succeeds on an orderly reading touches no other agent's rows and gives back every row of the agent
   with its journalled columns and its embedding; only the usage counters are reset.
   */
  lemma RebuildRestores(s: Store, agent: AgentId, read: seq<Event>)
    requires Base(s) && Permutes(read, s.journal) && InOrderFor(read, s.journal, agent) && RebuildTx(s, agent, read).Ok?
    ensures RebuildTx(s, agent, read) == Ok(s.(rows := RefreshOwn(s.rows, agent)))
  {
    RebuildFailsIffClash(s, agent, read);
    forall id | OwnsEvents(s.journal, agent, id) ensures JournalCell(read, id) == TableCell(s.rows, id) {
      SameOwnSameReading(read, s.journal, agent, id);
      var i :| 0 <= i < |s.journal| && s.journal[i].agent == agent && s.journal[i].target == id;
      PermutesBack(read, s.journal);
      var j := ReadEvent(s.journal, read, i);
      assert !JournalCell(read, read[j].target).Broken?;
    }
    RebuildIdentityIff(s, agent, read);
  }

  lemma ConsistentRebuilds(s: Store, agent: AgentId, read: seq<Event>)
    requires Base(s) && Consistent(s) && Permutes(read, s.journal) && InOrderFor(read, s.journal, agent)
    ensures RebuildTx(s, agent, read).Ok?
  {
    RebuildFailsIffClash(s, agent, read);
    SameClashes(s, agent, read);
    forall i | 0 <= i < |s.journal| ensures !JournalCell(s.journal, s.journal[i].target).Broken? {
      assert JournalCell(s.journal, s.journal[i].target) == TableCell(s.rows, s.journal[i].target);
    }
  }

  // ----- every step

  /** What the step reads of the journal comes in an order that is harmless to it. */
  ghost predicate OrderlyRead(s: Store, step: Step) {
    match step
    case DoRevert(agent, event, read, _) =>
      HasEvent(s, agent, event) && s.journal[event].payload.Forget? ==>
        Own(read, s.journal[event].target) == Own(s.journal, s.journal[event].target)
    case DoRebuild(agent, read) => InOrderFor(read, s.journal, agent)
    case _ => true
  }

  /** Every step keeps ownership and kinds, in whatever order it reads. */
  lemma StepKeepsOwned(s: Store, step: Step)
    requires Owned(s) && Enabled(s, step)
    ensures Owned(Apply(s, step))
  {
    match step
    case DoRevert(_, _, _, _) => RevertCommits(s, step);
    case DoRebuild(agent, read) => if RebuildTx(s, agent, read).Ok? { RebuildKeepsOwned(s, agent, read); }
    case _ => PlainStepCommits(s, step);
  }

  lemma RebuildCommits(s: Store, agent: AgentId, read: seq<Event>)
    requires Base(s) && Permutes(read, s.journal) && InOrderFor(read, s.journal, agent)
    ensures Keeps(s, Apply(s, DoRebuild(agent, read)))
  {
    if RebuildTx(s, agent, read).Ok? {
      RebuildRestores(s, agent, read);
      SameViews(s, Apply(s, DoRebuild(agent, read)));
    }
  }

  /**
   Every step that reads in a harmless order keeps the base invariant, and keeps table and journal in agreement
   exactly unless it reverts a forget event of a memory that is live.
   */
  lemma StepCommits(s: Store, step: Step)
    requires Base(s) && Enabled(s, step) && OrderlyRead(s, step)
    ensures Base(Apply(s, step))
    ensures Consistent(s) ==> (Consistent(Apply(s, step)) <==> !RevertsForgetOfLive(s, step))
  {
    match step
    case DoRevert(agent, event, read, now) =>
      if HasEvent(s, agent, event) && s.journal[event].payload.Forget? {
        SameOwnSameReading(read, s.journal, agent, s.journal[event].target);
      }
      RevertCommits(s, step);
      if RevertsForgetOfLive(s, step) { RevertForgetCommits(s, agent, event, read, now); }
    case DoRebuild(agent, read) => RebuildCommits(s, agent, read);
    case _ => PlainStepCommits(s, step);
  }
}
