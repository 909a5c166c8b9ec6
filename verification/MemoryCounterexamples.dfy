/** Concrete runs of the memory store on which a promise of its documentation fails. */
module MemoryCounterexamples {
  import opened Common
  import opened Memory
  import opened MemoryRuns
  import opened MemoryReplay
  import opened MemoryOrder
  import opened MemoryHistory

  // ----- one memory, written at 10 and forgotten later

  const WRITE := DoWrite(5, 1, Other, "x", Tentative, false, Operator, 0, 10)

  function Written(at: int): Event {
    Event(1, 5, Operator, at, Write("x", Other, Tentative, false))
  }

  function Forgotten(at: int): Event {
    Event(1, 5, Operator, at, Forget("x"))
  }

  function RowAt(at: int, embedding: Option<Embedding>): Row {
    NewRow(1, Other, "x", Tentative, false, None, at, embedding)
  }

  function One(): Store {
    Store(map[5 := RowAt(10, Some(0))], [Written(10)])
  }

  function Gone(at: int): Store {
    Store(map[], [Written(10), Forgotten(at)])
  }

  lemma FirstWrite()
    ensures Enabled(EMPTY, WRITE) && Apply(EMPTY, WRITE) == One()
  {
  }

  lemma ThenForget(at: int)
    ensures Apply(One(), DoForget(1, 5, Operator, at)) == Gone(at)
  {
  }

  lemma AttrsInTwo(first: Event, second: Event)
    requires (first.payload.Forget? && second == Written(10)) || (first == Written(10) && second.payload.Forget?)
    ensures RestoreAttrs([first, second], 1, 5) == Some(Attrs(Other, Tentative, false))
  {
    assert [first, second][..1] == [first];
  }

  lemma ThenRestore(at: int, read: seq<Event>, now: int)
    requires RestoreAttrs(read, 1, 5) == Some(Attrs(Other, Tentative, false))
    ensures Attempt(Gone(at), DoRevert(1, 1, read, now)) ==
            Ok(Store(map[5 := RowAt(now, None)], [Written(10), Forgotten(at), Written(now)]))
  {
    assert Gone(at).journal[1] == Forgotten(at);
  }

  lemma GoneRun(at: int) returns (steps: seq<Step>)
    ensures |steps| == 2 && IsRun(steps) && After(steps) == Gone(at) && CleanFor(steps, 1) && OnlyCleanReverts(steps)
  {
    FirstWrite();
    ThenForget(at);
    var one := Extend([], WRITE);
    assert one == [WRITE];
    CleanExtends([], WRITE, 1);
    steps := Extend(one, DoForget(1, 5, Operator, at));
    CleanExtends(one, DoForget(1, 5, Operator, at), 1);
  }

  // ----- a forget stamped before the write it follows

  function Turned(): seq<Event> {
    [Forgotten(9), Written(10), Written(11)]
  }

  lemma TurnedReads()
    ensures Reads([Forgotten(9), Written(10)], Gone(9).journal)
    ensures Reads(Turned(), [Written(10), Forgotten(9), Written(11)])
  {
    assert multiset([Forgotten(9), Written(10)]) == multiset([Written(10), Forgotten(9)]);
    assert multiset(Turned()) == multiset([Written(10), Forgotten(9), Written(11)]);
  }

  lemma TurnedClashes()
    ensures HasClash(Turned(), 1)
  {
    var read := Turned();
    assert read[..2] == [Forgotten(9), Written(10)] && read[..2][..1] == [Forgotten(9)] && [Forgotten(9)][..0] == [];
    assert JournalCell([Forgotten(9)], 5) == Absent;
    assert JournalCell(read[..2], 5).Live?;
    assert JournalCell(read, 5).Broken? && read[1].target == 5;
  }

  /**
   Write at reading 10 and forget at reading 9, then revert the forget. No live memory's forget was reverted, and yet
   the journal read by stamp has the forget first and two writes after it: no rebuild succeeds.
   */
  lemma LateForgetStampBreaksRebuild() returns (steps: seq<Step>, read: seq<Event>)
    ensures IsRun(steps) && CleanFor(steps, 1) && Reads(read, After(steps).journal)
    ensures RebuildTx(After(steps), 1, read) == Err(Conflict)
  {
    var gone := GoneRun(9);
    var revert := DoRevert(1, 1, [Forgotten(9), Written(10)], 11);
    TurnedReads();
    AttrsInTwo(Forgotten(9), Written(10));
    ThenRestore(9, [Forgotten(9), Written(10)], 11);
    steps := Extend(gone, revert);
    CleanExtends(gone, revert, 1);
    read := Turned();
    TurnedClashes();
    ReachableOwned(steps);
    RebuildFailsIffClash(After(steps), 1, read);
  }

  // ----- an update stamped before the write it follows

  const NOTE := DoWrite(5, 1, Other, "old", Tentative, false, Operator, 0, 10)
  const CHANGE := DoUpdate(1, 5, "new", Held, Operator, 0, 5)

  function Noted(): Event {
    Event(1, 5, Operator, 10, Write("old", Other, Tentative, false))
  }

  function Changed(): Event {
    Event(1, 5, Operator, 5, Update("old", "new", Other, Held, false))
  }

  function Before(): Store {
    Store(map[5 := NewRow(1, Other, "old", Tentative, false, None, 10, Some(0))], [Noted()])
  }

  function Now(): Store {
    Store(map[5 := NewRow(1, Other, "new", Held, false, None, 10, Some(0))], [Noted(), Changed()])
  }

  lemma NoteThenChange()
    ensures Enabled(EMPTY, NOTE) && Apply(EMPTY, NOTE) == Before() && Apply(Before(), CHANGE) == Now()
  {
  }

  lemma ChangeReadFirst()
    ensures Reads([Changed(), Noted()], Now().journal) && !HasClash([Changed(), Noted()], 1)
    ensures JournalCell([Changed(), Noted()], 5) == Live(View(1, Other, "old", Tentative, false, None, 10))
  {
    var read := [Changed(), Noted()];
    assert multiset(read) == multiset([Noted(), Changed()]);
    assert read[..1] == [Changed()] && read[..1][..0] == [];
    assert JournalCell(read[..1], 5) == Absent;
  }

  /**
   Write at reading 10 and update at reading 5, nothing ever reverted: a rebuild succeeds and takes the update back,
   because the journal read by stamp has it before the write.
   */
  lemma EarlyUpdateStampIsUndone() returns (steps: seq<Step>, read: seq<Event>)
    ensures IsRun(steps) && OnlyCleanReverts(steps) && Reads(read, After(steps).journal)
    ensures After(steps) == Now() && RebuildTx(After(steps), 1, read).Ok?
    ensures TableCell(RebuildTx(After(steps), 1, read).store.rows, 5) ==
            Live(View(1, Other, "old", Tentative, false, None, 10))
  {
    NoteThenChange();
    var one := Extend([], NOTE);
    steps := Extend(one, CHANGE);
    read := [Changed(), Noted()];
    ChangeReadFirst();
    ReachableOwned(steps);
    RebuildFailsIffClash(After(steps), 1, read);
    RebuiltCells(After(steps), 1, read, 5);
    assert Now().journal[0] == Noted();
    assert OwnsEvents(Now().journal, 1, 5);
  }

  // ----- one forget reverted twice

  function Back(): Store {
    Store(map[5 := RowAt(12, None)], [Written(10), Forgotten(11), Written(12)])
  }

  function BackTwice(): Store {
    Store(map[5 := RowAt(12, None)], [Written(10), Forgotten(11), Written(12), Written(13)])
  }

  lemma AttrsInThree()
    ensures RestoreAttrs(Back().journal, 1, 5) == Some(Attrs(Other, Tentative, false))
  {
  }

  lemma RestoreAgain()
    ensures Attempt(Back(), DoRevert(1, 1, Back().journal, 13)) == Ok(BackTwice())
    ensures RevertsForgetOfLive(Back(), DoRevert(1, 1, Back().journal, 13))
  {
    AttrsInThree();
    assert Back().journal[1] == Forgotten(11);
  }

  lemma TwiceRestored() returns (steps: seq<Step>)
    ensures |steps| == 4 && IsRun(steps) && IsRun(steps[..3])
    ensures After(steps) == BackTwice() && After(steps[..3]) == Back()
    ensures steps[3] == DoRevert(1, 1, Back().journal, 13) && !OnlyCleanReverts(steps)
  {
    var gone := GoneRun(11);
    AttrsInTwo(Written(10), Forgotten(11));
    ThenRestore(11, Gone(11).journal, 12);
    var back := Extend(gone, DoRevert(1, 1, Gone(11).journal, 12));
    RestoreAgain();
    steps := Extend(back, DoRevert(1, 1, Back().journal, 13));
    assert steps[..3] == back;
  }

  /** Write, forget, restore, and restore the same forget again, stamps increasing: no rebuild succeeds any more. */
  lemma SecondRestoreBreaksReplay() returns (steps: seq<Step>)
    ensures IsRun(steps) && Stamped(After(steps).journal) && !OnlyCleanReverts(steps)
    ensures forall read :: Reads(read, After(steps).journal) ==> RebuildTx(After(steps), 1, read) == Err(Conflict)
  {
    steps := TwiceRestored();
    RestoreAgain();
    StampedRunsReadInOrder(steps);
    forall read | Reads(read, After(steps).journal) ensures RebuildTx(After(steps), 1, read) == Err(Conflict) {
      RebuildBrokenForever(steps, 3, read);
    }
  }
}
