/**
 The validation log beside the memory store.

 A validation appends a row that refers to its memory, and the reference cascades: whatever deletes a memory row
 deletes its validations. A rebuild deletes and re-inserts every row of an agent, so it empties the agent's log.
 */
module ValidationLog {
  import opened Common
  import opened Memory
  import opened MemoryRuns
  import opened MemoryReplay
  import opened MemoryHistory

  datatype Validation = Validation(agent: AgentId, memory: MemoryId, at: int)

  /** A validation is named by the position in the run of the step that recorded it. */
  type Log = map<nat, Validation>

  /** The memory rows the statements of a committed step delete, those it inserts again included. */
  function Deletes(s: Store, step: Step): set<MemoryId> {
    if Attempt(s, step).Err? then {}
    else
      match step
      case DoForget(_, target, _, _) => {target}
      case DoRevert(_, event, _, _) =>
        if event < |s.journal| && s.journal[event].payload.Write? then {s.journal[event].target} else {}
      case DoEvict(_, _, order, _) => Elements(order)
      case DoRebuild(agent, _) => OwnRows(s, agent)
      case _ => {}
  }

  function Kept(log: Log, gone: set<MemoryId>): Log {
    map v | v in log && log[v].memory !in gone :: log[v]
  }

  function LogStep(s: Store, log: Log, step: Step, id: nat): Log {
    var kept := Kept(log, Deletes(s, step));
    if step.DoValidate? && Attempt(s, step).Ok? then kept[id := Validation(step.agent, step.target, step.now)] else kept
  }

  ghost function LogAfter(steps: seq<Step>): Log
    requires IsRun(steps)
  {
    if steps == [] then map[]
    else LogStep(After(steps[..|steps| - 1]), LogAfter(steps[..|steps| - 1]), steps[|steps| - 1], |steps| - 1)
  }

  /** A successful rebuild of the memory's agent. */
  predicate Rebuilds(s: Store, step: Step, id: MemoryId)
    requires id in s.rows
  {
    step.DoRebuild? && step.agent == s.rows[id].agent && RebuildTx(s, step.agent, step.read).Ok?
  }

  /** A step deletes the row of a memory if and only if the memory is gone after it or its agent was rebuilt. */
  lemma DeletesAre(s: Store, step: Step, id: MemoryId)
    requires Owned(s) && Enabled(s, step) && id in s.rows
    ensures id in Deletes(s, step) <==> id !in Apply(s, step).rows || Rebuilds(s, step, id)
  {
    match step
    case DoEvict(_, _, order, now) => RemoveAllRows(s, order, now);
    case DoDecay(_, _, order, now) => HoldAllKeepsRows(s, order, now);
    case DoMature(_, _, _, order, now) => HoldAllKeepsRows(s, order, now);
    case DoRebuild(agent, read) =>
      if RebuildTx(s, agent, read).Ok? {
        RebuiltCells(s, agent, read, id);
        RowOwner(s, agent, id);
        assert TableCell(s.rows, id).Live?;
      }
    case _ =>
  }

  lemma OwnerStays(s: Store, step: Step, id: MemoryId)
    requires Owned(s) && Enabled(s, step) && id in s.rows && id in Apply(s, step).rows
    ensures Apply(s, step).rows[id].agent == s.rows[id].agent
  {
    StepKeepsOwned(s, step);
    JournalGrows(s, step);
    assert Backs(s.journal, id, s.rows[id]);
    var i :| 0 <= i < |s.journal| && s.journal[i].target == id && CarriesKind(s.journal[i]);
    assert Backs(Apply(s, step).journal, id, Apply(s, step).rows[id]);
    assert Apply(s, step).journal[i] == s.journal[i];
  }

  /** Every logged validation is of a live memory and of its owner; its position names a past step. */
  lemma {:induction false} ReachableLog(steps: seq<Step>, v: nat)
    requires IsRun(steps) && v in LogAfter(steps)
    ensures v < |steps|
    ensures LogAfter(steps)[v].memory in After(steps).rows
    ensures After(steps).rows[LogAfter(steps)[v].memory].agent == LogAfter(steps)[v].agent
  {
    var before, last := steps[..|steps| - 1], steps[|steps| - 1];
    var s := After(before);
    ReachableOwned(before);
    if v in LogAfter(before) { ReachableLog(before, v); }
    if v == |before| && last.DoValidate? && Attempt(s, last).Ok? {
    } else {
      DeletesAre(s, last, LogAfter(before)[v].memory);
      OwnerStays(s, last, LogAfter(before)[v].memory);
    }
  }

  /** A step logs a validation, with its agent, memory and reading, exactly when it is one that is not refused. */
  lemma {:induction false} LogGains(steps: seq<Step>)
    requires IsRun(steps) && steps != []
    ensures var log, log', last := LogAfter(steps[..|steps| - 1]), LogAfter(steps), steps[|steps| - 1];
            && (forall v :: v in log' && v != |steps| - 1 ==> v in log && log'[v] == log[v])
            && (|steps| - 1 in log' <==>
                  last.DoValidate? && Attempt(After(steps[..|steps| - 1]), last).Ok?)
            && (|steps| - 1 in log' ==> log'[|steps| - 1] == Validation(last.agent, last.target, last.now))
  {
    var before := steps[..|steps| - 1];
    if |before| in LogAfter(before) { ReachableLog(before, |before|); }
  }

  /** From position `k` on, memory `id` is live at every point and no rebuild of agent `owner` succeeds. */
  ghost predicate LeftAlone(steps: seq<Step>, k: nat, id: MemoryId, owner: AgentId)
    requires IsRun(steps) && k <= |steps|
  {
    id in After(steps).rows &&
    (k == |steps| ||
     (&& LeftAlone(steps[..|steps| - 1], k, id, owner)
      && !(&& steps[|steps| - 1].DoRebuild? && steps[|steps| - 1].agent == owner
           && Attempt(After(steps[..|steps| - 1]), steps[|steps| - 1]).Ok?)))
  }

  /**
   A validation stays in the log, unchanged, if and only if its memory stays live and no rebuild of its agent succeeds:
   a memory that is restored after a forget has lost its validations, and so has one that a rebuild gives back.
   */
  lemma {:induction false} SurvivesIff(steps: seq<Step>, k: nat, v: nat)
    requires IsRun(steps) && k <= |steps| && IsRun(steps[..k]) && v in LogAfter(steps[..k])
    ensures var was := LogAfter(steps[..k])[v];
            && (v in LogAfter(steps) <==> LeftAlone(steps, k, was.memory, was.agent))
            && (v in LogAfter(steps) ==> LogAfter(steps)[v] == was)
  {
    var was := LogAfter(steps[..k])[v];
    ReachableLog(steps[..k], v);
    if k == |steps| {
      assert steps[..k] == steps;
    } else {
      var before, last := steps[..|steps| - 1], steps[|steps| - 1];
      assert before[..k] == steps[..k];
      SurvivesIff(before, k, v);
      if v in LogAfter(before) {
        ReachableLog(before, v);
        ReachableOwned(before);
        DeletesAre(After(before), last, was.memory);
      }
    }
  }

  /** A rebuild that succeeds empties the agent's log and no other's. */
  lemma {:induction false} RebuildEmptiesLog(steps: seq<Step>, agent: AgentId, read: seq<Event>, v: nat)
    requires IsRun(steps) && steps != [] && steps[|steps| - 1] == DoRebuild(agent, read)
    requires RebuildTx(After(steps[..|steps| - 1]), agent, read).Ok?
    requires v in LogAfter(steps[..|steps| - 1])
    ensures v in LogAfter(steps) <==> LogAfter(steps[..|steps| - 1])[v].agent != agent
  {
    ReachableLog(steps[..|steps| - 1], v);
  }

  const NOTE := DoWrite(5, 1, Other, "x", Tentative, false, Operator, 0, 10)
  const ENDORSE := DoValidate(1, 5, Operator, 11)

  function Noted(): Store {
    Store(map[5 := Row(1, Other, "x", Tentative, false, None, 10, 10, 10, 0, Some(0))],
          [Event(1, 5, Operator, 10, Write("x", Other, Tentative, false))])
  }

  lemma NoteAndEndorse()
    ensures Enabled(EMPTY, NOTE) && Apply(EMPTY, NOTE) == Noted()
    ensures Attempt(Noted(), ENDORSE).Ok? && LogStep(Noted(), map[], ENDORSE, 1) == map[1 := Validation(1, 5, 11)]
    ensures 5 in Apply(Noted(), ENDORSE).rows && Apply(Noted(), ENDORSE).rows[5].state == Held
    ensures var j := Apply(Noted(), ENDORSE).journal; |j| == 2 && j[0].at <= j[1].at
  {
  }

  lemma EndorsedRun() returns (steps: seq<Step>)
    ensures |steps| == 2 && IsRun(steps) && OnlyCleanReverts(steps)
    ensures LogAfter(steps) == map[1 := Validation(1, 5, 11)]
    ensures 5 in After(steps).rows && After(steps).rows[5].state == Held
    ensures Reads(After(steps).journal, After(steps).journal) && OrderlyReads(steps)
  {
    NoteAndEndorse();
    var one := Extend([], NOTE);
    assert one[..0] == [] && LogAfter([]) == map[];
    assert LogAfter(one) == LogStep(EMPTY, map[], NOTE, 0) == map[];
    steps := Extend(one, ENDORSE);
    assert steps[..1] == one;
    assert OrderlyReads([]) && OrderlyReads(one);
  }

  /** Write, validate, rebuild: the memory is still there and still promoted, the record of why is gone. */
  lemma RebuildLosesValidation() returns (steps: seq<Step>)
    ensures IsRun(steps) && |steps| == 3 && OnlyCleanReverts(steps)
    ensures 1 in LogAfter(steps[..2]) && 1 !in LogAfter(steps)
    ensures 5 in After(steps).rows && After(steps).rows[5].state == Held
  {
    var two := EndorsedRun();
    var read := After(two).journal;
    assert InOrderFor(read, After(two).journal, 1);
    RebuildIsIdentity(two, 1, read);
    steps := Extend(two, DoRebuild(1, read));
    assert steps[..2] == two;
    RebuildEmptiesLog(steps, 1, read, 1);
  }
}
