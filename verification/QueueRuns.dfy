/** Runs of the queue from the empty tables, and the facts every reachable state satisfies. */
module QueueRuns {
  import opened Common
  import opened Queue

  // ----- runs

  ghost predicate IsRun(c: Config, steps: seq<Step>)
    decreases |steps|, 0
  {
    steps == [] ||
    (IsRun(c, steps[..|steps| - 1]) && Enabled(After(c, steps[..|steps| - 1]), steps[|steps| - 1]))
  }

  /** The tables after a run. */
  ghost function After(c: Config, steps: seq<Step>): State
    requires IsRun(c, steps)
    decreases |steps|, 1
  {
    if steps == [] then EMPTY
    else Apply(c, After(c, steps[..|steps| - 1]), steps[|steps| - 1])
  }

  lemma PrefixIsRun(c: Config, steps: seq<Step>, k: nat)
    requires IsRun(c, steps) && k <= |steps|
    ensures IsRun(c, steps[..k])
  {
    if k < |steps| {
      PrefixIsRun(c, steps[..|steps| - 1], k);
      assert steps[..|steps| - 1][..k] == steps[..k];
    } else {
      assert steps[..k] == steps;
    }
  }

  // ----- the inductive invariant

  predicate LeaseOk(s: State, session: SessionId)
    requires session in s.leases
  {
    LastTurn(s, session) >= 1 && s.leases[session].turnSeq == LastTurn(s, session)
  }

  predicate RequestOk(c: Config, s: State, r: Request) {
    && r.session in s.sessions
    && r.attempts <= c.maxAttempts
    && r.turnSeq <= LastTurn(s, r.session)
    && (r.status == Pending ==> r.attempts < c.maxAttempts)
    && (r.status == Pending && r.session in s.leases ==> r.turnSeq < s.leases[r.session].turnSeq)
    && (r.status == Processing ==> r.attempts >= 1 && r.turnSeq >= 1)
    && (r.status == Failed <==> r.reason.Some?)
  }

  ghost predicate UniqueKeys(s: State) {
    forall i, j :: i in s.requests && j in s.requests && SameKey(s.requests[i], s.requests[j]) ==> i == j
  }

  predicate SameKey(r: Request, other: Request) {
    HasKey(r, other.org, other.key)
  }

  ghost predicate Inv(c: Config, s: State) {
    && (forall session :: session in s.leases ==> LeaseOk(s, session))
    && (forall id :: id in s.requests ==> RequestOk(c, s, s.requests[id]))
    && UniqueKeys(s)
  }

  /** The columns no transaction ever writes again after the insert. */
  predicate SameIdentity(r: Request, r': Request) {
    && r'.session == r.session && r'.receiver == r.receiver && r'.kind == r.kind
    && r'.org == r.org && r'.key == r.key && r'.createdAt == r.createdAt
  }

  /** Rows are never deleted and keep their identity columns. */
  lemma RowsKeepIdentity(c: Config, s: State, step: Step)
    requires Enabled(s, step)
    ensures forall id :: id in s.requests ==>
              id in Apply(c, s, step).requests && SameIdentity(s.requests[id], Apply(c, s, step).requests[id])
    ensures !step.Enqueue? ==> Apply(c, s, step).requests.Keys == s.requests.Keys
  {
  }

  lemma KeysStayUnique(c: Config, s: State, step: Step)
    requires UniqueKeys(s) && Enabled(s, step)
    ensures UniqueKeys(Apply(c, s, step))
  {
    var s' := Apply(c, s, step);
    RowsKeepIdentity(c, s, step);
    if step.Enqueue? && AdmissionOf(c, s, step.req, step.minted) == Admit {
      assert forall id :: id in s.requests ==> !HasKey(s.requests[id], step.req.org, step.req.key);
    }
    forall i, j | i in s'.requests && j in s'.requests && SameKey(s'.requests[i], s'.requests[j])
      ensures i == j
    {
      if i in s.requests && j in s.requests {
        assert SameKey(s.requests[i], s.requests[j]);
      }
    }
  }

  lemma EnqueueKeepsRequest(c: Config, s: State, step: Step, id: RequestId)
    requires c.maxAttempts >= 1 && Inv(c, s) && Enabled(s, step) && step.Enqueue?
    requires id in Apply(c, s, step).requests
    ensures RequestOk(c, Apply(c, s, step), Apply(c, s, step).requests[id])
  {
    if id in s.requests {
      assert RequestOk(c, s, s.requests[id]);
    } else {
      var target := TargetSession(step.req, step.minted);
      assert target in s.leases ==> LeaseOk(s, target);
    }
  }

  lemma TakeKeepsRequest(c: Config, s: State, session: SessionId, worker: WorkerId, now: int, id: RequestId)
    requires Inv(c, s) && id in s.requests && session in s.sessions && !LiveLease(s, session, now)
    ensures id in TakeTx(c, s, session, worker, now).requests
    ensures RequestOk(c, TakeTx(c, s, session, worker, now), TakeTx(c, s, session, worker, now).requests[id])
  {
    assert RequestOk(c, s, s.requests[id]);
  }

  lemma ResetKeepsRequest(c: Config, s: State, now: int, id: RequestId)
    requires Inv(c, s) && id in s.requests
    ensures RequestOk(c, ResetTx(c, s, now), ResetTx(c, s, now).requests[id])
  {
    assert RequestOk(c, s, s.requests[id]);
  }

  lemma FinaliseKeepsRequest(c: Config, s: State, t: LeaseToken, ids: set<RequestId>, outcome: Finalisation,
                             id: RequestId)
    requires Inv(c, s) && id in s.requests
    ensures RequestOk(c, FinaliseTx(s, t, ids, outcome), FinaliseTx(s, t, ids, outcome).requests[id])
  {
    assert RequestOk(c, s, s.requests[id]);
  }

  /** Heartbeat, release and cancel leave status, attempts and turn of every row alone. */
  lemma LeaseStepKeepsRequest(c: Config, s: State, step: Step, id: RequestId)
    requires Inv(c, s) && Enabled(s, step) && (step.Heartbeat? || step.Release? || step.Cancel?) && id in s.requests
    ensures RequestOk(c, Apply(c, s, step), Apply(c, s, step).requests[id])
  {
    assert RequestOk(c, s, s.requests[id]);
  }

  lemma RequestsStayOk(c: Config, s: State, step: Step, id: RequestId)
    requires c.maxAttempts >= 1 && Inv(c, s) && Enabled(s, step) && id in Apply(c, s, step).requests
    ensures RequestOk(c, Apply(c, s, step), Apply(c, s, step).requests[id])
  {
    match step
    case Enqueue(_, _, _, _) => EnqueueKeepsRequest(c, s, step, id);
    case Reset(now) => ResetKeepsRequest(c, s, now, id);
    case Take(worker, candidate, now) => TakeKeepsRequest(c, s, s.requests[candidate].session, worker, now, id);
    case Finalise(t, ids, outcome) => FinaliseKeepsRequest(c, s, t, ids, outcome, id);
    case _ => LeaseStepKeepsRequest(c, s, step, id);
  }

  /** Every transaction keeps the invariant, whatever clock reading or token it is given. */
  lemma {:induction false} InvStep(c: Config, s: State, step: Step)
    requires c.maxAttempts >= 1 && Inv(c, s) && Enabled(s, step)
    ensures Inv(c, Apply(c, s, step))
  {
    KeysStayUnique(c, s, step);
    forall id | id in Apply(c, s, step).requests
      ensures RequestOk(c, Apply(c, s, step), Apply(c, s, step).requests[id])
    {
      RequestsStayOk(c, s, step, id);
    }
  }

  /**
   Every reachable state: a pending row still has an attempt left, no row was attempted more often
   than the cap, a failure reason is present exactly on failed rows, idempotency keys are unique,
   and the live turn number of a leased session is the last one handed out.
   */
  lemma {:induction false} ReachableInv(c: Config, steps: seq<Step>)
    requires c.maxAttempts >= 1 && IsRun(c, steps)
    ensures Inv(c, After(c, steps))
  {
    if steps != [] {
      ReachableInv(c, steps[..|steps| - 1]);
      InvStep(c, After(c, steps[..|steps| - 1]), steps[|steps| - 1]);
    }
  }

  /** A claim never loses the lease race inside its transaction and never drains an empty batch. */
  lemma ClaimTakesAndDrains(c: Config, s: State, step: Step)
    requires step.Take? && Enabled(s, step)
    ensures Holds(Apply(c, s, step), Minted(s, step))
    ensures step.id in PendingIn(s, s.requests[step.id].session)
    ensures forall id :: id in PendingIn(s, s.requests[step.id].session) ==>
              Apply(c, s, step).requests[id] ==
                s.requests[id].(status := Processing, turnSeq := Minted(s, step).turnSeq,
                                attempts := s.requests[id].attempts + 1)
  {
  }

  // ----- fencing

  /** Tokens handed out during a run. */
  ghost function Tokens(c: Config, steps: seq<Step>): set<LeaseToken>
    requires IsRun(c, steps)
  {
    if steps == [] then {}
    else
      var before := After(c, steps[..|steps| - 1]);
      var last := steps[|steps| - 1];
      Tokens(c, steps[..|steps| - 1]) + (if last.Take? then {Minted(before, last)} else {})
  }

  lemma TurnsGrow(c: Config, s: State, step: Step, session: SessionId)
    requires Enabled(s, step)
    ensures LastTurn(s, session) <= LastTurn(Apply(c, s, step), session)
  {
  }

  lemma {:induction false} TokensAreOld(c: Config, steps: seq<Step>, t: LeaseToken)
    requires IsRun(c, steps) && t in Tokens(c, steps)
    ensures 1 <= t.turnSeq <= LastTurn(After(c, steps), t.session)
  {
    var before := steps[..|steps| - 1];
    var last := steps[|steps| - 1];
    if t in Tokens(c, before) {
      TokensAreOld(c, before, t);
      TurnsGrow(c, After(c, before), last, t.session);
    }
  }

  lemma FencedStep(c: Config, s: State, step: Step, t: LeaseToken)
    requires Enabled(s, step) && t.turnSeq <= LastTurn(s, t.session) && !Holds(s, t)
    ensures !Holds(Apply(c, s, step), t)
  {
  }

  /**
   Fencing over whole runs. A token whose lease was released, reset or overwritten at some point `k`
   never matches again: for the rest of the run its heartbeat, release and finalise change nothing.
   */
  lemma {:induction false} FencedForever(c: Config, steps: seq<Step>, k: nat, t: LeaseToken)
    requires IsRun(c, steps) && k <= |steps| && IsRun(c, steps[..k])
    requires t in Tokens(c, steps[..k]) && !Holds(After(c, steps[..k]), t)
    ensures t.turnSeq <= LastTurn(After(c, steps), t.session)
    ensures !Holds(After(c, steps), t)
    ensures forall now :: HeartbeatTx(c, After(c, steps), t, now) == After(c, steps)
    ensures ReleaseTx(After(c, steps), t) == After(c, steps)
    ensures forall ids, outcome :: FinaliseTx(After(c, steps), t, ids, outcome) == After(c, steps)
  {
    if k == |steps| {
      assert steps[..k] == steps;
      TokensAreOld(c, steps, t);
    } else {
      var before := steps[..|steps| - 1];
      assert before[..k] == steps[..k];
      FencedForever(c, before, k, t);
      FencedStep(c, After(c, before), steps[|steps| - 1], t);
      TurnsGrow(c, After(c, before), steps[|steps| - 1], t.session);
    }
  }

  // ----- who drained a row last, and how often

  ghost function LastDrain(c: Config, steps: seq<Step>, id: RequestId): Option<LeaseToken>
    requires IsRun(c, steps)
  {
    if steps == [] then None
    else
      var before := After(c, steps[..|steps| - 1]);
      var last := steps[|steps| - 1];
      if DrainsRequest(before, last, id) then Some(Minted(before, last))
      else LastDrain(c, steps[..|steps| - 1], id)
  }

  ghost function DrainCount(c: Config, steps: seq<Step>, id: RequestId): nat
    requires IsRun(c, steps)
  {
    if steps == [] then 0
    else
      DrainCount(c, steps[..|steps| - 1], id) +
      if DrainsRequest(After(c, steps[..|steps| - 1]), steps[|steps| - 1], id) then 1 else 0
  }

  /** The history a row's turn number and attempt counter stand for. */
  ghost predicate HistoryOk(c: Config, steps: seq<Step>, id: RequestId)
    requires IsRun(c, steps) && id in After(c, steps).requests
  {
    var s := After(c, steps);
    var r := s.requests[id];
    && DrainCount(c, steps, id) == r.attempts
    && (r.turnSeq >= 1 ==>
          && LastDrain(c, steps, id).Some?
          && var t := LastDrain(c, steps, id).value;
             && t.session == r.session && t.turnSeq == r.turnSeq
             && (r.session in s.leases && s.leases[r.session].turnSeq == r.turnSeq ==>
                   s.leases[r.session].worker == t.worker))
  }

  lemma {:induction false} NeverDrained(c: Config, steps: seq<Step>, id: RequestId)
    requires IsRun(c, steps) && id !in After(c, steps).requests
    ensures DrainCount(c, steps, id) == 0
  {
    if steps != [] { NeverDrained(c, steps[..|steps| - 1], id); }
  }

  /** What one step does to a row that was not drained by it. */
  lemma UndrainedRow(c: Config, s: State, step: Step, id: RequestId)
    requires c.maxAttempts >= 1 && Inv(c, s) && Enabled(s, step)
    requires id in s.requests && !DrainsRequest(s, step, id)
    ensures var r, r' := s.requests[id], Apply(c, s, step).requests[id];
            r'.attempts == r.attempts && r'.turnSeq == r.turnSeq && r'.session == r.session
    ensures var session, s' := s.requests[id].session, Apply(c, s, step);
            session in s'.leases && s'.leases[session].turnSeq == s.requests[id].turnSeq ==>
              session in s.leases && s.leases[session].turnSeq == s.requests[id].turnSeq
              && s.leases[session].worker == s'.leases[session].worker
  {
    assert RequestOk(c, s, s.requests[id]);
  }

  lemma {:induction false} ReachableHistory(c: Config, steps: seq<Step>, id: RequestId)
    requires c.maxAttempts >= 1 && IsRun(c, steps) && id in After(c, steps).requests
    ensures HistoryOk(c, steps, id)
  {
    var before, last := steps[..|steps| - 1], steps[|steps| - 1];
    var s := After(c, before);
    ReachableInv(c, before);
    if id !in s.requests {
      NeverDrained(c, before, id);
    } else {
      ReachableHistory(c, before, id);
      if DrainsRequest(s, last, id) {
        ClaimTakesAndDrains(c, s, last);
      } else {
        UndrainedRow(c, s, last, id);
      }
    }
  }

  /**
   A finalise that passes its fence writes only rows whose most recent drain was that very claim,
   and none of them is pending.
   */
  lemma FinaliseTouchesOwnClaimOnly(c: Config, steps: seq<Step>, t: LeaseToken, ids: set<RequestId>, id: RequestId)
    requires c.maxAttempts >= 1 && IsRun(c, steps)
    requires Holds(After(c, steps), t)
    requires id in After(c, steps).requests && Receipted(After(c, steps).requests[id], id, t, ids)
    ensures LastDrain(c, steps, id) == Some(t)
    ensures After(c, steps).requests[id].status != Pending
  {
    ReachableInv(c, steps);
    ReachableHistory(c, steps, id);
    assert LeaseOk(After(c, steps), t.session);
    assert RequestOk(c, After(c, steps), After(c, steps).requests[id]);
  }

  /** No request is handed to a worker more than `maxAttempts` times. */
  lemma BoundedAttempts(c: Config, steps: seq<Step>, id: RequestId)
    requires c.maxAttempts >= 1 && IsRun(c, steps)
    ensures DrainCount(c, steps, id) <= c.maxAttempts
  {
    if id in After(c, steps).requests {
      ReachableInv(c, steps);
      ReachableHistory(c, steps, id);
      assert RequestOk(c, After(c, steps), After(c, steps).requests[id]);
    } else {
      NeverDrained(c, steps, id);
    }
  }

  // ----- cancellation

  lemma CancelledLooksSame(s: State, id: RequestId, other: RequestId, now: int)
    ensures Eligible(CancelTx(s, id), other, now) <==> Eligible(s, other, now)
  {
    var t := CancelTx(s, id);
    forall agent ensures AgentBusy(t, agent, now) <==> AgentBusy(s, agent, now) {
      if i :| i in s.requests && s.requests[i].receiver == agent && s.requests[i].status == Processing
              && s.requests[i].kind != Normal && LiveLease(s, s.requests[i].session, now) {
        assert i in t.requests && t.requests[i].session == s.requests[i].session;
      }
      if i :| i in t.requests && t.requests[i].receiver == agent && t.requests[i].status == Processing
              && t.requests[i].kind != Normal && LiveLease(t, t.requests[i].session, now) {
        assert i in s.requests && t.requests[i].session == s.requests[i].session;
      }
    }
  }

  lemma CancelledStillEnabled(s: State, step: Step, id: RequestId)
    requires Enabled(s, step)
    ensures Enabled(CancelTx(s, id), step)
  {
    if step.Take? {
      forall other ensures Eligible(CancelTx(s, id), other, step.now) <==> Eligible(s, other, step.now) {
        CancelledLooksSame(s, id, other, step.now);
      }
    }
  }

  lemma CancelCommutesEnqueue(c: Config, s: State, step: Step, id: RequestId)
    requires step.Enqueue? && Enabled(s, step) && id in s.requests
    ensures EnqueueTx(c, CancelTx(s, id), step.req, step.id, step.minted, step.now) ==
            CancelTx(EnqueueTx(c, s, step.req, step.id, step.minted, step.now), id)
  {
    var t, session := CancelTx(s, id), TargetSession(step.req, step.minted);
    assert PendingIn(t, session) == PendingIn(s, session);
    if i :| i in s.requests && HasKey(s.requests[i], step.req.org, step.req.key) {
      assert HasKey(t.requests[i], step.req.org, step.req.key);
    }
    if i :| i in t.requests && HasKey(t.requests[i], step.req.org, step.req.key) {
      assert HasKey(s.requests[i], step.req.org, step.req.key);
    }
    assert KeyTaken(t, step.req.org, step.req.key) <==> KeyTaken(s, step.req.org, step.req.key);
  }

  lemma CancelCommutesReset(c: Config, s: State, now: int, id: RequestId)
    requires id in s.requests
    ensures ResetTx(c, CancelTx(s, id), now) == CancelTx(ResetTx(c, s, now), id)
  {
    assert Expired(CancelTx(s, id), now) == Expired(s, now);
  }

  /** The rows of the session's drain. */
  function DrainedRows(requests: map<RequestId, Request>, session: SessionId, turn: nat): map<RequestId, Request> {
    map id | id in requests :: Drained(requests[id], session, turn)
  }

  lemma DrainCommutes(requests: map<RequestId, Request>, session: SessionId, turn: nat, id: RequestId)
    requires id in requests
    ensures var drained := DrainedRows(requests, session, turn);
            DrainedRows(requests[id := requests[id].(cancelRequested := true)], session, turn) ==
            drained[id := drained[id].(cancelRequested := true)]
  {
  }

  lemma CancelCommutesTake(c: Config, s: State, session: SessionId, worker: WorkerId, now: int, id: RequestId)
    requires id in s.requests
    ensures TakeTx(c, CancelTx(s, id), session, worker, now) == CancelTx(TakeTx(c, s, session, worker, now), id)
  {
    if !LiveLease(s, session, now) {
      var turn := LastTurn(s, session) + 1;
      DrainCommutes(s.requests, session, turn, id);
      assert TakeTx(c, s, session, worker, now).requests == DrainedRows(s.requests, session, turn);
      assert TakeTx(c, CancelTx(s, id), session, worker, now).requests ==
             DrainedRows(CancelTx(s, id).requests, session, turn);
    }
  }

  lemma CancelCommutesFinalise(s: State, t: LeaseToken, ids: set<RequestId>, outcome: Finalisation, id: RequestId)
    requires id in s.requests
    ensures FinaliseTx(CancelTx(s, id), t, ids, outcome) == CancelTx(FinaliseTx(s, t, ids, outcome), id)
  {
  }

  /** The queue never acts on the flag: cancelling before or after any transaction comes to the same. */
  lemma CancelCommutes(c: Config, s: State, step: Step, id: RequestId)
    requires Enabled(s, step) && id in s.requests
    ensures Enabled(CancelTx(s, id), step)
    ensures Apply(c, CancelTx(s, id), step) == CancelTx(Apply(c, s, step), id)
  {
    CancelledStillEnabled(s, step, id);
    match step
    case Enqueue(_, _, _, _) => CancelCommutesEnqueue(c, s, step, id);
    case Reset(now) => CancelCommutesReset(c, s, now, id);
    case Take(worker, other, now) => CancelCommutesTake(c, s, s.requests[other].session, worker, now, id);
    case Finalise(t, ids, outcome) => CancelCommutesFinalise(s, t, ids, outcome, id);
    case _ =>
  }

  lemma FlagStays(c: Config, s: State, step: Step, id: RequestId)
    requires Enabled(s, step) && id in s.requests && s.requests[id].cancelRequested
    ensures id in Apply(c, s, step).requests && Apply(c, s, step).requests[id].cancelRequested
  {
  }

  /** And a request once cancelled stays so through every run. */
  lemma {:induction false} CancellationSticks(c: Config, steps: seq<Step>, k: nat, id: RequestId)
    requires IsRun(c, steps) && k <= |steps| && IsRun(c, steps[..k])
    requires id in After(c, steps[..k]).requests && After(c, steps[..k]).requests[id].cancelRequested
    ensures id in After(c, steps).requests && After(c, steps).requests[id].cancelRequested
  {
    if k == |steps| {
      assert steps[..k] == steps;
    } else {
      var before := steps[..|steps| - 1];
      assert before[..k] == steps[..k];
      CancellationSticks(c, before, k, id);
      FlagStays(c, After(c, before), steps[|steps| - 1], id);
    }
  }

  // ----- the number of claims in a run

  ghost function Claims(steps: seq<Step>): nat {
    if steps == [] then 0
    else Claims(steps[..|steps| - 1]) + if steps[|steps| - 1].Take? then 1 else 0
  }

  function Attempts(s: State): map<RequestId, nat> {
    map id | id in s.requests :: s.requests[id].attempts
  }

  lemma AttemptsGrow(c: Config, s: State, step: Step, id: RequestId)
    requires Enabled(s, step) && id in s.requests
    ensures id in Apply(c, s, step).requests
    ensures s.requests[id].attempts <= Apply(c, s, step).requests[id].attempts
    ensures step.Take? && id == step.id ==> s.requests[id].attempts < Apply(c, s, step).requests[id].attempts
  {
  }

  lemma StepCost(c: Config, s: State, step: Step)
    requires Enabled(s, step)
    ensures Sum(Attempts(s)) + (if step.Take? then 1 else 0) <= Sum(Attempts(Apply(c, s, step)))
  {
    var a, a' := Attempts(s), Attempts(Apply(c, s, step));
    forall id | id in a ensures id in a' && a[id] <= a'[id] { AttemptsGrow(c, s, step, id); }
    if step.Take? {
      AttemptsGrow(c, s, step, step.id);
      SumStrict(a, a', step.id);
    } else {
      SumMonotone(a, a');
    }
  }

  lemma {:induction false} ClaimsCostAttempts(c: Config, steps: seq<Step>)
    requires IsRun(c, steps)
    ensures Claims(steps) <= Sum(Attempts(After(c, steps)))
  {
    if steps != [] {
      var before, last := steps[..|steps| - 1], steps[|steps| - 1];
      ClaimsCostAttempts(c, before);
      StepCost(c, After(c, before), last);
    }
  }

  /** A run that enqueued N requests makes at most N * maxAttempts claims: crashes cannot loop forever. */
  lemma {:induction false} ClaimsBounded(c: Config, steps: seq<Step>)
    requires c.maxAttempts >= 1 && IsRun(c, steps)
    ensures Claims(steps) <= |After(c, steps).requests| * c.maxAttempts
  {
    var s := After(c, steps);
    ReachableInv(c, steps);
    forall id | id in Attempts(s) ensures Attempts(s)[id] <= c.maxAttempts {
      assert RequestOk(c, s, s.requests[id]);
    }
    ClaimsCostAttempts(c, steps);
    SumBounded(Attempts(s), c.maxAttempts);
    assert Attempts(s).Keys == s.requests.Keys;
  }
}
