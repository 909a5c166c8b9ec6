/**
 What each queue transaction does, column by column, and what follows for runs: a claim goes to the oldest free work,
 a worker that heartbeats in time keeps its rows, and the outcome it finalises stays.
 */
module QueueEffects {
  import opened Common
  import opened Queue
  import opened QueueRuns

  // ----- enqueue

  predicate TalksToItself(req: NewRequest) {
    req.kind == Normal && req.sender == Agent(req.receiver)
  }

  ghost predicate Repeats(s: State, req: NewRequest) {
    exists id :: id in s.requests && s.requests[id].org == req.org && s.requests[id].key == req.key
  }

  function WaitingIn(s: State, session: SessionId): set<RequestId> {
    set id | id in s.requests && s.requests[id].session == session && s.requests[id].status == Pending
  }

  /** Which of the four refusals an enqueue meets; the pending cap is looked at last, on the session it would join. */
  lemma EnqueueDecides(c: Config, s: State, req: NewRequest, minted: SessionId)
    ensures var a, named := AdmissionOf(c, s, req, minted), req.session.Some?;
            var session := if named then req.session.value else minted;
            var unknown, alone := named && session !in s.sessions, !named && req.kind != Normal && req.sender == System;
            && (a == Reject(SelfSession) <==> TalksToItself(req) || (!Repeats(s, req) && alone))
            && (a == Duplicate <==> !TalksToItself(req) && Repeats(s, req))
            && (a == Reject(SessionNotFound) <==> !TalksToItself(req) && !Repeats(s, req) && unknown)
            && (a == Reject(PendingCapExceeded) <==>
                  && !TalksToItself(req) && !Repeats(s, req) && !unknown && !alone
                  && |WaitingIn(s, session)| >= c.pendingCap)
  {
    if id :| id in s.requests && s.requests[id].org == req.org && s.requests[id].key == req.key {
      assert HasKey(s.requests[id], req.org, req.key);
    }
    assert KeyTaken(s, req.org, req.key) <==> Repeats(s, req);
    var session := if req.session.Some? then req.session.value else minted;
    assert PendingIn(s, session) == WaitingIn(s, session);
  }

  lemma EnqueueWrites(c: Config, s: State, step: Step)
    requires step.Enqueue? && Enabled(s, step)
    ensures var s', req := Apply(c, s, step), step.req;
            var session := if req.session.Some? then req.session.value else step.minted;
            && s'.leases == s.leases && s'.turnSeqs == s.turnSeqs
            && if AdmissionOf(c, s, req, step.minted).Admit? then
                 && s'.sessions == s.sessions + {session}
                 && s'.requests == s.requests[step.id :=
                      Request(session, req.receiver, req.kind, req.org, req.key, step.now, Pending, 0, 0, false, None)]
               else s'.sessions == s.sessions && s'.requests == s.requests
  {
  }

  // ----- reset

  /** The lease of this turn has run out at `now`. */
  predicate Lapsed(s: State, session: SessionId, turn: nat, now: int) {
    session in s.leases && s.leases[session].until <= now && s.leases[session].turnSeq == turn
  }

  lemma ResetWrites(c: Config, s: State, now: int)
    ensures var s' := Apply(c, s, Reset(now));
            && s'.sessions == s.sessions && s'.turnSeqs == s.turnSeqs
            && (forall session :: session in s'.leases <==> session in s.leases && s.leases[session].until > now)
            && (forall session :: session in s'.leases ==> s'.leases[session] == s.leases[session])
            && s'.requests.Keys == s.requests.Keys
            && forall id :: id in s.requests ==>
                 var r := s.requests[id];
                 s'.requests[id] ==
                   if r.status != Processing || !Lapsed(s, r.session, r.turnSeq, now) then r
                   else if r.attempts < c.maxAttempts then r.(status := Pending, reason := None)
                   else r.(status := Failed, reason := Some(Poison))
  {
  }

  // ----- claim

  /** A worker holds the session at `now`. */
  predicate Busy(s: State, session: SessionId, now: int) {
    session in s.leases && s.leases[session].until > now
  }

  /** Memory-mutating work that must wait: such work of its receiver is processing in a busy session. */
  ghost predicate Waits(s: State, r: Request, now: int) {
    r.kind != Normal &&
    exists j :: j in s.requests && s.requests[j].receiver == r.receiver && s.requests[j].kind != Normal
      && s.requests[j].status == Processing && Busy(s, s.requests[j].session, now)
  }

  ghost predicate Free(s: State, id: RequestId, now: int) {
    && id in s.requests && s.requests[id].status == Pending && s.requests[id].session in s.sessions
    && !Busy(s, s.requests[id].session, now) && !Waits(s, s.requests[id], now)
  }

  lemma FreeIsEligible(s: State, id: RequestId, now: int)
    ensures Free(s, id, now) <==> Eligible(s, id, now)
  {
    if id in s.requests {
      var r := s.requests[id];
      if j :| j in s.requests && s.requests[j].receiver == r.receiver && s.requests[j].kind != Normal
              && s.requests[j].status == Processing && Busy(s, s.requests[j].session, now) {
        assert LiveLease(s, s.requests[j].session, now);
      }
      if j :| j in s.requests && s.requests[j].receiver == r.receiver && s.requests[j].status == Processing
              && s.requests[j].kind != Normal && LiveLease(s, s.requests[j].session, now) {
        assert Busy(s, s.requests[j].session, now);
      }
    }
  }

  /** Whatever a claim takes is free, and nothing free is older. */
  lemma ClaimsOldestFirst(s: State, step: Step)
    requires step.Take? && Enabled(s, step)
    ensures Free(s, step.id, step.now)
    ensures forall id :: Free(s, id, step.now) ==> s.requests[step.id].createdAt <= s.requests[id].createdAt
  {
    forall id ensures Free(s, id, step.now) <==> Eligible(s, id, step.now) { FreeIsEligible(s, id, step.now); }
  }

  lemma {:induction false} Oldest(s: State, ids: set<RequestId>) returns (best: RequestId)
    requires ids != {} && ids <= s.requests.Keys
    ensures best in ids && forall id :: id in ids ==> s.requests[best].createdAt <= s.requests[id].createdAt
    decreases |ids|
  {
    var one :| one in ids;
    var rest := ids - {one};
    best := one;
    if rest != {} {
      var other := Oldest(s, rest);
      if s.requests[other].createdAt < s.requests[one].createdAt { best := other; }
    }
    forall id | id in ids ensures s.requests[best].createdAt <= s.requests[id].createdAt {
      assert id == one || id in rest;
    }
  }

  /** A claim finds work if and only if some row is free. */
  lemma ClaimFindsIffFree(s: State, worker: WorkerId, now: int)
    ensures (exists id :: Enabled(s, Take(worker, id, now))) <==> exists id :: Free(s, id, now)
  {
    forall id ensures Free(s, id, now) <==> Eligible(s, id, now) { FreeIsEligible(s, id, now); }
    if id :| Enabled(s, Take(worker, id, now)) { assert Free(s, id, now); }
    if id :| Free(s, id, now) {
      var eligible := set i | i in s.requests && Eligible(s, i, now);
      assert id in eligible;
      var best := Oldest(s, eligible);
      assert Enabled(s, Take(worker, best, now));
    }
  }

  lemma TakeWrites(c: Config, s: State, step: Step)
    requires step.Take? && Enabled(s, step)
    ensures var s', session := Apply(c, s, step), s.requests[step.id].session;
            var turn := (if session in s.turnSeqs then s.turnSeqs[session] else 0) + 1;
            && s'.sessions == s.sessions && s'.turnSeqs == s.turnSeqs[session := turn]
            && s'.leases == s.leases[session := Lease(step.worker, turn, step.now + c.ttl)]
            && Minted(s, step) == LeaseToken(session, step.worker, turn)
            && s'.requests.Keys == s.requests.Keys
            && forall id :: id in s.requests ==>
                 var r := s.requests[id];
                 s'.requests[id] ==
                   if r.session == session && r.status == Pending then
                     r.(status := Processing, turnSeq := turn, attempts := r.attempts + 1)
                   else r
  {
  }

  // ----- worker side

  /** The lease of the token's session is the token's worker's and of its turn. */
  predicate Fenced(s: State, t: LeaseToken) {
    && t.session in s.leases
    && s.leases[t.session] == Lease(t.worker, t.turnSeq, s.leases[t.session].until)
  }

  /** A heartbeat moves the deadline of its own lease to a full term from now, and no other column of any table. */
  lemma HeartbeatWrites(c: Config, s: State, t: LeaseToken, now: int)
    ensures var s' := Apply(c, s, Heartbeat(t, now));
            && s'.requests == s.requests && s'.turnSeqs == s.turnSeqs && s'.sessions == s.sessions
            && s'.leases == if Fenced(s, t) then s.leases[t.session := Lease(t.worker, t.turnSeq, now + c.ttl)]
                            else s.leases
  {
  }

  /** Until then the session is busy, and a reset takes none of its rows. */
  lemma HeartbeatExtends(c: Config, s: State, t: LeaseToken, now: int, later: int)
    requires Fenced(s, t) && later < now + c.ttl
    ensures var s' := Apply(c, s, Heartbeat(t, now));
            && Busy(s', t.session, later)
            && var s'' := Apply(c, s', Reset(later));
               && Fenced(s'', t)
               && forall id :: id in s.requests && s.requests[id].session == t.session ==>
                    s''.requests[id] == s.requests[id]
  {
  }

  lemma ReleaseWrites(c: Config, s: State, t: LeaseToken)
    ensures var s' := Apply(c, s, Release(t));
            && s'.requests == s.requests && s'.turnSeqs == s.turnSeqs && s'.sessions == s.sessions
            && s'.leases == if Fenced(s, t) then s.leases - {t.session} else s.leases
  {
  }

  /** A row of the token's claim that the receipt lists. */
  predicate Reported(s: State, t: LeaseToken, ids: set<RequestId>, id: RequestId) {
    id in ids && id in s.requests && s.requests[id].session == t.session && s.requests[id].turnSeq == t.turnSeq
  }

  /** A finalise past its fence sets status and reason of the rows it reports, and no other column of any table. */
  lemma FinaliseWrites(c: Config, s: State, t: LeaseToken, ids: set<RequestId>, outcome: Finalisation)
    ensures var s' := Apply(c, s, Finalise(t, ids, outcome));
            && s'.leases == s.leases && s'.turnSeqs == s.turnSeqs && s'.sessions == s.sessions
            && s'.requests.Keys == s.requests.Keys
            && (forall id :: id in s.requests && !(Fenced(s, t) && Reported(s, t, ids, id)) ==>
                  s'.requests[id] == s.requests[id])
            && (forall id :: Fenced(s, t) && Reported(s, t, ids, id) ==>
                  && (outcome.AsDone? ==> s'.requests[id] == s.requests[id].(status := Done, reason := None))
                  && (outcome.AsFailed? ==>
                        s'.requests[id] == s.requests[id].(status := Failed, reason := Some(outcome.reason))))
  {
  }

  lemma CancelWrites(c: Config, s: State, id: RequestId)
    ensures var s' := Apply(c, s, Cancel(id));
            && s'.leases == s.leases && s'.turnSeqs == s.turnSeqs && s'.sessions == s.sessions
            && s'.requests == if id in s.requests then s.requests[id := s.requests[id].(cancelRequested := true)]
                              else s.requests
  {
  }

  // ----- a worker that heartbeats in time keeps its claim

  /** The reading of the last heartbeat with `t` from position `k` on, or `start` when there was none. */
  function LastBeat(steps: seq<Step>, k: nat, t: LeaseToken, start: int): int
    requires k <= |steps|
  {
    if k == |steps| then start
    else
      match steps[|steps| - 1]
      case Heartbeat(token, now) => if token == t then now else LastBeat(steps[..|steps| - 1], k, t, start)
      case _ => LastBeat(steps[..|steps| - 1], k, t, start)
  }

  /** Every reset and every claim from `k` on reads less than a term after the last heartbeat; nothing releases `t`. */
  ghost predicate InTime(c: Config, steps: seq<Step>, k: nat, t: LeaseToken, start: int)
    requires k <= |steps|
  {
    k == |steps| ||
    (&& InTime(c, steps[..|steps| - 1], k, t, start)
     && var last, deadline := steps[|steps| - 1], LastBeat(steps[..|steps| - 1], k, t, start) + c.ttl;
        last != Release(t) && (last.Reset? || last.Take? ==> last.now < deadline))
  }

  /** Some finalise with `t` from `k` on reports the request. */
  ghost predicate ReportedSince(steps: seq<Step>, k: nat, t: LeaseToken, id: RequestId) {
    exists i :: k <= i < |steps| && steps[i].Finalise? && steps[i].token == t && id in steps[i].ids
  }

  /** The claim stands: its lease runs to a full term after the last heartbeat. */
  ghost predicate Stands(c: Config, s: State, t: LeaseToken, beat: int) {
    t.session in s.leases && s.leases[t.session] == Lease(t.worker, t.turnSeq, beat + c.ttl)
  }

  lemma StandsStep(c: Config, s: State, step: Step, t: LeaseToken, beat: int)
    requires Enabled(s, step) && Stands(c, s, t, beat) && step != Release(t)
    requires step.Reset? || step.Take? ==> step.now < beat + c.ttl
    ensures Stands(c, Apply(c, s, step), t, if step.Heartbeat? && step.token == t then step.now else beat)
  {
  }

  /** A row of the claim that no finalise has reported. */
  predicate RunsUnder(s: State, t: LeaseToken, id: RequestId) {
    && id in s.requests && s.requests[id].session == t.session
    && s.requests[id].turnSeq == t.turnSeq && s.requests[id].status == Processing
  }

  lemma RunsUnderStep(c: Config, s: State, step: Step, t: LeaseToken, beat: int, id: RequestId)
    requires Enabled(s, step) && Stands(c, s, t, beat) && RunsUnder(s, t, id)
    requires step.Reset? ==> step.now < beat + c.ttl
    requires !(step.Finalise? && step.token == t && id in step.ids)
    ensures RunsUnder(Apply(c, s, step), t, id)
  {
  }

  /**
   A claim at reading `start` whose token is heartbeated in time is never reset nor overtaken: its lease stands with the
   deadline of the last heartbeat, and every row it drained is still processing unless its own finalise reported it.
   */
  lemma {:induction false} KeptAlive(c: Config, steps: seq<Step>, k: nat)
    requires c.ttl > 0 && IsRun(c, steps) && 0 < k <= |steps| && IsRun(c, steps[..k - 1]) && IsRun(c, steps[..k])
    requires steps[k - 1].Take? && Enabled(After(c, steps[..k - 1]), steps[k - 1])
    requires InTime(c, steps, k, Minted(After(c, steps[..k - 1]), steps[k - 1]), steps[k - 1].now)
    ensures var s, claim := After(c, steps[..k - 1]), steps[k - 1];
            var t := Minted(s, claim);
            && Stands(c, After(c, steps), t, LastBeat(steps, k, t, claim.now))
            && forall id :: id in WaitingIn(s, t.session) ==>
                 RunsUnder(After(c, steps), t, id) || ReportedSince(steps, k, t, id)
  {
    var s, claim := After(c, steps[..k - 1]), steps[k - 1];
    var t := Minted(s, claim);
    if k == |steps| {
      assert steps[..k] == steps && steps[..|steps| - 1] == steps[..k - 1];
      TakeWrites(c, s, claim);
    } else {
      var before, last := steps[..|steps| - 1], steps[|steps| - 1];
      assert before[..k - 1] == steps[..k - 1] && before[..k] == steps[..k] && before[k - 1] == claim;
      KeptAlive(c, before, k);
      var beat := LastBeat(before, k, t, claim.now);
      StandsStep(c, After(c, before), last, t, beat);
      forall id | id in WaitingIn(s, t.session)
        ensures RunsUnder(After(c, steps), t, id) || ReportedSince(steps, k, t, id)
      {
        if RunsUnder(After(c, before), t, id) && !(last.Finalise? && last.token == t && id in last.ids) {
          RunsUnderStep(c, After(c, before), last, t, beat, id);
        } else if !RunsUnder(After(c, before), t, id) {
          var i :| k <= i < |before| && before[i].Finalise? && before[i].token == t && id in before[i].ids;
          assert steps[i] == before[i];
        }
      }
    }
  }

  // ----- outcomes stay

  /** Done or failed, and the lease of its last turn is gone. */
  predicate Settled(s: State, id: RequestId) {
    && id in s.requests && (s.requests[id].status == Done || s.requests[id].status == Failed)
    && !(s.requests[id].session in s.leases
         && s.leases[s.requests[id].session].turnSeq == s.requests[id].turnSeq)
  }

  lemma SettledStep(c: Config, s: State, step: Step, id: RequestId)
    requires Inv(c, s) && Enabled(s, step) && Settled(s, id)
    ensures Settled(Apply(c, s, step), id)
    ensures Apply(c, s, step).requests[id].(cancelRequested := false) == s.requests[id].(cancelRequested := false)
  {
    assert RequestOk(c, s, s.requests[id]);
  }

  /** A settled row never changes again, the cancellation flag aside. */
  lemma {:induction false} SettledForever(c: Config, steps: seq<Step>, k: nat, id: RequestId)
    requires c.maxAttempts >= 1 && IsRun(c, steps) && k <= |steps| && IsRun(c, steps[..k])
    requires Settled(After(c, steps[..k]), id)
    ensures Settled(After(c, steps), id)
    ensures After(c, steps).requests[id].(cancelRequested := false) ==
              After(c, steps[..k]).requests[id].(cancelRequested := false)
  {
    if k == |steps| {
      assert steps[..k] == steps;
    } else {
      var before := steps[..|steps| - 1];
      assert before[..k] == steps[..k];
      SettledForever(c, before, k, id);
      ReachableInv(c, before);
      SettledStep(c, After(c, before), steps[|steps| - 1], id);
    }
  }

  lemma FinalisedThenReleased(c: Config, s: State, t: LeaseToken, ids: set<RequestId>, outcome: Finalisation,
                              id: RequestId)
    requires Fenced(s, t) && Reported(s, t, ids, id)
    ensures var s' := Apply(c, Apply(c, s, Finalise(t, ids, outcome)), Release(t));
            && Settled(s', id)
            && (outcome.AsDone? ==> s'.requests[id].status == Done && s'.requests[id].reason == None)
            && (outcome.AsFailed? ==>
                  s'.requests[id].status == Failed && s'.requests[id].reason == Some(outcome.reason))
  {
    FinaliseWrites(c, s, t, ids, outcome);
    ReleaseWrites(c, Apply(c, s, Finalise(t, ids, outcome)), t);
  }

  /** What a worker reports before it releases its lease is the outcome of the request on every continuation. */
  lemma {:induction false} OutcomeStays(c: Config, steps: seq<Step>, k: nat, t: LeaseToken, ids: set<RequestId>,
                                        outcome: Finalisation, id: RequestId)
    requires c.maxAttempts >= 1 && IsRun(c, steps) && k + 2 <= |steps| && IsRun(c, steps[..k])
    requires steps[k] == Finalise(t, ids, outcome) && steps[k + 1] == Release(t)
    requires Fenced(After(c, steps[..k]), t) && Reported(After(c, steps[..k]), t, ids, id)
    ensures id in After(c, steps).requests
    ensures var r := After(c, steps).requests[id];
            && (outcome.AsDone? ==> r.status == Done && r.reason == None)
            && (outcome.AsFailed? ==> r.status == Failed && r.reason == Some(outcome.reason))
  {
    PrefixIsRun(c, steps, k + 1);
    PrefixIsRun(c, steps, k + 2);
    assert steps[..k + 1][..k] == steps[..k] && steps[..k + 2][..k + 1] == steps[..k + 1];
    FinalisedThenReleased(c, After(c, steps[..k]), t, ids, outcome, id);
    SettledForever(c, steps, k + 2, id);
  }
}
