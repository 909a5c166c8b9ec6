/**
 The queue as the program runs it: one object whose methods update the tables in place. Each method
 is proved to do exactly what its transaction in `Queue` says; ids the program mints at random are
 parameters.
 */
module QueueStore {
  import opened Common
  import opened Queue
  import opened QueueSafety

  datatype EnqueueOutcome =
    | Inserted(request: RequestId, session: SessionId)
    | Existing(request: RequestId, session: SessionId, status: Status)
    | Refused(error: EnqueueError)

  datatype ClaimedSession = ClaimedSession(lease: LeaseToken, receiver: AgentId, kind: Kind, prompts: seq<RequestId>)

  /** `MixedBatch` is the assertion that a drained batch shares one receiver and one kind; `BadPrompt` a stored
   prompt that no longer parses. Both come after the commit: the lease stands and the rows are processing. */
  datatype ClaimResult = NoWork | Claimed(session: ClaimedSession) | MixedBatch | BadPrompt

  predicate Agree(r: Request, other: Request) {
    r.receiver == other.receiver && r.kind == other.kind
  }

  /** What a claim that drained `session` in the tables `s` may answer. */
  ghost predicate Answers(
    claim: ClaimResult, s: State, session: SessionId, worker: WorkerId, unparsable: set<RequestId>)
  {
    var batch := PendingIn(s, session);
    match claim
    case NoWork => false
    case MixedBatch => exists i, j :: i in batch && j in batch && !Agree(s.requests[i], s.requests[j])
    case BadPrompt =>
      && (forall i, j :: i in batch && j in batch ==> Agree(s.requests[i], s.requests[j]))
      && exists id :: id in batch && id in unparsable
    case Claimed(c) =>
      && c.lease == NextToken(s, session, worker)
      && c.prompts != [] && (forall id :: id in c.prompts <==> id in batch)
      && (forall i, j :: 0 <= i < j < |c.prompts| ==> c.prompts[i] != c.prompts[j])
      && (forall id :: id in batch ==>
            id !in unparsable && s.requests[id].receiver == c.receiver && s.requests[id].kind == c.kind)
  }

  datatype LeaseResult = Renewed | LeaseStale

  /** Fixing up the sessions one after the other is the same as fixing them up at once. */
  lemma ReclaimInTurn(c: Config, requests: map<RequestId, Request>, stale: map<SessionId, nat>,
                      todo: set<SessionId>, session: SessionId)
    requires session in todo && todo <= stale.Keys
    ensures ReclaimAll(c, ReclaimAll(c, requests, stale - todo), map[session := stale[session]]) ==
              ReclaimAll(c, requests, stale - (todo - {session}))
  {
  }

  class PromptQueue {
    const cfg: Config
    var requests: map<RequestId, Request>
    var leases: map<SessionId, Lease>
    var turnSeqs: map<SessionId, nat>
    var sessions: set<SessionId>

    function Tables(): State
      reads this
    {
      State(requests, leases, turnSeqs, sessions)
    }

    constructor (pendingCap: nat, maxAttempts: nat, ttl: nat)
      ensures Tables() == EMPTY && cfg == Config(pendingCap, maxAttempts, ttl)
    {
      cfg := Config(pendingCap, maxAttempts, ttl);
      requests, leases, turnSeqs, sessions := map[], map[], map[], {};
    }

    method FindByKey(org: OrgId, key: string) returns (found: Option<RequestId>)
      ensures found.None? <==> !KeyTaken(Tables(), org, key)
      ensures found.Some? ==> found.value in requests && HasKey(requests[found.value], org, key)
    {
      var todo := requests.Keys;
      while todo != {}
        invariant todo <= requests.Keys
        invariant forall id :: id in requests && id !in todo ==> !HasKey(requests[id], org, key)
      {
        var id :| id in todo;
        if HasKey(requests[id], org, key) { return Some(id); }
        todo := todo - {id};
      }
      return None;
    }

    method Enqueue(req: NewRequest, id: RequestId, minted: SessionId, now: int) returns (outcome: EnqueueOutcome)
      requires Enabled(Tables(), Step.Enqueue(req, id, minted, now))
      modifies this
      ensures Tables() == EnqueueTx(cfg, old(Tables()), req, id, minted, now)
      ensures match AdmissionOf(cfg, old(Tables()), req, minted)
              case Admit => outcome == Inserted(id, TargetSession(req, minted))
              case Duplicate => outcome.Existing? && outcome.request in old(requests)
                && var r := old(requests)[outcome.request];
                   HasKey(r, req.org, req.key) && outcome.session == r.session && outcome.status == r.status
              case Reject(e) => outcome == Refused(e)
    {
      if req.kind == Normal && req.sender == Counterpart(req) {
        return Refused(SelfSession);
      }
      var existing := FindByKey(req.org, req.key);
      if existing.Some? {
        var r := requests[existing.value];
        return Existing(existing.value, r.session, r.status);
      }
      var session := minted;
      match req.session {
        case Some(target) =>
          if target !in sessions { return Refused(SessionNotFound); }
          session := target;
        case None =>
          if req.sender == Counterpart(req) { return Refused(SelfSession); }
      }
      if |PendingIn(Tables(), session)| >= cfg.pendingCap { return Refused(PendingCapExceeded); }
      sessions := sessions + {session};
      requests := requests[id := NewRow(req, session, now)];
      return Inserted(id, session);
    }

    /** Delete every expired lease, then fix up the rows of each session in turn. */
    method ResetOrphans(now: int)
      modifies this`requests, this`leases
      ensures Tables() == ResetTx(cfg, old(Tables()), now)
    {
      var stale := Expired(Tables(), now);
      leases := leases - stale.Keys;
      var todo := stale.Keys;
      while todo != {}
        invariant todo <= stale.Keys
        invariant leases == old(leases) - stale.Keys
        invariant requests == ReclaimAll(cfg, old(requests), stale - todo)
      {
        var session :| session in todo;
        ReclaimInTurn(cfg, old(requests), stale, todo, session);
        requests := ReclaimAll(cfg, requests, map[session := stale[session]]);
        todo := todo - {session};
      }
      assert stale - {} == stale;
    }

    /** The oldest pending row whose session and, for memory-mutating work, whose agent are free. */
    method NextCandidate(now: int) returns (best: Option<RequestId>)
      ensures best.None? <==> forall id :: id in requests ==> !Eligible(Tables(), id, now)
      ensures best.Some? ==> Candidate(Tables(), best.value, now)
    {
      best := None;
      var todo := requests.Keys;
      while todo != {}
        invariant todo <= requests.Keys
        invariant best.None? ==> forall id :: id in requests && id !in todo ==> !Eligible(Tables(), id, now)
        invariant best.Some? ==> Eligible(Tables(), best.value, now)
        invariant best.Some? ==> forall id :: id in requests && id !in todo && Eligible(Tables(), id, now) ==>
                    requests[best.value].createdAt <= requests[id].createdAt
      {
        var id :| id in todo;
        if Eligible(Tables(), id, now) && (best.None? || requests[id].createdAt < requests[best.value].createdAt) {
          best := Some(id);
        }
        todo := todo - {id};
      }
    }

    method BumpTurnSeq(session: SessionId) returns (next: nat)
      modifies this`turnSeqs
      ensures next == old(LastTurn(Tables(), session)) + 1
      ensures turnSeqs == old(turnSeqs)[session := next]
    {
      next := if session in turnSeqs then turnSeqs[session] + 1 else 1;
      turnSeqs := turnSeqs[session := next];
    }

    /** Insert the lease, or overwrite one that is no longer live. */
    method TryTakeLease(session: SessionId, worker: WorkerId, turn: nat, now: int) returns (taken: bool)
      modifies this`leases
      ensures taken == !old(LiveLease(Tables(), session, now))
      ensures leases == if taken then old(leases)[session := Lease(worker, turn, now + cfg.ttl)] else old(leases)
    {
      taken := session !in leases || leases[session].until <= now;
      if taken { leases := leases[session := Lease(worker, turn, now + cfg.ttl)]; }
    }

    method DrainPending(session: SessionId, turn: nat) returns (drained: seq<RequestId>)
      modifies this`requests
      ensures requests == map id | id in old(requests) :: Drained(old(requests)[id], session, turn)
      ensures forall id :: id in drained <==> id in old(PendingIn(Tables(), session))
      ensures forall i, j :: 0 <= i < j < |drained| ==> drained[i] != drained[j]
    {
      var todo := PendingIn(Tables(), session);
      drained := [];
      while todo != {}
        invariant todo <= PendingIn(Tables(), session)
        invariant forall id :: id in drained <==> id in PendingIn(Tables(), session) - todo
        invariant forall i, j :: 0 <= i < j < |drained| ==> drained[i] != drained[j]
      {
        var id :| id in todo;
        assert id !in drained;
        drained := drained + [id];
        todo := todo - {id};
      }
      requests := map id | id in requests :: Drained(requests[id], session, turn);
    }

    /** The second transaction of a claim; `unparsable` holds the requests whose stored prompt does not parse. */
    method TakeNext(worker: WorkerId, unparsable: set<RequestId>, now: int) returns (claim: ClaimResult)
      modifies this
      ensures claim.NoWork? ==>
        Tables() == old(Tables()) && forall id :: id in old(requests) ==> !Eligible(old(Tables()), id, now)
      ensures !claim.NoWork? ==>
        exists id :: Candidate(old(Tables()), id, now)
                  && Tables() == TakeTx(cfg, old(Tables()), old(requests)[id].session, worker, now)
                  && Answers(claim, old(Tables()), old(requests)[id].session, worker, unparsable)
      ensures claim.Claimed? ==> Holds(Tables(), claim.session.lease)
      ensures Homogeneous(old(Tables())) ==> !claim.MixedBatch?
    {
      var best := NextCandidate(now);
      if best.None? { return NoWork; }
      ghost var id := best.value;
      var session := requests[best.value].session;
      var turn := BumpTurnSeq(session);
      var taken := TryTakeLease(session, worker, turn, now);
      assert taken;
      var drained := DrainPending(session, turn);
      assert Candidate(old(Tables()), id, now)
        && Tables() == TakeTx(cfg, old(Tables()), old(requests)[id].session, worker, now);
      assert id in old(PendingIn(Tables(), session));
      assert id in drained;
      assert drained[0] in drained;
      claim := Assemble(session, worker, turn, drained, unparsable);
    }

    /** Build the answer from the drained rows: assert that they agree, then parse every prompt. */
    method Assemble(session: SessionId, worker: WorkerId, turn: nat, drained: seq<RequestId>,
                    unparsable: set<RequestId>)
      returns (claim: ClaimResult)
      requires drained != [] && forall id :: id in drained ==> id in requests
      ensures claim.MixedBatch? <==> exists i, j :: i in drained && j in drained && !Agree(requests[i], requests[j])
      ensures claim.BadPrompt? <==> !claim.MixedBatch? && exists id :: id in drained && id in unparsable
      ensures claim.Claimed? ==>
        && claim.session.lease == LeaseToken(session, worker, turn) && claim.session.prompts == drained
        && forall id :: id in drained ==>
             requests[id].receiver == claim.session.receiver && requests[id].kind == claim.session.kind
      ensures !claim.NoWork?
    {
      var first := requests[drained[0]];
      assert drained[0] in drained;
      for n := 1 to |drained|
        invariant forall k :: 0 <= k < n ==> Agree(first, requests[drained[k]])
      {
        if !Agree(first, requests[drained[n]]) {
          assert drained[n] in drained;
          return MixedBatch;
        }
      }
      var prompts := [];
      for n := 0 to |drained|
        invariant prompts == drained[..n] && forall k :: 0 <= k < n ==> drained[k] !in unparsable
      {
        if drained[n] in unparsable {
          assert drained[n] in drained;
          return BadPrompt;
        }
        prompts := prompts + [drained[n]];
      }
      claim := Claimed(ClaimedSession(LeaseToken(session, worker, turn), first.receiver, first.kind, prompts));
    }

    /** Reset and take at one clock reading, with no other transaction in between. */
    method ClaimNextSession(worker: WorkerId, unparsable: set<RequestId>, now: int) returns (claim: ClaimResult)
      modifies this
      ensures claim.NoWork? ==> Tables() == ResetTx(cfg, old(Tables()), now)
      ensures claim.NoWork? ==> forall id :: id in requests ==> !Eligible(Tables(), id, now)
      ensures !claim.NoWork? ==> var s := ResetTx(cfg, old(Tables()), now);
        exists id :: Candidate(s, id, now) && Tables() == TakeTx(cfg, s, s.requests[id].session, worker, now)
                  && Answers(claim, s, s.requests[id].session, worker, unparsable)
      ensures claim.Claimed? ==> Holds(Tables(), claim.session.lease)
    {
      ResetOrphans(now);
      claim := TakeNext(worker, unparsable, now);
    }

    method Heartbeat(t: LeaseToken, now: int) returns (result: LeaseResult)
      modifies this`leases
      ensures Tables() == HeartbeatTx(cfg, old(Tables()), t, now)
      ensures result == if old(Holds(Tables(), t)) then Renewed else LeaseStale
    {
      if !Holds(Tables(), t) { return LeaseStale; }
      leases := leases[t.session := Lease(t.worker, t.turnSeq, now + cfg.ttl)];
      return Renewed;
    }

    method Release(t: LeaseToken)
      modifies this`leases
      ensures Tables() == ReleaseTx(old(Tables()), t)
    {
      if Holds(Tables(), t) { leases := leases - {t.session}; }
    }

    method Finalise(t: LeaseToken, ids: set<RequestId>, outcome: Finalisation) returns (result: LeaseResult)
      modifies this`requests
      ensures Tables() == FinaliseTx(old(Tables()), t, ids, outcome)
      ensures result == if old(Holds(Tables(), t)) then Renewed else LeaseStale
    {
      if !Holds(Tables(), t) { return LeaseStale; }
      requests := map id | id in requests ::
        if Receipted(requests[id], id, t, ids) then Finalised(requests[id], outcome) else requests[id];
      return Renewed;
    }

    method RequestCancellation(id: RequestId) returns (found: bool)
      modifies this`requests
      ensures Tables() == CancelTx(old(Tables()), id) && found == (id in old(requests))
    {
      found := id in requests;
      if found { requests := requests[id := requests[id].(cancelRequested := true)]; }
    }
  }
}
