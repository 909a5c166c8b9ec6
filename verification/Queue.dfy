/**
 The prompt queue and its session leases as tables and transactions.

 The tables are `prompt_requests`, `session_leases`, `session_turn_seq` and the ids of `sessions`.
 Every function below is one transaction: it maps the tables before it to the tables after it. A
 transaction that reads the clock takes the reading as a parameter, so nothing here assumes that
 two transactions see the same time or that readings never go back.
 */
module Queue {
  import opened Common

  type RequestId = nat
  type SessionId = nat
  type WorkerId = nat
  type AgentId = nat
  type OrgId = nat

  datatype Kind = Normal | Reflection | Resolution

  datatype Status = Pending | Processing | Done | Failed

  datatype FailureReason =
    | Cancelled | Timeout | Provider(detail: string) | Hook(detail: string) | Poison
    | Unrecoverable(detail: string) | DagBudgetExceeded | NoEgress

  datatype Participant = Human | Agent(agent: AgentId) | System

  /** One row of `prompt_requests`. */
  datatype Request = Request(
    session: SessionId, receiver: AgentId, kind: Kind, org: OrgId, key: string, createdAt: int,
    status: Status, attempts: nat, turnSeq: nat, cancelRequested: bool, reason: Option<FailureReason>)

  /** One row of `session_leases`. */
  datatype Lease = Lease(worker: WorkerId, turnSeq: nat, until: int)

  datatype LeaseToken = LeaseToken(session: SessionId, worker: WorkerId, turnSeq: nat)

  datatype Config = Config(pendingCap: nat, maxAttempts: nat, ttl: nat)

  datatype State = State(
    requests: map<RequestId, Request>, leases: map<SessionId, Lease>,
    turnSeqs: map<SessionId, nat>, sessions: set<SessionId>)

  const EMPTY := State(map[], map[], map[], {})

  /** The last turn number handed out for a session; 0 while no claim has been made. */
  function LastTurn(s: State, session: SessionId): nat {
    if session in s.turnSeqs then s.turnSeqs[session] else 0
  }

  // ----- enqueue

  datatype NewRequest = NewRequest(
    session: Option<SessionId>, sender: Participant, receiver: AgentId, org: OrgId, key: string, kind: Kind)

  datatype EnqueueError = SelfSession | SessionNotFound | PendingCapExceeded

  datatype Admission = Admit | Duplicate | Reject(error: EnqueueError)

  function Counterpart(req: NewRequest): Participant {
    match req.kind
    case Normal => Agent(req.receiver)
    case _ => System
  }

  predicate HasKey(r: Request, org: OrgId, key: string) {
    r.org == org && r.key == key
  }

  predicate KeyTaken(s: State, org: OrgId, key: string) {
    exists id :: id in s.requests && HasKey(s.requests[id], org, key)
  }

  function PendingIn(s: State, session: SessionId): set<RequestId> {
    set id | id in s.requests && s.requests[id].session == session && s.requests[id].status == Pending
  }

  function TargetSession(req: NewRequest, minted: SessionId): SessionId {
    match req.session
    case Some(existing) => existing
    case None => minted
  }

  /** The checks of the enqueue transaction, in order; `minted` is the id a new session would get. */
  function AdmissionOf(c: Config, s: State, req: NewRequest, minted: SessionId): Admission {
    if req.kind == Normal && req.sender == Counterpart(req) then Reject(SelfSession)
    else if KeyTaken(s, req.org, req.key) then Duplicate
    else if req.session.Some? && req.session.value !in s.sessions then Reject(SessionNotFound)
    else if req.session.None? && req.sender == Counterpart(req) then Reject(SelfSession)
    else if |PendingIn(s, TargetSession(req, minted))| >= c.pendingCap then Reject(PendingCapExceeded)
    else Admit
  }

  function NewRow(req: NewRequest, session: SessionId, now: int): Request {
    Request(session, req.receiver, req.kind, req.org, req.key, now, Pending, 0, 0, false, None)
  }

  function EnqueueTx(c: Config, s: State, req: NewRequest, id: RequestId, minted: SessionId, now: int): State {
    if AdmissionOf(c, s, req, minted) == Admit then
      var session := TargetSession(req, minted);
      s.(requests := s.requests[id := NewRow(req, session, now)], sessions := s.sessions + {session})
    else s
  }

  // ----- orphan reset

  function Expired(s: State, now: int): map<SessionId, nat> {
    map session | session in s.leases && s.leases[session].until <= now :: s.leases[session].turnSeq
  }

  /** The row update run for every deleted lease: back to pending, or parked once attempts ran out. */
  function Reclaimed(c: Config, r: Request, stale: map<SessionId, nat>): Request {
    if r.status == Processing && r.session in stale && r.turnSeq == stale[r.session] then
      if r.attempts >= c.maxAttempts then r.(status := Failed, reason := Some(Poison))
      else r.(status := Pending, reason := None)
    else r
  }

  function ReclaimAll(c: Config, requests: map<RequestId, Request>, stale: map<SessionId, nat>): map<RequestId, Request>
  {
    map id | id in requests :: Reclaimed(c, requests[id], stale)
  }

  function ResetTx(c: Config, s: State, now: int): State {
    var stale := Expired(s, now);
    s.(leases := s.leases - stale.Keys, requests := ReclaimAll(c, s.requests, stale))
  }

  // ----- claim

  predicate LiveLease(s: State, session: SessionId, now: int) {
    session in s.leases && s.leases[session].until > now
  }

  /** Some session with a live lease is running a memory-mutating job for `agent`. */
  predicate AgentBusy(s: State, agent: AgentId, now: int) {
    exists id :: id in s.requests && s.requests[id].receiver == agent && s.requests[id].status == Processing
      && s.requests[id].kind != Normal && LiveLease(s, s.requests[id].session, now)
  }

  predicate Eligible(s: State, id: RequestId, now: int) {
    && id in s.requests
    && s.requests[id].status == Pending
    && s.requests[id].session in s.sessions
    && !LiveLease(s, s.requests[id].session, now)
    && (s.requests[id].kind == Normal || !AgentBusy(s, s.requests[id].receiver, now))
  }

  /** What the candidate query may return: an eligible row no other eligible row is older than. */
  predicate Candidate(s: State, id: RequestId, now: int) {
    && Eligible(s, id, now)
    && forall other :: other in s.requests && Eligible(s, other, now) ==>
         s.requests[id].createdAt <= s.requests[other].createdAt
  }

  function NextToken(s: State, session: SessionId, worker: WorkerId): LeaseToken {
    LeaseToken(session, worker, LastTurn(s, session) + 1)
  }

  function Drained(r: Request, session: SessionId, turn: nat): Request {
    if r.session == session && r.status == Pending then
      r.(status := Processing, turnSeq := turn, attempts := r.attempts + 1)
    else r
  }

  /** Bump the turn number; take the lease unless a live one is in the way; drain the pending rows. */
  function TakeTx(c: Config, s: State, session: SessionId, worker: WorkerId, now: int): State {
    var turn := LastTurn(s, session) + 1;
    var bumped := s.(turnSeqs := s.turnSeqs[session := turn]);
    if LiveLease(s, session, now) then bumped
    else bumped.(
      leases := s.leases[session := Lease(worker, turn, now + c.ttl)],
      requests := map id | id in s.requests :: Drained(s.requests[id], session, turn))
  }

  // ----- worker side

  /** The fence every worker-side statement carries in its WHERE clause. */
  predicate Holds(s: State, t: LeaseToken) {
    && t.session in s.leases
    && s.leases[t.session].worker == t.worker
    && s.leases[t.session].turnSeq == t.turnSeq
  }

  function HeartbeatTx(c: Config, s: State, t: LeaseToken, now: int): State {
    if Holds(s, t) then
      s.(leases := s.leases[t.session := Lease(t.worker, t.turnSeq, now + c.ttl)])
    else s
  }

  function ReleaseTx(s: State, t: LeaseToken): State {
    if Holds(s, t) then s.(leases := s.leases - {t.session}) else s
  }

  datatype Finalisation = AsDone | AsFailed(reason: FailureReason)

  /** The rows a finalise statement with this receipt writes. The code does not look at the status. */
  predicate Receipted(r: Request, id: RequestId, t: LeaseToken, ids: set<RequestId>) {
    id in ids && r.session == t.session && r.turnSeq == t.turnSeq
  }

  function Finalised(r: Request, outcome: Finalisation): Request {
    match outcome
    case AsDone => r.(status := Done, reason := None)
    case AsFailed(why) => r.(status := Failed, reason := Some(why))
  }

  function FinaliseTx(s: State, t: LeaseToken, ids: set<RequestId>, outcome: Finalisation): State {
    if Holds(s, t) then
      s.(requests := map id | id in s.requests ::
        if Receipted(s.requests[id], id, t, ids) then Finalised(s.requests[id], outcome) else s.requests[id])
    else s
  }

  function CancelTx(s: State, id: RequestId): State {
    if id in s.requests then
      s.(requests := s.requests[id := s.requests[id].(cancelRequested := true)])
    else s
  }

  // ----- the transition system

  datatype Step =
    | Enqueue(req: NewRequest, id: RequestId, minted: SessionId, now: int)
    | Reset(now: int)
    | Take(worker: WorkerId, id: RequestId, now: int)
    | Heartbeat(token: LeaseToken, now: int)
    | Release(token: LeaseToken)
    | Finalise(token: LeaseToken, ids: set<RequestId>, outcome: Finalisation)
    | Cancel(id: RequestId)

  /** Minted ids are fresh, and a claim takes what the candidate query may return. Tokens are arbitrary. */
  predicate Enabled(s: State, step: Step) {
    match step
    case Enqueue(req, id, minted, _) => id !in s.requests && minted !in s.sessions
    case Take(_, id, now) => Candidate(s, id, now)
    case _ => true
  }

  function Apply(c: Config, s: State, step: Step): State
    requires Enabled(s, step)
  {
    match step
    case Enqueue(req, id, minted, now) => EnqueueTx(c, s, req, id, minted, now)
    case Reset(now) => ResetTx(c, s, now)
    case Take(worker, id, now) => TakeTx(c, s, s.requests[id].session, worker, now)
    case Heartbeat(t, now) => HeartbeatTx(c, s, t, now)
    case Release(t) => ReleaseTx(s, t)
    case Finalise(t, ids, outcome) => FinaliseTx(s, t, ids, outcome)
    case Cancel(id) => CancelTx(s, id)
  }

  /** The token a claim step hands to its worker. */
  function Minted(s: State, step: Step): LeaseToken
    requires step.Take? && Enabled(s, step)
  {
    NextToken(s, s.requests[step.id].session, step.worker)
  }

  /** Does this step drain request `id`? */
  predicate DrainsRequest(s: State, step: Step, id: RequestId)
    requires Enabled(s, step)
  {
    step.Take? && id in PendingIn(s, s.requests[step.id].session)
  }
}
