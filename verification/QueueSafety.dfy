/** Stranded work, per-agent mutual exclusion and the pending cap, over whole runs of the queue. */
module QueueSafety {
  import opened Common
  import opened Queue
  import opened QueueRuns

  // ----- stranded work

  /** A processing row no lease answers for: no reset will ever look at its turn number. */
  predicate Stranded(s: State, id: RequestId) {
    && id in s.requests
    && s.requests[id].status == Processing
    && !(s.requests[id].session in s.leases
         && s.leases[s.requests[id].session].turnSeq == s.requests[id].turnSeq)
  }

  predicate NoneStranded(s: State) {
    forall id :: id in s.requests ==> !Stranded(s, id)
  }

  /** Rows a worker is running under the current lease of `session`. */
  function InFlight(s: State, session: SessionId): set<RequestId> {
    set id | id in s.requests && s.requests[id].session == session && s.requests[id].status == Processing
          && session in s.leases && s.leases[session].turnSeq == s.requests[id].turnSeq
  }

  /**
   The two ways to lose work, both visible before the step: a worker releases a lease it still has
   rows running under, or a claim overwrites an expired lease row that was not reset first.
   */
  predicate Strands(s: State, step: Step)
    requires Enabled(s, step)
  {
    match step
    case Release(t) => Holds(s, t) && InFlight(s, t.session) != {}
    case Take(_, id, _) => InFlight(s, s.requests[id].session) != {}
    case _ => false
  }

  /** Stranded work stays processing and stranded whatever happens next. */
  lemma StrandedStays(c: Config, s: State, step: Step, id: RequestId)
    requires Inv(c, s) && Enabled(s, step) && Stranded(s, id)
    ensures Stranded(Apply(c, s, step), id)
  {
    assert RequestOk(c, s, s.requests[id]);
  }

  /** Whatever the rest of a run does, a row stranded at some point ends up stranded. */
  lemma {:induction false} StrandedForever(c: Config, steps: seq<Step>, k: nat, id: RequestId)
    requires c.maxAttempts >= 1 && IsRun(c, steps) && k <= |steps| && IsRun(c, steps[..k])
    requires Stranded(After(c, steps[..k]), id)
    ensures Stranded(After(c, steps), id)
  {
    if k == |steps| {
      assert steps[..k] == steps;
    } else {
      var before := steps[..|steps| - 1];
      assert before[..k] == steps[..k];
      StrandedForever(c, before, k, id);
      ReachableInv(c, before);
      StrandedStays(c, After(c, before), steps[|steps| - 1], id);
    }
  }

  lemma StrandingStep(c: Config, s: State, step: Step)
    requires Inv(c, s) && Enabled(s, step) && NoneStranded(s) && Strands(s, step)
    ensures !NoneStranded(Apply(c, s, step))
  {
    var session := if step.Release? then step.token.session else s.requests[step.id].session;
    var id :| id in InFlight(s, session);
    assert RequestOk(c, s, s.requests[id]);
    assert Stranded(Apply(c, s, step), id);
  }

  lemma HarmlessStep(c: Config, s: State, step: Step, id: RequestId)
    requires Inv(c, s) && Enabled(s, step) && NoneStranded(s) && !Strands(s, step)
    requires id in Apply(c, s, step).requests
    ensures !Stranded(Apply(c, s, step), id)
  {
    if id in s.requests {
      assert !Stranded(s, id);
      assert RequestOk(c, s, s.requests[id]);
      if step.Release? && Holds(s, step.token) { assert id !in InFlight(s, step.token.session); }
      if step.Take? { assert id !in InFlight(s, s.requests[step.id].session); }
    }
  }

  /** The run up to step `k`, and that step, never lost work. */
  ghost predicate NeverStrands(c: Config, steps: seq<Step>)
    requires IsRun(c, steps)
  {
    steps == [] ||
    (NeverStrands(c, steps[..|steps| - 1]) && !Strands(After(c, steps[..|steps| - 1]), steps[|steps| - 1]))
  }

  /** Exactly the stranding steps lose work: a run ends with nothing stranded iff it took none of them. */
  lemma {:induction false} StrandedIffRunStrands(c: Config, steps: seq<Step>)
    requires c.maxAttempts >= 1 && IsRun(c, steps)
    ensures NoneStranded(After(c, steps)) <==> NeverStrands(c, steps)
  {
    if steps != [] {
      var before, last := steps[..|steps| - 1], steps[|steps| - 1];
      var s, s' := After(c, before), After(c, steps);
      StrandedIffRunStrands(c, before);
      ReachableInv(c, before);
      if !NoneStranded(s) {
        var id :| id in s.requests && Stranded(s, id);
        StrandedStays(c, s, last, id);
        assert !NoneStranded(s');
      } else if Strands(s, last) {
        StrandingStep(c, s, last);
      } else {
        forall id | id in s'.requests ensures !Stranded(s', id) { HarmlessStep(c, s, last, id); }
      }
    }
  }

  // ----- claims whose reset and take see one clock reading with nothing in between

  /** Every take comes right after a reset at the same clock reading. */
  ghost predicate AtomicClaims(steps: seq<Step>) {
    forall k :: 0 <= k < |steps| && steps[k].Take? ==> k > 0 && steps[k - 1] == Reset(steps[k].now)
  }

  ghost predicate NoOverdueLease(s: State, now: int) {
    forall session :: session in s.leases ==> s.leases[session].until > now
  }

  lemma AtomicClaimSeesNoOverdueLease(c: Config, steps: seq<Step>)
    requires IsRun(c, steps) && AtomicClaims(steps) && steps != [] && steps[|steps| - 1].Take?
    ensures NoOverdueLease(After(c, steps[..|steps| - 1]), steps[|steps| - 1].now)
  {
    var before := steps[..|steps| - 1];
    assert before[|before| - 1] == steps[|steps| - 2] == Reset(steps[|steps| - 1].now);
  }

  lemma AtomicClaimsPrefix(steps: seq<Step>)
    requires AtomicClaims(steps) && steps != []
    ensures AtomicClaims(steps[..|steps| - 1])
  {
    var before := steps[..|steps| - 1];
    forall k | 0 <= k < |before| && before[k].Take? ensures k > 0 && before[k - 1] == Reset(before[k].now) {
      assert steps[k].Take?;
    }
  }

  /** Workers release a lease only once no row runs under it any more. */
  ghost predicate ReleasesAfterFinalise(c: Config, steps: seq<Step>)
    requires IsRun(c, steps)
  {
    steps == [] ||
    (&& ReleasesAfterFinalise(c, steps[..|steps| - 1])
     && var s, last := After(c, steps[..|steps| - 1]), steps[|steps| - 1];
        last.Release? && Holds(s, last.token) ==> InFlight(s, last.token.session) == {})
  }

  /** Under atomic claims and release-after-finalise every processing row has a lease at its own turn. */
  lemma {:induction false} NoWorkStranded(c: Config, steps: seq<Step>)
    requires c.maxAttempts >= 1 && IsRun(c, steps) && AtomicClaims(steps) && ReleasesAfterFinalise(c, steps)
    ensures NoneStranded(After(c, steps)) && NeverStrands(c, steps)
  {
    if steps != [] {
      var before, last := steps[..|steps| - 1], steps[|steps| - 1];
      AtomicClaimsPrefix(steps);
      NoWorkStranded(c, before);
      if last.Take? {
        AtomicClaimSeesNoOverdueLease(c, steps);
        assert !LiveLease(After(c, before), After(c, before).requests[last.id].session, last.now);
      }
    }
    StrandedIffRunStrands(c, steps);
  }

  /**
   A reset at or after the expiry of a lease gives the work back: the row is pending again, and
   claimable at once if it is a normal one, or it is parked as poison because its attempts ran out.
   */
  lemma ResetReclaims(c: Config, s: State, id: RequestId, now: int)
    requires Inv(c, s) && NoneStranded(s)
    requires id in s.requests && s.requests[id].status == Processing
    requires s.requests[id].session in s.leases && s.leases[s.requests[id].session].until <= now
    ensures var r, s' := s.requests[id], ResetTx(c, s, now);
            if r.attempts < c.maxAttempts then
              && s'.requests[id] == r.(status := Pending, reason := None)
              && (r.kind == Normal ==> Eligible(s', id, now))
            else s'.requests[id] == r.(status := Failed, reason := Some(Poison))
  {
    assert !Stranded(s, id);
    assert RequestOk(c, s, s.requests[id]);
  }

  // ----- why atomicity matters, and why the cap is not an invariant: two concrete runs

  lemma Extend(c: Config, steps: seq<Step>, step: Step)
    requires IsRun(c, steps) && Enabled(After(c, steps), step)
    ensures IsRun(c, steps + [step]) && After(c, steps + [step]) == Apply(c, After(c, steps), step)
  {
    assert (steps + [step])[..|steps + [step]| - 1] == steps;
  }

  /** Every take of the run has its own earlier reset at its clock reading, as the two transactions of a claim do. */
  ghost predicate PairsClaims(steps: seq<Step>, resetOf: map<nat, nat>) {
    && (forall k :: 0 <= k < |steps| && steps[k].Take? ==>
          k in resetOf && resetOf[k] < k && steps[resetOf[k]] == Reset(steps[k].now))
    && (forall j, k :: j in resetOf && k in resetOf && j != k ==> resetOf[j] != resetOf[k])
  }

  /** Two takes in six steps, each with its own reset. */
  lemma TwoPaired(steps: seq<Step>, first: nat, reset1: nat, reset2: nat)
    requires |steps| == 6 && reset1 < first < 5 && reset2 < 5 && reset1 != reset2
    requires forall k :: 0 <= k < 5 && steps[k].Take? ==> k == first
    requires steps[first].Take? && steps[5].Take?
    requires steps[reset1] == Reset(steps[first].now) && steps[reset2] == Reset(steps[5].now)
    ensures PairsClaims(steps, map[first := reset1, 5 := reset2])
  {
    var resetOf := map[first := reset1, 5 := reset2];
    forall k | 0 <= k < |steps| && steps[k].Take?
      ensures k in resetOf && resetOf[k] < k && steps[resetOf[k]] == Reset(steps[k].now)
    {
      if k != 5 { assert k == first; }
    }
  }

  function Prompt(key: string, session: Option<SessionId>): NewRequest {
    NewRequest(session, Human, 7, 0, key, Normal)
  }

  function Row(key: string, at: int, status: Status, attempts: nat, turn: nat): Request {
    Request(0, 7, Normal, 0, key, at, status, attempts, turn, false, None)
  }

  function PromptWaits(): State {
    State(map[0 := Row("a", 0, Pending, 0, 0)], map[], map[], {0})
  }

  function PromptRuns(until: int): State {
    State(map[0 := Row("a", 0, Processing, 1, 1)], map[0 := Lease(1, 1, until)], map[0 := 1], {0})
  }

  function SecondWaits(until: int): State {
    State(map[0 := Row("a", 0, Processing, 1, 1), 1 := Row("b", 60, Pending, 0, 0)],
          map[0 := Lease(1, 1, until)], map[0 := 1], {0})
  }

  lemma PromptArrives(c: Config, now: int)
    requires c.pendingCap >= 1
    ensures EnqueueTx(c, EMPTY, Prompt("a", None), 0, 0, 0) == PromptWaits()
    ensures ResetTx(c, PromptWaits(), now) == PromptWaits()
  {
    assert PendingIn(EMPTY, 0) == {};
  }

  lemma PromptTaken(c: Config, now: int)
    ensures Candidate(PromptWaits(), 0, now) && TakeTx(c, PromptWaits(), 0, 1, now) == PromptRuns(now + c.ttl)
  {
  }

  lemma SecondPrompt(c: Config, until: int)
    requires c.pendingCap >= 1
    ensures EnqueueTx(c, PromptRuns(until), Prompt("b", Some(0)), 1, 9, 60) == SecondWaits(until)
  {
    var s := PromptRuns(until);
    assert PendingIn(s, 0) == {} && "a"[0] != "b"[0];
    assert !KeyTaken(s, 0, "b");
  }

  /**
   Request 0 opens session 0, worker 1 claims it at clock reading `now`, and a second prompt arrives while it
   runs. Another worker's reset, at reading `other`, falls between the claim's two transactions.
   */
  lemma OneClaimOneWaiting(c: Config, now: int, other: int) returns (steps: seq<Step>)
    requires c.pendingCap >= 1
    ensures steps == [Enqueue(Prompt("a", None), 0, 0, 0), Reset(now), Reset(other), Take(1, 0, now),
                      Enqueue(Prompt("b", Some(0)), 1, 9, 60)]
    ensures IsRun(c, steps) && After(c, steps) == SecondWaits(now + c.ttl)
  {
    PromptArrives(c, now);
    PromptArrives(c, other);
    PromptTaken(c, now);
    SecondPrompt(c, now + c.ttl);
    Extend(c, [], Enqueue(Prompt("a", None), 0, 0, 0));
    steps := [] + [Enqueue(Prompt("a", None), 0, 0, 0)];
    Extend(c, steps, Reset(now));
    steps := steps + [Reset(now)];
    Extend(c, steps, Reset(other));
    steps := steps + [Reset(other)];
    Extend(c, steps, Take(1, 0, now));
    steps := steps + [Take(1, 0, now)];
    Extend(c, steps, Enqueue(Prompt("b", Some(0)), 1, 9, 60));
    steps := steps + [Enqueue(Prompt("b", Some(0)), 1, 9, 60)];
  }

  function LosingRun(): seq<Step> {
    [Enqueue(Prompt("a", None), 0, 0, 0), Reset(50), Reset(100), Take(1, 0, 50),
     Enqueue(Prompt("b", Some(0)), 1, 9, 60), Take(2, 1, 100)]
  }

  lemma LosingRunPairs()
    ensures PairsClaims(LosingRun(), map[3 := 1, 5 := 2])
    ensures forall k :: 0 <= k < |LosingRun()| ==> !LosingRun()[k].Release?
  {
    TwoPaired(LosingRun(), 3, 1, 2);
  }

  lemma SecondOverwrites(c: Config)
    ensures Candidate(SecondWaits(80), 1, 100) && Stranded(TakeTx(c, SecondWaits(80), 0, 2, 100), 0)
  {
  }

  /**
   The code runs reset and take as two transactions. Two workers claim at readings 50 and 100; both resets
   commit, then the slower worker's take, and its lease runs out at 80. The second take overwrites it: row 0 is
   lost for good, although no worker released anything and every claim did its own reset first.
   */
  lemma SplitClaimLosesWork() returns (c: Config, steps: seq<Step>, resetOf: map<nat, nat>)
    ensures c.maxAttempts >= 1 && IsRun(c, steps) && Stranded(After(c, steps), 0)
    ensures PairsClaims(steps, resetOf)
    ensures forall k :: 0 <= k < |steps| ==> !steps[k].Release?
  {
    c := Config(32, 3, 30);
    var front := OneClaimOneWaiting(c, 50, 100);
    SecondOverwrites(c);
    Extend(c, front, Take(2, 1, 100));
    steps := LosingRun();
    assert steps == front + [Take(2, 1, 100)];
    LosingRunPairs();
    resetOf := map[3 := 1, 5 := 2];
  }

  /** The cap alone is not an invariant: with cap 1 and two attempts a session reaches 1 * 2 pending rows. */
  lemma CapIsExceeded() returns (c: Config, steps: seq<Step>)
    ensures c == Config(1, 2, 30) && IsRun(c, steps)
    ensures |PendingIn(After(c, steps), 0)| == c.maxAttempts * c.pendingCap > c.pendingCap
  {
    c := Config(1, 2, 30);
    var front := OneClaimOneWaiting(c, 0, 0);
    ReclaimedBoth(c);
    Extend(c, front, Reset(30));
    steps := front + [Reset(30)];
  }

  lemma ReclaimedBoth(c: Config)
    requires c == Config(1, 2, 30)
    ensures PendingIn(ResetTx(c, SecondWaits(30), 30), 0) == {0, 1}
  {
  }

  // ----- per-agent mutual exclusion of memory-mutating jobs

  predicate MutatingUnderLease(s: State, id: RequestId) {
    && id in s.requests
    && s.requests[id].status == Processing && s.requests[id].kind != Normal
    && s.requests[id].session in s.leases
  }

  ghost predicate OneMutatorPerAgent(s: State) {
    forall i, j ::
      (MutatingUnderLease(s, i) && MutatingUnderLease(s, j) && s.requests[i].receiver == s.requests[j].receiver)
      ==> s.requests[i].session == s.requests[j].session
  }

  /** All requests of one session have one kind and one receiver. */
  predicate Homogeneous(s: State) {
    forall i, j :: i in s.requests && j in s.requests && s.requests[i].session == s.requests[j].session ==>
      s.requests[i].kind == s.requests[j].kind && s.requests[i].receiver == s.requests[j].receiver
  }

  lemma HomogeneousBefore(c: Config, s: State, step: Step)
    requires Enabled(s, step) && Homogeneous(Apply(c, s, step))
    ensures Homogeneous(s)
  {
    RowsKeepIdentity(c, s, step);
    var s' := Apply(c, s, step);
    forall i, j | i in s.requests && j in s.requests && s.requests[i].session == s.requests[j].session
      ensures s.requests[i].kind == s.requests[j].kind && s.requests[i].receiver == s.requests[j].receiver
    {
      assert SameIdentity(s.requests[i], s'.requests[i]) && SameIdentity(s.requests[j], s'.requests[j]);
    }
  }

  /** Only a claim can add a mutating row under lease; everything else keeps or drops them. */
  lemma MutatorsBefore(c: Config, s: State, step: Step, id: RequestId)
    requires Inv(c, s) && Enabled(s, step) && MutatingUnderLease(Apply(c, s, step), id)
    requires step.Take? ==> s.requests[id].session != s.requests[step.id].session
    ensures MutatingUnderLease(s, id)
    ensures SameIdentity(s.requests[id], Apply(c, s, step).requests[id])
  {
    RowsKeepIdentity(c, s, step);
  }

  /** A claim of mutating work for an agent that has such work running under another session's lease. */
  predicate Doubles(s: State, step: Step)
    requires Enabled(s, step)
  {
    && step.Take? && s.requests[step.id].kind != Normal
    && exists other :: other in s.requests && MutatingUnderLease(s, other) && Rivals(s, step.id, other)
  }

  predicate Rivals(s: State, id: RequestId, other: RequestId)
    requires id in s.requests && other in s.requests
  {
    s.requests[other].receiver == s.requests[id].receiver && s.requests[other].session != s.requests[id].session
  }

  /** Such a lease is overdue at the claim's reading: the candidate query looks at live leases only. */
  lemma DoublesUnderOverdueLease(s: State, step: Step, other: RequestId)
    requires Enabled(s, step) && step.Take? && s.requests[step.id].kind != Normal
    requires MutatingUnderLease(s, other) && Rivals(s, step.id, other)
    ensures s.leases[s.requests[other].session].until <= step.now
  {
    if s.leases[s.requests[other].session].until > step.now {
      assert LiveLease(s, s.requests[other].session, step.now);
      assert AgentBusy(s, s.requests[step.id].receiver, step.now);
      assert false;
    }
  }

  lemma ClaimKeepsOneMutator(c: Config, s: State, step: Step, i: RequestId, j: RequestId)
    requires Inv(c, s) && Enabled(s, step) && step.Take? && Homogeneous(s) && !Doubles(s, step)
    requires MutatingUnderLease(Apply(c, s, step), i) && MutatingUnderLease(Apply(c, s, step), j)
    requires s.requests[i].receiver == s.requests[j].receiver
    requires s.requests[i].session == s.requests[step.id].session
    ensures s.requests[j].session == s.requests[i].session
  {
    if s.requests[j].session != s.requests[i].session {
      MutatorsBefore(c, s, step, j);
      assert s.requests[i].kind == s.requests[step.id].kind;
      assert Rivals(s, step.id, j);
      assert false;
    }
  }

  lemma {:induction false} OneMutatorStep(c: Config, s: State, step: Step)
    requires Inv(c, s) && Enabled(s, step) && Homogeneous(s) && OneMutatorPerAgent(s) && !Doubles(s, step)
    ensures OneMutatorPerAgent(Apply(c, s, step))
  {
    var s' := Apply(c, s, step);
    RowsKeepIdentity(c, s, step);
    forall i, j | MutatingUnderLease(s', i) && MutatingUnderLease(s', j)
        && s'.requests[i].receiver == s'.requests[j].receiver
      ensures s'.requests[i].session == s'.requests[j].session
    {
      if step.Take? && s.requests[i].session == s.requests[step.id].session {
        ClaimKeepsOneMutator(c, s, step, i, j);
      } else if step.Take? && s.requests[j].session == s.requests[step.id].session {
        ClaimKeepsOneMutator(c, s, step, j, i);
      } else {
        MutatorsBefore(c, s, step, i);
        MutatorsBefore(c, s, step, j);
      }
    }
  }

  /** After such a claim both jobs run under a lease. */
  lemma {:induction false} DoublingStep(c: Config, s: State, step: Step)
    requires Enabled(s, step) && Doubles(s, step)
    ensures !OneMutatorPerAgent(Apply(c, s, step))
  {
    var s' := Apply(c, s, step);
    var other :| other in s.requests && MutatingUnderLease(s, other) && Rivals(s, step.id, other);
    assert s'.requests[other] == s.requests[other] && MutatingUnderLease(s', other);
    var r := s.requests[step.id];
    assert s'.requests[step.id] == Drained(r, r.session, LastTurn(s, r.session) + 1);
    assert MutatingUnderLease(s', step.id);
  }

  /** At no point of the run do two leased sessions run mutating work for one agent. */
  ghost predicate AlwaysExcludes(c: Config, steps: seq<Step>)
    requires IsRun(c, steps)
  {
    OneMutatorPerAgent(After(c, steps)) && (steps == [] || AlwaysExcludes(c, steps[..|steps| - 1]))
  }

  ghost predicate NeverDoubles(c: Config, steps: seq<Step>)
    requires IsRun(c, steps)
  {
    steps == [] ||
    (NeverDoubles(c, steps[..|steps| - 1]) && !Doubles(After(c, steps[..|steps| - 1]), steps[|steps| - 1]))
  }

  /**
   Per-agent exclusion of Reflection and Resolution work, with reset and take as the two transactions they are:
   it holds at every point of a run if and only if no claim takes such work for an agent that already has some
   running under another session's (overdue) lease.
   */
  lemma {:induction false} ExcludesIffNeverDoubles(c: Config, steps: seq<Step>)
    requires c.maxAttempts >= 1 && IsRun(c, steps) && Homogeneous(After(c, steps))
    ensures AlwaysExcludes(c, steps) <==> NeverDoubles(c, steps)
  {
    if steps != [] {
      var before, last := steps[..|steps| - 1], steps[|steps| - 1];
      var s := After(c, before);
      HomogeneousBefore(c, s, last);
      ExcludesIffNeverDoubles(c, before);
      ReachableInv(c, before);
      if Doubles(s, last) {
        DoublingStep(c, s, last);
      } else if AlwaysExcludes(c, before) {
        ExcludesNow(c, before);
        OneMutatorStep(c, s, last);
      }
    }
  }

  lemma ExcludesNow(c: Config, steps: seq<Step>)
    requires IsRun(c, steps) && AlwaysExcludes(c, steps)
    ensures OneMutatorPerAgent(After(c, steps))
  {
  }

  /**
   So with atomic claims no reachable state has two leased sessions running Reflection or Resolution
   work for one agent. Leases may be released early, revived by late heartbeats, or left to expire.
   */
  lemma {:induction false} MutatorsExclude(c: Config, steps: seq<Step>)
    requires c.maxAttempts >= 1 && IsRun(c, steps) && AtomicClaims(steps) && Homogeneous(After(c, steps))
    ensures AlwaysExcludes(c, steps)
  {
    AtomicNeverDoubles(c, steps);
    ExcludesIffNeverDoubles(c, steps);
  }

  lemma {:induction false} AtomicNeverDoubles(c: Config, steps: seq<Step>)
    requires IsRun(c, steps) && AtomicClaims(steps)
    ensures NeverDoubles(c, steps)
  {
    if steps != [] {
      var before, last := steps[..|steps| - 1], steps[|steps| - 1];
      var s := After(c, before);
      AtomicClaimsPrefix(steps);
      AtomicNeverDoubles(c, before);
      if Doubles(s, last) {
        var other :| other in s.requests && MutatingUnderLease(s, other) && Rivals(s, last.id, other);
        DoublesUnderOverdueLease(s, last, other);
        AtomicClaimSeesNoOverdueLease(c, steps);
        assert false;
      }
    }
  }

  function Reflect(key: string): NewRequest {
    NewRequest(None, Human, 7, 0, key, Reflection)
  }

  function ReflectionRow(session: SessionId, key: string, at: int, status: Status, attempts: nat, turn: nat): Request {
    Request(session, 7, Reflection, 0, key, at, status, attempts, turn, false, None)
  }

  const SLOW := Config(32, 3, 30)

  function OneWaits(): State {
    State(map[0 := ReflectionRow(0, "a", 0, Pending, 0, 0)], map[], map[], {0})
  }

  function BothWait(): State {
    State(map[0 := ReflectionRow(0, "a", 0, Pending, 0, 0), 1 := ReflectionRow(1, "b", 1, Pending, 0, 0)],
          map[], map[], {0, 1})
  }

  function OneRuns(): State {
    State(map[0 := ReflectionRow(0, "a", 0, Processing, 1, 1), 1 := ReflectionRow(1, "b", 1, Pending, 0, 0)],
          map[0 := Lease(1, 1, 80)], map[0 := 1], {0, 1})
  }

  lemma FirstArrives()
    ensures EnqueueTx(SLOW, EMPTY, Reflect("a"), 0, 0, 0) == OneWaits()
  {
    assert PendingIn(EMPTY, 0) == {};
  }

  lemma SecondArrives()
    ensures EnqueueTx(SLOW, OneWaits(), Reflect("b"), 1, 1, 1) == BothWait()
  {
    var s := OneWaits();
    assert PendingIn(s, 1) == {} && "a"[0] != "b"[0];
    assert !KeyTaken(s, 0, "b");
  }

  lemma NothingToReset(now: int)
    ensures ResetTx(SLOW, BothWait(), now) == BothWait()
  {
  }

  lemma FirstTakes()
    ensures Candidate(BothWait(), 0, 50) && TakeTx(SLOW, BothWait(), 0, 1, 50) == OneRuns()
  {
  }

  lemma SecondMayTake()
    ensures Enabled(OneRuns(), Take(2, 1, 100)) && Doubles(OneRuns(), Take(2, 1, 100))
  {
    var s := OneRuns();
    assert Candidate(s, 1, 100);
    assert MutatingUnderLease(s, 0) && Rivals(s, 1, 0);
  }

  lemma SecondTakes()
    ensures Enabled(OneRuns(), Take(2, 1, 100))
    ensures !OneMutatorPerAgent(Apply(SLOW, OneRuns(), Take(2, 1, 100)))
    ensures Homogeneous(Apply(SLOW, OneRuns(), Take(2, 1, 100)))
  {
    SecondMayTake();
    DoublingStep(SLOW, OneRuns(), Take(2, 1, 100));
    SeparateSessions(SLOW, OneRuns(), Take(2, 1, 100));
  }

  function DoublingRun(): seq<Step> {
    [Enqueue(Reflect("a"), 0, 0, 0), Enqueue(Reflect("b"), 1, 1, 1), Reset(50), Reset(100),
     Take(1, 0, 50), Take(2, 1, 100)]
  }

  lemma DoublingRunPairs()
    ensures PairsClaims(DoublingRun(), map[4 := 2, 5 := 3])
  {
    TwoPaired(DoublingRun(), 4, 2, 3);
  }

  /** The first of two claims, at reading 50, with the second claimer's reset at 100 in between. */
  lemma SlowClaim() returns (steps: seq<Step>)
    ensures steps == [Enqueue(Reflect("a"), 0, 0, 0), Enqueue(Reflect("b"), 1, 1, 1), Reset(50), Reset(100),
                      Take(1, 0, 50)]
    ensures IsRun(SLOW, steps) && After(SLOW, steps) == OneRuns()
  {
    FirstArrives();
    SecondArrives();
    NothingToReset(50);
    NothingToReset(100);
    FirstTakes();
    Extend(SLOW, [], Enqueue(Reflect("a"), 0, 0, 0));
    steps := [Enqueue(Reflect("a"), 0, 0, 0)];
    assert [] + steps == steps;
    Extend(SLOW, steps, Enqueue(Reflect("b"), 1, 1, 1));
    steps := steps + [Enqueue(Reflect("b"), 1, 1, 1)];
    Extend(SLOW, steps, Reset(50));
    steps := steps + [Reset(50)];
    Extend(SLOW, steps, Reset(100));
    steps := steps + [Reset(100)];
    Extend(SLOW, steps, Take(1, 0, 50));
    steps := steps + [Take(1, 0, 50)];
  }

  /**
   Two sessions wait with a Reflection for one agent. Two workers claim at readings 50 and 100 and both reset
   before either takes; when the second one takes, the first lease is overdue at its reading, so its query does
   not see it. Both Reflections run, each under its own lease.
   */
  lemma SplitClaimsDouble() returns (steps: seq<Step>, resetOf: map<nat, nat>)
    ensures IsRun(SLOW, steps) && Homogeneous(After(SLOW, steps)) && PairsClaims(steps, resetOf)
    ensures !OneMutatorPerAgent(After(SLOW, steps))
  {
    var front := SlowClaim();
    SecondTakes();
    Extend(SLOW, front, Take(2, 1, 100));
    steps := DoublingRun();
    assert steps == front + [Take(2, 1, 100)];
    DoublingRunPairs();
    resetOf := map[4 := 2, 5 := 3];
  }

  /** With one request for each session, sessions are homogeneous. */
  lemma SeparateSessions(c: Config, s: State, step: Step)
    requires Enabled(s, step) && !step.Enqueue?
    requires forall i, j ::
               i in s.requests && j in s.requests && s.requests[i].session == s.requests[j].session ==> i == j
    ensures Homogeneous(Apply(c, s, step))
  {
    RowsKeepIdentity(c, s, step);
    var s' := Apply(c, s, step);
    forall i, j | i in s'.requests && j in s'.requests && s'.requests[i].session == s'.requests[j].session
      ensures i == j
    {
      assert SameIdentity(s.requests[i], s'.requests[i]) && SameIdentity(s.requests[j], s'.requests[j]);
    }
  }

  // ----- the pending cap

  /** Rows of `session` tried `k` times that are waiting or running under its current lease. */
  function AtLevel(s: State, session: SessionId, k: nat): set<RequestId> {
    set id | id in PendingIn(s, session) + InFlight(s, session) && s.requests[id].attempts == k
  }

  ghost predicate LevelsCapped(c: Config, s: State) {
    forall session, k :: |AtLevel(s, session, k)| <= c.pendingCap
  }

  /** Where a row at level `k` after a step was before it. */
  lemma LevelBefore(c: Config, s: State, step: Step, session: SessionId, k: nat, id: RequestId)
    requires Inv(c, s) && Enabled(s, step) && id in AtLevel(Apply(c, s, step), session, k)
    ensures if step.Take? && session == s.requests[step.id].session then k > 0 && id in AtLevel(s, session, k - 1)
            else if id in s.requests then id in AtLevel(s, session, k)
            else k == 0 && id in PendingIn(Apply(c, s, step), session)
  {
    if id in s.requests { assert RequestOk(c, s, s.requests[id]); }
  }

  lemma LevelsStayCapped(c: Config, s: State, step: Step, session: SessionId, k: nat)
    requires Inv(c, s) && Enabled(s, step) && LevelsCapped(c, s)
    ensures |AtLevel(Apply(c, s, step), session, k)| <= c.pendingCap
  {
    var level' := AtLevel(Apply(c, s, step), session, k);
    forall id | id in level'
      ensures if step.Take? && session == s.requests[step.id].session then k > 0 && id in AtLevel(s, session, k - 1)
              else id in s.requests ==> id in AtLevel(s, session, k)
    {
      LevelBefore(c, s, step, session, k, id);
    }
    if step.Take? && session == s.requests[step.id].session {
      var upper := if k == 0 then {} else AtLevel(s, session, k - 1);
      SubsetSize(level', upper);
    } else if level' <= AtLevel(s, session, k) {
      SubsetSize(level', AtLevel(s, session, k));
    } else {
      NewcomerFits(c, s, step, session, k);
    }
  }

  lemma NewcomerEnqueued(c: Config, s: State, step: Step, session: SessionId, k: nat, id: RequestId)
    requires Inv(c, s) && Enabled(s, step)
    requires !(step.Take? && session == s.requests[step.id].session)
    requires id in AtLevel(Apply(c, s, step), session, k) && id !in AtLevel(s, session, k)
    ensures step.Enqueue? && id == step.id && session == TargetSession(step.req, step.minted)
    ensures id !in s.requests
  {
    LevelBefore(c, s, step, session, k, id);
    RowsKeepIdentity(c, s, step);
  }

  /** The only way a level gains a row without losing one below it: an admitted enqueue. */
  lemma NewcomerFits(c: Config, s: State, step: Step, session: SessionId, k: nat)
    requires Inv(c, s) && Enabled(s, step)
    requires !(step.Take? && session == s.requests[step.id].session)
    requires !(AtLevel(Apply(c, s, step), session, k) <= AtLevel(s, session, k))
    ensures |AtLevel(Apply(c, s, step), session, k)| <= c.pendingCap
  {
    var s' := Apply(c, s, step);
    var id :| id in AtLevel(s', session, k) && id !in AtLevel(s, session, k);
    NewcomerEnqueued(c, s, step, session, k, id);
    var bound := PendingIn(s, session) + {id};
    forall other | other in AtLevel(s', session, k) ensures other in bound {
      if other != id { assert RequestOk(c, s, s.requests[other]); }
    }
    SubsetSize(AtLevel(s', session, k), bound);
  }

  lemma {:induction false} ReachableLevels(c: Config, steps: seq<Step>)
    requires c.maxAttempts >= 1 && IsRun(c, steps)
    ensures LevelsCapped(c, After(c, steps))
  {
    if steps == [] {
      assert forall session, k :: AtLevel(EMPTY, session, k) == {};
    } else {
      var before, last := steps[..|steps| - 1], steps[|steps| - 1];
      ReachableLevels(c, before);
      ReachableInv(c, before);
      forall session, k ensures |AtLevel(After(c, steps), session, k)| <= c.pendingCap {
        LevelsStayCapped(c, After(c, before), last, session, k);
      }
    }
  }

  function PendingBelow(s: State, session: SessionId, k: nat): set<RequestId> {
    set id | id in PendingIn(s, session) && s.requests[id].attempts < k
  }

  lemma {:induction false} PendingBelowBounded(c: Config, s: State, session: SessionId, k: nat)
    requires LevelsCapped(c, s)
    ensures |PendingBelow(s, session, k)| <= k * c.pendingCap
  {
    if k == 0 {
      assert PendingBelow(s, session, 0) == {};
    } else {
      PendingBelowBounded(c, s, session, k - 1);
      var below, level := PendingBelow(s, session, k - 1), AtLevel(s, session, k - 1);
      assert PendingBelow(s, session, k) <= below + level;
      SubsetSize(PendingBelow(s, session, k), below + level);
      OneMore(k - 1, c.pendingCap);
    }
  }

  /** A session never has more than maxAttempts * pendingCap pending rows. */
  lemma PendingBounded(c: Config, steps: seq<Step>, session: SessionId)
    requires c.maxAttempts >= 1 && IsRun(c, steps)
    ensures |PendingIn(After(c, steps), session)| <= c.maxAttempts * c.pendingCap
  {
    var s := After(c, steps);
    ReachableInv(c, steps);
    ReachableLevels(c, steps);
    PendingBelowBounded(c, s, session, c.maxAttempts);
    assert PendingIn(s, session) == PendingBelow(s, session, c.maxAttempts) by {
      forall id | id in PendingIn(s, session) ensures s.requests[id].attempts < c.maxAttempts {
        assert RequestOk(c, s, s.requests[id]);
      }
    }
  }

  /** Rows a reset at `now` puts back into `session`'s pending set. */
  function Returning(c: Config, s: State, session: SessionId, now: int): set<RequestId> {
    if session in Expired(s, now) then
      set id | id in InFlight(s, session) && s.requests[id].attempts < c.maxAttempts
    else {}
  }

  /** Which rows are pending after a step. */
  lemma PendingAfter(c: Config, s: State, step: Step, session: SessionId, id: RequestId)
    requires Inv(c, s) && Enabled(s, step)
    ensures id in PendingIn(Apply(c, s, step), session) ==>
              || id in PendingIn(s, session)
              || (step.Reset? && id in Returning(c, s, session, step.now))
              || (step.Enqueue? && id == step.id && AdmissionOf(c, s, step.req, step.minted) == Admit
                  && session == TargetSession(step.req, step.minted))
    ensures step.Reset? && id in PendingIn(s, session) + Returning(c, s, session, step.now) ==>
              id in PendingIn(Apply(c, s, step), session)
  {
    if id in s.requests { assert RequestOk(c, s, s.requests[id]); }
  }

  lemma ResetRefills(c: Config, s: State, session: SessionId, now: int)
    requires Inv(c, s)
    ensures |PendingIn(ResetTx(c, s, now), session)| ==
              |PendingIn(s, session)| + |Returning(c, s, session, now)|
  {
    var pending, returning := PendingIn(s, session), Returning(c, s, session, now);
    assert PendingIn(ResetTx(c, s, now), session) == pending + returning by {
      forall id ensures id in PendingIn(ResetTx(c, s, now), session) <==> id in pending + returning {
        PendingAfter(c, s, Reset(now), session, id);
      }
    }
    assert pending !! returning;
  }

  lemma OthersKeepCap(c: Config, s: State, step: Step, session: SessionId)
    requires Inv(c, s) && Enabled(s, step) && !step.Reset? && |PendingIn(s, session)| <= c.pendingCap
    ensures |PendingIn(Apply(c, s, step), session)| <= c.pendingCap
  {
    var pending, pending' := PendingIn(s, session), PendingIn(Apply(c, s, step), session);
    forall id | id in pending' && id !in pending
      ensures step.Enqueue? && id == step.id && |pending| < c.pendingCap
    {
      PendingAfter(c, s, step, session, id);
    }
    if pending' <= pending {
      SubsetSize(pending', pending);
    } else {
      SubsetSize(pending', pending + {step.id});
    }
  }

  /** A reset is the only step that can push a session over its cap, and does so exactly when too much returns. */
  lemma CapBrokenOnlyByReset(c: Config, s: State, step: Step, session: SessionId)
    requires Inv(c, s) && Enabled(s, step) && |PendingIn(s, session)| <= c.pendingCap
    ensures |PendingIn(Apply(c, s, step), session)| > c.pendingCap <==>
              step.Reset? && |PendingIn(s, session)| + |Returning(c, s, session, step.now)| > c.pendingCap
  {
    if step.Reset? {
      ResetRefills(c, s, session, step.now);
    } else {
      OthersKeepCap(c, s, step, session);
    }
  }
}
