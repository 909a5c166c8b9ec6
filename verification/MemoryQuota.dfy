/** The per-agent cap on memories: what raises the number of rows, what brings it down, and the assertion on reads. */
module MemoryQuota {
  import opened Common
  import opened Memory
  import opened MemoryRuns
  import opened MemoryReplay
  import opened MemoryHistory

  const MAX_MEMORIES_PER_AGENT: nat := 1024

  /** Listing an agent's memories probes one row past the cap and asserts that it is not there. */
  predicate ListPanics(s: Store, agent: AgentId) {
    |OwnRows(s, agent)| > MAX_MEMORIES_PER_AGENT
  }

  /** The steps that add a row for the agent: a write, and the restore of a memory that is not live. */
  predicate Adds(s: Store, step: Step, agent: AgentId) {
    match step
    case DoWrite(_, owner, _, _, _, _, _, _, _) => owner == agent
    case DoRevert(owner, event, _, _) =>
      && owner == agent && HasEvent(s, owner, event) && s.journal[event].payload.Forget?
      && s.journal[event].target !in s.rows && Attempt(s, step).Ok?
    case _ => false
  }

  function AddedId(s: Store, step: Step, agent: AgentId): MemoryId
    requires Adds(s, step, agent)
  {
    match step
    case DoWrite(id, _, _, _, _, _, _, _, _) => id
    case DoRevert(_, event, _, _) => s.journal[event].target
  }

  lemma {:induction false} HoldAllOwn(s: Store, order: seq<MemoryId>, now: int, agent: AgentId)
    ensures OwnRows(HoldAll(s, order, now), agent) == OwnRows(s, agent)
  {
    if order != [] { HoldAllOwn(s, order[..|order| - 1], now, agent); }
  }

  lemma AddsOne(s: Store, step: Step, agent: AgentId)
    requires Enabled(s, step) && Adds(s, step, agent)
    ensures AddedId(s, step, agent) !in OwnRows(s, agent)
    ensures OwnRows(Apply(s, step), agent) == OwnRows(s, agent) + {AddedId(s, step, agent)}
  {
  }

  lemma OthersAddNone(s: Store, step: Step, agent: AgentId)
    requires Base(s) && Enabled(s, step) && OrderlyRead(s, step) && !Adds(s, step, agent)
    ensures OwnRows(Apply(s, step), agent) <= OwnRows(s, agent)
  {
    match step
    case DoRevert(_, _, _, _) => RevertAddsNone(s, step, agent);
    case DoDecay(_, _, order, now) => HoldAllOwn(s, order, now, agent);
    case DoMature(_, _, _, order, now) => HoldAllOwn(s, order, now, agent);
    case DoEvict(_, _, order, now) => RemoveAllRows(s, order, now);
    case DoRebuild(owner, read) => if RebuildTx(s, owner, read).Ok? { RebuildRestores(s, owner, read); }
    case _ =>
  }

  lemma RevertAddsNone(s: Store, step: Step, agent: AgentId)
    requires step.DoRevert? && !Adds(s, step, agent)
    ensures OwnRows(Apply(s, step), agent) <= OwnRows(s, agent)
  {
  }

  /** Exactly these steps raise the number of an agent's rows, each by one; no bound is looked at. */
  lemma RaisedExactlyByAdds(s: Store, step: Step, agent: AgentId)
    requires Base(s) && Enabled(s, step) && OrderlyRead(s, step)
    ensures |OwnRows(Apply(s, step), agent)| > |OwnRows(s, agent)| <==> Adds(s, step, agent)
    ensures |OwnRows(Apply(s, step), agent)| <= |OwnRows(s, agent)| + 1
  {
    if Adds(s, step, agent) {
      AddsOne(s, step, agent);
    } else {
      OthersAddNone(s, step, agent);
      SubsetSize(OwnRows(Apply(s, step), agent), OwnRows(s, agent));
    }
  }

  /** A sweep's eviction brings an agent back under its quota if and only if its pinned rows fit. */
  lemma SweepRestoresIffPinnedFit(s: Store, agent: AgentId, quota: nat, order: seq<MemoryId>, now: int)
    requires EvictionChoice(s, agent, quota, order)
    ensures |OwnRows(RemoveAll(s, order, now), agent)| <= quota <==>
              |OwnRows(s, agent) - Evictable(s, agent)| <= quota
  {
    EvictionCount(s, agent, quota, order, now);
    SubsetSize(OwnRows(s, agent) - Evictable(s, agent), OwnRows(s, agent));
  }

  /** In the agent's turn 0, memory number `n` is written. */
  function Nth(agent: AgentId, n: nat): Step {
    DoWrite(n, agent, Other, "x", Tentative, false, Turn(0), 0, n)
  }

  /** The memories of `s` are the agent's and numbered below `n`. */
  ghost predicate Numbered(s: Store, agent: AgentId, n: nat) {
    && |OwnRows(s, agent)| == n
    && (forall id :: id in s.rows ==> id < n)
    && forall i :: 0 <= i < |s.journal| ==> s.journal[i].target < n
  }

  ghost predicate WritesOnly(steps: seq<Step>, agent: AgentId) {
    forall k :: 0 <= k < |steps| ==> steps[k] == Nth(agent, k)
  }

  lemma NextWrite(s: Store, agent: AgentId, n: nat)
    requires Numbered(s, agent, n)
    ensures Enabled(s, Nth(agent, n)) && Numbered(Apply(s, Nth(agent, n)), agent, n + 1)
  {
    assert Unseen(s, n);
    AddsOne(s, Nth(agent, n), agent);
  }

  lemma OneMore(before: seq<Step>, agent: AgentId, n: nat) returns (steps: seq<Step>)
    requires IsRun(before) && Numbered(After(before), agent, n)
    ensures IsRun(steps) && steps == before + [Nth(agent, n)] && Numbered(After(steps), agent, n + 1)
  {
    NextWrite(After(before), agent, n);
    steps := Extend(before, Nth(agent, n));
  }

  lemma NoneYet(agent: AgentId)
    ensures Numbered(EMPTY, agent, 0)
  {
  }

  lemma StillWrites(steps: seq<Step>, agent: AgentId, next: Step)
    requires WritesOnly(steps, agent) && next == Nth(agent, |steps|)
    ensures WritesOnly(steps + [next], agent)
  {
  }

  /** An agent's turns can write any number of memories. */
  lemma {:induction false} WritesAreNotCapped(agent: AgentId, n: nat) returns (steps: seq<Step>)
    ensures IsRun(steps) && |steps| == n && WritesOnly(steps, agent)
    ensures Numbered(After(steps), agent, n)
  {
    if n == 0 {
      NoneYet(agent);
      steps := [];
    } else {
      var before := WritesAreNotCapped(agent, n - 1);
      StillWrites(before, agent, Nth(agent, n - 1));
      steps := OneMore(before, agent, n - 1);
    }
  }

  /** A run of nothing but an agent's own writes, after which reading its memories fails the assertion. */
  lemma ReadReachesAssertion() returns (steps: seq<Step>)
    ensures IsRun(steps) && ListPanics(After(steps), 1)
    ensures WritesOnly(steps, 1)
  {
    steps := WritesAreNotCapped(1, MAX_MEMORIES_PER_AGENT + 1);
  }
}
