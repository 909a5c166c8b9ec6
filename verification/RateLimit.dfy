/**
 The per-user sliding-window limiter of the test-connect endpoint.

 Times are nanoseconds since the monotonic clock's origin. The bucket map is bounded: an admit that
 pushes it over the bound evicts the least recently touched other bucket.
 */
module RateLimit {
  import opened Common

  type UserId = nat

  const PER_MINUTE: nat := 10
  const BUCKETS_MAX: nat := 4096
  const WINDOW: nat := 60_000_000_000

  datatype Bucket = Bucket(samples: seq<nat>, lastTouched: nat)

  type Buckets = map<UserId, Bucket>

  predicate Stale(t: nat, now: nat) {
    t + WINDOW < now
  }

  function Pruned(samples: seq<nat>, now: nat): seq<nat> {
    if samples != [] && Stale(samples[0], now) then Pruned(samples[1..], now) else samples
  }

  function SamplesOf(buckets: Buckets, user: UserId): seq<nat> {
    if user in buckets then buckets[user].samples else []
  }

  predicate Admits(buckets: Buckets, user: UserId, now: nat) {
    |Pruned(SamplesOf(buckets, user), now)| < PER_MINUTE
  }

  /** The buckets after the call, before the bound on the map is looked at. */
  function Recorded(buckets: Buckets, user: UserId, now: nat): Buckets {
    var kept := Pruned(SamplesOf(buckets, user), now);
    buckets[user := Bucket(if |kept| < PER_MINUTE then kept + [now] else kept, now)]
  }

  predicate IsLru(buckets: Buckets, user: UserId, victim: UserId) {
    && victim in buckets && victim != user
    && forall other :: other in buckets && other != user ==> buckets[victim].lastTouched <= buckets[other].lastTouched
  }

  predicate Evicts(buckets: Buckets, user: UserId, now: nat) {
    Admits(buckets, user, now) && |Recorded(buckets, user, now)| > BUCKETS_MAX
  }

  function After(buckets: Buckets, user: UserId, now: nat, victim: UserId): Buckets {
    if Evicts(buckets, user, now) then Recorded(buckets, user, now) - {victim} else Recorded(buckets, user, now)
  }

  /** One call may lead from `buckets` to `after`: it evicts at most a least recently touched other bucket. */
  ghost predicate Follows(buckets: Buckets, user: UserId, now: nat, after: Buckets) {
    exists victim :: EvictsOnly(buckets, user, now, victim) && after == After(buckets, user, now, victim)
  }

  predicate EvictsOnly(buckets: Buckets, user: UserId, now: nat, victim: UserId) {
    Evicts(buckets, user, now) ==> IsLru(Recorded(buckets, user, now), user, victim)
  }

  // ----- runs of calls, in the order they enter the lock; each read the clock before

  /** `victim` is the bucket the call evicts, when it evicts one. */
  datatype Call = Call(user: UserId, now: nat, victim: UserId)

  ghost predicate IsRun(calls: seq<Call>)
    decreases |calls|, 0
  {
    calls == [] ||
    (&& IsRun(calls[..|calls| - 1])
     && var b, c := Final(calls[..|calls| - 1]), calls[|calls| - 1];
        EvictsOnly(b, c.user, c.now, c.victim))
  }

  ghost function Final(calls: seq<Call>): Buckets
    requires IsRun(calls)
    decreases |calls|, 1
  {
    if calls == [] then map[]
    else
      var c := calls[|calls| - 1];
      After(Final(calls[..|calls| - 1]), c.user, c.now, c.victim)
  }

  /** The times at which `user` was admitted since its bucket was last evicted. */
  ghost function History(calls: seq<Call>, user: UserId): seq<nat>
    requires IsRun(calls)
  {
    if calls == [] then []
    else
      var b, c := Final(calls[..|calls| - 1]), calls[|calls| - 1];
      var log := History(calls[..|calls| - 1], user);
      if c.user == user then if Admits(b, user, c.now) then log + [c.now] else log
      else if Evicts(b, c.user, c.now) && c.victim == user then []
      else log
  }

  /** The reading of the user's last call since its bucket was last evicted. */
  ghost function LastReading(calls: seq<Call>, user: UserId): nat
    requires IsRun(calls)
  {
    if calls == [] then 0
    else
      var b, c := Final(calls[..|calls| - 1]), calls[|calls| - 1];
      if c.user == user then c.now
      else if Evicts(b, c.user, c.now) && c.victim == user then 0
      else LastReading(calls[..|calls| - 1], user)
  }

  /**
   The user's calls enter the lock in the order of their readings. A clock that does not go back is not enough for
   this: two calls may read it in one order and lock in the other.
   */
  ghost predicate OrderedFor(calls: seq<Call>, user: UserId)
    requires IsRun(calls)
  {
    calls == [] ||
    (&& OrderedFor(calls[..|calls| - 1], user)
     && (calls[|calls| - 1].user == user ==> LastReading(calls[..|calls| - 1], user) <= calls[|calls| - 1].now))
  }

  /** All times at which `user` was admitted. */
  ghost function AdmitTimes(calls: seq<Call>, user: UserId): seq<nat>
    requires IsRun(calls)
  {
    if calls == [] then []
    else
      var b, c := Final(calls[..|calls| - 1]), calls[|calls| - 1];
      var log := AdmitTimes(calls[..|calls| - 1], user);
      if c.user == user && Admits(b, user, c.now) then log + [c.now] else log
  }

  ghost predicate NeverEvicted(calls: seq<Call>, user: UserId)
    requires IsRun(calls)
  {
    calls == [] ||
    (&& NeverEvicted(calls[..|calls| - 1], user)
     && var b, c := Final(calls[..|calls| - 1]), calls[|calls| - 1];
        !(c.user != user && Evicts(b, c.user, c.now) && c.victim == user))
  }

  /** How many of these admits are no more than a minute old now. */
  function Recent(log: seq<nat>, now: nat): nat {
    if log == [] then 0
    else Recent(log[..|log| - 1], now) + if Stale(log[|log| - 1], now) then 0 else 1
  }

  /** How many of these admits lie in the closed minute that starts at `from`. */
  function InMinute(log: seq<nat>, from: nat): nat {
    if log == [] then 0
    else InMinute(log[..|log| - 1], from) + if from <= log[|log| - 1] <= from + WINDOW then 1 else 0
  }

  // ----- samples are the recent end of the history

  ghost predicate Sorted(log: seq<nat>) {
    forall i, j :: 0 <= i < j < |log| ==> log[i] <= log[j]
  }

  /** `samples` is the end of `log`, and what was dropped is stale at `clock`. */
  ghost predicate Tracks(samples: seq<nat>, log: seq<nat>, clock: nat) {
    && |samples| <= |log| && samples == log[|log| - |samples|..]
    && forall i :: 0 <= i < |log| - |samples| ==> Stale(log[i], clock)
  }

  /** No PER_MINUTE + 1 consecutive admits fit into a closed window. */
  ghost predicate Spaced(log: seq<nat>) {
    forall i :: 0 <= i && i + PER_MINUTE < |log| ==> log[i] + WINDOW < log[i + PER_MINUTE]
  }

  ghost predicate UserOk(samples: seq<nat>, log: seq<nat>, clock: nat) {
    && Sorted(log) && Spaced(log) && Tracks(samples, log, clock) && |samples| <= PER_MINUTE
    && forall i :: 0 <= i < |log| ==> log[i] <= clock
  }

  lemma {:induction false} PrunedTracks(samples: seq<nat>, log: seq<nat>, clock: nat, now: nat)
    requires Tracks(samples, log, clock) && Sorted(log) && clock <= now
    ensures Tracks(Pruned(samples, now), log, now)
    ensures |Pruned(samples, now)| <= |samples|
    ensures forall i :: 0 <= i < |Pruned(samples, now)| ==> !Stale(Pruned(samples, now)[i], now)
  {
    if samples != [] && Stale(samples[0], now) {
      assert samples[1..] == log[|log| - |samples[1..]|..];
      assert Tracks(samples[1..], log, now);
      PrunedTracks(samples[1..], log, now, now);
    }
  }

  lemma {:induction false} RecentCountsSuffix(log: seq<nat>, now: nat, k: nat)
    requires k <= |log|
    requires forall i :: 0 <= i < k ==> Stale(log[i], now)
    requires forall i :: k <= i < |log| ==> !Stale(log[i], now)
    ensures Recent(log, now) == |log| - k
  {
    if k < |log| {
      RecentCountsSuffix(log[..|log| - 1], now, k);
    } else if log != [] {
      RecentCountsSuffix(log[..|log| - 1], now, k - 1);
    }
  }

  lemma {:induction false} PrunedCountsRecent(samples: seq<nat>, log: seq<nat>, clock: nat, now: nat)
    requires UserOk(samples, log, clock) && clock <= now
    ensures |Pruned(samples, now)| == Recent(log, now)
    ensures Tracks(Pruned(samples, now), log, now)
    ensures |Pruned(samples, now)| <= PER_MINUTE
  {
    PrunedTracks(samples, log, clock, now);
    var kept := Pruned(samples, now);
    var k := |log| - |kept|;
    forall i | k <= i < |log| ensures !Stale(log[i], now) { assert log[i] == kept[i - k]; }
    RecentCountsSuffix(log, now, k);
  }

  lemma AdmitKeepsSpacing(kept: seq<nat>, log: seq<nat>, now: nat)
    requires Spaced(log) && Tracks(kept, log, now) && |kept| < PER_MINUTE
    ensures Spaced(log + [now])
  {
    var log' := log + [now];
    forall i | 0 <= i && i + PER_MINUTE < |log'| ensures log'[i] + WINDOW < log'[i + PER_MINUTE] {
      if i + PER_MINUTE == |log| {
        assert i < |log| - |kept|;
        assert Stale(log[i], now);
      }
    }
  }

  lemma CallKeepsUser(samples: seq<nat>, log: seq<nat>, clock: nat, now: nat)
    requires UserOk(samples, log, clock) && clock <= now
    ensures var kept := Pruned(samples, now);
            if |kept| < PER_MINUTE then UserOk(kept + [now], log + [now], now) else UserOk(kept, log, now)
  {
    PrunedCountsRecent(samples, log, clock, now);
    var kept := Pruned(samples, now);
    assert UserOk(kept, log, now);
    if |kept| < PER_MINUTE { AdmitKeepsUser(kept, log, now); }
  }

  lemma AdmitKeepsUser(kept: seq<nat>, log: seq<nat>, now: nat)
    requires UserOk(kept, log, now) && |kept| < PER_MINUTE
    ensures UserOk(kept + [now], log + [now], now)
  {
    AdmitKeepsSpacing(kept, log, now);
    assert kept + [now] == (log + [now])[|log + [now]| - |kept + [now]|..];
  }

  lemma CallSamples(b: Buckets, c: Call, user: UserId)
    requires EvictsOnly(b, c.user, c.now, c.victim)
    ensures var kept := Pruned(SamplesOf(b, user), c.now);
            SamplesOf(After(b, c.user, c.now, c.victim), user) ==
            if c.user == user then if Admits(b, user, c.now) then kept + [c.now] else kept
            else if Evicts(b, c.user, c.now) && c.victim == user then []
            else SamplesOf(b, user)
  {
  }

  lemma {:induction false} ReachableUser(calls: seq<Call>, user: UserId)
    requires IsRun(calls) && OrderedFor(calls, user)
    ensures UserOk(SamplesOf(Final(calls), user), History(calls, user), LastReading(calls, user))
  {
    if calls == [] {
    } else {
      var before, c := calls[..|calls| - 1], calls[|calls| - 1];
      var b, log := Final(before), History(before, user);
      ReachableUser(before, user);
      CallSamples(b, c, user);
      if c.user == user { CallKeepsUser(SamplesOf(b, user), log, LastReading(before, user), c.now); }
      assert UserOk([], [], 0);
    }
  }

  /** The positions of the admits that lie in the closed minute ending now. */
  function InLastMinute(log: seq<nat>, now: nat): set<nat> {
    set i: nat | i < |log| && now <= log[i] + 60_000_000_000
  }

  lemma {:induction false} RecentIs(log: seq<nat>, now: nat)
    ensures Recent(log, now) == |InLastMinute(log, now)|
  {
    if log != [] {
      var n := |log| - 1;
      RecentIs(log[..n], now);
      assert InLastMinute(log, now) == InLastMinute(log[..n], now) + if Stale(log[n], now) then {} else {n};
    }
  }

  /**
   If the user's calls are ordered, a call is rejected exactly when ten of its admits lie in the closed minute that ends
   now, counting from the last eviction of its bucket; there are never more.
   */
  lemma {:induction false} RejectedIffQuotaUsed(calls: seq<Call>, user: UserId, now: nat)
    requires IsRun(calls) && OrderedFor(calls, user) && LastReading(calls, user) <= now
    ensures !Admits(Final(calls), user, now) <==> |InLastMinute(History(calls, user), now)| == 10
    ensures |InLastMinute(History(calls, user), now)| <= 10
  {
    ReachableUser(calls, user);
    PrunedCountsRecent(SamplesOf(Final(calls), user), History(calls, user), LastReading(calls, user), now);
    RecentIs(History(calls, user), now);
  }

  lemma {:induction false} EarlierNotCounted(log: seq<nat>, from: nat, k: nat)
    requires k <= |log| && forall i :: 0 <= i < k ==> log[i] < from
    ensures InMinute(log, from) <= |log| - k
  {
    if |log| > k {
      EarlierNotCounted(log[..|log| - 1], from, k);
    } else if log != [] {
      EarlierNotCounted(log[..|log| - 1], from, k - 1);
    }
  }

  lemma {:induction false} SpacedMinute(log: seq<nat>, from: nat)
    requires Sorted(log) && Spaced(log)
    ensures InMinute(log, from) <= PER_MINUTE
  {
    if log != [] {
      var n, last := |log| - 1, log[|log| - 1];
      if !(from <= last <= from + WINDOW) {
        SpacedMinute(log[..n], from);
      } else if n >= PER_MINUTE {
        var k := n - PER_MINUTE;
        assert log[k] + WINDOW < log[k + PER_MINUTE];
        EarlierNotCounted(log, from, k + 1);
      } else {
        EarlierNotCounted(log, from, 0);
      }
    }
  }

  /** And no closed minute whatever holds more of its admits than the quota. */
  lemma {:induction false} NoMinuteOverQuota(calls: seq<Call>, user: UserId, from: nat)
    requires IsRun(calls) && OrderedFor(calls, user)
    ensures InMinute(History(calls, user), from) <= PER_MINUTE
  {
    ReachableUser(calls, user);
    SpacedMinute(History(calls, user), from);
  }

  // ----- calls in any order

  lemma {:induction false} PrunedIsSuffix(samples: seq<nat>, now: nat)
    ensures |Pruned(samples, now)| <= |samples|
    ensures Pruned(samples, now) == samples[|samples| - |Pruned(samples, now)|..]
  {
    if samples != [] && Stale(samples[0], now) {
      PrunedIsSuffix(samples[1..], now);
    }
  }

  ghost predicate EndsWith(log: seq<nat>, samples: seq<nat>) {
    |samples| <= |log| && samples == log[|log| - |samples|..]
  }

  lemma PrunedEnds(log: seq<nat>, samples: seq<nat>, now: nat)
    requires EndsWith(log, samples)
    ensures EndsWith(log, Pruned(samples, now))
    ensures EndsWith(log + [now], Pruned(samples, now) + [now])
  {
    PrunedIsSuffix(samples, now);
  }

  /** Whatever the order of the readings, the samples are the end of the history. */
  lemma {:induction false} SamplesEndHistory(calls: seq<Call>, user: UserId)
    requires IsRun(calls)
    ensures EndsWith(History(calls, user), SamplesOf(Final(calls), user))
  {
    if calls == [] {
    } else {
      var before, c := calls[..|calls| - 1], calls[|calls| - 1];
      SamplesEndHistory(before, user);
      CallSamples(Final(before), c, user);
      PrunedEnds(History(before, user), SamplesOf(Final(before), user), c.now);
    }
  }

  lemma {:induction false} RecentConcat(a: seq<nat>, b: seq<nat>, now: nat)
    ensures Recent(a + b, now) == Recent(a, now) + Recent(b, now)
  {
    if b == [] {
      assert a + b == a;
    } else {
      RecentConcat(a, b[..|b| - 1], now);
      assert (a + b)[..|a + b| - 1] == a + b[..|b| - 1];
    }
  }

  /** The user's admits that the limiter still counts at `now`, and those it has dropped. */
  ghost function Kept(calls: seq<Call>, user: UserId, now: nat): seq<nat>
    requires IsRun(calls)
  {
    Pruned(SamplesOf(Final(calls), user), now)
  }

  /** The recent admits, less the recent ones before `kept`, plus the stale ones in it. */
  function Counted(log: seq<nat>, kept: seq<nat>, now: nat): int
    requires |kept| <= |log|
  {
    Recent(log, now) - Recent(log[..|log| - |kept|], now) + (|kept| - Recent(kept, now))
  }

  /**
   On every run: the limiter counts the recent admits, less the recent ones it has dropped, plus the stale ones it has
   kept. It admits exactly when that count is under the quota.
   */
  lemma {:induction false} AdmitsExactly(calls: seq<Call>, user: UserId, now: nat)
    requires IsRun(calls)
    ensures EndsWith(History(calls, user), Kept(calls, user, now))
    ensures Admits(Final(calls), user, now) <==> Counted(History(calls, user), Kept(calls, user, now), now) < PER_MINUTE
  {
    KeptEndsHistory(calls, user, now);
    CountedIsKept(History(calls, user), Kept(calls, user, now), now);
  }

  lemma CountedIsKept(log: seq<nat>, kept: seq<nat>, now: nat)
    requires EndsWith(log, kept)
    ensures Counted(log, kept, now) == |kept|
  {
    SplitCount(log, kept, now);
  }

  lemma KeptEndsHistory(calls: seq<Call>, user: UserId, now: nat)
    requires IsRun(calls)
    ensures EndsWith(History(calls, user), Kept(calls, user, now))
  {
    SamplesEndHistory(calls, user);
    PrunedEnds(History(calls, user), SamplesOf(Final(calls), user), now);
  }

  lemma SplitCount(log: seq<nat>, kept: seq<nat>, now: nat)
    requires EndsWith(log, kept)
    ensures Recent(log, now) == Recent(log[..|log| - |kept|], now) + Recent(kept, now)
  {
    RecentConcat(log[..|log| - |kept|], kept, now);
    assert log[..|log| - |kept|] + kept == log;
  }

  // ----- two runs in which a call that read the clock earlier locks later

  function Times(t: nat, n: nat): seq<nat> {
    if n == 0 then [] else Times(t, n - 1) + [t]
  }

  lemma {:induction false} TimesAre(t: nat, n: nat)
    ensures |Times(t, n)| == n && forall i :: 0 <= i < n ==> Times(t, n)[i] == t
  {
    if n > 0 { TimesAre(t, n - 1); }
  }

  lemma {:induction false} PrunedAll(samples: seq<nat>, now: nat)
    requires forall i :: 0 <= i < |samples| ==> Stale(samples[i], now)
    ensures Pruned(samples, now) == []
  {
    if samples != [] { PrunedAll(samples[1..], now); }
  }

  lemma Step(calls: seq<Call>, now: nat, kept: seq<nat>)
    requires IsRun(calls) && Final(calls).Keys <= {1} && kept == Pruned(SamplesOf(Final(calls), 1), now)
    ensures IsRun(calls + [Call(1, now, 0)]) && Final(calls + [Call(1, now, 0)]).Keys == {1}
    ensures SamplesOf(Final(calls + [Call(1, now, 0)]), 1) == if |kept| < PER_MINUTE then kept + [now] else kept
    ensures History(calls + [Call(1, now, 0)], 1) ==
            if |kept| < PER_MINUTE then History(calls, 1) + [now] else History(calls, 1)
  {
    var longer := calls + [Call(1, now, 0)];
    assert longer[..|calls|] == calls;
    var r := Recorded(Final(calls), 1, now);
    assert r.Keys == {1};
    assert |r| == |r.Keys| == 1;
  }

  lemma {:induction false} Burst(first: nat, t: nat, n: nat) returns (calls: seq<Call>)
    requires 1 <= n <= PER_MINUTE && !Stale(first, t)
    ensures IsRun(calls) && Final(calls).Keys == {1}
    ensures SamplesOf(Final(calls), 1) == History(calls, 1) == [first] + Times(t, n - 1)
  {
    if n == 1 {
      Step([], first, []);
      calls := [] + [Call(1, first, 0)];
      assert [first] + Times(t, 0) == [first];
    } else {
      var before := Burst(first, t, n - 1);
      BurstGrows(first, t, n);
      Step(before, t, [first] + Times(t, n - 2));
      calls := before + [Call(1, t, 0)];
    }
  }

  lemma BurstGrows(first: nat, t: nat, n: nat)
    requires 2 <= n <= PER_MINUTE && !Stale(first, t)
    ensures var samples := [first] + Times(t, n - 2);
            |samples| < PER_MINUTE && Pruned(samples, t) == samples && samples + [t] == [first] + Times(t, n - 1)
  {
    TimesAre(t, n - 2);
  }

  lemma {:induction false} InMinuteOfTimes(n: nat)
    ensures InMinute(Times(0, n), 0) == n
  {
    if n > 0 {
      InMinuteOfTimes(n - 1);
      assert Times(0, n)[..n - 1] == Times(0, n - 1) by { TimesAre(0, n - 1); }
      TimesAre(0, n);
    }
  }

  /**
   The quota is used up at reading 0. A call that read a minute and a tick later locks first and empties the samples;
   then one that read exactly a minute later is admitted too: eleven admits in the closed minute from 0 on.
   */
  lemma LateLockExceedsQuota() returns (calls: seq<Call>)
    ensures IsRun(calls) && InMinute(History(calls, 1), 0) == PER_MINUTE + 1
  {
    var full := Burst(0, 0, PER_MINUTE);
    var zeros := [0] + Times(0, PER_MINUTE - 1);
    TimesAre(0, PER_MINUTE - 1);
    PrunedAll(zeros, WINDOW + 1);
    Step(full, WINDOW + 1, []);
    var emptied := full + [Call(1, WINDOW + 1, 0)];
    assert Pruned([WINDOW + 1], WINDOW) == [WINDOW + 1];
    assert [] + [WINDOW + 1] == [WINDOW + 1];
    Step(emptied, WINDOW, [WINDOW + 1]);
    calls := emptied + [Call(1, WINDOW, 0)];
    CountEleven(zeros);
  }

  lemma CountEleven(zeros: seq<nat>)
    requires zeros == [0] + Times(0, PER_MINUTE - 1)
    ensures InMinute(zeros + [WINDOW + 1] + [WINDOW], 0) == PER_MINUTE + 1
  {
    TimesAre(0, PER_MINUTE - 1);
    TimesAre(0, PER_MINUTE);
    assert zeros == Times(0, PER_MINUTE);
    InMinuteOfTimes(PER_MINUTE);
    var ten, eleven := zeros + [WINDOW + 1], zeros + [WINDOW + 1] + [WINDOW];
    assert eleven[..|ten|] == ten && ten[..|zeros|] == zeros;
  }

  /**
   A call that read 5 locks first, nine that read 0 follow. A minute and 3 later only the first of them is recent, but
   it stands in front of the stale ones: the call is rejected with one admit in its minute.
   */
  lemma LateLockRejectsEarly() returns (calls: seq<Call>)
    ensures IsRun(calls) && !Admits(Final(calls), 1, WINDOW + 3) && Recent(History(calls, 1), WINDOW + 3) == 1
  {
    calls := Burst(5, 0, PER_MINUTE);
    var log := [5] + Times(0, PER_MINUTE - 1);
    TimesAre(0, PER_MINUTE - 1);
    assert Pruned(log, WINDOW + 3) == log;
    RecentConcat([5], Times(0, PER_MINUTE - 1), WINDOW + 3);
    NoneRecent(Times(0, PER_MINUTE - 1), WINDOW + 3);
    assert [5][..0] == [];
  }

  lemma {:induction false} NoneRecent(log: seq<nat>, now: nat)
    requires forall i :: 0 <= i < |log| ==> Stale(log[i], now)
    ensures Recent(log, now) == 0
  {
    if log != [] { NoneRecent(log[..|log| - 1], now); }
  }

  // ----- evictions

  /** For a user whose bucket is never evicted, the history holds every admit of the run. */
  lemma {:induction false} HistoryIsComplete(calls: seq<Call>, user: UserId)
    requires IsRun(calls) && NeverEvicted(calls, user)
    ensures History(calls, user) == AdmitTimes(calls, user)
  {
    if calls == [] {
    } else {
      HistoryIsComplete(calls[..|calls| - 1], user);
    }
  }

  /** The user's last call of the run is call number `i`. */
  ghost predicate LastCall(calls: seq<Call>, user: UserId, i: nat) {
    i < |calls| && calls[i].user == user && forall j :: i < j < |calls| ==> calls[j].user != user
  }

  lemma TouchedStep(b: Buckets, c: Call, user: UserId)
    requires user in After(b, c.user, c.now, c.victim)
    ensures var touched := After(b, c.user, c.now, c.victim)[user].lastTouched;
            if c.user == user then touched == c.now else user in b && touched == b[user].lastTouched
  {
  }

  lemma TouchedNow(calls: seq<Call>, user: UserId)
    requires IsRun(calls) && calls != [] && user in Final(calls)
    ensures var before, c := calls[..|calls| - 1], calls[|calls| - 1];
            if c.user == user then Final(calls)[user].lastTouched == c.now
            else user in Final(before) && Final(calls)[user].lastTouched == Final(before)[user].lastTouched
  {
    var c := calls[|calls| - 1];
    TouchedStep(Final(calls[..|calls| - 1]), c, user);
  }

  lemma LastCallExtends(calls: seq<Call>, user: UserId, i: nat)
    requires calls != [] && calls[|calls| - 1].user != user && LastCall(calls[..|calls| - 1], user, i)
    ensures LastCall(calls, user, i) && calls[i] == calls[..|calls| - 1][i]
  {
  }

  /** What a bucket records as its last touch is the reading of its user's last call, admitted or rejected. */
  lemma {:induction false} TouchedByLastCall(calls: seq<Call>, user: UserId) returns (i: nat)
    requires IsRun(calls) && user in Final(calls)
    ensures LastCall(calls, user, i) && Final(calls)[user].lastTouched == calls[i].now
  {
    TouchedNow(calls, user);
    if calls[|calls| - 1].user == user {
      i := |calls| - 1;
    } else {
      i := TouchedByLastCall(calls[..|calls| - 1], user);
      LastCallExtends(calls, user, i);
    }
  }

  lemma SameLastCall(calls: seq<Call>, user: UserId, i: nat, j: nat)
    requires LastCall(calls, user, i) && LastCall(calls, user, j)
    ensures i == j
  {
  }

  /**
   A call drops a bucket exactly when it is the first of its user in a full map of 4096 buckets; every other bucket
   stays. The user whose bucket it drops is one whose last call reads no later than that of any user who keeps one.
   */
  lemma {:induction false} EvictsLeastRecent(calls: seq<Call>)
    requires IsRun(calls) && calls != []
    ensures var before, c := calls[..|calls| - 1], calls[|calls| - 1];
            var b, b' := Final(before), Final(calls);
            var lost := b.Keys - b'.Keys;
            && lost == (if c.user !in b && |b| == 4096 then {c.victim} else {})
            && (forall u :: u in b && u !in lost && u != c.user ==> b'[u] == b[u])
            && forall victim, u, i: nat, j: nat ::
                 victim in lost && u in b && LastCall(before, victim, i) && LastCall(before, u, j) ==>
                   before[i].now <= before[j].now
  {
    var before, c := calls[..|calls| - 1], calls[|calls| - 1];
    var b := Final(before);
    BucketsBounded(before);
    var lost := b.Keys - Final(calls).Keys;
    DropsIffFull(b, c);
    forall victim, u, i: nat, j: nat | victim in lost && u in b && LastCall(before, victim, i) && LastCall(before, u, j)
      ensures before[i].now <= before[j].now
    {
      var i' := TouchedByLastCall(before, victim);
      var j' := TouchedByLastCall(before, u);
      SameLastCall(before, victim, i, i');
      SameLastCall(before, u, j, j');
    }
  }

  lemma DropsIffFull(b: Buckets, c: Call)
    requires |b| <= BUCKETS_MAX && EvictsOnly(b, c.user, c.now, c.victim)
    ensures var after := After(b, c.user, c.now, c.victim);
            && b.Keys - after.Keys == (if c.user !in b && |b| == BUCKETS_MAX then {c.victim} else {})
            && (forall u :: u in b && u in after && u != c.user ==> after[u] == b[u])
            && (forall u :: u in b && c.user !in b && |b| == BUCKETS_MAX ==>
                  c.victim in b && b[c.victim].lastTouched <= b[u].lastTouched)
  {
    var r := Recorded(b, c.user, c.now);
    assert r.Keys == b.Keys + {c.user};
    if c.user in b {
      assert r.Keys == b.Keys;
    } else {
      assert |r.Keys| == |b| + 1;
      assert Admits(b, c.user, c.now);
      forall u | u in b ensures r[u] == b[u] {}
    }
  }

  lemma OneCallBounded(buckets: Buckets, user: UserId, now: nat, victim: UserId)
    requires |buckets| <= BUCKETS_MAX
    requires EvictsOnly(buckets, user, now, victim)
    ensures |After(buckets, user, now, victim)| <= BUCKETS_MAX
  {
    var b := Recorded(buckets, user, now);
    assert b.Keys == buckets.Keys + {user};
    if user in buckets { assert b.Keys == buckets.Keys; }
    if Evicts(buckets, user, now) {
      assert (b - {victim}).Keys == b.Keys - {victim};
    }
  }

  /** The map is within its bound after every call, although a rejected call returns before the eviction. */
  lemma {:induction false} BucketsBounded(calls: seq<Call>)
    requires IsRun(calls)
    ensures |Final(calls)| <= BUCKETS_MAX
  {
    if calls != [] {
      var before, c := calls[..|calls| - 1], calls[|calls| - 1];
      BucketsBounded(before);
      OneCallBounded(Final(before), c.user, c.now, c.victim);
    }
  }

  // ----- the limiter as a mutable object

  class TestConnectRateLimiter {
    var buckets: Buckets

    ghost predicate Valid()
      reads this
    {
      && |buckets| <= BUCKETS_MAX
      && forall u :: u in buckets ==> |buckets[u].samples| <= PER_MINUTE
    }

    constructor ()
      ensures Valid() && buckets == map[]
    {
      buckets := map[];
    }

    method LeastRecentlyTouched(user: UserId) returns (victim: Option<UserId>)
      ensures victim.None? <==> buckets.Keys <= {user}
      ensures victim.Some? ==> IsLru(buckets, user, victim.value)
    {
      victim := None;
      var todo := buckets.Keys - {user};
      while todo != {}
        invariant todo <= buckets.Keys - {user}
        invariant victim.None? ==> todo == buckets.Keys - {user}
        invariant victim.Some? ==> victim.value in buckets && victim.value != user
        invariant victim.Some? ==> forall other :: other in buckets && other != user && other !in todo ==>
                    buckets[victim.value].lastTouched <= buckets[other].lastTouched
      {
        var u :| u in todo;
        if victim.None? || buckets[u].lastTouched < buckets[victim.value].lastTouched { victim := Some(u); }
        todo := todo - {u};
      }
    }

    /** The sample cap holds whenever it is looked at, so the assertion before the quota check never fails. */
    method TryAdmit(user: UserId, now: nat) returns (admitted: bool)
      requires Valid()
      modifies this
      ensures Valid()
      ensures admitted == Admits(old(buckets), user, now)
      ensures Follows(old(buckets), user, now, buckets)
    {
      var samples: seq<nat> := SamplesOf(buckets, user);
      while samples != [] && now >= WINDOW && samples[0] < now - WINDOW
        invariant Pruned(samples, now) == Pruned(SamplesOf(old(buckets), user), now)
        invariant |samples| <= PER_MINUTE
        decreases |samples|
      {
        samples := samples[1..];
      }
      assert Pruned(samples, now) == samples;
      assert |samples| <= PER_MINUTE;
      ghost var evicted := user;
      admitted := |samples| < PER_MINUTE;
      buckets := buckets[user := Bucket(if admitted then samples + [now] else samples, now)];
      assert buckets == Recorded(old(buckets), user, now);
      if admitted && |buckets| > BUCKETS_MAX {
        if buckets.Keys <= {user} { SubsetSize(buckets.Keys, {user}); }
        var victim := LeastRecentlyTouched(user);
        if victim.Some? {
          evicted := victim.value;
          buckets := buckets - {victim.value};
        }
      }
      OneCallBounded(old(buckets), user, now, evicted);
      assert buckets == After(old(buckets), user, now, evicted);
    }
  }
}
