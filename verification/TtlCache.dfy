/**
 The bounded TTL cache and its epoch fence.

 A cached value is the version of the source of truth a loader read, so that "fresh" can be stated.
 An entry also records the epoch snapshot of the loader that produced it.
 */
module TtlCache {
  import opened Common

  type Key = nat
  type ThreadId = nat

  datatype Entry = Entry(version: nat, fetchedAt: int, snapshot: nat)

  type Entries = map<Key, Entry>

  /** Time since `fetchedAt`, 0 if the clock reads earlier. */
  function Age(e: Entry, now: int): int {
    if now >= e.fetchedAt then now - e.fetchedAt else 0
  }

  predicate Expired(e: Entry, now: int, ttl: nat) {
    Age(e, now) >= ttl
  }

  /** An expired entry whenever one exists, else a least recently fetched one. */
  predicate IsVictim(entries: Entries, now: int, ttl: nat, k: Key) {
    && k in entries
    && (Expired(entries[k], now, ttl) ||
        forall j :: j in entries ==> !Expired(entries[j], now, ttl) && entries[k].fetchedAt <= entries[j].fetchedAt)
  }

  // ----- which entry a scan evicts; the hash map promises no particular order of its keys

  /** The first expired entry of the scan, else the first of those fetched least recently. */
  function VictimOf(entries: Entries, order: seq<Key>, now: int, ttl: nat): (victim: Option<Key>)
    requires forall i :: 0 <= i < |order| ==> order[i] in entries
    ensures victim.None? <==> order == []
    ensures victim.Some? ==> victim.value in order
  {
    if order == [] then None
    else
      var last := order[|order| - 1];
      match VictimOf(entries, order[..|order| - 1], now, ttl)
      case None => Some(last)
      case Some(best) =>
        if Expired(entries[best], now, ttl) then Some(best)
        else if Expired(entries[last], now, ttl) || entries[last].fetchedAt < entries[best].fetchedAt then Some(last)
        else Some(best)
  }

  ghost predicate NoneExpired(entries: Entries, order: seq<Key>, now: int, ttl: nat)
    requires forall i :: 0 <= i < |order| ==> order[i] in entries
  {
    forall j :: 0 <= j < |order| ==> !Expired(entries[order[j]], now, ttl)
  }

  lemma {:induction false} VictimOfPrefix(entries: Entries, order: seq<Key>, now: int, ttl: nat)
    requires forall i :: 0 <= i < |order| ==> order[i] in entries
    requires order != []
    ensures var v := VictimOf(entries, order, now, ttl).value;
            && (Expired(entries[v], now, ttl) ==>
                  exists i :: 0 <= i < |order| && order[i] == v && NoneExpired(entries, order[..i], now, ttl))
            && (!Expired(entries[v], now, ttl) ==>
                  forall j :: 0 <= j < |order| ==>
                    !Expired(entries[order[j]], now, ttl) && entries[v].fetchedAt <= entries[order[j]].fetchedAt)
  {
    var front, last := order[..|order| - 1], order[|order| - 1];
    if front != [] {
      VictimOfPrefix(entries, front, now, ttl);
      assert forall j :: 0 <= j < |front| ==> front[j] == order[j];
      var v := VictimOf(entries, front, now, ttl).value;
      if Expired(entries[v], now, ttl) {
        var i :| 0 <= i < |front| && front[i] == v && NoneExpired(entries, front[..i], now, ttl);
        assert order[i] == v && order[..i] == front[..i];
      } else if Expired(entries[last], now, ttl) {
        assert order[|order| - 1] == last && order[..|order| - 1] == front;
      }
    }
  }

  /** Fetched a full time to live ago; a clock that went back expires nothing. */
  predicate TooOld(e: Entry, now: int, ttl: nat) {
    ttl == 0 || now >= e.fetchedAt + ttl
  }

  /**
   A scan picks the first entry it meets that is too old. When there is none, it picks the one fetched least recently,
   and of several the one it meets first.
   */
  lemma {:induction false} VictimIs(entries: Entries, order: seq<Key>, now: int, ttl: nat) returns (i: nat)
    requires order != [] && forall i :: 0 <= i < |order| ==> order[i] in entries
    ensures i < |order| && VictimOf(entries, order, now, ttl) == Some(order[i])
    ensures forall j :: 0 <= j < i ==> !TooOld(entries[order[j]], now, ttl)
    ensures !TooOld(entries[order[i]], now, ttl) ==>
              && (forall j :: 0 <= j < |order| ==> !TooOld(entries[order[j]], now, ttl))
              && (forall j :: 0 <= j < i ==> entries[order[i]].fetchedAt < entries[order[j]].fetchedAt)
              && (forall j :: i < j < |order| ==> entries[order[i]].fetchedAt <= entries[order[j]].fetchedAt)
  {
    var front, last := order[..|order| - 1], order[|order| - 1];
    if front == [] {
      i := 0;
    } else {
      assert forall j :: 0 <= j < |front| ==> front[j] == order[j];
      i := VictimIs(entries, front, now, ttl);
      if VictimOf(entries, order, now, ttl) != Some(front[i]) { i := |front|; }
    }
  }

  /** Some scan order evicts `k` if and only if it is expired, or nothing is and it is a least recently fetched one. */
  lemma VictimsOfScans(entries: Entries, now: int, ttl: nat, k: Key)
    ensures IsVictim(entries, now, ttl, k) <==>
              exists order :: Lists(order, entries.Keys) && VictimOf(entries, order, now, ttl) == Some(k)
  {
    if order :| Lists(order, entries.Keys) && VictimOf(entries, order, now, ttl) == Some(k) {
      ScanPicksVictim(entries, order, now, ttl);
    }
    if IsVictim(entries, now, ttl, k) {
      var order := ScanFrom(entries, k);
      FirstIsPicked(entries, order, now, ttl);
    }
  }

  lemma ScanPicksVictim(entries: Entries, order: seq<Key>, now: int, ttl: nat)
    requires Lists(order, entries.Keys) && entries != map[]
    ensures VictimOf(entries, order, now, ttl).Some?
    ensures IsVictim(entries, now, ttl, VictimOf(entries, order, now, ttl).value)
  {
    var k :| k in entries.Keys;
    assert k in order;
    VictimOfPrefix(entries, order, now, ttl);
  }

  /** A scan order that starts with `k`. */
  lemma {:induction false} ScanFrom(entries: Entries, k: Key) returns (order: seq<Key>)
    requires k in entries
    ensures Lists(order, entries.Keys) && order[0] == k
    decreases |entries|
  {
    var rest := entries - {k};
    if rest == map[] {
      assert entries.Keys == {k} by { assert rest.Keys == entries.Keys - {k}; }
      order := [k];
    } else {
      var next :| next in rest.Keys;
      assert rest.Keys == entries.Keys - {k};
      var tail := ScanFrom(rest, next);
      order := [k] + tail;
      assert forall j :: j in rest <==> j in tail;
    }
  }

  lemma {:induction false} FirstIsPicked(entries: Entries, order: seq<Key>, now: int, ttl: nat)
    requires order != [] && forall i :: 0 <= i < |order| ==> order[i] in entries
    requires IsVictim(entries, now, ttl, order[0])
    ensures VictimOf(entries, order, now, ttl) == Some(order[0])
  {
    if |order| > 1 {
      FirstIsPicked(entries, order[..|order| - 1], now, ttl);
    } else {
      assert order[..0] == [];
    }
  }

  // ----- the documented choice

  /** The oldest of the expired entries; when none is expired, the oldest of all. */
  predicate OldestExpired(entries: Entries, now: int, ttl: nat, k: Key) {
    && k in entries
    && (forall j :: j in entries && Expired(entries[j], now, ttl) ==>
          Expired(entries[k], now, ttl) && entries[k].fetchedAt <= entries[j].fetchedAt)
    && (!Expired(entries[k], now, ttl) ==> forall j :: j in entries ==> entries[k].fetchedAt <= entries[j].fetchedAt)
  }

  predicate ExpiredTogether(entries: Entries, now: int, ttl: nat) {
    forall i, j :: i in entries && j in entries && Expired(entries[i], now, ttl) && Expired(entries[j], now, ttl) ==>
      entries[i].fetchedAt == entries[j].fetchedAt
  }

  /** Whatever may be evicted is the documented choice, if and only if all expired entries are equally old. */
  lemma EvictsOldestIff(entries: Entries, now: int, ttl: nat)
    ensures (forall order :: Lists(order, entries.Keys) && entries != map[] ==>
               && VictimOf(entries, order, now, ttl).Some?
               && OldestExpired(entries, now, ttl, VictimOf(entries, order, now, ttl).value))
            <==> ExpiredTogether(entries, now, ttl)
  {
    if ExpiredTogether(entries, now, ttl) {
      forall order | Lists(order, entries.Keys) && entries != map[]
        ensures VictimOf(entries, order, now, ttl).Some?
        ensures OldestExpired(entries, now, ttl, VictimOf(entries, order, now, ttl).value)
      {
        ScanPicksVictim(entries, order, now, ttl);
      }
    } else {
      var i, j :| i in entries && j in entries && Expired(entries[i], now, ttl) && Expired(entries[j], now, ttl)
        && entries[i].fetchedAt < entries[j].fetchedAt;
      var order := ScanFrom(entries, j);
      FirstIsPicked(entries, order, now, ttl);
      assert !OldestExpired(entries, now, ttl, j);
    }
  }

  /** Two expired entries, the younger one met first: it goes, and the oldest expired one stays. */
  lemma YoungerExpiredGoesFirst()
    ensures var entries := map[1 := Entry(0, 0, 0), 2 := Entry(0, 5, 0)];
            && Lists([2, 1], entries.Keys) && VictimOf(entries, [2, 1], 20, 10) == Some(2)
            && Expired(entries[1], 20, 10) && entries[1].fetchedAt < entries[2].fetchedAt
            && !OldestExpired(entries, 20, 10, 2) && OldestExpired(entries, 20, 10, 1)
  {
    var entries := map[1 := Entry(0, 0, 0), 2 := Entry(0, 5, 0)];
    FirstIsPicked(entries, [2, 1], 20, 10);
    assert [2, 1][0] == 2 && [2, 1][1] == 1;
  }

  predicate NeedsRoom(entries: Entries, key: Key, cap: nat) {
    |entries| >= cap && key !in entries
  }

  function Insert(entries: Entries, key: Key, e: Entry, cap: nat, victim: Key): Entries {
    (if NeedsRoom(entries, key, cap) then entries - {victim} else entries)[key := e]
  }

  /** What a `clear` (no key) or an `invalidate` drops. */
  predicate Covers(what: Option<Key>, k: Key) {
    what.None? || what.value == k
  }

  function Dropped(entries: Entries, what: Option<Key>): Entries {
    map k | k in entries && !Covers(what, k) :: entries[k]
  }

  lemma {:induction false} ExpiredStays(entries: Entries, order: seq<Key>, n: nat, now: int, ttl: nat)
    requires 0 < n <= |order| && forall i :: 0 <= i < |order| ==> order[i] in entries
    requires Expired(entries[VictimOf(entries, order[..n], now, ttl).value], now, ttl)
    ensures VictimOf(entries, order, now, ttl) == VictimOf(entries, order[..n], now, ttl)
  {
    if n < |order| {
      assert order[..|order| - 1][..n] == order[..n];
      ExpiredStays(entries, order[..|order| - 1], n, now, ttl);
    } else {
      assert order[..n] == order;
    }
  }

  /** One more entry of the scan. */
  lemma VictimSnoc(entries: Entries, order: seq<Key>, n: nat, now: int, ttl: nat)
    requires n < |order| && forall i :: 0 <= i < |order| ==> order[i] in entries
    ensures var best := VictimOf(entries, order[..n], now, ttl);
            VictimOf(entries, order[..n + 1], now, ttl) ==
              if best.None? then Some(order[n])
              else if Expired(entries[best.value], now, ttl) then best
              else if Expired(entries[order[n]], now, ttl) then Some(order[n])
              else if entries[order[n]].fetchedAt < entries[best.value].fetchedAt then Some(order[n])
              else best
  {
    assert order[..n + 1][..n] == order[..n];
  }

  lemma InsertKeepsCap(entries: Entries, key: Key, e: Entry, cap: nat, victim: Key)
    requires cap > 0 && |entries| <= cap && (NeedsRoom(entries, key, cap) ==> victim in entries)
    ensures |Insert(entries, key, e, cap, victim)| <= cap
  {
    if NeedsRoom(entries, key, cap) {
      assert Insert(entries, key, e, cap, victim).Keys == entries.Keys - {victim} + {key};
    } else if key in entries {
      assert Insert(entries, key, e, cap, victim).Keys == entries.Keys;
    } else {
      assert Insert(entries, key, e, cap, victim).Keys == entries.Keys + {key};
    }
  }

  /** The key gets its entry, one other goes exactly when there is no room for it, and the rest stays. */
  lemma InsertKeepsOthers(entries: Entries, key: Key, e: Entry, cap: nat, victim: Key)
    requires |entries| <= cap && (|entries| == cap && key !in entries ==> victim in entries)
    ensures var entries' := Insert(entries, key, e, cap, victim);
            && key in entries' && entries'[key] == e
            && (forall k :: k in entries' && k != key ==> k in entries && entries'[k] == entries[k])
            && entries.Keys - entries'.Keys == if |entries| == cap && key !in entries then {victim} else {}
  {
  }

  lemma RemoveMakesRoom(entries: Entries, victim: Key)
    requires victim in entries
    ensures |entries - {victim}| == |entries| - 1
  {
    assert (entries - {victim}).Keys == entries.Keys - {victim};
  }

  // ----- the cache as a mutable object

  class BoundedTtlCache {
    const cap: nat
    const ttl: nat
    var entries: Entries
    var epoch: nat

    ghost predicate Valid()
      reads this
    {
      cap > 0 && ttl > 0 && |entries| <= cap
    }

    constructor (cap: nat, ttl: nat)
      requires cap > 0 && ttl > 0
      ensures Valid() && this.cap == cap && this.ttl == ttl && entries == map[] && epoch == 0
    {
      this.cap, this.ttl := cap, ttl;
      entries, epoch := map[], 0;
    }

    method LookupFresh(key: Key, now: int) returns (found: Option<nat>)
      ensures found ==
                if key in entries && ttl > 0 && now < entries[key].fetchedAt + ttl then Some(entries[key].version)
                else None
    {
      if key !in entries { return None; }
      if Age(entries[key], now) >= ttl { return None; }
      return Some(entries[key].version);
    }

    /** Scan in the map's order: stop at the first expired entry, else remember the oldest one met. */
    method PickVictim(order: seq<Key>, now: int) returns (victim: Option<Key>)
      requires Lists(order, entries.Keys)
      ensures victim == VictimOf(entries, order, now, ttl)
    {
      victim := None;
      for i := 0 to |order|
        invariant victim == VictimOf(entries, order[..i], now, ttl)
        invariant victim.Some? ==> !Expired(entries[victim.value], now, ttl)
      {
        var k := order[i];
        VictimSnoc(entries, order, i, now, ttl);
        if Expired(entries[k], now, ttl) {
          ExpiredStays(entries, order, i + 1, now, ttl);
          return Some(k);
        }
        if victim.None? || entries[k].fetchedAt < entries[victim.value].fetchedAt { victim := Some(k); }
      }
      assert order[..|order|] == order;
    }

    /** Skipped when the epoch moved since the loader started; otherwise the cap is kept by evicting one entry. */
    method InsertIfEpoch(key: Key, version: nat, now: int, startedAt: nat, order: seq<Key>)
      requires Valid() && Lists(order, entries.Keys)
      modifies this`entries
      ensures Valid()
      ensures epoch != startedAt ==> entries == old(entries)
      ensures epoch == startedAt ==>
        var victim := VictimOf(old(entries), order, now, ttl);
        && (NeedsRoom(old(entries), key, cap) ==> victim.Some? && IsVictim(old(entries), now, ttl, victim.value))
        && entries ==
             Insert(old(entries), key, Entry(version, now, startedAt), cap, if victim.Some? then victim.value else key)
        && key in entries && entries[key] == Entry(version, now, startedAt)
        && (forall k :: k in entries && k != key ==> k in old(entries) && entries[k] == old(entries)[k])
        && old(entries).Keys - entries.Keys ==
             (if |old(entries)| == cap && key !in old(entries) then {victim.value} else {})
    {
      if epoch != startedAt { return; }
      ghost var before, e := entries, Entry(version, now, startedAt);
      ghost var victim := VictimOf(before, order, now, ttl);
      if NeedsRoom(before, key, cap) { ScanPicksVictim(before, order, now, ttl); }
      InsertKeepsCap(before, key, e, cap, if victim.Some? then victim.value else key);
      if |entries| >= cap && key !in entries {
        var picked := PickVictim(order, now);
        RemoveMakesRoom(entries, picked.value);
        entries := entries - {picked.value};
        assert |entries| < cap;
      }
      entries := entries[key := Entry(version, now, startedAt)];
    }

    method Clear()
      requires Valid()
      modifies this
      ensures Valid() && epoch == old(epoch) + 1
      ensures entries == Dropped(old(entries), None) == map[]
    {
      epoch := epoch + 1;
      entries := map[];
    }

    method Invalidate(key: Key)
      requires Valid()
      modifies this
      ensures Valid() && epoch == old(epoch) + 1
      ensures entries == Dropped(old(entries), Some(key)) == old(entries) - {key}
    {
      epoch := epoch + 1;
      SubsetSize((entries - {key}).Keys, entries.Keys);
      entries := entries - {key};
    }
  }
}

/**
 The cache under concurrency. The epoch bump of an invalidation happens outside the lock, its removal inside. A call
 looks its key up under the lock; on a miss it snapshots the epoch, reads the source, and only under the lock
 compares epochs and inserts, while bumps may still slip in between the comparison and the insert. It returns what
 it read in either case.
 */
module CacheRuns {
  import opened Common
  import opened TtlCache

  datatype Loader =
    | Loading(key: Key, snapshot: nat)
    | Loaded(key: Key, snapshot: nat, version: nat)
    | Checked(key: Key, snapshot: nat, version: nat)

  /** An invalidation between its bump and its return, or returned: its epoch and the source at the bump. */
  datatype Invalidation = Invalidation(what: Option<Key>, epoch: nat, floor: map<Key, nat>)

  /** A call under way; `asOf` are the invalidations that had returned when it began. */
  datatype Call = Call(key: Key, asOf: set<Invalidation>, missed: bool)

  /** What a call returned. */
  datatype Answer = Answer(key: Key, version: nat, asOf: set<Invalidation>)

  datatype Cache = Cache(
    entries: Entries, epoch: nat, lock: Option<ThreadId>, source: map<Key, nat>, calls: map<ThreadId, Call>,
    loaders: map<ThreadId, Loader>, bumped: map<ThreadId, Invalidation>, returned: set<Invalidation>,
    answers: set<Answer>)

  function VersionIn(source: map<Key, nat>, k: Key): nat {
    if k in source then source[k] else 0
  }

  const EMPTY := Cache(map[], 0, None, map[], map[], map[], map[], {}, {})

  datatype Step =
    | Write(key: Key)
    | Begin(thread: ThreadId, key: Key)
    | Lookup(thread: ThreadId, now: int)
    | StartLoad(thread: ThreadId)
    | ReadSource(thread: ThreadId)
    | FailLoad(thread: ThreadId)
    | LockAndCheck(thread: ThreadId)
    | InsertAndUnlock(thread: ThreadId, now: int, victim: Key)
    | Bump(thread: ThreadId, what: Option<Key>)
    | Remove(thread: ThreadId)

  predicate Enabled(c: Cache, step: Step, cap: nat, ttl: nat) {
    match step
    case Write(_) => true
    case Begin(t, _) => t !in c.calls && t !in c.loaders
    case Lookup(t, _) => c.lock.None? && t in c.calls && !c.calls[t].missed
    case StartLoad(t) => t in c.calls && c.calls[t].missed && t !in c.loaders
    case ReadSource(t) => t in c.loaders && c.loaders[t].Loading?
    case FailLoad(t) => t in c.loaders && c.loaders[t].Loading?
    case LockAndCheck(t) => c.lock.None? && t in c.loaders && c.loaders[t].Loaded?
    case InsertAndUnlock(t, now, victim) =>
      && t in c.loaders && c.loaders[t].Checked? && c.lock == Some(t)
      && (NeedsRoom(c.entries, c.loaders[t].key, cap) ==> IsVictim(c.entries, now, ttl, victim))
    case Bump(t, _) => t !in c.bumped
    case Remove(t) => c.lock.None? && t in c.bumped
  }

  predicate Hit(c: Cache, k: Key, now: int, ttl: nat) {
    k in c.entries && !Expired(c.entries[k], now, ttl)
  }

  /** The call of thread `t` returns `version`. */
  function Answered(c: Cache, t: ThreadId, version: nat): Cache {
    if t in c.calls then
      c.(calls := c.calls - {t}, answers := c.answers + {Answer(c.calls[t].key, version, c.calls[t].asOf)})
    else c
  }

  function Apply(c: Cache, step: Step, cap: nat, ttl: nat): Cache
    requires Enabled(c, step, cap, ttl)
  {
    match step
    case Write(k) => c.(source := c.source[k := VersionIn(c.source, k) + 1])
    case Begin(t, k) => c.(calls := c.calls[t := Call(k, c.returned, false)])
    case Lookup(t, now) =>
      if Hit(c, c.calls[t].key, now, ttl) then Answered(c, t, c.entries[c.calls[t].key].version)
      else c.(calls := c.calls[t := c.calls[t].(missed := true)])
    case StartLoad(t) => c.(loaders := c.loaders[t := Loading(c.calls[t].key, c.epoch)])
    case ReadSource(t) =>
      var l := c.loaders[t];
      c.(loaders := c.loaders[t := Loaded(l.key, l.snapshot, VersionIn(c.source, l.key))])
    case FailLoad(t) => c.(loaders := c.loaders - {t}, calls := c.calls - {t})
    case LockAndCheck(t) =>
      var l := c.loaders[t];
      if c.epoch != l.snapshot then Answered(c.(loaders := c.loaders - {t}), t, l.version)
      else c.(lock := Some(t), loaders := c.loaders[t := Checked(l.key, l.snapshot, l.version)])
    case InsertAndUnlock(t, now, victim) =>
      var l := c.loaders[t];
      Answered(c.(lock := None, loaders := c.loaders - {t},
                  entries := Insert(c.entries, l.key, Entry(l.version, now, l.snapshot), cap, victim)), t, l.version)
    case Bump(t, what) =>
      c.(epoch := c.epoch + 1, bumped := c.bumped[t := Invalidation(what, c.epoch + 1, c.source)])
    case Remove(t) =>
      c.(bumped := c.bumped - {t}, returned := c.returned + {c.bumped[t]},
         entries := Dropped(c.entries, c.bumped[t].what))
  }

  // ----- the inductive invariant

  predicate Known(c: Cache, x: Invalidation) {
    x in c.returned || x in c.bumped.Values
  }

  predicate HasRead(l: Loader) {
    l.Loaded? || l.Checked?
  }

  /** Whoever took its snapshot after a bump reads at least what the source held at the bump. */
  ghost predicate ReadsAfterBumps(c: Cache) {
    && (forall x, t :: Known(c, x) && t in c.loaders && HasRead(c.loaders[t]) && c.loaders[t].snapshot >= x.epoch ==>
          c.loaders[t].version >= VersionIn(x.floor, c.loaders[t].key))
    && (forall x, k :: Known(c, x) && k in c.entries && c.entries[k].snapshot >= x.epoch ==>
          c.entries[k].version >= VersionIn(x.floor, k))
  }

  ghost predicate EpochsOk(c: Cache) {
    && (forall x :: Known(c, x) ==> x.epoch <= c.epoch)
    && (forall x, k :: Known(c, x) ==> VersionIn(x.floor, k) <= VersionIn(c.source, k))
    && (forall t :: t in c.loaders ==> c.loaders[t].snapshot <= c.epoch)
    && (forall k :: k in c.entries ==> c.entries[k].snapshot <= c.epoch)
  }

  /** The fence: entries, and loaders about to insert, are newer than every returned invalidation of their key. */
  ghost predicate Fenced(c: Cache) {
    && (forall t :: t in c.loaders && c.loaders[t].Checked? ==> c.lock == Some(t))
    && (forall x, t ::
          x in c.returned && t in c.loaders && c.loaders[t].Checked? && Covers(x.what, c.loaders[t].key) ==>
            c.loaders[t].snapshot >= x.epoch)
    && (forall x, k :: x in c.returned && k in c.entries && Covers(x.what, k) ==> c.entries[k].snapshot >= x.epoch)
  }

  /** Is `version` no older than what the source held for `k` at each of these invalidations' bumps? */
  ghost predicate FreshAsOf(asOf: set<Invalidation>, k: Key, version: nat) {
    forall x :: x in asOf && Covers(x.what, k) ==> version >= VersionIn(x.floor, k)
  }

  ghost predicate CallOk(c: Cache, t: ThreadId) {
    && (t in c.calls ==> c.calls[t].asOf <= c.returned)
    && (t in c.loaders ==> t in c.calls && c.calls[t].missed && c.loaders[t].key == c.calls[t].key)
    && (t in c.loaders && HasRead(c.loaders[t]) ==> FreshAsOf(c.calls[t].asOf, c.loaders[t].key, c.loaders[t].version))
  }

  ghost predicate CallsOk(c: Cache) {
    && (forall t :: CallOk(c, t))
    && (forall a :: a in c.answers ==> FreshAsOf(a.asOf, a.key, a.version))
  }

  ghost predicate Inv(c: Cache, cap: nat) {
    ReadsAfterBumps(c) && EpochsOk(c) && Fenced(c) && CallsOk(c) && |c.entries| <= cap
  }

  lemma KnownAfter(c: Cache, step: Step, cap: nat, ttl: nat, x: Invalidation)
    requires Enabled(c, step, cap, ttl) && Known(Apply(c, step, cap, ttl), x)
    ensures Known(c, x) || (step.Bump? && x == Invalidation(step.what, c.epoch + 1, c.source))
  {
    if step.Remove? && x == c.bumped[step.thread] { assert x in c.bumped.Values; }
  }

  lemma {:induction false} EpochsStep(c: Cache, step: Step, cap: nat, ttl: nat)
    requires Inv(c, cap) && Enabled(c, step, cap, ttl)
    ensures EpochsOk(Apply(c, step, cap, ttl))
  {
    var c' := Apply(c, step, cap, ttl);
    SnapshotsStep(c, step, cap, ttl);
    forall x | Known(c', x) ensures x.epoch <= c'.epoch { KnownAfter(c, step, cap, ttl, x); }
    forall x, k | Known(c', x) ensures VersionIn(x.floor, k) <= VersionIn(c'.source, k) {
      KnownAfter(c, step, cap, ttl, x);
      SourceGrows(c, step, cap, ttl, k);
    }
  }

  lemma SourceGrows(c: Cache, step: Step, cap: nat, ttl: nat, k: Key)
    requires Enabled(c, step, cap, ttl)
    ensures VersionIn(c.source, k) <= VersionIn(Apply(c, step, cap, ttl).source, k)
  {
  }

  lemma SnapshotsStep(c: Cache, step: Step, cap: nat, ttl: nat)
    requires EpochsOk(c) && Enabled(c, step, cap, ttl)
    ensures var c' := Apply(c, step, cap, ttl);
            && (forall t :: t in c'.loaders ==> c'.loaders[t].snapshot <= c'.epoch)
            && (forall k :: k in c'.entries ==> c'.entries[k].snapshot <= c'.epoch)
            && c.epoch <= c'.epoch
  {
    var c' := Apply(c, step, cap, ttl);
    forall t | t in c'.loaders ensures c'.loaders[t].snapshot <= c'.epoch { LoaderBefore(c, step, cap, ttl, t); }
    forall k | k in c'.entries ensures c'.entries[k].snapshot <= c'.epoch { EntryBefore(c, step, cap, ttl, k); }
  }

  /** A loader after a step is new, has just read the source, has just passed the epoch check, or is as it was. */
  lemma LoaderBefore(c: Cache, step: Step, cap: nat, ttl: nat, t: ThreadId)
    requires Enabled(c, step, cap, ttl) && t in Apply(c, step, cap, ttl).loaders
    ensures var l := Apply(c, step, cap, ttl).loaders[t];
            if t !in c.loaders then step.StartLoad? && t == step.thread && l == Loading(c.calls[t].key, c.epoch)
            else
              && l.key == c.loaders[t].key && l.snapshot == c.loaders[t].snapshot
              && (HasRead(c.loaders[t]) ==> HasRead(l) && l.version == c.loaders[t].version)
              && (HasRead(l) && !HasRead(c.loaders[t]) ==> l.Loaded? && l.version == VersionIn(c.source, l.key))
              && (l.Checked? && !c.loaders[t].Checked? ==>
                    step.LockAndCheck? && step.thread == t && l.snapshot == c.epoch && c.lock.None?)
  {
  }

  /** An entry after a step was there before, or comes from the loader that has just inserted it. */
  lemma EntryBefore(c: Cache, step: Step, cap: nat, ttl: nat, k: Key)
    requires Enabled(c, step, cap, ttl) && k in Apply(c, step, cap, ttl).entries
    ensures var e := Apply(c, step, cap, ttl).entries[k];
            || (k in c.entries && e == c.entries[k])
            || (&& step.InsertAndUnlock? && k == c.loaders[step.thread].key
                && e.version == c.loaders[step.thread].version && e.snapshot == c.loaders[step.thread].snapshot)
  {
  }

  lemma {:induction false} ReadsStep(c: Cache, step: Step, cap: nat, ttl: nat)
    requires Inv(c, cap) && Enabled(c, step, cap, ttl)
    ensures ReadsAfterBumps(Apply(c, step, cap, ttl))
  {
    var c' := Apply(c, step, cap, ttl);
    forall x, t | Known(c', x) && t in c'.loaders && HasRead(c'.loaders[t]) && c'.loaders[t].snapshot >= x.epoch
      ensures c'.loaders[t].version >= VersionIn(x.floor, c'.loaders[t].key)
    {
      KnownAfter(c, step, cap, ttl, x);
      LoaderBefore(c, step, cap, ttl, t);
    }
    forall x, k | Known(c', x) && k in c'.entries && c'.entries[k].snapshot >= x.epoch
      ensures c'.entries[k].version >= VersionIn(x.floor, k)
    {
      KnownAfter(c, step, cap, ttl, x);
      EntryBefore(c, step, cap, ttl, k);
    }
  }

  lemma FenceStep(c: Cache, step: Step, cap: nat, ttl: nat)
    requires Inv(c, cap) && Enabled(c, step, cap, ttl)
    ensures Fenced(Apply(c, step, cap, ttl))
  {
    var c' := Apply(c, step, cap, ttl);
    forall t | t in c'.loaders && c'.loaders[t].Checked? ensures c'.lock == Some(t) {
      CheckedHoldsLock(c, step, cap, ttl, t);
    }
    forall x, t | x in c'.returned && t in c'.loaders && c'.loaders[t].Checked? && Covers(x.what, c'.loaders[t].key)
      ensures c'.loaders[t].snapshot >= x.epoch
    {
      LoaderFenced(c, step, cap, ttl, x, t);
    }
    forall x, k | x in c'.returned && k in c'.entries && Covers(x.what, k) ensures c'.entries[k].snapshot >= x.epoch {
      EntryFenced(c, step, cap, ttl, x, k);
    }
  }

  lemma CheckedHoldsLock(c: Cache, step: Step, cap: nat, ttl: nat, t: ThreadId)
    requires Fenced(c) && Enabled(c, step, cap, ttl)
    requires t in Apply(c, step, cap, ttl).loaders && Apply(c, step, cap, ttl).loaders[t].Checked?
    ensures Apply(c, step, cap, ttl).lock == Some(t)
  {
    LoaderBefore(c, step, cap, ttl, t);
  }

  /** An invalidation cannot return while a loader sits between its epoch check and its insert. */
  lemma LoaderFenced(c: Cache, step: Step, cap: nat, ttl: nat, x: Invalidation, t: ThreadId)
    requires Fenced(c) && EpochsOk(c) && Enabled(c, step, cap, ttl) && x in Apply(c, step, cap, ttl).returned
    requires t in Apply(c, step, cap, ttl).loaders && Apply(c, step, cap, ttl).loaders[t].Checked?
    requires Covers(x.what, Apply(c, step, cap, ttl).loaders[t].key)
    ensures Apply(c, step, cap, ttl).loaders[t].snapshot >= x.epoch
  {
    LoaderBefore(c, step, cap, ttl, t);
    assert x in c.returned ==> Known(c, x);
  }

  lemma EntryFenced(c: Cache, step: Step, cap: nat, ttl: nat, x: Invalidation, k: Key)
    requires Fenced(c) && Enabled(c, step, cap, ttl) && x in Apply(c, step, cap, ttl).returned
    requires k in Apply(c, step, cap, ttl).entries && Covers(x.what, k)
    ensures Apply(c, step, cap, ttl).entries[k].snapshot >= x.epoch
  {
    EntryBefore(c, step, cap, ttl, k);
  }

  lemma CapStep(c: Cache, step: Step, cap: nat, ttl: nat)
    requires cap > 0 && |c.entries| <= cap && Enabled(c, step, cap, ttl)
    ensures |Apply(c, step, cap, ttl).entries| <= cap
  {
    var c' := Apply(c, step, cap, ttl);
    if step.InsertAndUnlock? {
      var l := c.loaders[step.thread];
      InsertKeepsCap(c.entries, l.key, Entry(l.version, step.now, l.snapshot), cap, step.victim);
    } else {
      SubsetSize(c'.entries.Keys, c.entries.Keys);
    }
  }

  // ----- what callers get

  /** An entry meets every invalidation of its key that has returned. */
  lemma EntryFresh(c: Cache, asOf: set<Invalidation>, k: Key)
    requires ReadsAfterBumps(c) && Fenced(c) && asOf <= c.returned && k in c.entries
    ensures FreshAsOf(asOf, k, c.entries[k].version)
  {
    forall x | x in asOf && Covers(x.what, k) ensures c.entries[k].version >= VersionIn(x.floor, k) {
      assert x in c.returned && Known(c, x);
    }
  }

  /** And so does the source. */
  lemma SourceFresh(c: Cache, asOf: set<Invalidation>, k: Key)
    requires EpochsOk(c) && asOf <= c.returned
    ensures FreshAsOf(asOf, k, VersionIn(c.source, k))
  {
    forall x | x in asOf ensures Known(c, x) {}
  }

  lemma CallAfter(c: Cache, step: Step, cap: nat, ttl: nat, t: ThreadId)
    requires Inv(c, cap) && Enabled(c, step, cap, ttl)
    ensures CallOk(Apply(c, step, cap, ttl), t)
  {
    var c' := Apply(c, step, cap, ttl);
    assert CallOk(c, t);
    if t in c'.loaders {
      LoaderBefore(c, step, cap, ttl, t);
      CallStays(c, step, cap, ttl, t);
      if t in c.loaders && HasRead(c'.loaders[t]) && !HasRead(c.loaders[t]) {
        SourceFresh(c, c.calls[t].asOf, c.loaders[t].key);
      }
    }
  }

  lemma CallStays(c: Cache, step: Step, cap: nat, ttl: nat, t: ThreadId)
    requires Enabled(c, step, cap, ttl) && CallOk(c, t) && t in Apply(c, step, cap, ttl).loaders
    ensures t in c.calls && t in Apply(c, step, cap, ttl).calls && Apply(c, step, cap, ttl).calls[t].missed
    ensures Apply(c, step, cap, ttl).calls[t].key == c.calls[t].key
    ensures Apply(c, step, cap, ttl).calls[t].asOf == c.calls[t].asOf
  {
  }

  lemma NoAnswer(c: Cache, step: Step, cap: nat, ttl: nat)
    requires Enabled(c, step, cap, ttl) && !step.Lookup? && !step.LockAndCheck? && !step.InsertAndUnlock?
    ensures Apply(c, step, cap, ttl).answers == c.answers
  {
  }

  lemma HitAnswer(c: Cache, step: Step, cap: nat, ttl: nat, a: Answer)
    requires Enabled(c, step, cap, ttl) && step.Lookup?
    requires a in Apply(c, step, cap, ttl).answers && a !in c.answers
    ensures var call := c.calls[step.thread];
            call.key in c.entries && a == Answer(call.key, c.entries[call.key].version, call.asOf)
  {
  }

  /** The call of thread `t` returns what its load read. */
  ghost predicate OwnLoad(c: Cache, t: ThreadId, a: Answer) {
    && t in c.calls && t in c.loaders && HasRead(c.loaders[t])
    && a == Answer(c.calls[t].key, c.loaders[t].version, c.calls[t].asOf)
  }

  lemma NewlyAnswered(c: Cache, t: ThreadId, version: nat, a: Answer)
    requires a in Answered(c, t, version).answers && a !in c.answers
    ensures t in c.calls && a == Answer(c.calls[t].key, version, c.calls[t].asOf)
  {
  }

  lemma DroppedAnswer(c: Cache, step: Step, cap: nat, ttl: nat, a: Answer)
    requires Enabled(c, step, cap, ttl) && step.LockAndCheck?
    requires a in Apply(c, step, cap, ttl).answers && a !in c.answers
    ensures OwnLoad(c, step.thread, a)
  {
    var t := step.thread;
    if c.epoch != c.loaders[t].snapshot {
      NewlyAnswered(c.(loaders := c.loaders - {t}), t, c.loaders[t].version, a);
    }
  }

  lemma InsertedAnswer(c: Cache, step: Step, cap: nat, ttl: nat, a: Answer)
    requires Enabled(c, step, cap, ttl) && step.InsertAndUnlock?
    requires a in Apply(c, step, cap, ttl).answers && a !in c.answers
    ensures OwnLoad(c, step.thread, a)
  {
    var t, l := step.thread, c.loaders[step.thread];
    var entries := Insert(c.entries, l.key, Entry(l.version, step.now, l.snapshot), cap, step.victim);
    NewlyAnswered(c.(lock := None, loaders := c.loaders - {t}, entries := entries), t, l.version, a);
  }

  /** A new answer is an entry's version on a hit, and what the call's own load read otherwise. */
  lemma AnswerFresh(c: Cache, step: Step, cap: nat, ttl: nat, a: Answer)
    requires Inv(c, cap) && Enabled(c, step, cap, ttl) && a in Apply(c, step, cap, ttl).answers
    ensures FreshAsOf(a.asOf, a.key, a.version)
  {
    if a !in c.answers {
      if step.Lookup? {
        HitAnswer(c, step, cap, ttl, a);
        assert CallOk(c, step.thread);
        EntryFresh(c, c.calls[step.thread].asOf, a.key);
      } else if step.LockAndCheck? {
        DroppedAnswer(c, step, cap, ttl, a);
        assert CallOk(c, step.thread);
      } else if step.InsertAndUnlock? {
        InsertedAnswer(c, step, cap, ttl, a);
        assert CallOk(c, step.thread);
      } else {
        NoAnswer(c, step, cap, ttl);
      }
    }
  }

  lemma CallsStep(c: Cache, step: Step, cap: nat, ttl: nat)
    requires Inv(c, cap) && Enabled(c, step, cap, ttl)
    ensures CallsOk(Apply(c, step, cap, ttl))
  {
    var c' := Apply(c, step, cap, ttl);
    forall t ensures CallOk(c', t) { CallAfter(c, step, cap, ttl, t); }
    forall a | a in c'.answers ensures FreshAsOf(a.asOf, a.key, a.version) { AnswerFresh(c, step, cap, ttl, a); }
  }

  // ----- runs

  ghost predicate IsRun(cap: nat, ttl: nat, steps: seq<Step>)
    decreases |steps|, 0
  {
    steps == [] ||
    (&& IsRun(cap, ttl, steps[..|steps| - 1])
     && Enabled(After(cap, ttl, steps[..|steps| - 1]), steps[|steps| - 1], cap, ttl))
  }

  ghost function After(cap: nat, ttl: nat, steps: seq<Step>): Cache
    requires IsRun(cap, ttl, steps)
    decreases |steps|, 1
  {
    if steps == [] then EMPTY
    else Apply(After(cap, ttl, steps[..|steps| - 1]), steps[|steps| - 1], cap, ttl)
  }

  lemma {:induction false} ReachableInv(cap: nat, ttl: nat, steps: seq<Step>)
    requires cap > 0 && IsRun(cap, ttl, steps)
    ensures Inv(After(cap, ttl, steps), cap)
  {
    if steps != [] {
      var before, last := steps[..|steps| - 1], steps[|steps| - 1];
      var c := After(cap, ttl, before);
      ReachableInv(cap, ttl, before);
      EpochsStep(c, last, cap, ttl);
      ReadsStep(c, last, cap, ttl);
      FenceStep(c, last, cap, ttl);
      CallsStep(c, last, cap, ttl);
      CapStep(c, last, cap, ttl);
    }
  }

  /**
   Fresh after invalidate, under every interleaving: once an invalidation of `k` returned, whatever the
   cache holds for `k` was loaded after that invalidation's bump and is at least as new as the source
   was at the bump. The cache stays within its cap.
   */
  lemma {:induction false} FreshAfterInvalidate(cap: nat, ttl: nat, steps: seq<Step>, x: Invalidation, k: Key)
    requires cap > 0 && IsRun(cap, ttl, steps)
    requires x in After(cap, ttl, steps).returned && Covers(x.what, k) && k in After(cap, ttl, steps).entries
    ensures After(cap, ttl, steps).entries[k].snapshot >= x.epoch
    ensures After(cap, ttl, steps).entries[k].version >= VersionIn(x.floor, k)
    ensures |After(cap, ttl, steps).entries| <= cap
  {
    ReachableInv(cap, ttl, steps);
    assert Known(After(cap, ttl, steps), x);
  }

  /**
   What a caller gets, under every interleaving: a call that began after an invalidation of its key had returned
   answers with a version no older than the source held at that invalidation's bump, be it a hit or a miss, and
   whether or not its own insert was dropped.
   */
  lemma {:induction false} AnswersAreFresh(cap: nat, ttl: nat, steps: seq<Step>, a: Answer, x: Invalidation)
    requires cap > 0 && IsRun(cap, ttl, steps)
    requires a in After(cap, ttl, steps).answers && x in a.asOf && Covers(x.what, a.key)
    ensures a.version >= VersionIn(x.floor, a.key)
  {
    ReachableInv(cap, ttl, steps);
    assert FreshAsOf(a.asOf, a.key, a.version);
  }

  // ----- what gets cached, and what is answered from it

  ghost predicate Runs(cap: nat, ttl: nat, steps: seq<Step>) {
    cap > 0 && IsRun(cap, ttl, steps)
  }

  lemma {:induction false} PrefixRuns(cap: nat, ttl: nat, steps: seq<Step>, k: nat)
    requires Runs(cap, ttl, steps) && k <= |steps|
    ensures Runs(cap, ttl, steps[..k])
  {
    if k < |steps| {
      PrefixRuns(cap, ttl, steps[..|steps| - 1], k);
      assert steps[..|steps| - 1][..k] == steps[..k];
    } else {
      assert steps[..k] == steps;
    }
  }

  /** The cache after the first `k` steps. */
  ghost function At(cap: nat, ttl: nat, steps: seq<Step>, k: nat): Cache
    requires Runs(cap, ttl, steps) && k <= |steps|
  {
    PrefixRuns(cap, ttl, steps, k);
    After(cap, ttl, steps[..k])
  }

  lemma NextAt(cap: nat, ttl: nat, steps: seq<Step>, k: nat)
    requires Runs(cap, ttl, steps) && k < |steps|
    ensures Enabled(At(cap, ttl, steps, k), steps[k], cap, ttl)
    ensures At(cap, ttl, steps, k + 1) == Apply(At(cap, ttl, steps, k), steps[k], cap, ttl)
  {
    PrefixRuns(cap, ttl, steps, k);
    PrefixRuns(cap, ttl, steps, k + 1);
    assert steps[..k + 1][..k] == steps[..k];
  }

  /** A load under way, with the epoch it saw at its start. */
  predicate LoadsSince(c: Cache, t: ThreadId, snapshot: nat) {
    t in c.loaders && !c.loaders[t].Checked? && c.loaders[t].snapshot == snapshot
  }

  lemma LoadStep(c: Cache, step: Step, cap: nat, ttl: nat, t: ThreadId, snapshot: nat)
    requires Enabled(c, step, cap, ttl) && LoadsSince(c, t, snapshot)
    requires step != FailLoad(t) && step != LockAndCheck(t)
    ensures LoadsSince(Apply(c, step, cap, ttl), t, snapshot)
    ensures Apply(c, step, cap, ttl).epoch == c.epoch + if step.Bump? then 1 else 0
  {
  }

  lemma LoadStays(cap: nat, ttl: nat, steps: seq<Step>, k: nat, t: ThreadId, snapshot: nat)
    requires Runs(cap, ttl, steps) && k < |steps| && LoadsSince(At(cap, ttl, steps, k), t, snapshot)
    requires steps[k] != FailLoad(t) && steps[k] != LockAndCheck(t)
    ensures LoadsSince(At(cap, ttl, steps, k + 1), t, snapshot)
    ensures At(cap, ttl, steps, k + 1).epoch == At(cap, ttl, steps, k).epoch + if steps[k].Bump? then 1 else 0
  {
    NextAt(cap, ttl, steps, k);
    LoadStep(At(cap, ttl, steps, k), steps[k], cap, ttl, t, snapshot);
  }

  lemma {:induction false} LoadKept(cap: nat, ttl: nat, steps: seq<Step>, from: nat, to: nat, t: ThreadId,
                                    snapshot: nat)
    requires Runs(cap, ttl, steps) && from <= to <= |steps| && LoadsSince(At(cap, ttl, steps, from), t, snapshot)
    requires forall m :: from <= m < to ==> steps[m] != FailLoad(t) && steps[m] != LockAndCheck(t)
    ensures LoadsSince(At(cap, ttl, steps, to), t, snapshot)
    ensures At(cap, ttl, steps, from).epoch <= At(cap, ttl, steps, to).epoch
    ensures At(cap, ttl, steps, from).epoch == At(cap, ttl, steps, to).epoch <==>
              forall m :: from <= m < to ==> !steps[m].Bump?
  {
    if from < to {
      LoadKept(cap, ttl, steps, from, to - 1, t, snapshot);
      LoadStays(cap, ttl, steps, to - 1, t, snapshot);
    }
  }

  /**
   On every run: a load that starts at step `i` and comes to its check at step `j` goes on to insert what it read if and
   only if no clear and no invalidate bumped the epoch in between; otherwise its thread is done without an insert.
   */
  lemma {:induction false} InsertsIffNoBump(cap: nat, ttl: nat, steps: seq<Step>, i: nat, j: nat, t: ThreadId)
    requires Runs(cap, ttl, steps) && i < j < |steps| && steps[i] == StartLoad(t) && steps[j] == LockAndCheck(t)
    requires forall m :: i < m < j ==> steps[m] != FailLoad(t) && steps[m] != LockAndCheck(t)
    ensures var c := At(cap, ttl, steps, j + 1);
            && (t in c.loaders <==> forall m :: i < m < j ==> !steps[m].Bump?)
            && (t in c.loaders ==> c.loaders[t].Checked? && c.lock == Some(t))
  {
    NextAt(cap, ttl, steps, i);
    LoadKept(cap, ttl, steps, i + 1, j, t, At(cap, ttl, steps, i).epoch);
    NextAt(cap, ttl, steps, j);
  }

  /** The insert that follows stores what was read under its own key and evicts at most one other entry, when full. */
  lemma InsertWrites(c: Cache, step: Step, cap: nat, ttl: nat)
    requires cap > 0 && |c.entries| <= cap && step.InsertAndUnlock? && Enabled(c, step, cap, ttl)
    ensures var c', l := Apply(c, step, cap, ttl), c.loaders[step.thread];
            && l.key in c'.entries && c'.entries[l.key] == Entry(l.version, step.now, l.snapshot) && c'.lock.None?
            && (forall k :: k in c'.entries && k != l.key ==> k in c.entries && c'.entries[k] == c.entries[k])
            && c.entries.Keys - c'.entries.Keys ==
                 if |c.entries| == cap && l.key !in c.entries then {step.victim} else {}
  {
    var l := c.loaders[step.thread];
    InsertKeepsOthers(c.entries, l.key, Entry(l.version, step.now, l.snapshot), cap, step.victim);
    StoredEntries(c, step, cap, ttl);
  }

  lemma StoredEntries(c: Cache, step: Step, cap: nat, ttl: nat)
    requires step.InsertAndUnlock? && Enabled(c, step, cap, ttl)
    ensures var c', l := Apply(c, step, cap, ttl), c.loaders[step.thread];
            && c'.lock.None?
            && c'.entries == Insert(c.entries, l.key, Entry(l.version, step.now, l.snapshot), cap, step.victim)
  {
    var t, l := step.thread, c.loaders[step.thread];
    var entries := Insert(c.entries, l.key, Entry(l.version, step.now, l.snapshot), cap, step.victim);
    AnsweredEntries(c.(lock := None, loaders := c.loaders - {t}, entries := entries), t, l.version);
  }

  lemma AnsweredEntries(c: Cache, t: ThreadId, version: nat)
    ensures Answered(c, t, version).entries == c.entries && Answered(c, t, version).lock == c.lock
  {
  }

  /** A lookup answers from the cache exactly while the entry is younger than the time to live, else it goes to load. */
  lemma LookupWrites(c: Cache, step: Step, cap: nat, ttl: nat)
    requires step.Lookup? && Enabled(c, step, cap, ttl)
    ensures var c', call := Apply(c, step, cap, ttl), c.calls[step.thread];
            var hit := call.key in c.entries && ttl > 0 && step.now < c.entries[call.key].fetchedAt + ttl;
            && c'.entries == c.entries && c'.epoch == c.epoch && c'.loaders == c.loaders
            && c'.answers == (if hit then c.answers + {Answer(call.key, c.entries[call.key].version, call.asOf)}
                              else c.answers)
            && c'.calls == if hit then c.calls - {step.thread} else c.calls[step.thread := call.(missed := true)]
  {
  }

  /** A call knows the invalidations that had returned when it began; a load reads the source as it is then. */
  lemma CallWrites(c: Cache, step: Step, cap: nat, ttl: nat)
    requires Enabled(c, step, cap, ttl)
    ensures var c' := Apply(c, step, cap, ttl);
            && (step.Begin? ==> c' == c.(calls := c.calls[step.thread := Call(step.key, c.returned, false)]))
            && (step.Write? ==>
                  var version := if step.key in c.source then c.source[step.key] else 0;
                  c' == c.(source := c.source[step.key := version + 1]))
            && (step.StartLoad? ==>
                  c' == c.(loaders := c.loaders[step.thread := Loading(c.calls[step.thread].key, c.epoch)]))
            && (step.ReadSource? ==>
                  var l := c.loaders[step.thread];
                  var version := if l.key in c.source then c.source[l.key] else 0;
                  c' == c.(loaders := c.loaders[step.thread := Loaded(l.key, l.snapshot, version)]))
  {
  }

  /** An invalidation bumps the epoch, taking note of the source, and later drops its key or, for a clear, every key. */
  lemma InvalidationWrites(c: Cache, step: Step, cap: nat, ttl: nat)
    requires Enabled(c, step, cap, ttl)
    ensures var c' := Apply(c, step, cap, ttl);
            && (step.Bump? ==>
                  c' == c.(epoch := c.epoch + 1,
                           bumped := c.bumped[step.thread := Invalidation(step.what, c.epoch + 1, c.source)]))
            && (step.Remove? ==>
                  var x := c.bumped[step.thread];
                  c' == c.(bumped := c.bumped - {step.thread}, returned := c.returned + {x},
                           entries := if x.what.None? then map[] else c.entries - {x.what.value}))
  {
  }
}
