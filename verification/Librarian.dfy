/** The librarian's duplicate sweep: which rows it forgets, and what every forgotten row was merged into. */
module Librarian {
  import opened Common
  import opened Memory
  import opened MemoryStore

  /** A similar pair of the sweep's query; the rows are the query's snapshot. */
  datatype Pair = Pair(a: MemoryId, b: MemoryId)

  type Rows = map<MemoryId, Row>

  ghost predicate Snapshot(pairs: seq<Pair>, rows: Rows) {
    forall i :: 0 <= i < |pairs| ==> pairs[i].a in rows && pairs[i].b in rows && pairs[i].a != pairs[i].b
  }

  /** Higher state first, then the older row, then the smaller id. */
  predicate Outranks(rows: Rows, x: MemoryId, y: MemoryId)
    requires x in rows && y in rows
  {
    var p, q := rows[x].state, rows[y].state;
    || (p == Core && q != Core)
    || (p == Validated && (q == Held || q == Tentative))
    || (p == Held && q == Tentative)
    || (p == q && rows[x].createdAt < rows[y].createdAt)
    || (p == q && rows[x].createdAt == rows[y].createdAt && x < y)
  }

  function Loser(rows: Rows, pair: Pair): (loser: MemoryId)
    requires pair.a in rows && pair.b in rows
    ensures loser == pair.a || loser == pair.b
    ensures pair.a != pair.b ==> Outranks(rows, Winner(pair, loser), loser)
  {
    var prioA, prioB := Priority(rows[pair.a].state), Priority(rows[pair.b].state);
    var aWins :=
      if prioA != prioB then prioA > prioB
      else if rows[pair.a].createdAt != rows[pair.b].createdAt then rows[pair.a].createdAt < rows[pair.b].createdAt
      else pair.a < pair.b;
    if aWins then pair.b else pair.a
  }

  function Winner(pair: Pair, loser: MemoryId): MemoryId {
    if loser == pair.a then pair.b else pair.a
  }

  predicate Skips(forgotten: seq<MemoryId>, rows: Rows, pair: Pair)
    requires pair.a in rows && pair.b in rows
  {
    pair.a in forgotten || pair.b in forgotten || rows[Loser(rows, pair)].pinned
  }

  /** The rows the greedy sweep forgets, in order. */
  function Sweep(pairs: seq<Pair>, rows: Rows): seq<MemoryId>
    requires Snapshot(pairs, rows)
  {
    if pairs == [] then []
    else
      var done := Sweep(pairs[..|pairs| - 1], rows);
      var pair := pairs[|pairs| - 1];
      if Skips(done, rows, pair) then done else done + [Loser(rows, pair)]
  }

  /** A chain of listed pairs in which every row is strictly outranked by the next one. */
  ghost predicate MergeChain(pairs: seq<Pair>, rows: Rows, path: seq<MemoryId>) {
    && path != [] && (forall i :: 0 <= i < |path| ==> path[i] in rows)
    && forall i :: 0 <= i < |path| - 1 ==> Merged(pairs, path[i], path[i + 1]) && Outranks(rows, path[i + 1], path[i])
  }

  predicate Merged(pairs: seq<Pair>, x: MemoryId, y: MemoryId) {
    Pair(x, y) in pairs || Pair(y, x) in pairs
  }

  /** Every pair ends with a forgotten side or a pinned loser; nothing pinned is forgotten, nothing twice. */
  lemma {:induction false} SweepSettlesPairs(pairs: seq<Pair>, rows: Rows)
    requires Snapshot(pairs, rows)
    ensures forall i :: 0 <= i < |pairs| ==>
              || pairs[i].a in Sweep(pairs, rows) || pairs[i].b in Sweep(pairs, rows)
              || rows[Loser(rows, pairs[i])].pinned
    ensures forall id :: id in Sweep(pairs, rows) ==> id in rows && !rows[id].pinned
    ensures forall i, j :: 0 <= i < j < |Sweep(pairs, rows)| ==> Sweep(pairs, rows)[i] != Sweep(pairs, rows)[j]
  {
    if pairs != [] {
      var front, pair := pairs[..|pairs| - 1], pairs[|pairs| - 1];
      SweepSettlesPairs(front, rows);
      forall i | 0 <= i < |front| ensures Skips(Sweep(pairs, rows), rows, pairs[i]) {
        assert front[i] == pairs[i] && Skips(Sweep(front, rows), rows, front[i]);
      }
    }
  }

  /** Every forgotten row is joined by a chain of listed pairs to a survivor that strictly outranks it. */
  lemma {:induction false} SweepKeepsASurvivor(pairs: seq<Pair>, rows: Rows, id: MemoryId) returns (path: seq<MemoryId>)
    requires Snapshot(pairs, rows) && id in Sweep(pairs, rows)
    ensures MergeChain(pairs, rows, path) && path[0] == id
    ensures path[|path| - 1] !in Sweep(pairs, rows)
    ensures Outranks(rows, path[|path| - 1], id)
  {
    var front, pair := pairs[..|pairs| - 1], pairs[|pairs| - 1];
    var done := Sweep(front, rows);
    var loser := Loser(rows, pair);
    var winner := Winner(pair, loser);
    assert pairs == front + [pair];
    if id in done {
      path := SweepKeepsASurvivor(front, rows, id);
      assert MergeChain(pairs, rows, path);
      if !Skips(done, rows, pair) && path[|path| - 1] == loser {
        path := path + [winner];
      }
    } else {
      path := [id, winner];
    }
  }

  lemma {:induction false} SweepOfPrefix(pairs: seq<Pair>, rows: Rows, n: nat)
    requires Snapshot(pairs, rows) && n <= |pairs|
    ensures Sweep(pairs[..n], rows) <= Sweep(pairs, rows)
  {
    if n == |pairs| {
      assert pairs[..n] == pairs;
    } else {
      assert pairs[..|pairs| - 1][..n] == pairs[..n];
      SweepOfPrefix(pairs[..|pairs| - 1], rows, n);
    }
  }

  /** The row the query returned is the agent's and still what the store holds. */
  predicate Current(id: MemoryId, rows: Rows, now: Rows, agent: AgentId)
    requires id in rows
  {
    id in now && now[id] == rows[id] && rows[id].agent == agent
  }

  /**
   The loop of the sweep over the pairs the query returned with their rows at that moment. The store may have
   changed since: the loop then stops at the first loser the store refuses to forget, and what it has forgotten
   up to there is a beginning of the sweep.
   */
  method DedupSweep(store: MemoryTable, agent: AgentId, pairs: seq<Pair>, rows: Rows, now: int)
    returns (forgotten: seq<MemoryId>, error: Option<Error>)
    requires Snapshot(pairs, rows)
    modifies store
    ensures forgotten <= Sweep(pairs, rows)
    ensures store.Contents() == RemoveAll(old(store.Contents()), forgotten, now)
    ensures error.None? ==> forgotten == Sweep(pairs, rows)
    ensures error.Some? ==>
      && |forgotten| < |Sweep(pairs, rows)|
      && Locked(store.Contents(), agent, Sweep(pairs, rows)[|forgotten|], Librarian) == error
    ensures (forall id :: id in rows ==> Current(id, rows, old(store.rows), agent)) ==> error.None?
  {
    forgotten, error := [], None;
    for n := 0 to |pairs|
      invariant error.None? && Snapshot(pairs[..n], rows) && forgotten == Sweep(pairs[..n], rows)
      invariant store.Contents() == RemoveAll(old(store.Contents()), forgotten, now)
      invariant forall id :: id in old(store.rows) && id !in forgotten ==>
                  id in store.rows && store.rows[id] == old(store.rows)[id]
    {
      assert pairs[..n + 1][..n] == pairs[..n];
      SweepOfPrefix(pairs, rows, n + 1);
      var pair := pairs[n];
      if pair.a in forgotten || pair.b in forgotten { continue; }
      var loser := Loser(rows, pair);
      if rows[loser].pinned { continue; }
      assert (forgotten + [loser])[..|forgotten|] == forgotten;
      assert Sweep(pairs[..n + 1], rows) == forgotten + [loser];
      error := store.ApplyForget(agent, loser, Librarian, now);
      if error.Some? { return; }
      forgotten := forgotten + [loser];
    }
    assert pairs[..|pairs|] == pairs;
  }
}
