/**
 The rendered memory section of a system prompt.

 Strings are byte strings, so a length is a number of bytes. The section is specified by functions on whole
 lists; the loops of the program are the methods at the end.
 */
module Composer {
  import opened Common
  import opened Memory
  import opened Handles

  const STABLE_BUDGET: nat := 4096
  const CONTEXTUAL_BUDGET: nat := 4096
  const LINE_OVERHEAD: nat := 32

  datatype Entry = Entry(id: MemoryId, row: Row)

  function IdsOf(es: seq<Entry>): (ids: seq<MemoryId>)
    ensures |ids| == |es| && forall i :: 0 <= i < |es| ==> ids[i] == es[i].id
  {
    seq(|es|, i requires 0 <= i < |es| => es[i].id)
  }

  ghost predicate UniqueIds(es: seq<Entry>) {
    forall i, j :: 0 <= i < j < |es| ==> es[i].id != es[j].id
  }

  ghost predicate Unique(ids: seq<MemoryId>) {
    forall i, j :: 0 <= i < j < |ids| ==> ids[i] != ids[j]
  }

  // ----- the byte budget

  function LineCost(e: Entry): nat {
    |e.row.content| + LINE_OVERHEAD
  }

  function Cost(es: seq<Entry>): nat {
    if es == [] then 0 else Cost(es[..|es| - 1]) + LineCost(es[|es| - 1])
  }

  /** The longest prefix within the budget. */
  function Trimmed(es: seq<Entry>, budget: nat): (kept: seq<Entry>)
    ensures kept <= es && Cost(kept) <= budget
  {
    if Cost(es) <= budget then es else Trimmed(es[..|es| - 1], budget)
  }

  lemma {:induction false} CostOfPrefix(es: seq<Entry>, k: nat)
    requires k <= |es|
    ensures Cost(es[..k]) <= Cost(es)
  {
    if k == |es| {
      assert es[..k] == es;
    } else {
      CostOfPrefix(es[..|es| - 1], k);
      assert es[..|es| - 1][..k] == es[..k];
    }
  }

  /** All bytes of the rows' contents. */
  function Bytes(es: seq<Entry>): nat {
    if es == [] then 0 else Bytes(es[1..]) + |es[0].row.content|
  }

  lemma {:induction false} BytesSnoc(es: seq<Entry>, e: Entry)
    ensures Bytes(es + [e]) == Bytes(es) + |e.row.content|
  {
    if es != [] {
      BytesSnoc(es[1..], e);
      assert (es + [e])[1..] == es[1..] + [e];
    }
  }

  lemma {:induction false} CostInBytes(es: seq<Entry>)
    ensures Cost(es) == Bytes(es) + 32 * |es|
  {
    if es != [] {
      var front, e := es[..|es| - 1], es[|es| - 1];
      CostInBytes(front);
      BytesSnoc(front, e);
      assert es == front + [e];
    }
  }

  /** The first `k` rows, at 32 bytes above their contents, fit the budget if and only if all of them are kept. */
  lemma {:induction false} TrimmedIsLongest(es: seq<Entry>, budget: nat, k: nat)
    requires k <= |es|
    ensures Bytes(es[..k]) + 32 * k <= budget <==> k <= |Trimmed(es, budget)|
  {
    CostInBytes(es[..k]);
    KeptIffAfforded(es, budget, k);
  }

  lemma {:induction false} KeptIffAfforded(es: seq<Entry>, budget: nat, k: nat)
    requires k <= |es|
    ensures Cost(es[..k]) <= budget <==> k <= |Trimmed(es, budget)|
  {
    CostOfPrefix(es, k);
    if k == |es| {
      assert es[..k] == es;
    } else if Cost(es) > budget {
      KeptIffAfforded(es[..|es| - 1], budget, k);
      assert es[..|es| - 1][..k] == es[..k];
    }
  }

  /** Contents are never empty, so a row costs at least 33 bytes. */
  ghost predicate Contentful(es: seq<Entry>) {
    forall i :: 0 <= i < |es| ==> |es[i].row.content| > 0
  }

  lemma {:induction false} CostPerRow(es: seq<Entry>)
    requires Contentful(es)
    ensures |es| * (LINE_OVERHEAD + 1) <= Cost(es)
  {
    if es != [] {
      CostPerRow(es[..|es| - 1]);
    }
  }

  // ----- the stable layer

  predicate InStableLayer(e: Entry) {
    e.row.pinned || e.row.kind == Identity
  }

  function Candidates(es: seq<Entry>): seq<Entry> {
    if es == [] then []
    else
      var front, e := Candidates(es[..|es| - 1]), es[|es| - 1];
      if InStableLayer(e) then front + [e] else front
  }

  /** Higher state first, then the newer row. */
  predicate Before(a: Entry, b: Entry) {
    var p, q := Priority(a.row.state), Priority(b.row.state);
    p > q || (p == q && a.row.createdAt > b.row.createdAt)
  }

  predicate Tie(a: Entry, b: Entry) {
    a.row.state == b.row.state && a.row.createdAt == b.row.createdAt
  }

  /** `a` may stand before `b`: by state, core first and tentative last, then newer first. */
  predicate InPlace(a: Row, b: Row) {
    && (b.state == Core ==> a.state == Core)
    && (b.state == Validated ==> a.state == Core || a.state == Validated)
    && (b.state == Held ==> a.state != Tentative)
    && (a.state == b.state ==> a.createdAt >= b.createdAt)
  }

  function Inserted(es: seq<Entry>, e: Entry): seq<Entry> {
    if es != [] && Before(e, es[|es| - 1]) then Inserted(es[..|es| - 1], e) + [es[|es| - 1]] else es + [e]
  }

  function StableSort(es: seq<Entry>): seq<Entry> {
    if es == [] then [] else Inserted(StableSort(es[..|es| - 1]), es[|es| - 1])
  }

  ghost predicate Ordered(es: seq<Entry>) {
    forall i, j :: 0 <= i < j < |es| ==> !Before(es[j], es[i])
  }

  /** The rows that tie with `e`, in their order. */
  function Ties(es: seq<Entry>, e: Entry): seq<Entry> {
    if es == [] then []
    else Ties(es[..|es| - 1], e) + if Tie(es[|es| - 1], e) then [es[|es| - 1]] else []
  }

  lemma {:induction false} InsertedPermutes(es: seq<Entry>, e: Entry)
    ensures multiset(Inserted(es, e)) == multiset(es) + multiset{e}
  {
    if es != [] && Before(e, es[|es| - 1]) {
      InsertedPermutes(es[..|es| - 1], e);
      assert es == es[..|es| - 1] + [es[|es| - 1]];
    }
  }

  lemma OrderedSnoc(es: seq<Entry>, e: Entry)
    requires Ordered(es) && forall x :: x in es ==> !Before(e, x)
    ensures Ordered(es + [e])
  {
  }

  lemma {:induction false} InsertedMembers(es: seq<Entry>, e: Entry, x: Entry)
    ensures x in Inserted(es, e) <==> x in es || x == e
  {
    if es != [] && Before(e, es[|es| - 1]) {
      InsertedMembers(es[..|es| - 1], e, x);
      assert es == es[..|es| - 1] + [es[|es| - 1]];
    }
  }

  lemma {:induction false} InsertedSorts(es: seq<Entry>, e: Entry)
    requires Ordered(es)
    ensures Ordered(Inserted(es, e))
  {
    if es != [] && Before(e, es[|es| - 1]) {
      var front, last := es[..|es| - 1], es[|es| - 1];
      InsertedSorts(front, e);
      forall x | x in Inserted(front, e) ensures !Before(last, x) { InsertedMembers(front, e, x); }
      OrderedSnoc(Inserted(front, e), last);
    } else {
      forall x | x in es ensures !Before(e, x) { LastIsLeast(es, x); }
      OrderedSnoc(es, e);
    }
  }

  lemma LastIsLeast(es: seq<Entry>, x: Entry)
    requires Ordered(es) && x in es
    ensures !Before(es[|es| - 1], x)
  {
    assert !Before(x, x);
  }

  lemma {:induction false} InsertedKeepsTies(es: seq<Entry>, e: Entry, x: Entry)
    requires Ordered(es)
    ensures Ties(Inserted(es, e), x) == Ties(es, x) + if Tie(e, x) then [e] else []
  {
    if es != [] && Before(e, es[|es| - 1]) {
      var front, last := es[..|es| - 1], es[|es| - 1];
      InsertedKeepsTies(front, e, x);
      assert Inserted(es, e)[..|Inserted(es, e)| - 1] == Inserted(front, e);
    } else {
      assert (es + [e])[..|es|] == es;
    }
  }

  lemma {:induction false} StableSortOrders(es: seq<Entry>)
    ensures Ordered(StableSort(es))
  {
    if es != [] {
      StableSortOrders(es[..|es| - 1]);
      InsertedSorts(StableSort(es[..|es| - 1]), es[|es| - 1]);
    }
  }

  lemma NotAfterIsInPlace(a: Entry, b: Entry)
    ensures !Before(b, a) <==> InPlace(a.row, b.row)
  {
  }

  lemma {:induction false} StableSortSorts(es: seq<Entry>)
    ensures var out := StableSort(es);
            forall i, j :: 0 <= i < j < |out| ==> InPlace(out[i].row, out[j].row)
  {
    StableSortOrders(es);
    var out := StableSort(es);
    forall i, j | 0 <= i < j < |out| ensures InPlace(out[i].row, out[j].row) { NotAfterIsInPlace(out[i], out[j]); }
  }

  lemma InsertOne(sorted: seq<Entry>, front: seq<Entry>, e: Entry)
    requires multiset(sorted) == multiset(front)
    ensures multiset(Inserted(sorted, e)) == multiset(front + [e])
  {
    InsertedPermutes(sorted, e);
  }

  lemma {:induction false} StableSortPermutes(es: seq<Entry>)
    ensures multiset(StableSort(es)) == multiset(es)
  {
    if es != [] {
      var front, e := es[..|es| - 1], es[|es| - 1];
      StableSortPermutes(front);
      assert es == front + [e];
      InsertOne(StableSort(front), front, e);
    }
  }

  /** Rows that compare equal keep their relative order. */
  lemma {:induction false} StableSortIsStable(es: seq<Entry>, x: Entry)
    ensures Ties(StableSort(es), x) == Ties(es, x)
  {
    if es != [] {
      StableSortOrders(es[..|es| - 1]);
      StableSortIsStable(es[..|es| - 1], x);
      InsertedKeepsTies(StableSort(es[..|es| - 1]), es[|es| - 1], x);
    }
  }

  function StableLayer(es: seq<Entry>): seq<Entry> {
    Trimmed(StableSort(Candidates(es)), STABLE_BUDGET)
  }

  /** The agent's pinned rows and the rows about itself. */
  predicate Standing(e: Entry) {
    e.row.pinned || e.row.kind == Identity
  }

  /** `layer` is the longest beginning of `all` within the budget, at 32 bytes a row above the contents. */
  ghost predicate LongestWithin(layer: seq<Entry>, all: seq<Entry>, budget: nat) {
    && layer <= all && Bytes(layer) + 32 * |layer| <= budget
    && (|layer| < |all| ==> Bytes(all[..|layer| + 1]) + 32 * (|layer| + 1) > budget)
  }

  /** `all` lists the pinned rows and the rows about the agent itself, the most trusted and newest first. */
  ghost predicate StandingInOrder(all: seq<Entry>, rows: seq<Entry>) {
    && (forall e :: e in all <==> e in rows && Standing(e))
    && (forall i, j :: 0 <= i < j < |all| ==> InPlace(all[i].row, all[j].row))
  }

  /** The stable layer is the longest beginning within 4096 bytes of those rows in that order. */
  lemma StableLayerIs(rows: seq<Entry>) returns (all: seq<Entry>)
    ensures StandingInOrder(all, rows) && LongestWithin(StableLayer(rows), all, 4096)
    ensures all == StableSort(Candidates(rows))
  {
    all := StableSort(Candidates(rows));
    StandingSorted(rows);
    TrimmedFits(all, 4096);
  }

  lemma StandingSorted(rows: seq<Entry>)
    ensures StandingInOrder(StableSort(Candidates(rows)), rows)
  {
    StableSortSorts(Candidates(rows));
    forall e ensures e in StableSort(Candidates(rows)) <==> e in rows && Standing(e) { SortedCandidates(rows, e); }
  }

  lemma SortedCandidates(rows: seq<Entry>, e: Entry)
    ensures e in StableSort(Candidates(rows)) <==> e in rows && Standing(e)
  {
    StableSortPermutes(Candidates(rows));
    assert e in multiset(StableSort(Candidates(rows))) <==> e in multiset(Candidates(rows));
    CandidatesAre(rows, e);
  }

  /** A trimmed list fits its budget, and one row more would not. */
  lemma TrimmedFits(all: seq<Entry>, budget: nat)
    ensures LongestWithin(Trimmed(all, budget), all, budget)
  {
    var layer := Trimmed(all, budget);
    TrimmedIsLongest(all, budget, |layer|);
    if |layer| < |all| { TrimmedIsLongest(all, budget, |layer| + 1); }
    assert all[..|layer|] == layer;
  }

  // ----- the section

  /** The entries whose id is not listed. */
  function Without(es: seq<Entry>, ids: seq<MemoryId>): seq<Entry> {
    if es == [] then []
    else
      var front, e := Without(es[..|es| - 1], ids), es[|es| - 1];
      if e.id in ids then front else front + [e]
  }

  function ContextualLayer(stable: seq<Entry>, contextual: seq<Entry>): seq<Entry> {
    Trimmed(Without(contextual, IdsOf(stable)), CONTEXTUAL_BUDGET)
  }

  function Layers(rows: seq<Entry>, contextual: seq<Entry>): seq<Entry> {
    StableLayer(rows) + ContextualLayer(StableLayer(rows), contextual)
  }

  /** The rendered rows, in handle order. */
  function Shown(rows: seq<Entry>, contextual: seq<Entry>, reserved: seq<MemoryId>): seq<Entry> {
    Without(Layers(rows, contextual), reserved)
  }

  /** Handle k names the k-th id. */
  function HandleMap(ids: seq<MemoryId>): map<nat, MemoryId> {
    if ids == [] then map[] else HandleMap(ids[..|ids| - 1])[|ids| := ids[|ids| - 1]]
  }

  lemma {:induction false} HandleNames(ids: seq<MemoryId>, k: nat)
    ensures k in HandleMap(ids) <==> 1 <= k <= |ids|
    ensures k in HandleMap(ids) ==> HandleMap(ids)[k] == ids[k - 1]
  {
    if ids != [] { HandleNames(ids[..|ids| - 1], k); }
  }

  datatype Numbered = Numbered(handle: nat, entry: Entry)

  function Listed(shown: seq<Entry>, base: nat): (ns: seq<Numbered>)
    ensures |ns| == |shown| && forall i :: 0 <= i < |shown| ==> ns[i] == Numbered(base + 1 + i, shown[i])
  {
    seq(|shown|, i requires 0 <= i < |shown| => Numbered(base + 1 + i, shown[i]))
  }

  /** `Panicked` is the failed conversion of a handle number past the largest handle. */
  datatype Composed = Section(text: string, handles: map<nat, MemoryId>) | Panicked

  function Rendered(layers: seq<Entry>, reserved: seq<MemoryId>): Composed {
    var shown := Without(layers, reserved);
    if |reserved| + |shown| > MAX_HANDLE then Panicked
    else Section(if shown == [] then "" else Text(Listed(shown, |reserved|)), HandleMap(reserved + IdsOf(shown)))
  }

  function Compose(rows: seq<Entry>, contextual: seq<Entry>, reserved: seq<MemoryId>): Composed {
    Rendered(Layers(rows, contextual), reserved)
  }

  // ----- the text

  const TAG_OPEN := "<memory>\n"
  const TAG_CLOSE := "\n</memory>"
  const TITLE := "## Memory\n"
  const INSTRUCTIONS_1 := "Facts you previously remembered. Each entry has an `M-NN` handle \U{E2}\U{80}\U{94} "
  const INSTRUCTIONS_2 := "pass it to `memory_update`, `memory_forget`, or `memory_validate` to "
  const INSTRUCTIONS_3 := "revise the entry. Use `recall` to search for memories not listed below.\n"

  function Preamble(): string {
    TAG_OPEN + TITLE + INSTRUCTIONS_1 + INSTRUCTIONS_2 + INSTRUCTIONS_3
  }

  function KindOrder(): seq<Kind> {
    [Identity, Other, Collaborator, Procedure, Open]
  }

  function Label(kind: Kind): string {
    match kind
    case Identity => "Self"
    case Other => "Other"
    case Collaborator => "Collaborator"
    case Procedure => "Procedure"
    case Open => "Open"
  }

  function StateName(state: Trust): string {
    match state
    case Core => "core"
    case Validated => "validated"
    case Held => "held"
    case Tentative => "tentative"
  }

  function Line(n: Numbered): string {
    "- [" + Show(n.handle) + ", " + StateName(n.entry.row.state) + "] " + n.entry.row.content + "\n"
  }

  function Concat(parts: seq<string>): string {
    if parts == [] then "" else Concat(parts[..|parts| - 1]) + parts[|parts| - 1]
  }

  function LineTexts(ns: seq<Numbered>): (parts: seq<string>)
    ensures |parts| == |ns| && forall i :: 0 <= i < |ns| ==> parts[i] == Line(ns[i])
  {
    seq(|ns|, i requires 0 <= i < |ns| => Line(ns[i]))
  }

  function Lines(ns: seq<Numbered>): string {
    Concat(LineTexts(ns))
  }

  function OfKind(ns: seq<Numbered>, kind: Kind): seq<Numbered> {
    if ns == [] then []
    else OfKind(ns[..|ns| - 1], kind) + if ns[|ns| - 1].entry.row.kind == kind then [ns[|ns| - 1]] else []
  }

  function Heading(kind: Kind): string {
    "\n" + "### " + Label(kind) + "\n"
  }

  function Block(ns: seq<Numbered>, kind: Kind): string {
    if OfKind(ns, kind) == [] then "" else Heading(kind) + Lines(OfKind(ns, kind))
  }

  function BlockTexts(ns: seq<Numbered>, kinds: seq<Kind>): (parts: seq<string>)
    ensures |parts| == |kinds| && forall i :: 0 <= i < |kinds| ==> parts[i] == Block(ns, kinds[i])
  {
    seq(|kinds|, i requires 0 <= i < |kinds| => Block(ns, kinds[i]))
  }

  function Blocks(ns: seq<Numbered>, kinds: seq<Kind>): string {
    Concat(BlockTexts(ns, kinds))
  }

  function Text(ns: seq<Numbered>): string {
    Preamble() + Blocks(ns, KindOrder()) + TAG_CLOSE
  }

  // ----- which rows are shown

  lemma {:induction false} WithoutIs(es: seq<Entry>, ids: seq<MemoryId>, e: Entry)
    ensures e in Without(es, ids) <==> e in es && e.id !in ids
  {
    if es != [] {
      WithoutIs(es[..|es| - 1], ids, e);
      assert es == es[..|es| - 1] + [es[|es| - 1]];
    }
  }

  /** The positions of `part` in `whole`: it lists some of its rows, in the same order. */
  ghost predicate Picks(part: seq<Entry>, whole: seq<Entry>, at: seq<nat>) {
    && |at| == |part|
    && (forall i :: 0 <= i < |part| ==> at[i] < |whole| && whole[at[i]] == part[i])
    && forall i, j :: 0 <= i < j < |at| ==> at[i] < at[j]
  }

  lemma {:induction false} WithoutPicks(es: seq<Entry>, ids: seq<MemoryId>) returns (at: seq<nat>)
    ensures Picks(Without(es, ids), es, at)
  {
    if es == [] {
      at := [];
    } else {
      var front, e := es[..|es| - 1], es[|es| - 1];
      at := WithoutPicks(front, ids);
      assert es == front + [e];
      if e.id in ids {
        PicksSkip(Without(front, ids), front, at, e);
      } else {
        PicksTake(Without(front, ids), front, at, e);
        at := at + [|front|];
      }
    }
  }

  lemma PicksSkip(part: seq<Entry>, front: seq<Entry>, at: seq<nat>, e: Entry)
    requires Picks(part, front, at)
    ensures Picks(part, front + [e], at)
  {
  }

  lemma PicksTake(part: seq<Entry>, front: seq<Entry>, at: seq<nat>, e: Entry)
    requires Picks(part, front, at)
    ensures Picks(part + [e], front + [e], at + [|front|])
  {
  }

  /** The retrieved rows in the order of their scores, less those the stable layer has, as many as fit 4096 bytes. */
  lemma ContextualLayerIs(rows: seq<Entry>, contextual: seq<Entry>) returns (at: seq<nat>)
    ensures var stable := StableLayer(rows);
            var all := Without(contextual, IdsOf(stable));
            && Picks(all, contextual, at)
            && (forall e :: e in all <==> e in contextual && forall x :: x in stable ==> x.id != e.id)
            && LongestWithin(ContextualLayer(stable, contextual), all, 4096)
  {
    var stable := StableLayer(rows);
    var all := Without(contextual, IdsOf(stable));
    at := WithoutPicks(contextual, IdsOf(stable));
    forall e ensures e in all <==> e in contextual && forall x :: x in stable ==> x.id != e.id {
      WithoutIs(contextual, IdsOf(stable), e);
      IdsAre(stable, e.id);
    }
    TrimmedFits(all, 4096);
  }

  lemma IdsAre(es: seq<Entry>, id: MemoryId)
    ensures id in IdsOf(es) <==> exists x :: x in es && x.id == id
  {
    if x :| x in es && x.id == id {
      var i :| 0 <= i < |es| && es[i] == x;
      assert IdsOf(es)[i] == id;
    }
    if id in IdsOf(es) {
      var i :| 0 <= i < |es| && IdsOf(es)[i] == id;
      assert es[i] in es;
    }
  }

  lemma {:induction false} WithoutCost(es: seq<Entry>, ids: seq<MemoryId>)
    ensures |Without(es, ids)| <= |es| && Cost(Without(es, ids)) <= Cost(es)
  {
    if es != [] {
      WithoutCost(es[..|es| - 1], ids);
      var w := Without(es[..|es| - 1], ids);
      assert (w + [es[|es| - 1]])[..|w|] == w;
    }
  }

  lemma UniqueSnoc(es: seq<Entry>, e: Entry)
    requires UniqueIds(es) && forall x :: x in es ==> x.id != e.id
    ensures UniqueIds(es + [e])
  {
    forall i | 0 <= i < |es| ensures es[i].id != e.id { assert es[i] in es; }
  }

  lemma {:induction false} WithoutUnique(es: seq<Entry>, ids: seq<MemoryId>)
    requires UniqueIds(es)
    ensures UniqueIds(Without(es, ids))
  {
    if es != [] {
      var front, e := es[..|es| - 1], es[|es| - 1];
      WithoutUnique(front, ids);
      forall x | x in Without(front, ids) ensures x.id != e.id { WithoutIs(front, ids, x); }
      UniqueSnoc(Without(front, ids), e);
    }
  }

  lemma {:induction false} CandidatesAre(es: seq<Entry>, e: Entry)
    ensures e in Candidates(es) <==> e in es && InStableLayer(e)
  {
    if es != [] {
      CandidatesAre(es[..|es| - 1], e);
      assert es == es[..|es| - 1] + [es[|es| - 1]];
    }
  }

  lemma {:induction false} CandidatesUnique(es: seq<Entry>)
    requires UniqueIds(es)
    ensures UniqueIds(Candidates(es))
  {
    if es != [] {
      var front, e := es[..|es| - 1], es[|es| - 1];
      CandidatesUnique(front);
      forall x | x in Candidates(front) ensures x.id != e.id { CandidatesAre(front, x); }
      UniqueSnoc(Candidates(front), e);
    }
  }

  lemma {:induction false} InsertedIds(es: seq<Entry>, e: Entry)
    requires UniqueIds(es) && forall i :: 0 <= i < |es| ==> es[i].id != e.id
    ensures UniqueIds(Inserted(es, e))
    ensures forall x :: x in Inserted(es, e) <==> x in es || x == e
  {
    if es != [] && Before(e, es[|es| - 1]) {
      var front, last := es[..|es| - 1], es[|es| - 1];
      InsertedIds(front, e);
      assert es == front + [last];
      forall i | 0 <= i < |Inserted(front, e)| ensures Inserted(front, e)[i].id != last.id {
        assert Inserted(front, e)[i] in Inserted(front, e);
      }
    }
  }

  lemma {:induction false} SortedIds(es: seq<Entry>)
    requires UniqueIds(es)
    ensures UniqueIds(StableSort(es))
    ensures forall x :: x in StableSort(es) <==> x in es
  {
    if es != [] {
      var front, e := es[..|es| - 1], es[|es| - 1];
      SortedIds(front);
      assert es == front + [e];
      forall i | 0 <= i < |StableSort(front)| ensures StableSort(front)[i].id != e.id {
        assert StableSort(front)[i] in StableSort(front);
      }
      InsertedIds(StableSort(front), e);
    }
  }

  lemma LayersAreUnique(rows: seq<Entry>, contextual: seq<Entry>)
    requires UniqueIds(rows) && UniqueIds(contextual)
    ensures UniqueIds(Layers(rows, contextual))
  {
    var stable := StableLayer(rows);
    CandidatesUnique(rows);
    SortedIds(Candidates(rows));
    var ids := IdsOf(stable);
    WithoutUnique(contextual, ids);
    var ctx := ContextualLayer(stable, contextual);
    forall i, j | 0 <= i < |stable| && 0 <= j < |ctx| ensures stable[i].id != ctx[j].id {
      WithoutIs(contextual, ids, ctx[j]);
      assert ctx[j] == Without(contextual, ids)[j];
      assert ids[i] == stable[i].id;
    }
  }

  lemma IsShown(rows: seq<Entry>, contextual: seq<Entry>, reserved: seq<MemoryId>, e: Entry)
    ensures e in Shown(rows, contextual, reserved) <==> e in Layers(rows, contextual) && e.id !in reserved
  {
    WithoutIs(Layers(rows, contextual), reserved, e);
  }

  /** The stable layer and then the contextual one, in their order, less the reserved ids, is what is rendered. */
  lemma ShownIs(rows: seq<Entry>, contextual: seq<Entry>, reserved: seq<MemoryId>) returns (at: seq<nat>)
    ensures var stable := StableLayer(rows);
            var layers, shown := stable + ContextualLayer(stable, contextual), Shown(rows, contextual, reserved);
            Picks(shown, layers, at) && forall e :: e in shown <==> e in layers && e.id !in reserved
  {
    at := WithoutPicks(Layers(rows, contextual), reserved);
    forall e ensures e in Shown(rows, contextual, reserved) <==> e in Layers(rows, contextual) && e.id !in reserved {
      IsShown(rows, contextual, reserved, e);
    }
  }

  /** Handles 1..n name the reserved ids and then the rendered rows, each id once. */
  lemma HandlesAreBijective(rows: seq<Entry>, contextual: seq<Entry>, reserved: seq<MemoryId>)
    requires UniqueIds(rows) && UniqueIds(contextual) && Unique(reserved)
    requires Compose(rows, contextual, reserved).Section?
    ensures var handles, shown := Compose(rows, contextual, reserved).handles, Shown(rows, contextual, reserved);
            && (forall k :: k in handles <==> 1 <= k <= |reserved| + |shown|)
            && (forall i :: 0 <= i < |reserved| ==> handles[1 + i] == reserved[i])
            && (forall i :: 0 <= i < |shown| ==> handles[|reserved| + 1 + i] == shown[i].id)
            && (forall k, j :: k in handles && j in handles && k != j ==> handles[k] != handles[j])
  {
    var shown := Shown(rows, contextual, reserved);
    LayersAreUnique(rows, contextual);
    WithoutUnique(Layers(rows, contextual), reserved);
    forall j | 0 <= j < |shown| ensures shown[j].id !in reserved {
      IsShown(rows, contextual, reserved, shown[j]);
    }
    UniqueConcat(reserved, shown);
    HandleMapIs(reserved, shown);
  }

  lemma UniqueConcat(reserved: seq<MemoryId>, shown: seq<Entry>)
    requires Unique(reserved) && UniqueIds(shown)
    requires forall j :: 0 <= j < |shown| ==> shown[j].id !in reserved
    ensures Unique(reserved + IdsOf(shown))
  {
  }

  lemma HandleMapIs(reserved: seq<MemoryId>, shown: seq<Entry>)
    requires Unique(reserved + IdsOf(shown))
    ensures var handles := HandleMap(reserved + IdsOf(shown));
            && (forall k :: k in handles <==> 1 <= k <= |reserved| + |shown|)
            && (forall i :: 0 <= i < |reserved| ==> handles[1 + i] == reserved[i])
            && (forall i :: 0 <= i < |shown| ==> handles[|reserved| + 1 + i] == shown[i].id)
            && (forall k, j :: k in handles && j in handles && k != j ==> handles[k] != handles[j])
  {
    var ids := reserved + IdsOf(shown);
    HandleKeys(ids);
    HandleValues(reserved, shown, ids, HandleMap(ids));
    HandlesDiffer(ids);
  }

  lemma HandleKeys(ids: seq<MemoryId>)
    ensures forall k :: k in HandleMap(ids) <==> 1 <= k <= |ids|
    ensures forall n :: 0 <= n < |ids| ==> HandleMap(ids)[1 + n] == ids[n]
  {
    forall k: nat ensures k in HandleMap(ids) <==> 1 <= k <= |ids| { HandleNames(ids, k); }
    forall n | 0 <= n < |ids| ensures HandleMap(ids)[1 + n] == ids[n] { HandleNames(ids, 1 + n); }
  }

  /** The ids in handle order: the reserved ones, then those of the shown rows. */
  lemma IdsInOrder(reserved: seq<MemoryId>, shown: seq<Entry>, ids: seq<MemoryId>)
    requires ids == reserved + IdsOf(shown)
    ensures |ids| == |reserved| + |shown|
    ensures forall i :: 0 <= i < |reserved| ==> ids[i] == reserved[i]
    ensures forall i :: 0 <= i < |shown| ==> ids[|reserved| + i] == shown[i].id
  {
    forall i | 0 <= i < |shown| ensures ids[|reserved| + i] == shown[i].id { assert IdsOf(shown)[i] == shown[i].id; }
  }

  lemma HandleValues(reserved: seq<MemoryId>, shown: seq<Entry>, ids: seq<MemoryId>, handles: map<nat, MemoryId>)
    requires ids == reserved + IdsOf(shown)
    requires forall k :: k in handles <==> 1 <= k <= |ids|
    requires forall n :: 0 <= n < |ids| ==> handles[1 + n] == ids[n]
    ensures |ids| == |reserved| + |shown|
    ensures forall i :: 0 <= i < |reserved| ==> handles[1 + i] == reserved[i]
    ensures forall i :: 0 <= i < |shown| ==> handles[|reserved| + 1 + i] == shown[i].id
  {
    IdsInOrder(reserved, shown, ids);
    forall i | 0 <= i < |shown| ensures handles[|reserved| + 1 + i] == shown[i].id {
      assert handles[1 + (|reserved| + i)] == ids[|reserved| + i];
    }
  }

  lemma HandlesDiffer(ids: seq<MemoryId>)
    requires Unique(ids)
    ensures var handles := HandleMap(ids);
            forall k, j :: k in handles && j in handles && k != j ==> handles[k] != handles[j]
  {
    var handles := HandleMap(ids);
    forall k, j | k in handles && j in handles && k != j ensures handles[k] != handles[j] {
      HandleNames(ids, k);
      HandleNames(ids, j);
      assert if k < j then ids[k - 1] != ids[j - 1] else ids[j - 1] != ids[k - 1];
    }
  }

  // ----- the two budgets hold

  lemma LayerRows(es: seq<Entry>, budget: nat)
    requires Contentful(es) && budget <= 4096
    ensures |Trimmed(es, budget)| <= 124
  {
    CostPerRow(Trimmed(es, budget));
  }

  ghost predicate AllContentful(es: seq<Entry>) {
    forall e :: e in es ==> |e.row.content| > 0
  }

  lemma ShownRows(rows: seq<Entry>, contextual: seq<Entry>, reserved: seq<MemoryId>)
    requires AllContentful(rows) && AllContentful(contextual)
    ensures |StableLayer(rows)| <= 124 && |ContextualLayer(StableLayer(rows), contextual)| <= 124
    ensures |Shown(rows, contextual, reserved)| <= 248
  {
    var stable := StableLayer(rows);
    var sorted, fetched := StableSort(Candidates(rows)), Without(contextual, IdsOf(stable));
    StableSortPermutes(Candidates(rows));
    forall i | 0 <= i < |sorted| ensures |sorted[i].row.content| > 0 {
      assert sorted[i] in multiset(sorted);
      CandidatesAre(rows, sorted[i]);
    }
    forall i | 0 <= i < |fetched| ensures |fetched[i].row.content| > 0 {
      WithoutIs(contextual, IdsOf(stable), fetched[i]);
    }
    LayerRows(sorted, STABLE_BUDGET);
    LayerRows(fetched, CONTEXTUAL_BUDGET);
    WithoutCost(Layers(rows, contextual), reserved);
  }

  /** The handle conversions cannot fail unless thousands of handles are reserved. */
  lemma NeverPanics(rows: seq<Entry>, contextual: seq<Entry>, reserved: seq<MemoryId>)
    requires AllContentful(rows) && AllContentful(contextual)
    requires |reserved| <= 9751
    ensures Compose(rows, contextual, reserved).Section?
  {
    ShownRows(rows, contextual, reserved);
  }

  lemma {:induction false} CostConcat(a: seq<Entry>, b: seq<Entry>)
    ensures Cost(a + b) == Cost(a) + Cost(b)
  {
    if b == [] {
      assert a + b == a;
    } else {
      CostConcat(a, b[..|b| - 1]);
      assert (a + b)[..|a + b| - 1] == a + b[..|b| - 1];
    }
  }

  lemma LineWithinEstimate(n: Numbered)
    requires n.handle <= MAX_HANDLE
    ensures |Line(n)| <= LineCost(n.entry)
  {
    DecimalLength(n.handle);
    assert |StateName(n.entry.row.state)| <= 9;
  }

  lemma {:induction false} LinesWithinCost(shown: seq<Entry>, base: nat)
    requires base + |shown| <= MAX_HANDLE
    ensures |Lines(Listed(shown, base))| <= Cost(shown)
  {
    if shown != [] {
      var front := shown[..|shown| - 1];
      LinesWithinCost(front, base);
      var ns := Listed(shown, base);
      assert LineTexts(ns)[..|ns| - 1] == LineTexts(Listed(front, base));
      LineWithinEstimate(ns[|ns| - 1]);
    }
  }

  lemma OfKindStep(ns: seq<Numbered>, kind: Kind)
    requires ns != []
    ensures var front, n := ns[..|ns| - 1], ns[|ns| - 1];
            KindBytes(ns, kind) == KindBytes(front, kind) + if n.entry.row.kind == kind then |Line(n)| else 0
  {
    var front, n := ns[..|ns| - 1], ns[|ns| - 1];
    var group := OfKind(front, kind);
    if n.entry.row.kind == kind {
      assert LineTexts(group + [n])[..|group|] == LineTexts(group);
    } else {
      assert OfKind(ns, kind) == group;
    }
  }

  function KindBytes(ns: seq<Numbered>, kind: Kind): nat {
    |Lines(OfKind(ns, kind))|
  }

  lemma LinesStep(ns: seq<Numbered>)
    requires ns != []
    ensures |Lines(ns)| == |Lines(ns[..|ns| - 1])| + |Line(ns[|ns| - 1])|
  {
    assert LineTexts(ns)[..|ns| - 1] == LineTexts(ns[..|ns| - 1]);
  }

  /** The five groups share out the lines. */
  lemma {:induction false} KindsShareLines(ns: seq<Numbered>)
    ensures KindBytes(ns, Identity) + KindBytes(ns, Other) + KindBytes(ns, Collaborator)
            + KindBytes(ns, Procedure) + KindBytes(ns, Open) == |Lines(ns)|
  {
    if ns != [] {
      KindsShareLines(ns[..|ns| - 1]);
      LinesStep(ns);
      OfKindStep(ns, Identity);
      OfKindStep(ns, Other);
      OfKindStep(ns, Collaborator);
      OfKindStep(ns, Procedure);
      OfKindStep(ns, Open);
    }
  }

  lemma BlockLength(ns: seq<Numbered>, kind: Kind)
    ensures |Block(ns, kind)| <= 6 + |Label(kind)| + KindBytes(ns, kind)
  {
  }

  lemma BlocksLength(ns: seq<Numbered>)
    ensures |Blocks(ns, KindOrder())| == |Block(ns, Identity)| + |Block(ns, Other)| + |Block(ns, Collaborator)|
                                         + |Block(ns, Procedure)| + |Block(ns, Open)|
  {
    ConcatFive(BlockTexts(ns, KindOrder()));
  }

  lemma ConcatFive(parts: seq<string>)
    requires |parts| == 5
    ensures |Concat(parts)| == |parts[0]| + |parts[1]| + |parts[2]| + |parts[3]| + |parts[4]|
  {
    var p1, p2, p3, p4 := parts[..1], parts[..2], parts[..3], parts[..4];
    assert p4[..3] == p3 && p3[..2] == p2 && p2[..1] == p1 && p1[..0] == [];
    assert Concat(p1) == parts[0];
    assert |Concat(p2)| == |parts[0]| + |parts[1]|;
    assert |Concat(p4)| == |Concat(p2)| + |parts[2]| + |parts[3]|;
  }

  /** The frame of the text: the preamble, all five headings and the closing tag. */
  const FRAME_BYTES: nat := 400

  lemma PreambleLength()
    ensures |Preamble()| + |TAG_CLOSE| + 5 * 6 + 34 <= FRAME_BYTES
  {
  }

  /** The rendered bytes stay within the two layer budgets plus a fixed frame. */
  lemma TextWithinBudgets(rows: seq<Entry>, contextual: seq<Entry>, reserved: seq<MemoryId>)
    requires Compose(rows, contextual, reserved).Section?
    ensures |Compose(rows, contextual, reserved).text| <= 4096 + 4096 + 400
  {
    var shown := Shown(rows, contextual, reserved);
    var stable := StableLayer(rows);
    CostConcat(stable, ContextualLayer(stable, contextual));
    WithoutCost(Layers(rows, contextual), reserved);
    LinesWithinCost(shown, |reserved|);
    TextLength(Listed(shown, |reserved|));
  }

  lemma LabelBytes()
    ensures |Label(Identity)| + |Label(Other)| + |Label(Collaborator)| + |Label(Procedure)| + |Label(Open)| == 34
  {
  }

  lemma TextParts(ns: seq<Numbered>)
    ensures |Text(ns)| == |Preamble()| + |Block(ns, Identity)| + |Block(ns, Other)| + |Block(ns, Collaborator)|
                          + |Block(ns, Procedure)| + |Block(ns, Open)| + |TAG_CLOSE|
  {
    BlocksLength(ns);
  }

  lemma {:induction false} TextLength(ns: seq<Numbered>)
    ensures |Text(ns)| <= |Lines(ns)| + FRAME_BYTES
  {
    KindsShareLines(ns);
    TextParts(ns);
    PreambleLength();
    LabelBytes();
    BlockLength(ns, Identity);
    BlockLength(ns, Other);
    BlockLength(ns, Collaborator);
    BlockLength(ns, Procedure);
    BlockLength(ns, Open);
  }

  // ----- what is printed resolves

  lemma {:induction false} OfKindIs(ns: seq<Numbered>, kind: Kind, n: Numbered)
    ensures multiset(OfKind(ns, kind))[n] == if n.entry.row.kind == kind then multiset(ns)[n] else 0
  {
    if ns != [] {
      var front, last := ns[..|ns| - 1], ns[|ns| - 1];
      OfKindIs(front, kind, n);
      assert ns == front + [last];
      var group := OfKind(front, kind);
      assert multiset(group + [last]) == multiset(group) + multiset{last};
      assert OfKind(ns, kind) == if last.entry.row.kind == kind then group + [last] else group;
    }
  }

  /** `part` stands in `whole` at position `at`. */
  predicate StandsAt(part: string, whole: string, at: nat) {
    at + |part| <= |whole| && whole[at..at + |part|] == part
  }

  lemma StandsInConcat(part: string, whole: string, at: nat, pre: string, post: string)
    requires StandsAt(part, whole, at)
    ensures StandsAt(part, pre + whole + post, |pre| + at)
  {
    var all := pre + whole + post;
    assert all[|pre| + at..|pre| + at + |part|] == whole[at..at + |part|];
  }

  lemma {:induction false} PartStands(parts: seq<string>, i: nat) returns (at: nat)
    requires i < |parts|
    ensures StandsAt(parts[i], Concat(parts), at)
  {
    var front, last := parts[..|parts| - 1], parts[|parts| - 1];
    if i == |parts| - 1 {
      at := |Concat(front)|;
    } else {
      at := PartStands(front, i);
      StandsInConcat(parts[i], Concat(front), at, "", last);
      assert "" + Concat(front) + last == Concat(parts);
    }
  }

  lemma LineStands(ns: seq<Numbered>, n: Numbered) returns (at: nat)
    requires n in ns
    ensures StandsAt(Line(n), Lines(ns), at)
  {
    var i :| 0 <= i < |ns| && ns[i] == n;
    at := PartStands(LineTexts(ns), i);
  }

  lemma BlockStands(ns: seq<Numbered>, n: Numbered) returns (at: nat)
    requires n in ns
    ensures StandsAt(Line(n), Block(ns, n.entry.row.kind), at)
  {
    var kind := n.entry.row.kind;
    OfKindIs(ns, kind, n);
    assert n in multiset(OfKind(ns, kind));
    at := LineStands(OfKind(ns, kind), n);
    StandsInConcat(Line(n), Lines(OfKind(ns, kind)), at, Heading(kind), "");
    assert Heading(kind) + Lines(OfKind(ns, kind)) + "" == Block(ns, kind);
    at := |Heading(kind)| + at;
  }

  lemma StandsWithin(part: string, middle: string, whole: string, inner: nat, outer: nat)
    requires StandsAt(part, middle, inner) && StandsAt(middle, whole, outer)
    ensures StandsAt(part, whole, outer + inner)
  {
    forall k | 0 <= k < |part| ensures whole[outer + inner + k] == part[k] {
      assert whole[outer..outer + |middle|][inner + k] == middle[inner..inner + |part|][k];
    }
  }

  lemma {:induction false} StandsInPart(part: string, parts: seq<string>, i: nat, inner: nat) returns (at: nat)
    requires i < |parts| && StandsAt(part, parts[i], inner)
    ensures StandsAt(part, Concat(parts), at)
  {
    var outer := PartStands(parts, i);
    StandsWithin(part, parts[i], Concat(parts), inner, outer);
    at := outer + inner;
  }

  lemma BlocksStand(ns: seq<Numbered>, n: Numbered, kinds: seq<Kind>) returns (at: nat)
    requires n in ns && n.entry.row.kind in kinds
    ensures StandsAt(Line(n), Blocks(ns, kinds), at)
  {
    var i :| 0 <= i < |kinds| && kinds[i] == n.entry.row.kind;
    var parts := BlockTexts(ns, kinds);
    var inner := BlockStands(ns, n);
    at := StandsInPart(Line(n), parts, i, inner);
  }

  /** A line spelled out: the handle, the name of the state and the content. */
  function Printed(handle: nat, row: Row): string {
    "- [" + Show(handle) + ", "
    + (if row.state == Core then "core" else if row.state == Validated then "validated"
       else if row.state == Held then "held" else "tentative")
    + "] " + row.content + "\n"
  }

  lemma LinePrints(n: Numbered)
    ensures Line(n) == Printed(n.handle, n.entry.row)
  {
  }

  /**
   Every shown row has a line of its own in the text, with its handle, its state and its content, and the handle
   printed there, read back from a tool call, resolves to that row's id.
   */
  lemma {:induction false} PrintedHandleResolves(
    rows: seq<Entry>, contextual: seq<Entry>, reserved: seq<MemoryId>, i: nat)
    returns (at: nat)
    requires Compose(rows, contextual, reserved).Section?
    requires i < |Shown(rows, contextual, reserved)|
    ensures var e, handle := Shown(rows, contextual, reserved)[i], |reserved| + 1 + i;
            var section := Compose(rows, contextual, reserved);
            && StandsAt(Printed(handle, e.row), section.text, at)
            && Parse(Show(handle)) == Some(handle)
            && handle in section.handles && section.handles[handle] == e.id
  {
    at := ShownStands(Shown(rows, contextual, reserved), reserved, i);
    LinePrints(Numbered(|reserved| + 1 + i, Shown(rows, contextual, reserved)[i]));
  }

  lemma {:induction false} ShownStands(shown: seq<Entry>, reserved: seq<MemoryId>, i: nat) returns (at: nat)
    requires i < |shown| && |reserved| + |shown| <= MAX_HANDLE
    ensures var handle, handles := |reserved| + 1 + i, HandleMap(reserved + IdsOf(shown));
            && StandsAt(Line(Numbered(handle, shown[i])), Text(Listed(shown, |reserved|)), at)
            && Parse(Show(handle)) == Some(handle)
            && handle in handles && handles[handle] == shown[i].id
  {
    var ns := Listed(shown, |reserved|);
    at := TextStands(ns, ns[i]);
    ShowThenParse(|reserved| + 1 + i);
    HandleNames(reserved + IdsOf(shown), |reserved| + 1 + i);
  }

  lemma TextStands(ns: seq<Numbered>, n: Numbered) returns (at: nat)
    requires n in ns
    ensures StandsAt(Line(n), Text(ns), at)
  {
    var inner := LineInBlocks(ns, n);
    at := WithinFrame(ns, Line(n), inner);
  }

  lemma LineInBlocks(ns: seq<Numbered>, n: Numbered) returns (at: nat)
    requires n in ns
    ensures StandsAt(Line(n), Blocks(ns, KindOrder()), at)
  {
    KindListed(n.entry.row.kind);
    at := BlocksStand(ns, n, KindOrder());
  }

  lemma WithinFrame(ns: seq<Numbered>, part: string, inner: nat) returns (at: nat)
    requires StandsAt(part, Blocks(ns, KindOrder()), inner)
    ensures StandsAt(part, Text(ns), at)
  {
    StandsInConcat(part, Blocks(ns, KindOrder()), inner, Preamble(), TAG_CLOSE);
    at := |Preamble()| + inner;
  }

  lemma KindListed(kind: Kind)
    ensures kind in KindOrder()
  {
    var o := KindOrder();
    assert o[0] == Identity && o[1] == Other && o[2] == Collaborator && o[3] == Procedure && o[4] == Open;
  }

  // ----- how the text is laid out

  /** The section of one kind: nothing without rows, else its heading and their lines. */
  function Titled(title: string, ns: seq<Numbered>, kind: Kind): string {
    if OfKind(ns, kind) == [] then "" else "\n### " + title + "\n" + PrintedAll(OfKind(ns, kind))
  }

  function PrintedAll(ns: seq<Numbered>): string {
    if ns == [] then ""
    else PrintedAll(ns[..|ns| - 1]) + Printed(ns[|ns| - 1].handle, ns[|ns| - 1].entry.row)
  }

  lemma {:induction false} LinesPrint(ns: seq<Numbered>)
    ensures Lines(ns) == PrintedAll(ns)
  {
    if ns != [] {
      LinesPrint(ns[..|ns| - 1]);
      assert LineTexts(ns)[..|ns| - 1] == LineTexts(ns[..|ns| - 1]);
      LinePrints(ns[|ns| - 1]);
    }
  }

  lemma BlockIsTitled(title: string, ns: seq<Numbered>, kind: Kind)
    requires title == Label(kind)
    ensures Block(ns, kind) == Titled(title, ns, kind)
  {
    LinesPrint(OfKind(ns, kind));
    assert Heading(kind) == "\n### " + title + "\n";
  }

  lemma JoinFive(parts: seq<string>)
    requires |parts| == 5
    ensures Concat(parts) == parts[0] + parts[1] + parts[2] + parts[3] + parts[4]
  {
    var p1, p2, p3, p4 := parts[..1], parts[..2], parts[..3], parts[..4];
    assert p4[..3] == p3 && p3[..2] == p2 && p2[..1] == p1 && p1[..0] == [];
    assert Concat(p1) == parts[0];
    assert Concat(p2) == parts[0] + parts[1];
    assert Concat(p3) == parts[0] + parts[1] + parts[2];
  }

  ghost predicate Rising(ns: seq<Numbered>, bound: int) {
    && (forall i :: 0 <= i < |ns| ==> ns[i].handle <= bound)
    && forall i, j :: 0 <= i < j < |ns| ==> ns[i].handle < ns[j].handle
  }

  /** Handles only go up within a kind. */
  lemma {:induction false} OfKindRises(ns: seq<Numbered>, kind: Kind, bound: int)
    requires Rising(ns, bound)
    ensures Rising(OfKind(ns, kind), bound)
  {
    if ns != [] {
      var front, last := ns[..|ns| - 1], ns[|ns| - 1];
      OfKindRises(front, kind, last.handle - 1);
    }
  }

  function Sections(ns: seq<Numbered>): string {
    Titled("Self", ns, Identity) + Titled("Other", ns, Other) + Titled("Collaborator", ns, Collaborator)
    + Titled("Procedure", ns, Procedure) + Titled("Open", ns, Open)
  }

  lemma BlocksJoined(ns: seq<Numbered>)
    ensures Blocks(ns, KindOrder()) ==
              Block(ns, Identity) + Block(ns, Other) + Block(ns, Collaborator) + Block(ns, Procedure) + Block(ns, Open)
  {
    JoinFive(BlockTexts(ns, KindOrder()));
  }

  lemma BlocksAreSections(ns: seq<Numbered>)
    ensures Blocks(ns, KindOrder()) == Sections(ns)
  {
    BlocksJoined(ns);
    BlockIsTitled("Self", ns, Identity);
    BlockIsTitled("Other", ns, Other);
    BlockIsTitled("Collaborator", ns, Collaborator);
    BlockIsTitled("Procedure", ns, Procedure);
    BlockIsTitled("Open", ns, Open);
  }

  /**
   A text that is not empty opens and closes with the memory tags and has the five kinds in a fixed order between its
   title and the closing tag, each with its own heading when it has rows; within a kind handles go up.
   */
  lemma TextLayout(shown: seq<Entry>, base: nat) returns (front: string)
    ensures var ns := Listed(shown, base);
            && "<memory>\n## Memory\n" <= front
            && Text(ns) == front + Sections(ns) + "\n</memory>"
            && forall kind :: Rising(OfKind(ns, kind), base + |shown|)
  {
    var ns := Listed(shown, base);
    front := Preamble();
    BlocksAreSections(ns);
    OpensWithTitle();
    forall kind ensures Rising(OfKind(ns, kind), base + |shown|) { OfKindRises(ns, kind, base + |shown|); }
  }

  /** The section is empty exactly when no row is shown, reserved handles or not. */
  lemma EmptyIffNoneShown(rows: seq<Entry>, contextual: seq<Entry>, reserved: seq<MemoryId>)
    requires Compose(rows, contextual, reserved).Section?
    ensures Compose(rows, contextual, reserved).text == "" <==> Shown(rows, contextual, reserved) == []
  {
    var front := TextLayout(Shown(rows, contextual, reserved), |reserved|);
  }

  lemma OpensWithTitle()
    ensures "<memory>\n## Memory\n" <= Preamble()
  {
    assert "<memory>\n## Memory\n" == TAG_OPEN + TITLE;
  }

  // ----- the loops

  method TrimToBudget(es: seq<Entry>, budget: nat) returns (kept: seq<Entry>)
    ensures kept == Trimmed(es, budget)
  {
    var total: nat := 0;
    kept := [];
    for i := 0 to |es|
      invariant kept == es[..i] && total == Cost(kept) <= budget
    {
      var line := LineCost(es[i]);
      assert es[..i + 1][..i] == es[..i];
      if total + line > budget {
        KeptIffAfforded(es, budget, i);
        KeptIffAfforded(es, budget, i + 1);
        return;
      }
      total := total + line;
      kept := kept + [es[i]];
    }
    assert es[..|es|] == es;
  }

  datatype Bound = Bound(handles: map<nat, MemoryId>) | Exhausted

  /** Binds the handles 1, 2, … in order; `Exhausted` is the failed conversion. */
  method BindReservedHandles(reserved: seq<MemoryId>) returns (bound: Bound, next: nat)
    ensures bound.Exhausted? <==> |reserved| > 9999
    ensures bound.Bound? ==> bound.handles == HandleMap(reserved) && next == |reserved| + 1
  {
    next := 1;
    var handles: map<nat, MemoryId> := map[];
    for i := 0 to |reserved|
      invariant next == i + 1 && i <= MAX_HANDLE
      invariant handles == HandleMap(reserved[..i])
    {
      assert reserved[..i + 1][..i] == reserved[..i];
      if Checked(next).None? { return Exhausted, next; }
      handles := handles[next := reserved[i]];
      next := next + 1;
    }
    assert reserved[..|reserved|] == reserved;
    bound := Bound(handles);
  }

  /** `groups` holds exactly the non-empty kind groups of `ns`. */
  ghost predicate Groups(groups: map<Kind, seq<Numbered>>, ns: seq<Numbered>) {
    forall kind: Kind ::
      && (kind in groups <==> OfKind(ns, kind) != [])
      && (kind in groups ==> groups[kind] == OfKind(ns, kind))
  }

  lemma Grow(buf: string, parts: seq<string>, i: nat)
    requires i < |parts|
    ensures buf + Concat(parts[..i + 1]) == buf + Concat(parts[..i]) + parts[i]
  {
    assert parts[..i + 1][..i] == parts[..i];
    assert buf + (Concat(parts[..i]) + parts[i]) == buf + Concat(parts[..i]) + parts[i];
  }

  method RenderLines(ns: seq<Numbered>, buf: string) returns (out: string)
    ensures out == buf + Lines(ns)
  {
    out := buf;
    ghost var parts := LineTexts(ns);
    for i := 0 to |ns|
      invariant out == buf + Concat(parts[..i])
    {
      Grow(buf, parts, i);
      out := out + Line(ns[i]);
    }
    assert parts[..|ns|] == parts;
  }

  method RenderBlock(groups: map<Kind, seq<Numbered>>, ghost ns: seq<Numbered>, kind: Kind, buf: string)
    returns (out: string)
    requires Groups(groups, ns)
    ensures out == buf + Block(ns, kind)
  {
    if kind !in groups { return buf; }
    out := RenderLines(groups[kind], buf + Heading(kind));
    assert buf + Heading(kind) + Lines(groups[kind]) == buf + (Heading(kind) + Lines(groups[kind]));
  }

  method RenderText(groups: map<Kind, seq<Numbered>>, ghost ns: seq<Numbered>) returns (buf: string)
    requires Groups(groups, ns)
    ensures buf == Text(ns)
  {
    buf := Preamble();
    var order := KindOrder();
    ghost var parts := BlockTexts(ns, order);
    for i := 0 to |order|
      invariant buf == Preamble() + Concat(parts[..i])
    {
      Grow(Preamble(), parts, i);
      buf := RenderBlock(groups, ns, order[i], buf);
    }
    assert parts[..|order|] == parts;
    buf := buf + TAG_CLOSE;
  }

  method ComposeMemorySection(rows: seq<Entry>, contextual: seq<Entry>, reserved: seq<MemoryId>) returns (r: Composed)
    ensures r == Compose(rows, contextual, reserved)
  {
    var stable := TrimToBudget(StableSort(Candidates(rows)), STABLE_BUDGET);
    var fetched := TrimToBudget(Without(contextual, IdsOf(stable)), CONTEXTUAL_BUDGET);
    r := Render(stable + fetched, reserved);
  }

  lemma {:induction false} WithoutGrows(es: seq<Entry>, k: nat, ids: seq<MemoryId>)
    requires k <= |es|
    ensures |Without(es[..k], ids)| <= |Without(es, ids)|
  {
    if k == |es| {
      assert es[..k] == es;
    } else {
      WithoutGrows(es[..|es| - 1], k, ids);
      assert es[..|es| - 1][..k] == es[..k];
    }
  }

  lemma HandleMapSnoc(ids: seq<MemoryId>, id: MemoryId)
    ensures HandleMap(ids + [id]) == HandleMap(ids)[|ids| + 1 := id]
  {
    assert (ids + [id])[..|ids|] == ids;
  }

  lemma ConcatAssociative(a: seq<MemoryId>, b: seq<MemoryId>, c: seq<MemoryId>)
    ensures a + (b + c) == a + b + c
  {
  }

  lemma ShowOne(shown: seq<Entry>, e: Entry, reserved: seq<MemoryId>)
    ensures reserved + IdsOf(shown + [e]) == reserved + IdsOf(shown) + [e.id]
  {
    assert IdsOf(shown + [e]) == IdsOf(shown) + [e.id];
    ConcatAssociative(reserved, IdsOf(shown), [e.id]);
  }

  lemma ListOne(shown: seq<Entry>, e: Entry, base: nat)
    ensures Listed(shown + [e], base) == Listed(shown, base) + [Numbered(base + |shown| + 1, e)]
  {
  }

  /** The groups once `n` has joined its kind. */
  function Joined(groups: map<Kind, seq<Numbered>>, n: Numbered): map<Kind, seq<Numbered>> {
    var kind := n.entry.row.kind;
    groups[kind := (if kind in groups then groups[kind] else []) + [n]]
  }

  lemma GroupOne(groups: map<Kind, seq<Numbered>>, ns: seq<Numbered>, n: Numbered)
    requires Groups(groups, ns)
    ensures Groups(Joined(groups, n), ns + [n])
  {
    assert (ns + [n])[..|ns|] == ns;
    forall kind: Kind
      ensures OfKind(ns + [n], kind) == if kind == n.entry.row.kind then OfKind(ns, kind) + [n] else OfKind(ns, kind)
    {
    }
  }

  lemma NoGroups(groups: map<Kind, seq<Numbered>>, ns: seq<Numbered>)
    requires Groups(groups, ns)
    ensures groups == map[] <==> ns == []
  {
    if ns != [] {
      var n := ns[|ns| - 1];
      assert n in OfKind(ns, n.entry.row.kind);
      assert n.entry.row.kind in groups;
    } else {
      assert groups.Keys == {};
    }
  }

  /** What the rendering loop has built once it has gone through `done`. */
  ghost predicate Progress(done: seq<Entry>, reserved: seq<MemoryId>, next: nat, handles: map<nat, MemoryId>,
                           groups: map<Kind, seq<Numbered>>)
  {
    var shown := Without(done, reserved);
    && next == |reserved| + |shown| + 1 && |reserved| + |shown| <= MAX_HANDLE
    && handles == HandleMap(reserved + IdsOf(shown))
    && Groups(groups, Listed(shown, |reserved|))
  }

  lemma {:induction false} ProgressStart(reserved: seq<MemoryId>)
    requires |reserved| <= MAX_HANDLE
    ensures Progress([], reserved, |reserved| + 1, HandleMap(reserved), map[])
  {
    assert reserved + IdsOf([]) == reserved;
  }

  lemma WithoutSnoc(done: seq<Entry>, e: Entry, reserved: seq<MemoryId>)
    ensures Without(done + [e], reserved) ==
            if e.id in reserved then Without(done, reserved) else Without(done, reserved) + [e]
  {
    assert (done + [e])[..|done|] == done;
  }

  lemma ProgressShow(done: seq<Entry>, e: Entry, reserved: seq<MemoryId>, next: nat, handles: map<nat, MemoryId>,
                     groups: map<Kind, seq<Numbered>>)
    requires Progress(done, reserved, next, handles, groups) && e.id !in reserved && next <= MAX_HANDLE
    ensures Progress(done + [e], reserved, next + 1, handles[next := e.id], Joined(groups, Numbered(next, e)))
  {
    var shown := Without(done, reserved);
    WithoutSnoc(done, e, reserved);
    ShowOne(shown, e, reserved);
    HandleMapSnoc(reserved + IdsOf(shown), e.id);
    ListOne(shown, e, |reserved|);
    GroupOne(groups, Listed(shown, |reserved|), Numbered(next, e));
  }

  method Render(layers: seq<Entry>, reserved: seq<MemoryId>) returns (r: Composed)
    ensures r == Rendered(layers, reserved)
  {
    var bound, next := BindReservedHandles(reserved);
    if bound.Exhausted? { return Panicked; }
    var handles: map<nat, MemoryId> := bound.handles;
    var groups: map<Kind, seq<Numbered>> := map[];
    ProgressStart(reserved);
    for i := 0 to |layers|
      invariant Progress(layers[..i], reserved, next, handles, groups)
    {
      var e := layers[i];
      assert layers[..i + 1] == layers[..i] + [e];
      WithoutSnoc(layers[..i], e, reserved);
      if e.id !in reserved {
        if Checked(next).None? {
          WithoutGrows(layers, i + 1, reserved);
          return Panicked;
        }
        ProgressShow(layers[..i], e, reserved, next, handles, groups);
        handles := handles[next := e.id];
        groups := Joined(groups, Numbered(next, e));
        next := next + 1;
      }
    }
    assert layers[..|layers|] == layers;
    ghost var ns := Listed(Without(layers, reserved), |reserved|);
    NoGroups(groups, ns);
    if groups == map[] {
      r := Section("", handles);
    } else {
      var text := RenderText(groups, ns);
      r := Section(text, handles);
    }
  }
}
