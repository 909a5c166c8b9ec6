/**
 The memory store as the program runs it: one object whose methods append to the journal and update
 the table in place. Each method is proved to do exactly what its transaction in `Memory` says.
 */
module MemoryStore {
  import opened Common
  import opened Memory
  import opened MemoryHistory
  import opened MemoryEffects

  lemma ListsAppend(order: seq<MemoryId>, ids: set<MemoryId>, id: MemoryId)
    requires Lists(order, ids) && id !in ids
    ensures Lists(order + [id], ids + {id})
  {
  }

  method Lowest(rows: map<MemoryId, Row>, ids: set<MemoryId>) returns (low: MemoryId)
    requires ids != {} && ids <= rows.Keys
    ensures low in ids && forall id :: id in ids ==> NotBetter(rows[low], rows[id])
  {
    low :| low in ids;
    var todo := ids - {low};
    while todo != {}
      invariant todo <= ids && low in ids && low !in todo
      invariant forall id :: id in ids && id !in todo ==> NotBetter(rows[low], rows[id])
    {
      var id :| id in todo;
      if !NotBetter(rows[low], rows[id]) { low := id; }
      todo := todo - {id};
    }
  }

  /** ORDER BY rank over `all`: take a lowest remaining row each time. */
  method Ranking(rows: map<MemoryId, Row>, all: set<MemoryId>) returns (listing: seq<MemoryId>)
    requires all <= rows.Keys
    ensures Lists(listing, all)
    ensures forall i, j :: 0 <= i < j < |listing| ==> RankedAs(rows, listing[i], listing[j])
    ensures forall i, j :: 0 <= i < j < |listing| ==> NoHigher(rows[listing[i]], rows[listing[j]])
  {
    var rest := all;
    listing := [];
    while rest != {}
      invariant rest <= all && Lists(listing, all - rest)
      invariant forall i, j :: 0 <= i < j < |listing| ==> RankedAs(rows, listing[i], listing[j])
      invariant forall i, w :: 0 <= i < |listing| && w in rest ==> RankedAs(rows, listing[i], w)
    {
      var low := Lowest(rows, rest);
      ListsAppend(listing, all - rest, low);
      assert all - (rest - {low}) == all - rest + {low};
      listing := listing + [low];
      rest := rest - {low};
    }
    assert all - rest == all;
    forall i, j | 0 <= i < j < |listing| ensures NoHigher(rows[listing[i]], rows[listing[j]]) {
      assert RankedAs(rows, listing[i], listing[j]);
      NotBetterIsNoHigher(rows[listing[i]], rows[listing[j]]);
    }
  }

  lemma SameEvents(read: seq<Event>, journal: seq<Event>)
    requires Permutes(read, journal)
    ensures forall e :: e in journal <==> e in read
  {
    forall e ensures e in journal <==> e in read {
      assert e in multiset(journal) <==> e in multiset(read);
    }
  }

  /** A row the attribute lookup selects. */
  predicate Carrier(e: Event, agent: AgentId, target: MemoryId) {
    e.agent == agent && e.target == target && !e.payload.Forget?
  }

  /** No such row has a later stamp. */
  ghost predicate LatestCarrier(e: Event, journal: seq<Event>, agent: AgentId, target: MemoryId) {
    Carrier(e, agent, target) && forall other :: other in journal && Carrier(other, agent, target) ==> other.at <= e.at
  }

  function AttrsOf(e: Event): Attrs
    requires !e.payload.Forget?
  {
    Attrs(e.payload.kind, e.payload.state, e.payload.pinned)
  }

  /** The last write or update of a memory in a reading is one with the latest stamp. */
  lemma LastIsLatest(read: seq<Event>, journal: seq<Event>, agent: AgentId, target: MemoryId, n: nat)
    requires Reads(read, journal) && n < |read| && Carrier(read[n], agent, target)
    requires forall k :: n < k < |read| ==> !Carrier(read[k], agent, target)
    ensures read[n] in journal && LatestCarrier(read[n], journal, agent, target)
  {
    SameEvents(read, journal);
    assert read[n] in read;
    forall other | other in journal && Carrier(other, agent, target) ensures other.at <= read[n].at {
      var k :| 0 <= k < |read| && read[k] == other;
    }
  }

  lemma NoCarrier(read: seq<Event>, journal: seq<Event>, agent: AgentId, target: MemoryId)
    requires Permutes(read, journal) && forall k :: 0 <= k < |read| ==> !Carrier(read[k], agent, target)
    ensures forall e :: e in journal ==> !Carrier(e, agent, target)
  {
    SameEvents(read, journal);
  }

  class MemoryTable {
    var rows: map<MemoryId, Row>
    var journal: seq<Event>

    function Contents(): Store
      reads this
    {
      Store(rows, journal)
    }

    constructor ()
      ensures Contents() == Store(map[], [])
    {
      rows, journal := map[], [];
    }

    /** The single insert path of the journal. */
    method InsertEvent(agent: AgentId, target: MemoryId, source: Source, now: int, payload: Payload)
      modifies this`journal
      ensures journal == old(journal) + [Event(agent, target, source, now, payload)]
    {
      journal := journal + [Event(agent, target, source, now, payload)];
    }

    method LockExisting(agent: AgentId, target: MemoryId, source: Source) returns (error: Option<Error>)
      ensures error == Locked(Contents(), agent, target, source)
    {
      if target !in rows { return Some(NotFound); }
      if rows[target].agent != agent { return Some(WrongAgent); }
      if rows[target].pinned && !BypassesPin(source) { return Some(PinnedImmutable); }
      return None;
    }

    method ApplyWrite(id: MemoryId, agent: AgentId, kind: Kind, content: string, state: Trust, pinned: bool,
                      source: Source, embedding: Embedding, now: int)
      requires Unseen(Contents(), id)
      modifies this
      ensures Contents() == WriteTx(old(Contents()), id, agent, kind, content, state, pinned, source, embedding, now)
    {
      InsertEvent(agent, id, source, now, Write(content, kind, state, pinned));
      rows := rows[id := NewRow(agent, kind, content, state, pinned, TurnOf(source), now, Some(embedding))];
    }

    method ApplyUpdate(agent: AgentId, target: MemoryId, content: string, state: Trust, source: Source,
                       embedding: Embedding, now: int) returns (error: Option<Error>)
      modifies this
      ensures match UpdateTx(old(Contents()), agent, target, content, state, source, embedding, now)
              case Ok(s) => Contents() == s && error.None?
              case Err(e) => Contents() == old(Contents()) && error == Some(e)
    {
      error := LockExisting(agent, target, source);
      if error.Some? { return; }
      var prior := rows[target];
      InsertEvent(agent, target, source, now, Update(prior.content, content, prior.kind, state, prior.pinned));
      rows := rows[target := prior.(content := content, state := state, embedding := Some(embedding))];
    }

    method ApplyForget(agent: AgentId, target: MemoryId, source: Source, now: int) returns (error: Option<Error>)
      modifies this
      ensures match ForgetTx(old(Contents()), agent, target, source, now)
              case Ok(s) => Contents() == s && error.None?
              case Err(e) => Contents() == old(Contents()) && error == Some(e)
    {
      error := LockExisting(agent, target, source);
      if error.Some? { return; }
      InsertEvent(agent, target, source, now, Forget(rows[target].content));
      rows := rows - {target};
    }

    method RecordValidation(agent: AgentId, target: MemoryId, source: Source, now: int) returns (error: Option<Error>)
      modifies this
      ensures match ValidateTx(old(Contents()), agent, target, source, now)
              case Ok(s) => Contents() == s && error.None?
              case Err(e) => Contents() == old(Contents()) && error == Some(e)
    {
      error := LockExisting(agent, target, source);
      if error.Some? { return; }
      var prior := rows[target];
      var state := match prior.state
        case Tentative => Held
        case Held => Validated
        case other => other;
      InsertEvent(agent, target, source, now, Update(prior.content, prior.content, prior.kind, state, prior.pinned));
      rows := rows[target := prior.(state := state, lastValidated := now)];
    }

    method SetPinned(agent: AgentId, target: MemoryId, pinned: bool, now: int) returns (error: Option<Error>)
      modifies this
      ensures match SetPinnedTx(old(Contents()), agent, target, pinned, now)
              case Ok(s) => Contents() == s && error.None?
              case Err(e) => Contents() == old(Contents()) && error == Some(e)
    {
      error := LockExisting(agent, target, Operator);
      if error.Some? { return; }
      var prior := rows[target];
      InsertEvent(agent, target, Operator, now, Update(prior.content, prior.content, prior.kind, prior.state, pinned));
      rows := rows[target := prior.(pinned := pinned)];
    }

    method RecordAccess(ids: set<MemoryId>, now: int)
      modifies this`rows
      ensures Contents() == AccessTx(old(Contents()), ids, now)
    {
      rows := map id | id in rows ::
        if id in ids then rows[id].(lastAccessed := now, accessCount := rows[id].accessCount + 1) else rows[id];
    }

    /** Journal and store the move to Held, row by row. */
    method Hold(order: seq<MemoryId>, now: int)
      requires forall id :: id in order ==> id in rows
      modifies this
      ensures Contents() == HoldAll(old(Contents()), order, now)
    {
      var n := 0;
      while n < |order|
        invariant n <= |order|
        invariant rows.Keys == old(rows).Keys
        invariant Contents() == HoldAll(old(Contents()), order[..n], now)
      {
        assert order[..n + 1][..n] == order[..n];
        var row := rows[order[n]];
        InsertEvent(row.agent, order[n], Librarian, now, Update(row.content, row.content, row.kind, Held, row.pinned));
        rows := rows[order[n] := row.(state := Held)];
        n := n + 1;
      }
      assert order[..n] == order;
    }

    method Listing(ids: set<MemoryId>) returns (order: seq<MemoryId>)
      ensures Lists(order, ids)
    {
      var todo := ids;
      order := [];
      while todo != {}
        invariant todo <= ids && Lists(order, ids - todo)
      {
        var id :| id in todo;
        order := order + [id];
        todo := todo - {id};
      }
    }

    method DecayValidated(agent: AgentId, cutoff: int, now: int) returns (demoted: nat)
      modifies this
      ensures exists order ::
                && Lists(order, StaleValidated(old(Contents()), agent, cutoff)) && demoted == |order|
                && Contents() == HoldAll(old(Contents()), order, now)
                && HeldInTurn(old(Contents()), Contents(), order, now)
    {
      var order := Listing(DecaySelection(Contents(), agent, cutoff));
      DecayWrites(Contents(), agent, cutoff, order, now);
      Hold(order, now);
      demoted := |order|;
    }

    method MatureTentative(agent: AgentId, cutoff: int, entangled: set<MemoryId>, now: int) returns (matured: nat)
      modifies this
      ensures exists order ::
                && Lists(order, OldTentative(old(Contents()), agent, cutoff, entangled)) && matured == |order|
                && Contents() == HoldAll(old(Contents()), order, now)
                && HeldInTurn(old(Contents()), Contents(), order, now)
    {
      var order := Listing(RipeSelection(Contents(), agent, cutoff, entangled));
      MatureWrites(Contents(), agent, cutoff, entangled, order, now);
      Hold(order, now);
      matured := |order|;
    }

    /** Journal and delete row by row. */
    method Drop(agent: AgentId, order: seq<MemoryId>, now: int)
      requires Lists(order, Elements(order))
      requires forall id :: id in order ==> id in rows && rows[id].agent == agent
      modifies this
      ensures Contents() == RemoveAll(old(Contents()), order, now)
    {
      var n := 0;
      while n < |order|
        invariant n <= |order|
        invariant forall k :: n <= k < |order| ==> order[k] in rows && rows[order[k]].agent == agent
        invariant Contents() == RemoveAll(old(Contents()), order[..n], now)
      {
        assert order[..n + 1][..n] == order[..n];
        InsertEvent(agent, order[n], Librarian, now, Forget(rows[order[n]].content));
        rows := rows - {order[n]};
        n := n + 1;
      }
      assert order[..n] == order;
    }

    method EvictOverflow(agent: AgentId, quota: nat, now: int) returns (evicted: seq<MemoryId>)
      modifies this
      ensures EvictionChoice(old(Contents()), agent, quota, evicted)
      ensures Contents() == RemoveAll(old(Contents()), evicted, now)
    {
      var total := |OwnRows(Contents(), agent)|;
      var listing := Ranking(rows, Evictable(Contents(), agent));
      assert RankedListing(Contents(), agent, listing);
      if total <= quota {
        assert listing[..0] == [];
        return [];
      }
      evicted := listing[..Min(total - quota, |listing|)];
      forall id | id in evicted ensures id in Evictable(Contents(), agent) { assert id in listing; }
      Drop(agent, evicted, now);
    }

    /** `read` is the journal as the attribute lookup reads it. */
    method RevertEvent(agent: AgentId, event: nat, read: seq<Event>, now: int) returns (error: Option<Error>)
      requires Reads(read, journal)
      modifies this
      ensures match RevertTx(old(Contents()), agent, event, read, now)
              case Ok(s) => Contents() == s && error.None?
              case Err(e) => Contents() == old(Contents()) && error == Some(e)
    {
      if event >= |journal| || journal[event].agent != agent { return Some(EventNotFound); }
      var target := journal[event].target;
      match journal[event].payload {
        case Write(_, _, _, _) =>
          error := ApplyForget(agent, target, Operator, now);
        case Update(before, _, kind, state, pinned) =>
          error := LockExisting(agent, target, Operator);
          if error.Some? { return; }
          var prior := rows[target];
          InsertEvent(agent, target, Operator, now, Update(prior.content, before, kind, state, pinned));
          rows := rows[target := prior.(content := before, state := state, pinned := pinned)];
        case Forget(before) =>
          var attrs := LatestAttrsFor(read, agent, target);
          if attrs.None? { return Some(NotFound); }
          var a := attrs.value;
          InsertEvent(agent, target, Operator, now, Write(before, a.kind, a.state, a.pinned));
          if target !in rows {
            rows := rows[target := NewRow(agent, a.kind, before, a.state, a.pinned, None, now, None)];
          }
          error := None;
      }
    }

    /** Walk the events read back to the last write or update of the memory, the one with the latest stamp. */
    method LatestAttrsFor(read: seq<Event>, agent: AgentId, target: MemoryId) returns (attrs: Option<Attrs>)
      requires Reads(read, journal)
      ensures attrs == RestoreAttrs(read, agent, target)
      ensures attrs.None? <==> forall e :: e in journal ==> !Carrier(e, agent, target)
      ensures attrs.Some? ==>
        exists e :: e in journal && LatestCarrier(e, journal, agent, target) && attrs == Some(AttrsOf(e))
    {
      var n := |read|;
      assert read[..n] == read;
      while n > 0
        invariant 0 <= n <= |read|
        invariant RestoreAttrs(read, agent, target) == RestoreAttrs(read[..n], agent, target)
        invariant forall k :: n <= k < |read| ==> !Carrier(read[k], agent, target)
      {
        var e := read[n - 1];
        assert read[..n][..n - 1] == read[..n - 1];
        if Carrier(e, agent, target) {
          LastIsLatest(read, journal, agent, target, n - 1);
          return Some(AttrsOf(e));
        }
        n := n - 1;
      }
      NoCarrier(read, journal, agent, target);
      return None;
    }

    /** Drop the agent's rows, replay its events, re-attach the embeddings; roll back on a clash. */
    method RebuildMaterialized(agent: AgentId, read: seq<Event>) returns (error: Option<Error>)
      requires Reads(read, journal)
      modifies this`rows
      ensures match RebuildTx(old(Contents()), agent, read)
              case Ok(s) => Contents() == s && error.None?
              case Err(e) => Contents() == old(Contents()) && error == Some(e)
    {
      var before := Contents();
      var table := OthersRows(before, agent);
      var n := 0;
      while n < |read|
        invariant n <= |read|
        invariant Contents() == before
        invariant Replay(OthersRows(before, agent), read[..n], agent) == Table(table)
      {
        assert read[..n + 1][..n] == read[..n];
        if read[n].agent == agent {
          match ReplayOne(table, read[n]) {
            case Clash =>
              ReplayStaysClashed(OthersRows(before, agent), read, agent, n + 1);
              return Some(Conflict);
            case Table(next) => table := next;
          }
        }
        n := n + 1;
      }
      assert read[..n] == read;
      rows := Reattach(before, agent, table);
      error := None;
    }
  }

  lemma {:induction false} ReplayStaysClashed(rows: map<MemoryId, Row>, journal: seq<Event>, agent: AgentId, n: nat)
    requires n <= |journal| && Replay(rows, journal[..n], agent).Clash?
    ensures Replay(rows, journal, agent).Clash?
  {
    if n < |journal| {
      assert journal[..|journal| - 1][..n] == journal[..n];
      ReplayStaysClashed(rows, journal[..|journal| - 1], agent, n);
    } else {
      assert journal[..n] == journal;
    }
  }
}
