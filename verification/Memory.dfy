/**
 The memory store: an append-only journal and the table of live memories it drives.

 Every function is one transaction. An event is identified by its position in the journal, the order the events were
 committed in; the order they are read back in may differ. A memory's embedding is an opaque value.
 */
module Memory {
  import opened Common

  type MemoryId = nat
  type AgentId = nat
  type TurnId = nat
  type Embedding = nat

  datatype Kind = Identity | Other | Collaborator | Procedure | Open

  datatype Trust = Core | Validated | Held | Tentative

  function Priority(t: Trust): nat {
    match t
    case Core => 4
    case Validated => 3
    case Held => 2
    case Tentative => 1
  }

  datatype Source = Turn(id: TurnId) | Operator | Librarian

  function TurnOf(source: Source): Option<TurnId> {
    match source
    case Turn(id) => Some(id)
    case _ => None
  }

  predicate BypassesPin(source: Source) {
    source == Operator
  }

  datatype Payload =
    | Write(content: string, kind: Kind, state: Trust, pinned: bool)
    | Update(before: string, after: string, kind: Kind, state: Trust, pinned: bool)
    | Forget(before: string)

  /** One row of `memory_events`. */
  datatype Event = Event(agent: AgentId, target: MemoryId, source: Source, at: int, payload: Payload)

  /** One row of `agent_memories`. */
  datatype Row = Row(
    agent: AgentId, kind: Kind, content: string, state: Trust, pinned: bool, sourceTurn: Option<TurnId>,
    createdAt: int, lastValidated: int, lastAccessed: int, accessCount: nat, embedding: Option<Embedding>)

  datatype Store = Store(rows: map<MemoryId, Row>, journal: seq<Event>)

  datatype Error = NotFound | WrongAgent | PinnedImmutable | EventNotFound | Conflict

  datatype Outcome = Ok(store: Store) | Err(error: Error)

  function NewRow(agent: AgentId, kind: Kind, content: string, state: Trust, pinned: bool,
                  turn: Option<TurnId>, now: int, embedding: Option<Embedding>): Row
  {
    Row(agent, kind, content, state, pinned, turn, now, now, now, 0, embedding)
  }

  /** Ownership and pin protection; `None` when the source may touch the row. */
  function Locked(s: Store, agent: AgentId, target: MemoryId, source: Source): Option<Error> {
    if target !in s.rows then Some(NotFound)
    else if s.rows[target].agent != agent then Some(WrongAgent)
    else if s.rows[target].pinned && !BypassesPin(source) then Some(PinnedImmutable)
    else None
  }

  // ----- the mutation paths

  function WriteTx(s: Store, id: MemoryId, agent: AgentId, kind: Kind, content: string, state: Trust, pinned: bool,
                   source: Source, embedding: Embedding, now: int): Store
  {
    Store(s.rows[id := NewRow(agent, kind, content, state, pinned, TurnOf(source), now, Some(embedding))],
          s.journal + [Event(agent, id, source, now, Write(content, kind, state, pinned))])
  }

  /** Journal an update and store the new row; the shape all in-place changes share. */
  function Rewrite(s: Store, id: MemoryId, row: Row, source: Source, now: int, kind: Kind): Store
    requires id in s.rows
  {
    Store(s.rows[id := row],
          s.journal + [Event(row.agent, id, source, now,
                             Update(s.rows[id].content, row.content, kind, row.state, row.pinned))])
  }

  /** Journal a forget and drop the row. */
  function Remove(s: Store, id: MemoryId, source: Source, now: int): Store
    requires id in s.rows
  {
    Store(s.rows - {id}, s.journal + [Event(s.rows[id].agent, id, source, now, Forget(s.rows[id].content))])
  }

  function UpdateTx(s: Store, agent: AgentId, target: MemoryId, content: string, state: Trust, source: Source,
                    embedding: Embedding, now: int): Outcome
  {
    match Locked(s, agent, target, source)
    case Some(e) => Err(e)
    case None =>
      var row := s.rows[target].(content := content, state := state, embedding := Some(embedding));
      Ok(Rewrite(s, target, row, source, now, row.kind))
  }

  function ForgetTx(s: Store, agent: AgentId, target: MemoryId, source: Source, now: int): Outcome {
    match Locked(s, agent, target, source)
    case Some(e) => Err(e)
    case None => Ok(Remove(s, target, source, now))
  }

  function Promoted(t: Trust): Trust {
    match t
    case Tentative => Held
    case Held => Validated
    case _ => t
  }

  /** `source` is the mutation source of the validation's origin: a turn, or the operator. */
  function ValidateTx(s: Store, agent: AgentId, target: MemoryId, source: Source, now: int): Outcome {
    match Locked(s, agent, target, source)
    case Some(e) => Err(e)
    case None =>
      var row := s.rows[target].(state := Promoted(s.rows[target].state), lastValidated := now);
      Ok(Rewrite(s, target, row, source, now, row.kind))
  }

  function SetPinnedTx(s: Store, agent: AgentId, target: MemoryId, pinned: bool, now: int): Outcome {
    match Locked(s, agent, target, Operator)
    case Some(e) => Err(e)
    case None => Ok(Rewrite(s, target, s.rows[target].(pinned := pinned), Operator, now, s.rows[target].kind))
  }

  function AccessTx(s: Store, ids: set<MemoryId>, now: int): Store {
    s.(rows := map id | id in s.rows ::
      if id in ids then s.rows[id].(lastAccessed := now, accessCount := s.rows[id].accessCount + 1) else s.rows[id])
  }

  // ----- librarian passes over a selection of rows

  predicate Decayed(row: Row, agent: AgentId, cutoff: int) {
    row.agent == agent && row.state == Validated && !row.pinned && row.lastValidated < cutoff
  }

  /** `entangled` holds the memories of an unresolved contradiction. */
  predicate Ripe(row: Row, id: MemoryId, agent: AgentId, cutoff: int, entangled: set<MemoryId>) {
    row.agent == agent && row.state == Tentative && !row.pinned && row.createdAt < cutoff && id !in entangled
  }

  function DecaySelection(s: Store, agent: AgentId, cutoff: int): set<MemoryId> {
    set id | id in s.rows && Decayed(s.rows[id], agent, cutoff)
  }

  function RipeSelection(s: Store, agent: AgentId, cutoff: int, entangled: set<MemoryId>): set<MemoryId> {
    set id | id in s.rows && Ripe(s.rows[id], id, agent, cutoff, entangled)
  }

  /** Decay and maturation both move every selected row to Held, one journal event each. */
  function HoldAll(s: Store, order: seq<MemoryId>, now: int): Store {
    if order == [] then s
    else
      var before := HoldAll(s, order[..|order| - 1], now);
      var id := order[|order| - 1];
      if id in before.rows then
        Rewrite(before, id, before.rows[id].(state := Held), Librarian, now, before.rows[id].kind)
      else before
  }

  function RemoveAll(s: Store, order: seq<MemoryId>, now: int): Store {
    if order == [] then s
    else
      var before := RemoveAll(s, order[..|order| - 1], now);
      var id := order[|order| - 1];
      if id in before.rows then Remove(before, id, Librarian, now) else before
  }

  function OwnRows(s: Store, agent: AgentId): set<MemoryId> {
    set id | id in s.rows && s.rows[id].agent == agent
  }

  function Evictable(s: Store, agent: AgentId): set<MemoryId> {
    set id | id in OwnRows(s, agent) && !s.rows[id].pinned
  }

  /** Eviction order: lower state first, then less recently, then less often used. */
  predicate NotBetter(a: Row, b: Row) {
    || Priority(a.state) < Priority(b.state)
    || (Priority(a.state) == Priority(b.state) && a.lastAccessed < b.lastAccessed)
    || (Priority(a.state) == Priority(b.state) && a.lastAccessed == b.lastAccessed && a.accessCount <= b.accessCount)
  }

  function Elements(order: seq<MemoryId>): set<MemoryId> {
    set id | id in order
  }

  /** A listing of all unpinned rows of the agent in eviction order; rows that tie may come in either order. */
  ghost predicate RankedListing(s: Store, agent: AgentId, listing: seq<MemoryId>) {
    && Lists(listing, Evictable(s, agent))
    && forall i, j :: 0 <= i < j < |listing| ==> RankedAs(s.rows, listing[i], listing[j])
  }

  predicate RankedAs(rows: map<MemoryId, Row>, v: MemoryId, w: MemoryId) {
    v in rows && w in rows && NotBetter(rows[v], rows[w])
  }

  /** What the eviction query may return: as many of the first rows of such a listing as are over the quota. */
  ghost predicate EvictionChoice(s: Store, agent: AgentId, quota: nat, order: seq<MemoryId>) {
    exists listing :: RankedListing(s, agent, listing) && order == listing[..Min(Over(s, agent, quota), |listing|)]
  }

  function Over(s: Store, agent: AgentId, quota: nat): nat {
    if |OwnRows(s, agent)| <= quota then 0 else |OwnRows(s, agent)| - quota
  }

  function Min(a: nat, b: nat): nat {
    if a <= b then a else b
  }

  // ----- reverting an event

  datatype Attrs = Attrs(kind: Kind, state: Trust, pinned: bool)

  /** The attributes carried by the latest write or update event of a memory. */
  function RestoreAttrs(journal: seq<Event>, agent: AgentId, target: MemoryId): Option<Attrs> {
    if journal == [] then None
    else
      var e := journal[|journal| - 1];
      if e.agent == agent && e.target == target && e.payload.Write? then
        Some(Attrs(e.payload.kind, e.payload.state, e.payload.pinned))
      else if e.agent == agent && e.target == target && e.payload.Update? then
        Some(Attrs(e.payload.kind, e.payload.state, e.payload.pinned))
      else RestoreAttrs(journal[..|journal| - 1], agent, target)
  }

  /**
   What reading the journal back may give. The store orders events by their stamp, a clock reading taken when the
   operation started, and then by their random id: any order of the stamps, with ties in any order.
   */
  ghost predicate Reads(read: seq<Event>, journal: seq<Event>) {
    Permutes(read, journal) && forall i, j :: 0 <= i < j < |read| ==> read[i].at <= read[j].at
  }

  ghost predicate Permutes(read: seq<Event>, journal: seq<Event>) {
    multiset(read) == multiset(journal)
  }

  /** Inverse of a forget. The row is inserted unless one with this id already exists. */
  function RevertForget(s: Store, agent: AgentId, target: MemoryId, before: string, read: seq<Event>, now: int): Outcome
  {
    match RestoreAttrs(read, agent, target)
    case None => Err(NotFound)
    case Some(a) =>
      var row := NewRow(agent, a.kind, before, a.state, a.pinned, None, now, None);
      Ok(Store(if target in s.rows then s.rows else s.rows[target := row],
               s.journal + [Event(agent, target, Operator, now, Write(before, a.kind, a.state, a.pinned))]))
  }

  predicate HasEvent(s: Store, agent: AgentId, event: nat) {
    event < |s.journal| && s.journal[event].agent == agent
  }

  /** `read` is the journal as the attribute lookup of a restored memory sees it. */
  function RevertTx(s: Store, agent: AgentId, event: nat, read: seq<Event>, now: int): Outcome {
    if !HasEvent(s, agent, event) then Err(EventNotFound)
    else
      var target := s.journal[event].target;
      match s.journal[event].payload
      case Write(_, _, _, _) => ForgetTx(s, agent, target, Operator, now)
      case Update(before, _, kind, state, pinned) =>
        (match Locked(s, agent, target, Operator)
         case Some(e) => Err(e)
         case None =>
           var row := s.rows[target].(content := before, state := state, pinned := pinned);
           Ok(Rewrite(s, target, row, Operator, now, kind)))
      case Forget(before) => RevertForget(s, agent, target, before, read, now)
  }

  // ----- rebuilding the table from the journal

  datatype Replayed = Table(rows: map<MemoryId, Row>) | Clash

  /** One event against the table; a plain INSERT fails on an existing id. */
  function ReplayOne(rows: map<MemoryId, Row>, e: Event): Replayed {
    match e.payload
    case Write(content, kind, state, pinned) =>
      if e.target in rows then Clash
      else Table(rows[e.target := NewRow(e.agent, kind, content, state, pinned, TurnOf(e.source), e.at, None)])
    case Update(_, after, _, state, pinned) =>
      if e.target in rows then
        Table(rows[e.target := rows[e.target].(content := after, state := state, pinned := pinned)])
      else Table(rows)
    case Forget(_) => Table(rows - {e.target})
  }

  /** Replay `agent`'s events in the given order, starting from `rows`. */
  function Replay(rows: map<MemoryId, Row>, journal: seq<Event>, agent: AgentId): Replayed {
    if journal == [] then Table(rows)
    else
      match Replay(rows, journal[..|journal| - 1], agent)
      case Clash => Clash
      case Table(r) =>
        var e := journal[|journal| - 1];
        if e.agent == agent then ReplayOne(r, e) else Table(r)
  }

  function OthersRows(s: Store, agent: AgentId): map<MemoryId, Row> {
    s.rows - OwnRows(s, agent)
  }

  /** Put back the embeddings the agent's rows had before the rebuild. */
  function Reattach(s: Store, agent: AgentId, rows: map<MemoryId, Row>): map<MemoryId, Row> {
    map id | id in rows ::
      if id in OwnRows(s, agent) && s.rows[id].embedding.Some? then rows[id].(embedding := s.rows[id].embedding)
      else rows[id]
  }

  /** `read` is the journal in the order it is read back. */
  function RebuildTx(s: Store, agent: AgentId, read: seq<Event>): Outcome {
    match Replay(OthersRows(s, agent), read, agent)
    case Clash => Err(Conflict)
    case Table(rows) => Ok(s.(rows := Reattach(s, agent, rows)))
  }

  // ----- the transition system

  datatype Step =
    | DoWrite(id: MemoryId, agent: AgentId, kind: Kind, content: string, state: Trust, pinned: bool,
              source: Source, embedding: Embedding, now: int)
    | DoUpdate(agent: AgentId, target: MemoryId, content: string, state: Trust, source: Source, embedding: Embedding,
               now: int)
    | DoForget(agent: AgentId, target: MemoryId, source: Source, now: int)
    | DoValidate(agent: AgentId, target: MemoryId, source: Source, now: int)
    | DoPin(agent: AgentId, target: MemoryId, pinned: bool, now: int)
    | DoRevert(agent: AgentId, event: nat, read: seq<Event>, now: int)
    | DoDecay(agent: AgentId, cutoff: int, order: seq<MemoryId>, now: int)
    | DoMature(agent: AgentId, cutoff: int, entangled: set<MemoryId>, order: seq<MemoryId>, now: int)
    | DoEvict(agent: AgentId, quota: nat, order: seq<MemoryId>, now: int)
    | DoAccess(ids: set<MemoryId>, now: int)
    | DoRebuild(agent: AgentId, read: seq<Event>)

  /** A minted id was never used before. */
  predicate Unseen(s: Store, id: MemoryId) {
    id !in s.rows && forall i :: 0 <= i < |s.journal| ==> s.journal[i].target != id
  }

  ghost predicate Enabled(s: Store, step: Step) {
    match step
    case DoWrite(id, _, _, _, _, _, _, _, _) => Unseen(s, id)
    case DoDecay(agent, cutoff, order, _) => Lists(order, DecaySelection(s, agent, cutoff))
    case DoMature(agent, cutoff, entangled, order, _) => Lists(order, RipeSelection(s, agent, cutoff, entangled))
    case DoEvict(agent, quota, order, _) => EvictionChoice(s, agent, quota, order)
    case DoRevert(_, _, read, _) => Reads(read, s.journal)
    case DoRebuild(_, read) => Reads(read, s.journal)
    case _ => true
  }

  function Attempt(s: Store, step: Step): Outcome {
    match step
    case DoWrite(id, agent, kind, content, state, pinned, source, embedding, now) =>
      Ok(WriteTx(s, id, agent, kind, content, state, pinned, source, embedding, now))
    case DoUpdate(agent, target, content, state, source, embedding, now) =>
      UpdateTx(s, agent, target, content, state, source, embedding, now)
    case DoForget(agent, target, source, now) => ForgetTx(s, agent, target, source, now)
    case DoValidate(agent, target, source, now) => ValidateTx(s, agent, target, source, now)
    case DoPin(agent, target, pinned, now) => SetPinnedTx(s, agent, target, pinned, now)
    case DoRevert(agent, event, read, now) => RevertTx(s, agent, event, read, now)
    case DoDecay(_, _, order, now) => Ok(HoldAll(s, order, now))
    case DoMature(_, _, _, order, now) => Ok(HoldAll(s, order, now))
    case DoEvict(_, _, order, now) => Ok(RemoveAll(s, order, now))
    case DoAccess(ids, now) => Ok(AccessTx(s, ids, now))
    case DoRebuild(agent, read) => RebuildTx(s, agent, read)
  }

  /** A failed transaction rolls back. */
  function Apply(s: Store, step: Step): Store {
    match Attempt(s, step)
    case Ok(s') => s'
    case Err(_) => s
  }
}
