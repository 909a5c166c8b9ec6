/**
 The response hub: a persisted chunk log per request, and an in-process broadcast channel per request
 kept in a bounded slot table.

 A publish is three steps: the commit of the chunk row, fetching the channel's sender under the table's lock, and
 sending. A subscription is two steps, attaching to the channel and reading the backlog. Steps of any number of
 publishers and subscribers interleave freely. Channels are told apart by a number, so that a slot that was evicted
 and created again is a different channel. A subscriber that never lags has received everything sent on its channel
 since it attached.
 */
module ResponseHub {
  import opened Common

  type RequestId = nat
  type ChannelId = nat
  type PublishId = nat
  type SubscriberId = nat

  datatype Chunk =
    | Text(value: string) | Reasoning(value: string) | ToolCall(call: string) | ToolResult(output: string)
    | AgentMessage(from: nat, content: string) | Done(finalText: string) | Error(reason: string) | Stalled

  predicate IsTerminal(c: Chunk) {
    c.Done? || c.Error?
  }

  datatype Envelope = Envelope(number: nat, chunk: Chunk)

  // ----- the slot table

  datatype Slot = Slot(channel: ChannelId, closed: bool)

  /** `order` is the insertion order of the slots. */
  datatype SlotTable = SlotTable(slots: map<RequestId, Slot>, order: seq<RequestId>)

  predicate IsClosed(t: SlotTable, id: RequestId) {
    id in t.slots && t.slots[id].closed
  }

  /** Position of the oldest closed slot, or 0 when none is closed. */
  function VictimIndex(t: SlotTable): nat {
    var closed := FirstClosed(t, 0);
    if closed < |t.order| then closed else 0
  }

  function FirstClosed(t: SlotTable, from: nat): (i: nat)
    requires from <= |t.order|
    ensures from <= i <= |t.order|
    ensures i < |t.order| ==> IsClosed(t, t.order[i])
    ensures forall j :: from <= j < i ==> !IsClosed(t, t.order[j])
    decreases |t.order| - from
  {
    if from == |t.order| || IsClosed(t, t.order[from]) then from else FirstClosed(t, from + 1)
  }

  function Evicted(t: SlotTable): SlotTable {
    if t.order == [] then t
    else
      var i := VictimIndex(t);
      SlotTable(t.slots - {t.order[i]}, t.order[..i] + t.order[i + 1..])
  }

  /** The slot for `id`, created with channel `minted` if missing, evicting one slot when full. */
  function Touched(t: SlotTable, id: RequestId, cap: nat, minted: ChannelId): SlotTable {
    if id in t.slots then t
    else
      var room := if |t.slots| >= cap then Evicted(t) else t;
      SlotTable(room.slots[id := Slot(minted, false)], room.order + [id])
  }

  function Closed(t: SlotTable, id: RequestId): SlotTable
    requires id in t.slots
  {
    t.(slots := t.slots[id := t.slots[id].(closed := true)])
  }

  /** The deque lists exactly the slots, each once, and the table is within its cap. */
  ghost predicate TableOk(t: SlotTable, cap: nat) {
    Lists(t.order, t.slots.Keys) && |t.slots| <= cap
  }

  // ----- the hub

  datatype Stream = Stream(nextSeq: nat, closed: bool)

  /** A committed chunk on its way to the channel; `sender` is the channel once it was fetched. */
  datatype InFlight = InFlight(request: RequestId, envelope: Envelope, sender: Option<ChannelId>)

  /**
   `queue` is what the channel delivered since the subscriber attached. `base` and `first` record, for
   the proofs, the stream's counter and the next sequence number the channel could deliver at that moment.
   */
  datatype Subscriber = Subscriber(
    request: RequestId, since: Option<nat>, channel: ChannelId, queue: seq<Envelope>,
    backlog: Option<seq<Envelope>>, threshold: Option<nat>, base: nat, first: nat)

  datatype Hub = Hub(
    known: set<RequestId>, streams: map<RequestId, Stream>, chunks: map<(RequestId, nat), Chunk>,
    table: SlotTable, nextChannel: ChannelId, inflight: map<PublishId, InFlight>,
    subscribers: map<SubscriberId, Subscriber>, acknowledged: set<(RequestId, nat)>)

  function NextSeq(h: Hub, r: RequestId): nat {
    if r in h.streams then h.streams[r].nextSeq else 0
  }

  /** Commit of a publish: bump the counter, insert the chunk row at the old counter value. */
  function CommitTx(h: Hub, p: PublishId, r: RequestId, chunk: Chunk): Hub {
    if r !in h.known then h
    else
      var n := NextSeq(h, r);
      var closed := (r in h.streams && h.streams[r].closed) || IsTerminal(chunk);
      h.(streams := h.streams[r := Stream(n + 1, closed)],
         chunks := h.chunks[(r, n) := chunk],
         inflight := h.inflight[p := InFlight(r, Envelope(n, chunk), None)])
  }

  function CloseTx(h: Hub, r: RequestId): Hub {
    if r !in h.known then h
    else h.(streams := h.streams[r := Stream(NextSeq(h, r), true)])
  }

  function Touch(h: Hub, r: RequestId, cap: nat): Hub {
    h.(table := Touched(h.table, r, cap, h.nextChannel), nextChannel := h.nextChannel + 1)
  }

  function Receive(sub: Subscriber, channel: ChannelId, e: Envelope): Subscriber {
    if sub.channel == channel then sub.(queue := sub.queue + [e]) else sub
  }

  /** Fan-out after the commit, first half: refused on a closed slot; a terminal chunk closes the slot. */
  function FetchStep(h: Hub, p: PublishId, cap: nat): Hub
    requires p in h.inflight && cap > 0
  {
    var flight := h.inflight[p];
    var t := Touch(h, flight.request, cap);
    var slot := t.table.slots[flight.request];
    if slot.closed then t.(inflight := t.inflight - {p})
    else
      t.(inflight := t.inflight[p := flight.(sender := Some(slot.channel))],
         table := if IsTerminal(flight.envelope.chunk) then Closed(t.table, flight.request) else t.table)
  }

  /** Second half, outside the lock: the slot may be evicted by now, the channel still reaches its receivers. */
  function SendStep(h: Hub, p: PublishId): Hub
    requires p in h.inflight && h.inflight[p].sender.Some?
  {
    var flight := h.inflight[p];
    h.(inflight := h.inflight - {p},
       subscribers := map k | k in h.subscribers :: Receive(h.subscribers[k], flight.sender.value, flight.envelope),
       acknowledged := h.acknowledged + {(flight.request, flight.envelope.number)})
  }

  function MarkClosedStep(h: Hub, r: RequestId, cap: nat): Hub {
    var t := Touch(h, r, cap);
    t.(table := Closed(t.table, r))
  }

  function FlightsOf(h: Hub, r: RequestId): set<PublishId> {
    set p | p in h.inflight && h.inflight[p].request == r
  }

  /** The publishes of `r` that channel `c` may still deliver. */
  function Coming(h: Hub, r: RequestId, c: ChannelId): set<PublishId> {
    set p | p in FlightsOf(h, r) && (h.inflight[p].sender.None? || h.inflight[p].sender == Some(c))
  }

  function SubscribeStep(h: Hub, k: SubscriberId, r: RequestId, since: Option<nat>, cap: nat): Hub {
    var t := Touch(h, r, cap);
    var channel := t.table.slots[r].channel;
    var first := if Coming(t, r, channel) == {} || NextSeq(h, r) == 0 then NextSeq(h, r) else NextSeq(h, r) - 1;
    t.(subscribers := t.subscribers[k := Subscriber(r, since, channel, [], None, None, NextSeq(h, r), first)])
  }

  predicate Past(since: Option<nat>, n: nat) {
    since.None? || n > since.value
  }

  /** What the backlog query returns: all persisted chunks after `since`, in sequence order. */
  ghost predicate IsBacklog(h: Hub, r: RequestId, since: Option<nat>, rows: seq<Envelope>) {
    && (forall i :: 0 <= i < |rows| ==>
          && (r, rows[i].number) in h.chunks && h.chunks[(r, rows[i].number)] == rows[i].chunk
          && Past(since, rows[i].number))
    && (forall i, j :: 0 <= i < j < |rows| ==> rows[i].number < rows[j].number)
    && (forall n :: (r, n) in h.chunks && Past(since, n) ==> exists i :: 0 <= i < |rows| && rows[i].number == n)
  }

  /** The largest sequence number seen so far, starting from `since`. */
  function MaxSeq(since: Option<nat>, rows: seq<Envelope>): Option<nat> {
    if rows == [] then since
    else
      var m := MaxSeq(since, rows[..|rows| - 1]);
      var n := rows[|rows| - 1].number;
      if m.Some? && m.value >= n then m else Some(n)
  }

  function BacklogStep(h: Hub, k: SubscriberId, rows: seq<Envelope>): Hub
    requires k in h.subscribers
  {
    var sub := h.subscribers[k];
    h.(subscribers := h.subscribers[k := sub.(backlog := Some(rows), threshold := MaxSeq(sub.since, rows))])
  }

  /** The live stream drops what the backlog already delivered. */
  function LiveFilter(queue: seq<Envelope>, threshold: Option<nat>): seq<Envelope> {
    if queue == [] then []
    else
      var e := queue[|queue| - 1];
      LiveFilter(queue[..|queue| - 1], threshold) + if Past(threshold, e.number) then [e] else []
  }

  /** What a subscriber sees: the backlog, then the filtered live stream. */
  function Delivered(sub: Subscriber): seq<Envelope>
    requires sub.backlog.Some?
  {
    sub.backlog.value + LiveFilter(sub.queue, sub.threshold)
  }

  // ----- the transition system

  datatype Step =
    | Commit(publish: PublishId, request: RequestId, chunk: Chunk)
    | Fetch(publish: PublishId)
    | Send(publish: PublishId)
    | Close(request: RequestId)
    | MarkClosed(request: RequestId)
    | Subscribe(subscriber: SubscriberId, request: RequestId, since: Option<nat>)
    | ReadBacklog(subscriber: SubscriberId, rows: seq<Envelope>)

  ghost predicate Enabled(h: Hub, step: Step) {
    match step
    case Commit(p, _, _) => p !in h.inflight
    case Fetch(p) => p in h.inflight && h.inflight[p].sender.None?
    case Send(p) => p in h.inflight && h.inflight[p].sender.Some?
    case Subscribe(k, _, _) => k !in h.subscribers
    case ReadBacklog(k, rows) =>
      && k in h.subscribers && h.subscribers[k].backlog.None?
      && IsBacklog(h, h.subscribers[k].request, h.subscribers[k].since, rows)
    case _ => true
  }

  ghost function Apply(h: Hub, step: Step, cap: nat): Hub
    requires cap > 0 && Enabled(h, step)
  {
    match step
    case Commit(p, r, chunk) => CommitTx(h, p, r, chunk)
    case Fetch(p) => FetchStep(h, p, cap)
    case Send(p) => SendStep(h, p)
    case Close(r) => CloseTx(h, r)
    case MarkClosed(r) => MarkClosedStep(h, r, cap)
    case Subscribe(k, r, since) => SubscribeStep(h, k, r, since, cap)
    case ReadBacklog(k, rows) => BacklogStep(h, k, rows)
  }

  /** `requests` are the rows of `prompt_requests`. */
  function Init(requests: set<RequestId>): Hub {
    Hub(requests, map[], map[], SlotTable(map[], []), 0, map[], map[], {})
  }
}
