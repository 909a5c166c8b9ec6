/** Exactly-once delivery, the chunk log and the slot table, under every interleaving of hub steps. */
module HubRuns {
  import opened Common
  import opened ResponseHub

  // ----- the slot table keeps its deque and its cap

  lemma ListsWithout(order: seq<RequestId>, ids: set<RequestId>, i: nat)
    requires Lists(order, ids) && i < |order|
    ensures Lists(order[..i] + order[i + 1..], ids - {order[i]})
  {
    var rest := order[..i] + order[i + 1..];
    forall k | 0 <= k < |rest| ensures rest[k] == order[if k < i then k else k + 1] {}
    forall id | id in ids && id != order[i] ensures id in rest {
      var k :| 0 <= k < |order| && order[k] == id;
      assert rest[if k < i then k else k - 1] == id;
    }
  }

  lemma ListsWith(order: seq<RequestId>, ids: set<RequestId>, id: RequestId)
    requires Lists(order, ids) && id !in ids
    ensures Lists(order + [id], ids + {id})
  {
  }

  lemma EvictedOk(t: SlotTable, cap: nat)
    requires TableOk(t, cap) && t.order != []
    ensures TableOk(Evicted(t), cap) && |Evicted(t).slots| == |t.slots| - 1
  {
    var i := VictimIndex(t);
    ListsWithout(t.order, t.slots.Keys, i);
    assert t.order[i] in t.slots;
    assert Evicted(t).slots.Keys == t.slots.Keys - {t.order[i]};
  }

  /** The victim is the oldest closed slot if there is one, else the oldest slot; the rest keeps its order. */
  lemma EvictsOldestClosed(t: SlotTable, cap: nat) returns (i: nat)
    requires TableOk(t, cap) && t.order != []
    ensures i < |t.order| && Evicted(t) == SlotTable(t.slots - {t.order[i]}, t.order[..i] + t.order[i + 1..])
    ensures t.slots[t.order[i]].closed ==> forall j :: 0 <= j < i ==> !t.slots[t.order[j]].closed
    ensures !t.slots[t.order[i]].closed ==> i == 0 && forall id :: id in t.slots ==> !t.slots[id].closed
  {
    i := VictimIndex(t);
    assert forall j :: 0 <= j < |t.order| ==> t.order[j] in t.slots;
    if !t.slots[t.order[i]].closed {
      forall id | id in t.slots ensures !t.slots[id].closed {
        var j :| 0 <= j < |t.order| && t.order[j] == id;
        assert !IsClosed(t, t.order[j]);
      }
    }
  }

  lemma AddedOk(t: SlotTable, id: RequestId, slot: Slot, cap: nat)
    requires TableOk(t, cap) && |t.slots| < cap && id !in t.slots
    ensures TableOk(SlotTable(t.slots[id := slot], t.order + [id]), cap)
  {
    ListsWith(t.order, t.slots.Keys, id);
    assert t.slots[id := slot].Keys == t.slots.Keys + {id};
  }

  lemma {:induction false} TouchedOk(t: SlotTable, id: RequestId, cap: nat, minted: ChannelId)
    requires TableOk(t, cap) && cap > 0
    ensures TableOk(Touched(t, id, cap, minted), cap)
  {
    if id !in t.slots {
      if |t.slots| >= cap {
        assert |t.slots.Keys| > 0;
        var oldest :| oldest in t.slots.Keys;
        assert oldest in t.order;
        EvictedOk(t, cap);
        AddedOk(Evicted(t), id, Slot(minted, false), cap);
      } else {
        AddedOk(t, id, Slot(minted, false), cap);
      }
    }
  }

  /** Touching a slot keeps the others that stay, and at most adds one with the minted channel. */
  lemma TouchedSlots(t: SlotTable, id: RequestId, cap: nat, minted: ChannelId, r: RequestId)
    requires r in Touched(t, id, cap, minted).slots
    ensures (r in t.slots && Touched(t, id, cap, minted).slots[r] == t.slots[r])
         || (r == id && id !in t.slots && Touched(t, id, cap, minted).slots[r] == Slot(minted, false))
  {
  }

  // ----- the inductive invariant

  function Next(n: Option<nat>): nat {
    match n
    case None => 0
    case Some(v) => v + 1
  }

  /** The persisted sequence numbers of every request are exactly 0 .. nextSeq - 1. */
  ghost predicate LogOk(h: Hub) {
    forall r: RequestId, n: nat :: (r, n) in h.chunks <==> n < NextSeq(h, r)
  }

  ghost predicate Persisted(h: Hub, r: RequestId, e: Envelope) {
    (r, e.number) in h.chunks && h.chunks[(r, e.number)] == e.chunk
  }

  predicate SameChunk(f: InFlight, g: InFlight) {
    f.request == g.request && f.envelope.number == g.envelope.number
  }

  ghost predicate FlightsOk(h: Hub) {
    && (forall p :: p in h.inflight ==>
          Persisted(h, h.inflight[p].request, h.inflight[p].envelope)
          && (h.inflight[p].request, h.inflight[p].envelope.number) !in h.acknowledged)
    && (forall p, q :: p in h.inflight && q in h.inflight && SameChunk(h.inflight[p], h.inflight[q]) ==> p == q)
    && (forall x :: x in h.acknowledged ==> x in h.chunks)
  }

  ghost predicate SlotsOk(h: Hub) {
    && (forall r :: r in h.table.slots ==> h.table.slots[r].channel < h.nextChannel)
    && (forall r, q :: r in h.table.slots && q in h.table.slots && r != q ==>
          h.table.slots[r].channel != h.table.slots[q].channel)
  }

  /** The subscriber's slot was never evicted: its channel is still the request's channel. */
  predicate Attached(h: Hub, sub: Subscriber) {
    sub.request in h.table.slots && h.table.slots[sub.request].channel == sub.channel
  }

  ghost predicate ChannelOk(h: Hub, sub: Subscriber) {
    && sub.channel < h.nextChannel
    && forall r :: r in h.table.slots && h.table.slots[r].channel == sub.channel ==> r == sub.request
  }

  predicate InQueue(queue: seq<Envelope>, n: nat) {
    exists i :: 0 <= i < |queue| && queue[i].number == n
  }

  ghost predicate QueueOk(h: Hub, sub: Subscriber) {
    && (forall i :: 0 <= i < |sub.queue| ==>
          Persisted(h, sub.request, sub.queue[i]) && (sub.request, sub.queue[i].number) in h.acknowledged)
    && (forall i, j :: 0 <= i < j < |sub.queue| ==> sub.queue[i].number != sub.queue[j].number)
    && sub.base <= NextSeq(h, sub.request)
    && (Attached(h, sub) ==>
          forall n :: (sub.request, n) in h.acknowledged ==> n < sub.base || InQueue(sub.queue, n))
  }

  ghost predicate BacklogOk(h: Hub, sub: Subscriber) {
    sub.backlog.Some? ==>
      && (forall i :: 0 <= i < |sub.backlog.value| ==>
            Persisted(h, sub.request, sub.backlog.value[i]) && sub.backlog.value[i].number == Next(sub.since) + i)
      && Next(sub.threshold) == Next(sub.since) + |sub.backlog.value|
      && sub.base <= Next(sub.threshold)
  }

  /** A fetched sender belongs to the request's own channel, past or present. */
  ghost predicate SendersOk(h: Hub) {
    forall p :: p in h.inflight && h.inflight[p].sender.Some? ==>
      && h.inflight[p].sender.value < h.nextChannel
      && forall r :: r in h.table.slots && h.table.slots[r].channel == h.inflight[p].sender.value ==>
           r == h.inflight[p].request
  }

  /** What is sent on an older channel of the request was committed before the subscriber attached. */
  predicate SenderMeets(h: Hub, sub: Subscriber, flight: InFlight) {
    flight.sender.Some? ==>
      && (flight.sender.value == sub.channel ==> flight.request == sub.request)
      && (flight.request == sub.request && Attached(h, sub) && flight.sender.value != sub.channel ==>
            flight.envelope.number < sub.base)
  }

  ghost predicate SubOk(h: Hub, sub: Subscriber) {
    && ChannelOk(h, sub) && QueueOk(h, sub) && BacklogOk(h, sub)
    && forall p :: p in h.inflight ==> SenderMeets(h, sub, h.inflight[p])
  }

  ghost predicate Inv(h: Hub, cap: nat) {
    LogOk(h) && FlightsOk(h) && SlotsOk(h) && SendersOk(h) && TableOk(h.table, cap) && AllOk(h)
  }

  // ----- preservation

  /** The log grew, no slot got another channel, and no publish got a sender. */
  ghost predicate Extends(h: Hub, h': Hub) {
    && (forall x :: x in h.chunks ==> x in h'.chunks && h'.chunks[x] == h.chunks[x])
    && (forall r :: NextSeq(h, r) <= NextSeq(h', r))
    && h'.acknowledged == h.acknowledged && h'.nextChannel >= h.nextChannel
    && (forall r :: r in h'.table.slots ==>
          || (r in h.table.slots && h'.table.slots[r].channel == h.table.slots[r].channel)
          || h'.table.slots[r].channel >= h.nextChannel)
    && (forall p :: p in h'.inflight && h'.inflight[p].sender.Some? ==>
          p in h.inflight && h'.inflight[p] == h.inflight[p])
  }

  /** Such a step keeps what a subscriber knows. */
  lemma SubscriberUnaffected(h: Hub, h': Hub, sub: Subscriber)
    requires SubOk(h, sub) && Extends(h, h')
    ensures SubOk(h', sub)
  {
    assert Attached(h', sub) ==> Attached(h, sub);
    forall p | p in h'.inflight ensures SenderMeets(h', sub, h'.inflight[p]) {
      if h'.inflight[p].sender.Some? { assert SenderMeets(h, sub, h.inflight[p]); }
    }
  }

  ghost predicate AllOk(h: Hub) {
    forall k :: k in h.subscribers ==> SubOk(h, h.subscribers[k])
  }

  lemma AllUnaffected(h: Hub, h': Hub)
    requires AllOk(h) && Extends(h, h') && h'.subscribers == h.subscribers
    ensures AllOk(h')
  {
    forall k | k in h'.subscribers ensures SubOk(h', h'.subscribers[k]) {
      SubscriberUnaffected(h, h', h.subscribers[k]);
    }
  }

  lemma CommitLog(h: Hub, p: PublishId, r: RequestId, chunk: Chunk)
    requires LogOk(h) && r in h.known
    ensures LogOk(CommitTx(h, p, r, chunk))
    ensures (r, NextSeq(h, r)) !in h.chunks
  {
    var h' := CommitTx(h, p, r, chunk);
    forall q: RequestId, n: nat ensures (q, n) in h'.chunks <==> n < NextSeq(h', q) {
      assert (q, n) in h.chunks <==> n < NextSeq(h, q);
    }
  }

  lemma CommitFlights(h: Hub, p: PublishId, r: RequestId, chunk: Chunk)
    requires LogOk(h) && FlightsOk(h) && p !in h.inflight && r in h.known
    ensures FlightsOk(CommitTx(h, p, r, chunk))
  {
    CommitLog(h, p, r, chunk);
    var h' := CommitTx(h, p, r, chunk);
    forall q | q in h.inflight ensures Persisted(h', h.inflight[q].request, h.inflight[q].envelope)
                               ensures !SameChunk(h.inflight[q], h'.inflight[p])
    {
      assert Persisted(h, h.inflight[q].request, h.inflight[q].envelope);
    }
  }

  lemma CommitExtends(h: Hub, p: PublishId, r: RequestId, chunk: Chunk)
    requires LogOk(h) && r in h.known && p !in h.inflight
    ensures Extends(h, CommitTx(h, p, r, chunk))
  {
    CommitLog(h, p, r, chunk);
  }

  lemma {:induction false} InvCommit(h: Hub, p: PublishId, r: RequestId, chunk: Chunk, cap: nat)
    requires Inv(h, cap) && p !in h.inflight
    ensures Inv(CommitTx(h, p, r, chunk), cap)
  {
    if r in h.known {
      CommitLog(h, p, r, chunk);
      CommitFlights(h, p, r, chunk);
      CommitExtends(h, p, r, chunk);
      AllUnaffected(h, CommitTx(h, p, r, chunk));
    }
  }

  lemma CloseExtends(h: Hub, r: RequestId)
    requires LogOk(h) && FlightsOk(h)
    ensures Extends(h, CloseTx(h, r)) && LogOk(CloseTx(h, r)) && FlightsOk(CloseTx(h, r))
  {
    assert forall q :: NextSeq(CloseTx(h, r), q) == NextSeq(h, q);
  }

  lemma {:induction false} InvClose(h: Hub, r: RequestId, cap: nat)
    requires Inv(h, cap)
    ensures Inv(CloseTx(h, r), cap)
  {
    CloseExtends(h, r);
    AllUnaffected(h, CloseTx(h, r));
  }

  lemma TouchedOrNew(h: Hub, r: RequestId, cap: nat, q: RequestId)
    requires q in Touch(h, r, cap).table.slots
    ensures var slot := Touch(h, r, cap).table.slots[q];
            || (q in h.table.slots && slot == h.table.slots[q])
            || (q == r && q !in h.table.slots && slot.channel == h.nextChannel)
  {
    TouchedSlots(h.table, r, cap, h.nextChannel, q);
  }

  lemma TouchExtends(h: Hub, r: RequestId, cap: nat)
    ensures Extends(h, Touch(h, r, cap))
  {
    var h' := Touch(h, r, cap);
    forall q | q in h'.table.slots
      ensures (q in h.table.slots && h'.table.slots[q].channel == h.table.slots[q].channel)
           || h'.table.slots[q].channel >= h.nextChannel
    {
      TouchedOrNew(h, r, cap, q);
    }
  }

  lemma TouchKeepsSlots(h: Hub, r: RequestId, cap: nat)
    requires SlotsOk(h) && SendersOk(h)
    ensures SlotsOk(Touch(h, r, cap)) && SendersOk(Touch(h, r, cap))
  {
    var h' := Touch(h, r, cap);
    forall q | q in h'.table.slots
      ensures (q in h.table.slots && h'.table.slots[q] == h.table.slots[q])
           || (q == r && h'.table.slots[q].channel == h.nextChannel)
    {
      TouchedOrNew(h, r, cap, q);
    }
  }

  lemma {:induction false} InvTouch(h: Hub, r: RequestId, cap: nat)
    requires cap > 0 && Inv(h, cap)
    ensures Inv(Touch(h, r, cap), cap)
  {
    TouchedOk(h.table, r, cap, h.nextChannel);
    TouchExtends(h, r, cap);
    TouchKeepsSlots(h, r, cap);
    AllUnaffected(h, Touch(h, r, cap));
    SameLog(h, Touch(h, r, cap));
  }

  /** Log and publishes look at nothing but their own tables. */
  lemma SameLog(h: Hub, h': Hub)
    requires LogOk(h) && FlightsOk(h)
    requires h'.streams == h.streams && h'.chunks == h.chunks
    requires h'.inflight == h.inflight && h'.acknowledged == h.acknowledged
    ensures LogOk(h') && FlightsOk(h')
  {
    assert forall r :: NextSeq(h', r) == NextSeq(h, r);
  }

  lemma {:induction false} InvClosed(h: Hub, r: RequestId, cap: nat)
    requires Inv(h, cap) && r in h.table.slots
    ensures Inv(h.(table := Closed(h.table, r)), cap)
  {
    var h' := h.(table := Closed(h.table, r));
    ClosedTable(h, r, cap);
    SameLog(h, h');
    AllUnaffected(h, h');
  }

  lemma ClosedTable(h: Hub, r: RequestId, cap: nat)
    requires SlotsOk(h) && SendersOk(h) && TableOk(h.table, cap) && r in h.table.slots
    ensures var h' := h.(table := Closed(h.table, r));
            SlotsOk(h') && SendersOk(h') && TableOk(h'.table, cap) && Extends(h, h')
  {
    var h' := h.(table := Closed(h.table, r));
    assert h'.table.slots.Keys == h.table.slots.Keys;
    assert forall q :: NextSeq(h', q) == NextSeq(h, q);
  }

  // ----- sending

  lemma SentQueue(h: Hub, p: PublishId, sub: Subscriber)
    requires p in h.inflight && h.inflight[p].sender.Some? && FlightsOk(h) && SubOk(h, sub)
    ensures QueueOk(SendStep(h, p), Receive(sub, h.inflight[p].sender.value, h.inflight[p].envelope))
  {
    var flight := h.inflight[p];
    var sub' := Receive(sub, flight.sender.value, flight.envelope);
    var h' := SendStep(h, p);
    assert SenderMeets(h, sub, flight);
    assert sub'.queue == sub.queue || sub'.queue == sub.queue + [flight.envelope];
    if Attached(h', sub') {
      forall n | (sub.request, n) in h'.acknowledged ensures n < sub.base || InQueue(sub'.queue, n) {
        if (sub.request, n) in h.acknowledged {
          if !(n < sub.base) {
            var i :| 0 <= i < |sub.queue| && sub.queue[i].number == n;
            assert sub'.queue[i].number == n;
          }
        } else if sub.channel == flight.sender.value {
          assert sub'.queue[|sub.queue|].number == n;
        }
      }
    }
  }

  lemma SentReaches(h: Hub, p: PublishId, sub: Subscriber)
    requires p in h.inflight && h.inflight[p].sender.Some? && FlightsOk(h) && SubOk(h, sub)
    ensures SubOk(SendStep(h, p), Receive(sub, h.inflight[p].sender.value, h.inflight[p].envelope))
  {
    var h' := SendStep(h, p);
    var sub' := Receive(sub, h.inflight[p].sender.value, h.inflight[p].envelope);
    SentQueue(h, p, sub);
    assert BacklogOk(h', sub') && ChannelOk(h', sub');
    forall q | q in h'.inflight ensures SenderMeets(h', sub', h'.inflight[q]) {
      assert SenderMeets(h, sub, h.inflight[q]);
    }
  }

  lemma {:induction false} InvSend(h: Hub, p: PublishId, cap: nat)
    requires Inv(h, cap) && p in h.inflight && h.inflight[p].sender.Some?
    ensures Inv(SendStep(h, p), cap)
  {
    var h' := SendStep(h, p);
    SentFlights(h, p);
    forall k | k in h'.subscribers ensures SubOk(h', h'.subscribers[k]) { SentReaches(h, p, h.subscribers[k]); }
  }

  lemma SentFlights(h: Hub, p: PublishId)
    requires FlightsOk(h) && SendersOk(h) && p in h.inflight && h.inflight[p].sender.Some?
    ensures FlightsOk(SendStep(h, p)) && SendersOk(SendStep(h, p))
  {
    var h' := SendStep(h, p);
    forall q | q in h'.inflight ensures (h'.inflight[q].request, h'.inflight[q].envelope.number) !in h'.acknowledged {
      assert !SameChunk(h.inflight[q], h.inflight[p]);
    }
  }

  // ----- fetching the sender

  /** The hub in which publish `p` has the current channel of its request as its sender. */
  function Assigned(h: Hub, p: PublishId): Hub
    requires p in h.inflight && h.inflight[p].request in h.table.slots
  {
    var flight := h.inflight[p];
    h.(inflight := h.inflight[p := flight.(sender := Some(h.table.slots[flight.request].channel))])
  }

  lemma AssignedFlights(h: Hub, p: PublishId)
    requires FlightsOk(h) && SlotsOk(h) && SendersOk(h) && p in h.inflight && h.inflight[p].request in h.table.slots
    ensures FlightsOk(Assigned(h, p)) && SendersOk(Assigned(h, p))
  {
    var h' := Assigned(h, p);
    forall q, o | q in h'.inflight && o in h'.inflight && SameChunk(h'.inflight[q], h'.inflight[o]) ensures q == o {
      assert SameChunk(h.inflight[q], h.inflight[o]);
    }
  }

  lemma {:induction false} InvAssigned(h: Hub, p: PublishId, cap: nat)
    requires Inv(h, cap) && p in h.inflight && h.inflight[p].request in h.table.slots
    ensures Inv(Assigned(h, p), cap)
  {
    var h' := Assigned(h, p);
    AssignedFlights(h, p);
    forall k | k in h'.subscribers ensures SubOk(h', h'.subscribers[k]) { AssignedMeets(h, p, h.subscribers[k]); }
  }

  lemma AssignedMeets(h: Hub, p: PublishId, sub: Subscriber)
    requires SlotsOk(h) && SubOk(h, sub) && p in h.inflight && h.inflight[p].request in h.table.slots
    ensures SubOk(Assigned(h, p), sub)
  {
    var h' := Assigned(h, p);
    forall q | q in h'.inflight ensures SenderMeets(h', sub, h'.inflight[q]) {
      if q != p { assert SenderMeets(h, sub, h.inflight[q]); }
    }
  }

  lemma {:induction false} InvRefused(h: Hub, p: PublishId, cap: nat)
    requires Inv(h, cap)
    ensures Inv(h.(inflight := h.inflight - {p}), cap)
  {
    var h' := h.(inflight := h.inflight - {p});
    AllUnaffected(h, h');
  }

  lemma {:induction false} InvFetch(h: Hub, p: PublishId, cap: nat)
    requires cap > 0 && Inv(h, cap) && p in h.inflight
    ensures Inv(FetchStep(h, p, cap), cap)
  {
    var r := h.inflight[p].request;
    var t := Touch(h, r, cap);
    InvTouch(h, r, cap);
    if t.table.slots[r].closed {
      InvRefused(t, p, cap);
    } else {
      InvAssigned(t, p, cap);
      var a := Assigned(t, p);
      if IsTerminal(h.inflight[p].envelope.chunk) {
        InvClosed(a, r, cap);
        assert FetchStep(h, p, cap) == a.(table := Closed(a.table, r));
      } else {
        assert FetchStep(h, p, cap) == a;
      }
    }
  }

  lemma StoredExtends(h: Hub, k: SubscriberId, sub: Subscriber)
    ensures Extends(h, h.(subscribers := h.subscribers[k := sub]))
  {
    var h' := h.(subscribers := h.subscribers[k := sub]);
    assert forall r :: NextSeq(h', r) == NextSeq(h, r);
  }

  /** Putting a subscriber in order in the map keeps everything else. */
  lemma InvStored(h: Hub, k: SubscriberId, sub: Subscriber, cap: nat)
    requires Inv(h, cap) && SubOk(h, sub)
    ensures Inv(h.(subscribers := h.subscribers[k := sub]), cap)
  {
    var h' := h.(subscribers := h.subscribers[k := sub]);
    StoredExtends(h, k, sub);
    SameLog(h, h');
    forall j | j in h'.subscribers ensures SubOk(h', h'.subscribers[j]) {
      SubscriberUnaffected(h, h', h'.subscribers[j]);
    }
  }

  lemma {:induction false} InvSubscribe(h: Hub, k: SubscriberId, r: RequestId, since: Option<nat>, cap: nat)
    requires cap > 0 && Inv(h, cap) && k !in h.subscribers
    ensures Inv(SubscribeStep(h, k, r, since, cap), cap)
  {
    var t, sub := Touch(h, r, cap), SubscribeStep(h, k, r, since, cap).subscribers[k];
    InvTouch(h, r, cap);
    AttachedOk(t, sub, cap);
    InvStored(t, k, sub, cap);
  }

  /** Whatever is still on its way when a subscriber attaches was committed before. */
  lemma AttachedOk(t: Hub, sub: Subscriber, cap: nat)
    requires Inv(t, cap) && sub.request in t.table.slots && sub.channel == t.table.slots[sub.request].channel
    requires sub.queue == [] && sub.backlog.None? && sub.base == NextSeq(t, sub.request)
    ensures SubOk(t, sub)
  {
    forall n | (sub.request, n) in t.acknowledged ensures n < sub.base { assert (sub.request, n) in t.chunks; }
    forall p | p in t.inflight ensures SenderMeets(t, sub, t.inflight[p]) {
      assert Persisted(t, t.inflight[p].request, t.inflight[p].envelope);
    }
  }

  /** With a gap-free log, an ordered full backlog has consecutive numbers. */
  lemma {:induction false} BacklogNumbers(h: Hub, r: RequestId, since: Option<nat>, rows: seq<Envelope>, i: nat)
    requires LogOk(h) && IsBacklog(h, r, since, rows) && i < |rows|
    ensures rows[i].number == Next(since) + i
  {
    if i > 0 { BacklogNumbers(h, r, since, rows, i - 1); }
    var expected := Next(since) + i;
    assert rows[i].number >= expected;
    assert (r, rows[i].number) in h.chunks;
    assert (r, expected) in h.chunks && Past(since, expected);
    assert forall j :: 0 <= j < i ==> rows[j].number < expected;
    var j :| 0 <= j < |rows| && rows[j].number == expected;
  }

  lemma {:induction false} MaxSeqOfConsecutive(since: Option<nat>, rows: seq<Envelope>)
    requires forall i :: 0 <= i < |rows| ==> rows[i].number == Next(since) + i
    ensures Next(MaxSeq(since, rows)) == Next(since) + |rows|
  {
    if rows != [] { MaxSeqOfConsecutive(since, rows[..|rows| - 1]); }
  }

  lemma {:induction false} InvBacklog(h: Hub, k: SubscriberId, rows: seq<Envelope>, cap: nat)
    requires Inv(h, cap) && Enabled(h, ReadBacklog(k, rows))
    ensures Inv(BacklogStep(h, k, rows), cap)
  {
    var sub := h.subscribers[k];
    OwnBacklog(h, sub, rows);
    assert SubOk(h, WithBacklog(sub, rows)) by { BacklogKeepsRest(h, sub, rows); }
    InvStored(h, k, WithBacklog(sub, rows), cap);
  }

  lemma BacklogKeepsRest(h: Hub, sub: Subscriber, rows: seq<Envelope>)
    requires SubOk(h, sub) && BacklogOk(h, WithBacklog(sub, rows))
    ensures SubOk(h, WithBacklog(sub, rows))
  {
    forall p | p in h.inflight ensures SenderMeets(h, WithBacklog(sub, rows), h.inflight[p]) {
      assert SenderMeets(h, sub, h.inflight[p]);
    }
  }

  function WithBacklog(sub: Subscriber, rows: seq<Envelope>): Subscriber {
    sub.(backlog := Some(rows), threshold := MaxSeq(sub.since, rows))
  }

  lemma OwnBacklog(h: Hub, sub: Subscriber, rows: seq<Envelope>)
    requires LogOk(h) && QueueOk(h, sub) && IsBacklog(h, sub.request, sub.since, rows)
    ensures BacklogOk(h, WithBacklog(sub, rows))
  {
    forall i | 0 <= i < |rows| ensures rows[i].number == Next(sub.since) + i {
      BacklogNumbers(h, sub.request, sub.since, rows, i);
    }
    MaxSeqOfConsecutive(sub.since, rows);
    if sub.base > Next(sub.since) {
      var n := sub.base - 1;
      assert (sub.request, n) in h.chunks && Past(sub.since, n);
      var i :| 0 <= i < |rows| && rows[i].number == n;
    }
  }

  lemma {:induction false} InvStep(h: Hub, step: Step, cap: nat)
    requires cap > 0 && Inv(h, cap) && Enabled(h, step)
    ensures Inv(Apply(h, step, cap), cap)
  {
    match step
    case Commit(p, r, chunk) => InvCommit(h, p, r, chunk, cap);
    case Close(r) => InvClose(h, r, cap);
    case Fetch(p) => InvFetch(h, p, cap);
    case Send(p) => InvSend(h, p, cap);
    case MarkClosed(r) => InvTouch(h, r, cap); InvClosed(Touch(h, r, cap), r, cap);
    case Subscribe(k, r, since) => InvSubscribe(h, k, r, since, cap);
    case ReadBacklog(k, rows) => InvBacklog(h, k, rows, cap);
  }

  // ----- runs

  ghost predicate IsRun(requests: set<RequestId>, cap: nat, steps: seq<Step>)
    requires cap > 0
    decreases |steps|, 0
  {
    steps == [] ||
    (IsRun(requests, cap, steps[..|steps| - 1])
     && Enabled(After(requests, cap, steps[..|steps| - 1]), steps[|steps| - 1]))
  }

  ghost function After(requests: set<RequestId>, cap: nat, steps: seq<Step>): Hub
    requires cap > 0 && IsRun(requests, cap, steps)
    decreases |steps|, 1
  {
    if steps == [] then Init(requests)
    else Apply(After(requests, cap, steps[..|steps| - 1]), steps[|steps| - 1], cap)
  }

  /** In every reachable hub the log has no gap and the slot table keeps its deque and its cap. */
  lemma {:induction false} ReachableInv(requests: set<RequestId>, cap: nat, steps: seq<Step>)
    requires cap > 0 && IsRun(requests, cap, steps)
    ensures Inv(After(requests, cap, steps), cap)
  {
    if steps != [] {
      ReachableInv(requests, cap, steps[..|steps| - 1]);
      InvStep(After(requests, cap, steps[..|steps| - 1]), steps[|steps| - 1], cap);
    }
  }

  // ----- what a subscriber sees

  lemma {:induction false} FilterMembers(queue: seq<Envelope>, threshold: Option<nat>, e: Envelope)
    ensures e in LiveFilter(queue, threshold) <==> e in queue && Past(threshold, e.number)
  {
    if queue != [] {
      FilterMembers(queue[..|queue| - 1], threshold, e);
      assert queue == queue[..|queue| - 1] + [queue[|queue| - 1]];
    }
  }

  lemma {:induction false} FilterDistinct(queue: seq<Envelope>, threshold: Option<nat>)
    requires forall i, j :: 0 <= i < j < |queue| ==> queue[i].number != queue[j].number
    ensures var live := LiveFilter(queue, threshold);
            forall i, j :: 0 <= i < j < |live| ==> live[i].number != live[j].number
  {
    if queue != [] {
      var front, last := queue[..|queue| - 1], queue[|queue| - 1];
      FilterDistinct(front, threshold);
      var live := LiveFilter(front, threshold);
      forall i | 0 <= i < |live| ensures live[i].number != last.number {
        FilterMembers(front, threshold, live[i]);
        var j :| 0 <= j < |front| && front[j] == live[i];
        assert queue[j].number != last.number;
      }
    }
  }

  /** At most once: a subscriber never sees two chunks with one number, and only persisted ones after `since`. */
  lemma {:induction false} DeliveredAtMostOnce(requests: set<RequestId>, cap: nat, steps: seq<Step>, k: SubscriberId)
    requires cap > 0 && IsRun(requests, cap, steps)
    requires k in After(requests, cap, steps).subscribers && After(requests, cap, steps).subscribers[k].backlog.Some?
    ensures var h := After(requests, cap, steps);
            var sub := h.subscribers[k];
            && (forall i, j :: 0 <= i < j < |Delivered(sub)| ==> Delivered(sub)[i].number != Delivered(sub)[j].number)
            && (forall i :: 0 <= i < |Delivered(sub)| ==>
                  Persisted(h, sub.request, Delivered(sub)[i]) && Past(sub.since, Delivered(sub)[i].number))
  {
    var h := After(requests, cap, steps);
    var sub := h.subscribers[k];
    ReachableInv(requests, cap, steps);
    FilterDistinct(sub.queue, sub.threshold);
    var live := LiveFilter(sub.queue, sub.threshold);
    forall i | 0 <= i < |live| ensures live[i] in sub.queue && Past(sub.threshold, live[i].number) {
      FilterMembers(sub.queue, sub.threshold, live[i]);
    }
  }

  lemma SeenIfBackedOrAcknowledged(h: Hub, sub: Subscriber, n: nat)
    requires LogOk(h) && QueueOk(h, sub) && BacklogOk(h, sub) && sub.backlog.Some? && Past(sub.since, n)
    requires !Past(sub.threshold, n) || (Attached(h, sub) && (sub.request, n) in h.acknowledged)
    ensures exists e :: e in Delivered(sub) && e.number == n && Persisted(h, sub.request, e)
  {
    if !Past(sub.threshold, n) || n < sub.base {
      var i := n - Next(sub.since);
      assert sub.backlog.value[i] in Delivered(sub);
    } else {
      var i :| 0 <= i < |sub.queue| && sub.queue[i].number == n;
      FilterMembers(sub.queue, sub.threshold, sub.queue[i]);
      assert sub.queue[i] in LiveFilter(sub.queue, sub.threshold);
    }
  }

  /**
   At least once: a subscriber whose slot was not evicted has seen every chunk after `since` that was
   in its backlog snapshot or whose publish returned successfully.
   */
  lemma {:induction false} DeliveredAtLeastOnce(requests: set<RequestId>, cap: nat, steps: seq<Step>, k: SubscriberId,
                                                n: nat)
    requires cap > 0 && IsRun(requests, cap, steps)
    requires k in After(requests, cap, steps).subscribers && After(requests, cap, steps).subscribers[k].backlog.Some?
    requires var h := After(requests, cap, steps);
             var sub := h.subscribers[k];
             Past(sub.since, n) && (!Past(sub.threshold, n) || (Attached(h, sub) && (sub.request, n) in h.acknowledged))
    ensures var h := After(requests, cap, steps);
            var sub := h.subscribers[k];
            exists e :: e in Delivered(sub) && e.number == n && Persisted(h, sub.request, e)
  {
    var h := After(requests, cap, steps);
    ReachableInv(requests, cap, steps);
    SeenIfBackedOrAcknowledged(h, h.subscribers[k], n);
  }

  // ----- unknown requests

  lemma {:induction false} KnownIsFixed(requests: set<RequestId>, cap: nat, steps: seq<Step>)
    requires cap > 0 && IsRun(requests, cap, steps)
    ensures After(requests, cap, steps).known == requests
    ensures forall r :: r in After(requests, cap, steps).streams ==> r in requests
  {
    if steps != [] {
      var before := steps[..|steps| - 1];
      KnownIsFixed(requests, cap, before);
      KnownStep(After(requests, cap, before), steps[|steps| - 1], cap);
    }
  }

  lemma KnownStep(h: Hub, step: Step, cap: nat)
    requires cap > 0 && Enabled(h, step) && forall r :: r in h.streams ==> r in h.known
    ensures Apply(h, step, cap).known == h.known
    ensures forall r :: r in Apply(h, step, cap).streams ==> r in h.known
  {
  }

  lemma {:induction false} Extend(requests: set<RequestId>, cap: nat, steps: seq<Step>, step: Step)
    requires cap > 0 && IsRun(requests, cap, steps) && Enabled(After(requests, cap, steps), step)
    ensures IsRun(requests, cap, steps + [step])
    ensures After(requests, cap, steps + [step]) == Apply(After(requests, cap, steps), step, cap)
  {
    assert (steps + [step])[..|steps + [step]| - 1] == steps;
  }

  /** At any point of any run, subscribing to any request succeeds: the subscriber sits on a slot of the table. */
  lemma {:induction false} SubscribeNeverFails(requests: set<RequestId>, cap: nat, steps: seq<Step>, k: SubscriberId,
                                               r: RequestId, since: Option<nat>)
    requires cap > 0 && IsRun(requests, cap, steps) && k !in After(requests, cap, steps).subscribers
    ensures var longer := steps + [Subscribe(k, r, since)];
            && IsRun(requests, cap, longer)
            && var h := After(requests, cap, longer);
               k in h.subscribers && h.subscribers[k].request == r && Attached(h, h.subscribers[k])
  {
    Extend(requests, cap, steps, Subscribe(k, r, since));
  }

  lemma {:induction false} EmptyUntilPublished(requests: set<RequestId>, cap: nat, steps: seq<Step>, k: SubscriberId)
    requires cap > 0 && IsRun(requests, cap, steps)
    requires k in After(requests, cap, steps).subscribers && After(requests, cap, steps).subscribers[k].backlog.Some?
    requires NextSeq(After(requests, cap, steps), After(requests, cap, steps).subscribers[k].request) == 0
    ensures Delivered(After(requests, cap, steps).subscribers[k]) == []
  {
    var h := After(requests, cap, steps);
    var seen := Delivered(h.subscribers[k]);
    DeliveredAtMostOnce(requests, cap, steps, k);
    assert seen != [] ==> Persisted(h, h.subscribers[k].request, seen[0]);
    ReachableInv(requests, cap, steps);
  }

  /** A subscriber of a request that does not exist gets an empty stream on every run, instead of an error. */
  lemma {:induction false} UnknownRequestIsSilent(requests: set<RequestId>, cap: nat, steps: seq<Step>, k: SubscriberId)
    requires cap > 0 && IsRun(requests, cap, steps)
    requires k in After(requests, cap, steps).subscribers && After(requests, cap, steps).subscribers[k].backlog.Some?
    requires After(requests, cap, steps).subscribers[k].request !in requests
    ensures Delivered(After(requests, cap, steps).subscribers[k]) == []
  {
    KnownIsFixed(requests, cap, steps);
    EmptyUntilPublished(requests, cap, steps, k);
  }

  function Lone(r: RequestId, channel: ChannelId): SlotTable {
    SlotTable(map[r := Slot(channel, false)], [r])
  }

  lemma OneSlotTurnsOver()
    ensures Touched(SlotTable(map[], []), 0, 1, 0) == Lone(0, 0)
    ensures Touched(Lone(0, 0), 5, 1, 1) == Lone(5, 1)
  {
    assert Evicted(Lone(0, 0)) == SlotTable(map[], []);
  }

  function Fresh(r: RequestId, channel: ChannelId): Subscriber {
    Subscriber(r, None, channel, [], None, None, 0, 0)
  }

  function Crowded(): Hub {
    Hub({0}, map[], map[], Lone(5, 1), 2, map[], map[0 := Fresh(0, 0), 1 := Fresh(5, 1)], {})
  }

  lemma TwoSubscribe()
    ensures var h := SubscribeStep(Init({0}), 0, 0, None, 1);
            1 !in h.subscribers && SubscribeStep(h, 1, 5, None, 1) == Crowded()
  {
    OneSlotTurnsOver();
  }

  /** A table with one slot: subscribing to a request that does not exist evicts the slot of one that does. */
  lemma UnknownRequestEvicts() returns (steps: seq<Step>)
    ensures steps == [Subscribe(0, 0, None), Subscribe(1, 5, None)] && IsRun({0}, 1, steps)
    ensures var h := After({0}, 1, steps);
            && 0 in h.subscribers && h.subscribers[0].request == 0 && !Attached(h, h.subscribers[0])
            && 1 in h.subscribers && h.subscribers[1].request == 5 && Attached(h, h.subscribers[1])
  {
    TwoSubscribe();
    Extend({0}, 1, [], Subscribe(0, 0, None));
    steps := [] + [Subscribe(0, 0, None)];
    Extend({0}, 1, steps, Subscribe(1, 5, None));
    steps := steps + [Subscribe(1, 5, None)];
    assert After({0}, 1, steps) == Crowded();
  }
}
