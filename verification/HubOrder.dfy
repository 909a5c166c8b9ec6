/** With one publisher per request at a time, what a subscriber sees is a gap-free, increasing stream. */
module HubOrder {
  import opened Common
  import opened ResponseHub
  import opened HubRuns

  /** A publisher commits its next chunk of a request only after the previous publish returned. */
  ghost predicate OnePublisher(requests: set<RequestId>, cap: nat, steps: seq<Step>)
    requires cap > 0 && IsRun(requests, cap, steps)
  {
    steps == [] ||
    (&& OnePublisher(requests, cap, steps[..|steps| - 1])
     && (steps[|steps| - 1].Commit? ==>
           FlightsOf(After(requests, cap, steps[..|steps| - 1]), steps[|steps| - 1].request) == {}))
  }

  ghost predicate OneFlight(h: Hub) {
    forall p :: p in h.inflight ==> h.inflight[p].envelope.number + 1 == NextSeq(h, h.inflight[p].request)
  }

  function ComingTo(h: Hub, sub: Subscriber): set<PublishId> {
    Coming(h, sub.request, sub.channel)
  }

  /** The number the subscriber's channel would deliver next. */
  function NextFor(h: Hub, sub: Subscriber): int {
    if ComingTo(h, sub) == {} then NextSeq(h, sub.request) else NextSeq(h, sub.request) - 1
  }

  /** The next chunk will reach the subscriber: its slot is live and open, or the chunk's sender is its channel. */
  predicate Receiving(h: Hub, sub: Subscriber) {
    || (Attached(h, sub) && !h.table.slots[sub.request].closed)
    || exists p :: p in FlightsOf(h, sub.request) && h.inflight[p].sender == Some(sub.channel)
  }

  ghost predicate QueueInOrder(h: Hub, sub: Subscriber) {
    && (forall i :: 0 <= i < |sub.queue| ==> sub.queue[i].number == sub.first + i)
    && sub.first <= sub.base
    && sub.first + |sub.queue| <= NextFor(h, sub)
    && (Receiving(h, sub) ==> sub.first + |sub.queue| == NextFor(h, sub))
  }

  ghost predicate Ordered(h: Hub) {
    OneFlight(h) && forall k :: k in h.subscribers ==> QueueInOrder(h, h.subscribers[k])
  }

  lemma OnlyFlight(h: Hub, p: PublishId, q: PublishId)
    requires FlightsOk(h) && OneFlight(h) && p in h.inflight && q in h.inflight
    requires h.inflight[p].request == h.inflight[q].request
    ensures p == q
  {
    assert SameChunk(h.inflight[p], h.inflight[q]);
  }

  /** Nothing the subscriber waits for changed, and it receives no more than before. */
  predicate Still(h: Hub, h': Hub, sub: Subscriber) {
    && NextSeq(h', sub.request) == NextSeq(h, sub.request) && ComingTo(h', sub) == ComingTo(h, sub)
    && (Receiving(h', sub) ==> Receiving(h, sub))
  }

  lemma StillInOrder(h: Hub, h': Hub, sub: Subscriber)
    requires QueueInOrder(h, sub) && Still(h, h', sub)
    ensures QueueInOrder(h', sub)
  {
  }

  // ----- commit and close

  lemma CommitOneFlight(h: Hub, p: PublishId, r: RequestId, chunk: Chunk)
    requires OneFlight(h) && p !in h.inflight && r in h.known && FlightsOf(h, r) == {}
    ensures OneFlight(CommitTx(h, p, r, chunk))
  {
    forall q | q in h.inflight ensures h.inflight[q].request != r { assert q !in FlightsOf(h, r); }
  }

  lemma CommitInOrder(h: Hub, p: PublishId, r: RequestId, chunk: Chunk, sub: Subscriber)
    requires QueueInOrder(h, sub) && p !in h.inflight && r in h.known && FlightsOf(h, r) == {}
    ensures QueueInOrder(CommitTx(h, p, r, chunk), sub)
  {
    var h' := CommitTx(h, p, r, chunk);
    if sub.request == r {
      assert ComingTo(h, sub) == {};
      assert p in ComingTo(h', sub);
      assert forall q :: q in FlightsOf(h', r) ==> q == p || q in FlightsOf(h, r);
    } else {
      assert FlightsOf(h', sub.request) == FlightsOf(h, sub.request);
      StillInOrder(h, h', sub);
    }
  }

  lemma OrderedCommit(h: Hub, p: PublishId, r: RequestId, chunk: Chunk)
    requires Ordered(h) && p !in h.inflight && FlightsOf(h, r) == {}
    ensures Ordered(CommitTx(h, p, r, chunk))
  {
    if r in h.known {
      var h' := CommitTx(h, p, r, chunk);
      CommitOneFlight(h, p, r, chunk);
      forall k | k in h'.subscribers ensures QueueInOrder(h', h'.subscribers[k]) {
        CommitInOrder(h, p, r, chunk, h.subscribers[k]);
      }
    }
  }

  lemma OrderedClose(h: Hub, r: RequestId)
    requires Ordered(h)
    ensures Ordered(CloseTx(h, r))
  {
    var h' := CloseTx(h, r);
    forall k | k in h'.subscribers ensures QueueInOrder(h', h'.subscribers[k]) {
      assert FlightsOf(h', h.subscribers[k].request) == FlightsOf(h, h.subscribers[k].request);
      StillInOrder(h, h', h.subscribers[k]);
    }
  }

  // ----- the slot table

  /** Touching a slot detaches subscribers or leaves them as they are. */
  lemma TouchStill(h: Hub, r: RequestId, cap: nat, sub: Subscriber)
    requires ChannelOk(h, sub)
    ensures Still(h, Touch(h, r, cap), sub)
  {
    var h' := Touch(h, r, cap);
    assert FlightsOf(h', sub.request) == FlightsOf(h, sub.request);
    if sub.request in h'.table.slots { TouchedSlots(h.table, r, cap, h.nextChannel, sub.request); }
  }

  lemma OrderedTouch(h: Hub, r: RequestId, cap: nat)
    requires AllOk(h) && Ordered(h)
    ensures Ordered(Touch(h, r, cap))
  {
    var h' := Touch(h, r, cap);
    forall k | k in h'.subscribers ensures QueueInOrder(h', h'.subscribers[k]) {
      TouchStill(h, r, cap, h.subscribers[k]);
      StillInOrder(h, h', h.subscribers[k]);
    }
  }

  lemma OrderedClosed(h: Hub, r: RequestId)
    requires Ordered(h) && r in h.table.slots
    ensures Ordered(h.(table := Closed(h.table, r)))
  {
    var h' := h.(table := Closed(h.table, r));
    forall k | k in h'.subscribers ensures QueueInOrder(h', h'.subscribers[k]) {
      assert FlightsOf(h', h.subscribers[k].request) == FlightsOf(h, h.subscribers[k].request);
      StillInOrder(h, h', h.subscribers[k]);
    }
  }

  // ----- fetching the sender

  lemma RefusedInOrder(h: Hub, p: PublishId, sub: Subscriber)
    requires FlightsOk(h) && OneFlight(h) && QueueInOrder(h, sub) && p in h.inflight && h.inflight[p].sender.None?
    requires h.inflight[p].request in h.table.slots && h.table.slots[h.inflight[p].request].closed
    ensures QueueInOrder(h.(inflight := h.inflight - {p}), sub)
  {
    var h' := h.(inflight := h.inflight - {p});
    var r := h.inflight[p].request;
    if sub.request == r {
      forall q | q in FlightsOf(h, r) ensures q == p { OnlyFlight(h, p, q); }
      assert FlightsOf(h', r) == {} && ComingTo(h', sub) == {};
      assert p in ComingTo(h, sub);
    } else {
      assert FlightsOf(h', sub.request) == FlightsOf(h, sub.request);
      StillInOrder(h, h', sub);
    }
  }

  /** Whoever is on the fetched channel still gets the chunk; whoever is not was not waiting for it. */
  lemma AssignedInOrder(h: Hub, p: PublishId, sub: Subscriber)
    requires FlightsOk(h) && OneFlight(h) && ChannelOk(h, sub) && QueueInOrder(h, sub)
    requires p in h.inflight && h.inflight[p].sender.None?
    requires h.inflight[p].request in h.table.slots && !h.table.slots[h.inflight[p].request].closed
    ensures QueueInOrder(Assigned(h, p), sub)
  {
    var h', r := Assigned(h, p), h.inflight[p].request;
    var c := h.table.slots[r].channel;
    assert FlightsOf(h', sub.request) == FlightsOf(h, sub.request);
    if sub.request == r {
      forall q | q in FlightsOf(h, r) ensures q == p { OnlyFlight(h, p, q); }
      assert p in ComingTo(h, sub);
      if sub.channel == c {
        assert Attached(h, sub) && ComingTo(h', sub) == ComingTo(h, sub);
      } else {
        assert ComingTo(h', sub) == {} && !Receiving(h', sub);
      }
    } else {
      assert ComingTo(h', sub) == ComingTo(h, sub);
      StillInOrder(h, h', sub);
    }
  }

  lemma {:induction false} OrderedFetch(h: Hub, p: PublishId, cap: nat)
    requires cap > 0 && Inv(h, cap) && Ordered(h) && p in h.inflight && h.inflight[p].sender.None?
    ensures Ordered(FetchStep(h, p, cap))
  {
    var r := h.inflight[p].request;
    var t, h' := Touch(h, r, cap), FetchStep(h, p, cap);
    InvTouch(h, r, cap);
    OrderedTouch(h, r, cap);
    if t.table.slots[r].closed {
      forall k | k in h'.subscribers ensures QueueInOrder(h', h'.subscribers[k]) {
        RefusedInOrder(t, p, t.subscribers[k]);
      }
    } else {
      OrderedAssigned(t, p, cap);
      var a := Assigned(t, p);
      if IsTerminal(h.inflight[p].envelope.chunk) {
        OrderedClosed(a, r);
        assert h' == a.(table := Closed(a.table, r));
      } else {
        assert h' == a;
      }
    }
  }

  lemma {:induction false} OrderedAssigned(h: Hub, p: PublishId, cap: nat)
    requires Inv(h, cap) && Ordered(h) && p in h.inflight && h.inflight[p].sender.None?
    requires h.inflight[p].request in h.table.slots && !h.table.slots[h.inflight[p].request].closed
    ensures Ordered(Assigned(h, p))
  {
    var h' := Assigned(h, p);
    forall k | k in h'.subscribers ensures QueueInOrder(h', h'.subscribers[k]) {
      assert SubOk(h, h.subscribers[k]);
      AssignedInOrder(h, p, h.subscribers[k]);
    }
  }

  // ----- sending

  lemma SentInOrder(h: Hub, p: PublishId, sub: Subscriber)
    requires FlightsOk(h) && OneFlight(h) && QueueInOrder(h, sub) && p in h.inflight && h.inflight[p].sender.Some?
    requires SenderMeets(h, sub, h.inflight[p])
    ensures QueueInOrder(SendStep(h, p), Receive(sub, h.inflight[p].sender.value, h.inflight[p].envelope))
  {
    var h', r := SendStep(h, p), h.inflight[p].request;
    if sub.request == r {
      forall q | q in FlightsOf(h, r) ensures q == p { OnlyFlight(h, p, q); }
      assert FlightsOf(h', r) == {} && ComingTo(h', sub) == {};
      if sub.channel == h.inflight[p].sender.value {
        assert p in FlightsOf(h, r) && p in ComingTo(h, sub) && Receiving(h, sub);
      } else {
        assert ComingTo(h, sub) == {};
      }
    } else {
      assert FlightsOf(h', sub.request) == FlightsOf(h, sub.request);
      StillInOrder(h, h', sub);
    }
  }

  lemma {:induction false} OrderedSend(h: Hub, p: PublishId)
    requires FlightsOk(h) && AllOk(h) && Ordered(h) && p in h.inflight && h.inflight[p].sender.Some?
    ensures Ordered(SendStep(h, p))
  {
    var h' := SendStep(h, p);
    forall k | k in h'.subscribers ensures QueueInOrder(h', h'.subscribers[k]) {
      assert SubOk(h, h.subscribers[k]);
      SentInOrder(h, p, h.subscribers[k]);
    }
  }

  // ----- subscribing

  lemma AttachedInOrder(t: Hub, sub: Subscriber)
    requires FlightsOk(t) && LogOk(t) && sub.queue == [] && sub.base == NextSeq(t, sub.request)
    requires sub.first == if ComingTo(t, sub) == {} || sub.base == 0 then sub.base else sub.base - 1
    ensures QueueInOrder(t, sub)
  {
    if p :| p in ComingTo(t, sub) { assert Persisted(t, sub.request, t.inflight[p].envelope); }
  }

  lemma StoredInOrder(t: Hub, k: SubscriberId, sub: Subscriber)
    requires Ordered(t) && QueueInOrder(t, sub)
    ensures Ordered(t.(subscribers := t.subscribers[k := sub]))
  {
    var h' := t.(subscribers := t.subscribers[k := sub]);
    forall j | j in h'.subscribers ensures QueueInOrder(h', h'.subscribers[j]) {
      assert FlightsOf(h', h'.subscribers[j].request) == FlightsOf(t, h'.subscribers[j].request);
      StillInOrder(t, h', h'.subscribers[j]);
    }
  }

  lemma OrderedSubscribe(h: Hub, k: SubscriberId, r: RequestId, since: Option<nat>, cap: nat)
    requires cap > 0 && Inv(h, cap) && Ordered(h) && k !in h.subscribers
    ensures Ordered(SubscribeStep(h, k, r, since, cap))
  {
    var t, sub := Touch(h, r, cap), SubscribeStep(h, k, r, since, cap).subscribers[k];
    OrderedTouch(h, r, cap);
    AttachedInOrder(t, sub);
    StoredInOrder(t, k, sub);
  }

  lemma {:induction false} ReachableOrder(requests: set<RequestId>, cap: nat, steps: seq<Step>)
    requires cap > 0 && IsRun(requests, cap, steps) && OnePublisher(requests, cap, steps)
    ensures Ordered(After(requests, cap, steps))
  {
    if steps != [] {
      var before, last := steps[..|steps| - 1], steps[|steps| - 1];
      var h := After(requests, cap, before);
      ReachableOrder(requests, cap, before);
      ReachableInv(requests, cap, before);
      match last
      case Commit(p, r, chunk) => OrderedCommit(h, p, r, chunk);
      case Close(r) => OrderedClose(h, r);
      case Fetch(p) => OrderedFetch(h, p, cap);
      case Send(p) => OrderedSend(h, p);
      case MarkClosed(r) => OrderedTouch(h, r, cap); OrderedClosed(Touch(h, r, cap), r);
      case Subscribe(k, r, since) => OrderedSubscribe(h, k, r, since, cap);
      case ReadBacklog(k, rows) => OrderedBacklog(h, k, rows);
    }
  }

  lemma OrderedBacklog(h: Hub, k: SubscriberId, rows: seq<Envelope>)
    requires Ordered(h) && k in h.subscribers
    ensures Ordered(BacklogStep(h, k, rows))
  {
    var sub := h.subscribers[k];
    assert ComingTo(h, WithBacklog(sub, rows)) == ComingTo(h, sub);
    assert QueueInOrder(h, WithBacklog(sub, rows)) by { assert QueueInOrder(h, sub); }
    StoredInOrder(h, k, WithBacklog(sub, rows));
  }

  /** Filtering consecutive numbers keeps the tail after the threshold. */
  lemma {:induction false} FilterConsecutive(queue: seq<Envelope>, first: nat, threshold: Option<nat>)
    requires forall i :: 0 <= i < |queue| ==> queue[i].number == first + i
    requires first <= Next(threshold)
    ensures var live := LiveFilter(queue, threshold);
            && |live| == (if first + |queue| <= Next(threshold) then 0 else first + |queue| - Next(threshold))
            && forall i :: 0 <= i < |live| ==> live[i].number == Next(threshold) + i
  {
    if queue != [] { FilterConsecutive(queue[..|queue| - 1], first, threshold); }
  }

  /** A subscriber sees since + 1, since + 2, ... in order and without a gap. */
  lemma {:induction false} DeliveredInOrder(requests: set<RequestId>, cap: nat, steps: seq<Step>, k: SubscriberId,
                                            i: nat)
    requires cap > 0 && IsRun(requests, cap, steps) && OnePublisher(requests, cap, steps)
    requires k in After(requests, cap, steps).subscribers && After(requests, cap, steps).subscribers[k].backlog.Some?
    requires i < |Delivered(After(requests, cap, steps).subscribers[k])|
    ensures var sub := After(requests, cap, steps).subscribers[k];
            Delivered(sub)[i].number == Next(sub.since) + i
  {
    var h := After(requests, cap, steps);
    var sub := h.subscribers[k];
    ReachableInv(requests, cap, steps);
    ReachableOrder(requests, cap, steps);
    assert QueueInOrder(h, sub) && SubOk(h, sub);
    FilterConsecutive(sub.queue, sub.first, sub.threshold);
  }
}
