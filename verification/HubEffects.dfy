/** What each hub step does, and which publishes reach their subscribers: those whose slot was open when they asked. */
module HubEffects {
  import opened Common
  import opened ResponseHub
  import opened HubRuns

  /** The slot of `r` refuses publishes. */
  predicate Shut(h: Hub, r: RequestId) {
    r in h.table.slots && h.table.slots[r].closed
  }

  // ----- the slot table

  /** A slot is added only when missing, open and on the minted channel; one other goes exactly when all are taken. */
  lemma TouchWrites(t: SlotTable, id: RequestId, cap: nat, minted: ChannelId)
    requires TableOk(t, cap) && cap > 0
    ensures var t' := Touched(t, id, cap, minted);
            && (id in t.slots ==> t' == t)
            && (id !in t.slots && |t.slots| < cap ==>
                  t'.slots == t.slots[id := Slot(minted, false)] && t'.order == t.order + [id])
            && (id !in t.slots && |t.slots| == cap ==>
                  exists i :: 0 <= i < |t.order| && t'.order == t.order[..i] + t.order[i + 1..] + [id]
                    && t'.slots == (t.slots - {t.order[i]})[id := Slot(minted, false)])
  {
    if id !in t.slots && |t.slots| == cap {
      assert |t.slots.Keys| > 0;
      var any :| any in t.slots.Keys;
      assert any in t.order;
      var i := EvictsOldestClosed(t, cap);
      assert Touched(t, id, cap, minted).order == t.order[..i] + t.order[i + 1..] + [id];
    }
  }

  // ----- the steps of a publish

  lemma CommitWrites(h: Hub, step: Step, cap: nat)
    requires cap > 0 && step.Commit? && Enabled(h, step)
    ensures var h', r, n := Apply(h, step, cap), step.request, NextSeq(h, step.request);
            var closed := (r in h.streams && h.streams[r].closed) || step.chunk.Done? || step.chunk.Error?;
            && h'.table == h.table && h'.subscribers == h.subscribers && h'.acknowledged == h.acknowledged
            && if r !in h.known then h' == h
               else
                 && h'.streams == h.streams[r := Stream(n + 1, closed)]
                 && h'.chunks == h.chunks[(r, n) := step.chunk]
                 && h'.inflight == h.inflight[step.publish := InFlight(r, Envelope(n, step.chunk), None)]
  {
  }

  /**
   A publish gets its slot's channel as sender if and only if the slot is not closed, whatever its chunk. Afterwards the
   slot is closed if it was, or if the chunk ends the stream.
   */
  lemma FetchWrites(h: Hub, p: PublishId, cap: nat)
    requires cap > 0 && Enabled(h, Fetch(p))
    ensures var h', flight := Apply(h, Fetch(p), cap), h.inflight[p];
            var r, last := flight.request, flight.envelope.chunk.Done? || flight.envelope.chunk.Error?;
            && h'.subscribers == h.subscribers && h'.acknowledged == h.acknowledged
            && h'.streams == h.streams && h'.chunks == h.chunks && r in h'.table.slots
            && (r in h.table.slots ==> h'.table.slots[r].channel == h.table.slots[r].channel)
            && (h'.table.slots[r].closed <==> Shut(h, r) || last)
            && h'.inflight == if Shut(h, r) then h.inflight - {p}
                              else h.inflight[p := flight.(sender := Some(h'.table.slots[r].channel))]
  {
  }

  /** A send always acknowledges its chunk, and appends it for everyone on the channel and nobody else. */
  lemma SendWrites(h: Hub, p: PublishId, cap: nat)
    requires cap > 0 && Enabled(h, Send(p))
    ensures var h', flight := Apply(h, Send(p), cap), h.inflight[p];
            && h'.acknowledged == h.acknowledged + {(flight.request, flight.envelope.number)}
            && h'.inflight == h.inflight - {p}
            && h'.table == h.table && h'.streams == h.streams && h'.chunks == h.chunks
            && h'.subscribers.Keys == h.subscribers.Keys
            && forall k :: k in h.subscribers ==>
                 var sub := h.subscribers[k];
                 h'.subscribers[k] ==
                   if Some(sub.channel) == flight.sender then sub.(queue := sub.queue + [flight.envelope]) else sub
  {
  }

  lemma CloseWrites(h: Hub, r: RequestId, cap: nat)
    requires cap > 0
    ensures var stream, marked := Apply(h, Close(r), cap), Apply(h, MarkClosed(r), cap);
            && stream.streams == (if r in h.known then h.streams[r := Stream(NextSeq(h, r), true)] else h.streams)
            && stream.table == h.table && stream.inflight == h.inflight && stream.chunks == h.chunks
            && stream.subscribers == h.subscribers && stream.acknowledged == h.acknowledged
            && Shut(marked, r) && marked.streams == h.streams && marked.inflight == h.inflight
            && marked.chunks == h.chunks && marked.subscribers == h.subscribers
            && marked.acknowledged == h.acknowledged
            && (r in h.table.slots ==> marked.table.slots[r].channel == h.table.slots[r].channel)
  {
  }

  lemma TouchedSlot(h: Hub, r: RequestId, cap: nat)
    ensures var h' := Touch(h, r, cap);
            && r in h'.table.slots && (Shut(h', r) <==> Shut(h, r))
            && (r in h.table.slots ==> h'.table.slots[r].channel == h.table.slots[r].channel)
  {
  }

  /** A subscriber attaches to its request's slot with an empty queue; closed or not, the slot stays as it is. */
  lemma SubscribeWrites(h: Hub, step: Step, cap: nat)
    requires cap > 0 && step.Subscribe? && Enabled(h, step)
    ensures var h', r := Apply(h, step, cap), step.request;
            && h'.streams == h.streams && h'.inflight == h.inflight && h'.chunks == h.chunks
            && h'.acknowledged == h.acknowledged && r in h'.table.slots
            && (Shut(h', r) <==> Shut(h, r))
            && (r in h.table.slots ==> h'.table.slots[r].channel == h.table.slots[r].channel)
            && step.subscriber in h'.subscribers
            && h'.subscribers == h.subscribers[step.subscriber := h'.subscribers[step.subscriber]]
            && var sub := h'.subscribers[step.subscriber];
               && sub.request == r && sub.since == step.since && sub.channel == h'.table.slots[r].channel
               && sub.queue == [] && sub.backlog.None?
  {
    TouchedSlot(h, step.request, cap);
    Attaches(h, step.subscriber, step.request, step.since, cap);
  }

  lemma Attaches(h: Hub, k: SubscriberId, r: RequestId, since: Option<nat>, cap: nat)
    ensures var t, h' := Touch(h, r, cap), SubscribeStep(h, k, r, since, cap);
            && h' == t.(subscribers := h'.subscribers) && k in h'.subscribers
            && h'.subscribers == h.subscribers[k := h'.subscribers[k]]
            && var sub := h'.subscribers[k];
               && sub.request == r && sub.since == since && sub.queue == [] && sub.backlog.None?
               && r in t.table.slots && sub.channel == t.table.slots[r].channel
  {
  }

  // ----- no publish and no subscriber is ever stuck

  /** A publish on its way can take its next step. */
  lemma PublishMovesOn(h: Hub, p: PublishId)
    requires p in h.inflight
    ensures Enabled(h, Fetch(p)) || Enabled(h, Send(p))
  {
  }

  /** A backlog read finds its rows: the chunks from the starting point to the last one committed. */
  lemma {:induction false} BacklogExists(h: Hub, r: RequestId, since: Option<nat>) returns (rows: seq<Envelope>)
    requires LogOk(h)
    ensures IsBacklog(h, r, since, rows)
  {
    rows := RowsFrom(h, r, Next(since), NextSeq(h, r));
    forall n | (r, n) in h.chunks && Past(since, n) ensures exists i :: 0 <= i < |rows| && rows[i].number == n {
      assert Next(since) <= n < NextSeq(h, r);
      assert rows[n - Next(since)].number == n;
    }
  }

  lemma {:induction false} RowsFrom(h: Hub, r: RequestId, from: nat, to: nat) returns (rows: seq<Envelope>)
    requires LogOk(h) && to <= NextSeq(h, r)
    ensures |rows| == if from <= to then to - from else 0
    ensures forall i :: 0 <= i < |rows| ==> rows[i].number == from + i && Persisted(h, r, rows[i])
  {
    if from < to {
      rows := RowsFrom(h, r, from, to - 1);
      rows := rows + [Envelope(to - 1, h.chunks[(r, to - 1)])];
    } else {
      rows := [];
    }
  }

  // ----- which chunks are acknowledged

  ghost predicate Runs(requests: set<RequestId>, cap: nat, steps: seq<Step>) {
    cap > 0 && IsRun(requests, cap, steps)
  }

  /** The hub after the first `k` steps. */
  ghost function At(requests: set<RequestId>, cap: nat, steps: seq<Step>, k: nat): Hub
    requires Runs(requests, cap, steps) && k <= |steps|
  {
    PrefixRuns(requests, cap, steps, k);
    After(requests, cap, steps[..k])
  }

  lemma {:induction false} PrefixRuns(requests: set<RequestId>, cap: nat, steps: seq<Step>, k: nat)
    requires Runs(requests, cap, steps) && k <= |steps|
    ensures Runs(requests, cap, steps[..k])
  {
    if k < |steps| {
      PrefixRuns(requests, cap, steps[..|steps| - 1], k);
      assert steps[..|steps| - 1][..k] == steps[..k];
    } else {
      assert steps[..k] == steps;
    }
  }

  lemma NextAt(requests: set<RequestId>, cap: nat, steps: seq<Step>, k: nat)
    requires Runs(requests, cap, steps) && k < |steps|
    ensures Enabled(At(requests, cap, steps, k), steps[k])
    ensures At(requests, cap, steps, k + 1) == Apply(At(requests, cap, steps, k), steps[k], cap)
    ensures Inv(At(requests, cap, steps, k), cap)
  {
    PrefixRuns(requests, cap, steps, k);
    PrefixRuns(requests, cap, steps, k + 1);
    assert steps[..k + 1][..k] == steps[..k];
    ReachableInv(requests, cap, steps[..k]);
  }

  /** Until its own fetch or send, a publish stays as it is. */
  lemma FlightStays(h: Hub, step: Step, cap: nat, p: PublishId)
    requires cap > 0 && Enabled(h, step) && p in h.inflight && step != Fetch(p) && step != Send(p)
    ensures p in Apply(h, step, cap).inflight && Apply(h, step, cap).inflight[p] == h.inflight[p]
  {
  }

  lemma FlightStaysAt(requests: set<RequestId>, cap: nat, steps: seq<Step>, k: nat, p: PublishId)
    requires Runs(requests, cap, steps) && k < |steps| && p in At(requests, cap, steps, k).inflight
    requires steps[k] != Send(p) && (steps[k] == Fetch(p) ==> At(requests, cap, steps, k).inflight[p].sender.Some?)
    ensures steps[k] != Fetch(p)
    ensures p in At(requests, cap, steps, k + 1).inflight
    ensures At(requests, cap, steps, k + 1).inflight[p] == At(requests, cap, steps, k).inflight[p]
  {
    NextAt(requests, cap, steps, k);
    FlightStays(At(requests, cap, steps, k), steps[k], cap, p);
  }

  lemma {:induction false} FlightKept(requests: set<RequestId>, cap: nat, steps: seq<Step>, from: nat, to: nat,
                                      p: PublishId)
    requires Runs(requests, cap, steps) && from <= to <= |steps| && p in At(requests, cap, steps, from).inflight
    requires forall i :: from <= i < to ==> steps[i] != Fetch(p) && steps[i] != Send(p)
    ensures p in At(requests, cap, steps, to).inflight
    ensures At(requests, cap, steps, to).inflight[p] == At(requests, cap, steps, from).inflight[p]
  {
    if from < to {
      FlightKept(requests, cap, steps, from, to - 1, p);
      FlightStaysAt(requests, cap, steps, to - 1, p);
    }
  }

  lemma AcknowledgedStep(h: Hub, step: Step, cap: nat)
    requires cap > 0 && Enabled(h, step)
    ensures h.acknowledged <= Apply(h, step, cap).acknowledged
  {
  }

  lemma AcknowledgedStays(requests: set<RequestId>, cap: nat, steps: seq<Step>, k: nat)
    requires Runs(requests, cap, steps) && k < |steps|
    ensures At(requests, cap, steps, k).acknowledged <= At(requests, cap, steps, k + 1).acknowledged
  {
    NextAt(requests, cap, steps, k);
    AcknowledgedStep(At(requests, cap, steps, k), steps[k], cap);
  }

  lemma {:induction false} AcknowledgedKept(requests: set<RequestId>, cap: nat, steps: seq<Step>, from: nat, to: nat)
    requires Runs(requests, cap, steps) && from <= to <= |steps|
    ensures At(requests, cap, steps, from).acknowledged <= At(requests, cap, steps, to).acknowledged
  {
    if from < to {
      AcknowledgedKept(requests, cap, steps, from, to - 1);
      AcknowledgedStays(requests, cap, steps, to - 1);
    }
  }

  /** The chunk is persisted, no publish carries it and it was not acknowledged. */
  ghost predicate Dropped(h: Hub, r: RequestId, n: nat) {
    && n < NextSeq(h, r) && (r, n) !in h.acknowledged
    && forall p :: p in h.inflight ==> !(h.inflight[p].request == r && h.inflight[p].envelope.number == n)
  }

  lemma DroppedStep(h: Hub, step: Step, cap: nat, r: RequestId, n: nat)
    requires cap > 0 && Enabled(h, step) && Dropped(h, r, n)
    ensures Dropped(Apply(h, step, cap), r, n)
  {
    match step
    case Fetch(p) => FetchWrites(h, p, cap);
    case Send(p) => SendWrites(h, p, cap);
    case Commit(_, _, _) => CommitWrites(h, step, cap);
    case _ =>
  }

  lemma DroppedStays(requests: set<RequestId>, cap: nat, steps: seq<Step>, k: nat, r: RequestId, n: nat)
    requires Runs(requests, cap, steps) && k < |steps| && Dropped(At(requests, cap, steps, k), r, n)
    ensures Dropped(At(requests, cap, steps, k + 1), r, n)
  {
    NextAt(requests, cap, steps, k);
    DroppedStep(At(requests, cap, steps, k), steps[k], cap, r, n);
  }

  lemma {:induction false} DroppedKept(requests: set<RequestId>, cap: nat, steps: seq<Step>, from: nat, to: nat,
                                       r: RequestId, n: nat)
    requires Runs(requests, cap, steps) && from <= to <= |steps| && Dropped(At(requests, cap, steps, from), r, n)
    ensures Dropped(At(requests, cap, steps, to), r, n)
  {
    if from < to {
      DroppedKept(requests, cap, steps, from, to - 1, r, n);
      DroppedStays(requests, cap, steps, to - 1, r, n);
    }
  }

  /** Step `i` commits a chunk of a request that exists; step `j` is where that publish fetches its sender. */
  ghost predicate Publishes(requests: set<RequestId>, cap: nat, steps: seq<Step>, i: nat, j: nat, p: PublishId,
                            r: RequestId, chunk: Chunk)
  {
    && i < j < |steps| && r in requests && steps[i] == Commit(p, r, chunk) && steps[j] == Fetch(p)
    && forall m :: i < m < j ==> steps[m] != Fetch(p) && steps[m] != Send(p)
  }

  lemma InFlightAtFetch(requests: set<RequestId>, cap: nat, steps: seq<Step>, i: nat, j: nat, p: PublishId,
                        r: RequestId, chunk: Chunk)
    requires Runs(requests, cap, steps) && Publishes(requests, cap, steps, i, j, p, r, chunk)
    ensures var n, h := NextSeq(At(requests, cap, steps, i), r), At(requests, cap, steps, j);
            p in h.inflight && h.inflight[p] == InFlight(r, Envelope(n, chunk), None)
  {
    NextAt(requests, cap, steps, i);
    PrefixRuns(requests, cap, steps, i);
    KnownIsFixed(requests, cap, steps[..i]);
    CommitWrites(At(requests, cap, steps, i), steps[i], cap);
    FlightKept(requests, cap, steps, i + 1, j, p);
  }

  lemma RefusedIsDropped(h: Hub, p: PublishId, cap: nat)
    requires cap > 0 && Inv(h, cap) && Enabled(h, Fetch(p)) && Shut(h, h.inflight[p].request)
    ensures Dropped(Apply(h, Fetch(p), cap), h.inflight[p].request, h.inflight[p].envelope.number)
  {
    FetchWrites(h, p, cap);
    var flight := h.inflight[p];
    assert Persisted(h, flight.request, flight.envelope);
    forall q | q in h.inflight && q != p ensures !SameChunk(h.inflight[q], flight) {}
  }

  lemma FirstSend(steps: seq<Step>, from: nat, l: nat, p: PublishId) returns (first: nat)
    requires from <= l < |steps| && steps[l] == Send(p)
    ensures from <= first <= l && steps[first] == Send(p)
    ensures forall m :: from <= m < first ==> steps[m] != Send(p)
  {
    first := from;
    while steps[first] != Send(p)
      invariant from <= first <= l
      invariant forall m :: from <= m < first ==> steps[m] != Send(p)
      decreases l - first
    {
      first := first + 1;
    }
  }

  /** A publish that has its sender is never fetched again, so it waits for its send. */
  lemma {:induction false} SenderKept(requests: set<RequestId>, cap: nat, steps: seq<Step>, from: nat, to: nat,
                                      p: PublishId)
    requires Runs(requests, cap, steps) && from <= to <= |steps| && p in At(requests, cap, steps, from).inflight
    requires At(requests, cap, steps, from).inflight[p].sender.Some?
    requires forall i :: from <= i < to ==> steps[i] != Send(p)
    ensures p in At(requests, cap, steps, to).inflight
    ensures At(requests, cap, steps, to).inflight[p] == At(requests, cap, steps, from).inflight[p]
  {
    if from < to {
      SenderKept(requests, cap, steps, from, to - 1, p);
      FlightStaysAt(requests, cap, steps, to - 1, p);
    }
  }

  lemma SentAt(requests: set<RequestId>, cap: nat, steps: seq<Step>, from: nat, l: nat, p: PublishId)
    requires Runs(requests, cap, steps) && from <= l < |steps| && steps[l] == Send(p)
    requires p in At(requests, cap, steps, from).inflight && At(requests, cap, steps, from).inflight[p].sender.Some?
    requires forall m :: from <= m < l ==> steps[m] != Send(p)
    ensures var flight := At(requests, cap, steps, from).inflight[p];
            (flight.request, flight.envelope.number) in At(requests, cap, steps, l + 1).acknowledged
  {
    SenderKept(requests, cap, steps, from, l, p);
    NextAt(requests, cap, steps, l);
    SendWrites(At(requests, cap, steps, l), p, cap);
  }

  lemma StillWaiting(requests: set<RequestId>, cap: nat, steps: seq<Step>, from: nat, p: PublishId)
    requires Runs(requests, cap, steps) && from <= |steps| && p in At(requests, cap, steps, from).inflight
    requires At(requests, cap, steps, from).inflight[p].sender.Some?
    requires forall i :: from <= i < |steps| ==> steps[i] != Send(p)
    ensures var flight := At(requests, cap, steps, from).inflight[p];
            (flight.request, flight.envelope.number) !in At(requests, cap, steps, |steps|).acknowledged
  {
    SenderKept(requests, cap, steps, from, |steps|, p);
    assert steps[..|steps|] == steps;
    ReachableInv(requests, cap, steps);
  }

  lemma RefusedNever(requests: set<RequestId>, cap: nat, steps: seq<Step>, i: nat, j: nat, p: PublishId, r: RequestId,
                     chunk: Chunk)
    requires Runs(requests, cap, steps) && Publishes(requests, cap, steps, i, j, p, r, chunk)
    requires Shut(At(requests, cap, steps, j), r)
    ensures (r, NextSeq(At(requests, cap, steps, i), r)) !in At(requests, cap, steps, |steps|).acknowledged
  {
    InFlightAtFetch(requests, cap, steps, i, j, p, r, chunk);
    NextAt(requests, cap, steps, j);
    RefusedIsDropped(At(requests, cap, steps, j), p, cap);
    DroppedKept(requests, cap, steps, j + 1, |steps|, r, NextSeq(At(requests, cap, steps, i), r));
  }

  lemma FetchedFlight(requests: set<RequestId>, cap: nat, steps: seq<Step>, i: nat, j: nat, p: PublishId,
                      r: RequestId, chunk: Chunk)
    requires Runs(requests, cap, steps) && Publishes(requests, cap, steps, i, j, p, r, chunk)
    requires !Shut(At(requests, cap, steps, j), r)
    ensures var n, h := NextSeq(At(requests, cap, steps, i), r), At(requests, cap, steps, j + 1);
            && p in h.inflight && h.inflight[p].sender.Some?
            && h.inflight[p].request == r && h.inflight[p].envelope == Envelope(n, chunk)
  {
    InFlightAtFetch(requests, cap, steps, i, j, p, r, chunk);
    NextAt(requests, cap, steps, j);
    FetchWrites(At(requests, cap, steps, j), p, cap);
  }

  lemma AcknowledgedIffSent(requests: set<RequestId>, cap: nat, steps: seq<Step>, i: nat, j: nat, p: PublishId,
                            r: RequestId, chunk: Chunk)
    requires Runs(requests, cap, steps) && Publishes(requests, cap, steps, i, j, p, r, chunk)
    requires !Shut(At(requests, cap, steps, j), r)
    ensures (r, NextSeq(At(requests, cap, steps, i), r)) in At(requests, cap, steps, |steps|).acknowledged <==>
              exists l :: j < l < |steps| && steps[l] == Send(p)
  {
    FetchedFlight(requests, cap, steps, i, j, p, r, chunk);
    if l :| j < l < |steps| && steps[l] == Send(p) {
      var first := FirstSend(steps, j + 1, l, p);
      SentAt(requests, cap, steps, j + 1, first, p);
      AcknowledgedKept(requests, cap, steps, first + 1, |steps|);
    } else {
      StillWaiting(requests, cap, steps, j + 1, p);
    }
  }

  /**
   On every run: a chunk that was committed, terminal or not, is acknowledged if and only if its request's slot was not
   closed when its publish fetched the sender, and the publish then sent.
   */
  lemma {:induction false} AcknowledgedIffOpen(requests: set<RequestId>, cap: nat, steps: seq<Step>, i: nat, j: nat,
                                               p: PublishId, r: RequestId, chunk: Chunk)
    requires Runs(requests, cap, steps) && Publishes(requests, cap, steps, i, j, p, r, chunk)
    ensures (r, NextSeq(At(requests, cap, steps, i), r)) in At(requests, cap, steps, |steps|).acknowledged <==>
              !Shut(At(requests, cap, steps, j), r) && exists l :: j < l < |steps| && steps[l] == Send(p)
  {
    if Shut(At(requests, cap, steps, j), r) {
      RefusedNever(requests, cap, steps, i, j, p, r, chunk);
    } else {
      AcknowledgedIffSent(requests, cap, steps, i, j, p, r, chunk);
    }
  }

  /**
   So every chunk, the last one of a stream included, whose slot was open when its publish fetched the sender and which
   was sent, is seen with its number and content by every subscriber whose slot was not evicted and whose starting point
   lies before it.
   */
  lemma {:induction false} OpenSlotDelivers(requests: set<RequestId>, cap: nat, steps: seq<Step>, i: nat, j: nat,
                                            l: nat, p: PublishId, r: RequestId, chunk: Chunk, k: SubscriberId)
    requires Runs(requests, cap, steps) && Publishes(requests, cap, steps, i, j, p, r, chunk)
    requires !Shut(At(requests, cap, steps, j), r) && j < l < |steps| && steps[l] == Send(p)
    requires k in After(requests, cap, steps).subscribers && After(requests, cap, steps).subscribers[k].backlog.Some?
    requires After(requests, cap, steps).subscribers[k].request == r
    requires Attached(After(requests, cap, steps), After(requests, cap, steps).subscribers[k])
    requires Past(After(requests, cap, steps).subscribers[k].since, NextSeq(At(requests, cap, steps, i), r))
    ensures Envelope(NextSeq(At(requests, cap, steps, i), r), chunk) in
              Delivered(After(requests, cap, steps).subscribers[k])
  {
    var n, h := NextSeq(At(requests, cap, steps, i), r), After(requests, cap, steps);
    AcknowledgedIffOpen(requests, cap, steps, i, j, p, r, chunk);
    assert steps[..|steps|] == steps;
    ReachableInv(requests, cap, steps);
    SeenIfBackedOrAcknowledged(h, h.subscribers[k], n);
    ChunkKept(requests, cap, steps, i, j, p, r, chunk);
  }

  lemma ChunksStay(h: Hub, step: Step, cap: nat)
    requires cap > 0 && Inv(h, cap) && Enabled(h, step)
    ensures var h' := Apply(h, step, cap);
            forall x :: x in h.chunks ==> x in h'.chunks && h'.chunks[x] == h.chunks[x]
  {
    if step.Commit? && step.request in h.known { CommitLog(h, step.publish, step.request, step.chunk); }
  }

  lemma ChunksStayAt(requests: set<RequestId>, cap: nat, steps: seq<Step>, k: nat)
    requires Runs(requests, cap, steps) && k < |steps|
    ensures var h, h' := At(requests, cap, steps, k), At(requests, cap, steps, k + 1);
            forall x :: x in h.chunks ==> x in h'.chunks && h'.chunks[x] == h.chunks[x]
  {
    NextAt(requests, cap, steps, k);
    ChunksStay(At(requests, cap, steps, k), steps[k], cap);
  }

  lemma {:induction false} ChunksKept(requests: set<RequestId>, cap: nat, steps: seq<Step>, from: nat, to: nat)
    requires Runs(requests, cap, steps) && from <= to <= |steps|
    ensures var h, h' := At(requests, cap, steps, from), At(requests, cap, steps, to);
            forall x :: x in h.chunks ==> x in h'.chunks && h'.chunks[x] == h.chunks[x]
  {
    if from < to {
      ChunksKept(requests, cap, steps, from, to - 1);
      ChunksStayAt(requests, cap, steps, to - 1);
    }
  }

  lemma ChunkKept(requests: set<RequestId>, cap: nat, steps: seq<Step>, i: nat, j: nat, p: PublishId, r: RequestId,
                  chunk: Chunk)
    requires Runs(requests, cap, steps) && Publishes(requests, cap, steps, i, j, p, r, chunk)
    ensures var n, h := NextSeq(At(requests, cap, steps, i), r), After(requests, cap, steps);
            (r, n) in h.chunks && h.chunks[(r, n)] == chunk
  {
    NextAt(requests, cap, steps, i);
    PrefixRuns(requests, cap, steps, i);
    KnownIsFixed(requests, cap, steps[..i]);
    CommitWrites(At(requests, cap, steps, i), steps[i], cap);
    ChunksKept(requests, cap, steps, i + 1, |steps|);
    assert steps[..|steps|] == steps;
  }
}
