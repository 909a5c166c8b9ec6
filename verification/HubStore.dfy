/** The slot table as a mutable object, and the loop that assembles a backlog. */
module HubStore {
  import opened Common
  import opened ResponseHub
  import opened HubRuns

  /** One request for the sender of `id`: refused on a closed slot, else the slot's channel; a last chunk closes it. */
  predicate Asked(before: SlotTable, after: SlotTable, id: RequestId, terminal: bool, cap: nat, minted: ChannelId,
                  channel: Option<ChannelId>)
  {
    var t := Touched(before, id, cap, minted);
    && id in t.slots
    && if t.slots[id].closed then channel.None? && after == t
       else channel == Some(t.slots[id].channel) && after == if terminal then Closed(t, id) else t
  }

  /** The fetch step of a publish is such a request, made for the chunk's request and refused without a sender. */
  lemma FetchAsks(h: Hub, p: PublishId, cap: nat)
    requires cap > 0 && Enabled(h, Fetch(p))
    ensures var h', flight := Apply(h, Fetch(p), cap), h.inflight[p];
            var sender := if p in h'.inflight then h'.inflight[p].sender else None;
            Asked(h.table, h'.table, flight.request, flight.envelope.chunk.Done? || flight.envelope.chunk.Error?, cap,
                  h.nextChannel, sender)
  {
  }

  class SlotDirectory {
    const cap: nat
    var slots: map<RequestId, Slot>
    var order: seq<RequestId>

    function Table(): SlotTable
      reads this
    {
      SlotTable(slots, order)
    }

    ghost predicate Valid()
      reads this
    {
      cap > 0 && TableOk(Table(), cap)
    }

    constructor (cap: nat)
      requires cap > 0
      ensures Valid() && Table() == SlotTable(map[], []) && this.cap == cap
    {
      this.cap := cap;
      slots, order := map[], [];
    }

    /** Scan the deque from the front for a closed slot; fall back to the front. */
    method EvictOne()
      modifies this
      ensures Table() == Evicted(old(Table()))
    {
      if order == [] { return; }
      var i := 0;
      while i < |order| && !(order[i] in slots && slots[order[i]].closed)
        invariant i <= |order| && FirstClosed(Table(), 0) == FirstClosed(Table(), i)
      {
        i := i + 1;
      }
      var victim := if i < |order| then i else 0;
      slots := slots - {order[victim]};
      order := order[..victim] + order[victim + 1..];
    }

    method TouchSlot(id: RequestId, minted: ChannelId) returns (slot: Slot)
      requires Valid()
      modifies this
      ensures Valid() && Table() == Touched(old(Table()), id, cap, minted)
      ensures id in slots && slot == slots[id]
    {
      TouchedOk(Table(), id, cap, minted);
      if id !in slots {
        if |slots| >= cap { EvictOne(); }
        slots := slots[id := Slot(minted, false)];
        order := order + [id];
      }
      slot := slots[id];
    }

    /** The channel a subscriber attaches to, and whether the slot was closed already. */
    method SubscribeLive(id: RequestId, minted: ChannelId) returns (channel: ChannelId, closed: bool)
      requires Valid()
      modifies this
      ensures Valid() && Table() == Touched(old(Table()), id, cap, minted)
      ensures Slot(channel, closed) == slots[id]
    {
      var slot := TouchSlot(id, minted);
      channel, closed := slot.channel, slot.closed;
    }

    /** The channel to send on, or nothing when the slot is closed; a terminal chunk closes it. */
    method PublishSender(id: RequestId, terminal: bool, minted: ChannelId) returns (channel: Option<ChannelId>)
      requires Valid()
      modifies this
      ensures Valid()
      ensures Asked(old(Table()), Table(), id, terminal, cap, minted, channel)
      ensures channel.None? <==> id in old(slots) && old(slots)[id].closed
      ensures id in slots && (slots[id].closed <==> channel.None? || terminal)
      ensures channel.Some? ==> channel.value == slots[id].channel
    {
      var slot := TouchSlot(id, minted);
      if slot.closed { return None; }
      if terminal {
        assert slots[id := slot.(closed := true)].Keys == slots.Keys;
        slots := slots[id := slot.(closed := true)];
      }
      return Some(slot.channel);
    }

    method MarkClosed(id: RequestId, minted: ChannelId)
      requires Valid()
      modifies this
      ensures Valid() && Table() == Closed(Touched(old(Table()), id, cap, minted), id)
    {
      var slot := TouchSlot(id, minted);
      assert slots[id := slot.(closed := true)].Keys == slots.Keys;
      slots := slots[id := slot.(closed := true)];
    }
  }

  /** Wrap the rows of the backlog query and track the largest number, starting from `since`. */
  method AssembleBacklog(since: Option<nat>, rows: seq<(nat, Chunk)>)
    returns (envelopes: seq<Envelope>, maxSeq: Option<nat>)
    ensures |envelopes| == |rows| && forall i :: 0 <= i < |rows| ==> envelopes[i] == Envelope(rows[i].0, rows[i].1)
    ensures maxSeq == MaxSeq(since, envelopes)
    ensures since.Some? ==> maxSeq.Some? && maxSeq.value >= since.value
    ensures forall i :: 0 <= i < |rows| ==> maxSeq.Some? && maxSeq.value >= rows[i].0
  {
    envelopes, maxSeq := [], since;
    for n := 0 to |rows|
      invariant |envelopes| == n && forall i :: 0 <= i < n ==> envelopes[i] == Envelope(rows[i].0, rows[i].1)
      invariant maxSeq == MaxSeq(since, envelopes)
      invariant since.Some? ==> maxSeq.Some? && maxSeq.value >= since.value
      invariant forall i :: 0 <= i < n ==> maxSeq.Some? && maxSeq.value >= rows[i].0
    {
      var e := Envelope(rows[n].0, rows[n].1);
      assert (envelopes + [e])[..|envelopes + [e]| - 1] == envelopes;
      envelopes := envelopes + [e];
      if maxSeq.None? || maxSeq.value < e.number { maxSeq := Some(e.number); }
    }
  }
}
