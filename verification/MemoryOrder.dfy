/**
 Stamps and commits. The journal is read back by stamp, with ties in random order; what that order preserves depends
 on whether the stamps of one memory's events increase as the events were committed.
 */
module MemoryOrder {
  import opened Common
  import opened Memory
  import opened MemoryRuns
  import opened MemoryReplay

  /** Of two events of memory `id`, the later one has the later stamp, unless they are the same in every column. */
  ghost predicate StampedAt(journal: seq<Event>, id: MemoryId) {
    forall i, j :: 0 <= i < j < |journal| && journal[i].target == id && journal[j].target == id ==>
      journal[i].at < journal[j].at || journal[i] == journal[j]
  }

  ghost predicate Sorted(events: seq<Event>) {
    forall i, j :: 0 <= i < j < |events| ==> events[i].at <= events[j].at
  }

  // ----- a memory's own events

  lemma {:induction false} OwnMembers(events: seq<Event>, id: MemoryId, e: Event)
    ensures multiset(Own(events, id))[e] == if e.target == id then multiset(events)[e] else 0
  {
    if events != [] {
      var front, last := events[..|events| - 1], events[|events| - 1];
      OwnMembers(front, id, e);
      assert events == front + [last];
    }
  }

  lemma OwnIsIn(events: seq<Event>, id: MemoryId, e: Event)
    requires e in Own(events, id)
    ensures e in events && e.target == id
  {
    OwnMembers(events, id, e);
    assert multiset(Own(events, id))[e] > 0;
    assert e in multiset(events);
  }

  lemma {:induction false} OwnSorted(events: seq<Event>, id: MemoryId)
    requires Sorted(events) || StampedAt(events, id)
    ensures Sorted(Own(events, id))
  {
    if events != [] {
      var front, last := events[..|events| - 1], events[|events| - 1];
      OwnSorted(front, id);
      if last.target == id {
        forall e | e in Own(front, id) ensures e.at <= last.at {
          OwnIsIn(front, id, e);
          var i :| 0 <= i < |front| && front[i] == e;
          assert events[i] == e;
        }
      }
    }
  }

  lemma OwnStampsDiffer(events: seq<Event>, id: MemoryId, e: Event, f: Event)
    requires StampedAt(events, id) && e in Own(events, id) && f in Own(events, id) && e.at == f.at
    ensures e == f
  {
    OwnIsIn(events, id, e);
    OwnIsIn(events, id, f);
    var i :| 0 <= i < |events| && events[i] == e;
    var j :| 0 <= j < |events| && events[j] == f;
    assert i < j || j < i || i == j;
  }

  /** The last of a sorted listing is a latest one. */
  lemma LastIsLatest(a: seq<Event>, e: Event)
    requires Sorted(a) && e in multiset(a)
    ensures a != [] && e.at <= a[|a| - 1].at
  {
    assert e in a;
  }

  lemma ButLast(a: seq<Event>)
    requires a != []
    ensures multiset(a[..|a| - 1]) == multiset(a) - multiset{a[|a| - 1]}
  {
    assert a == a[..|a| - 1] + [a[|a| - 1]];
  }

  /** Equal stamps mean equal events. */
  ghost predicate Distinct(a: seq<Event>) {
    forall i, j :: 0 <= i < |a| && 0 <= j < |a| && a[i].at == a[j].at ==> a[i] == a[j]
  }

  lemma SameLast(a: seq<Event>, b: seq<Event>)
    requires multiset(a) == multiset(b) && Sorted(a) && Sorted(b) && Distinct(a) && a != [] && b != []
    ensures a[|a| - 1] == b[|b| - 1]
  {
    var x, y := a[|a| - 1], b[|b| - 1];
    assert x in multiset(a) && y in multiset(b);
    LastIsLatest(b, x);
    LastIsLatest(a, y);
    assert y in multiset(a);
    var j :| 0 <= j < |a| && a[j] == y;
  }

  lemma SameLength(a: seq<Event>, b: seq<Event>)
    requires multiset(a) == multiset(b)
    ensures |a| == |b|
  {
    assert |multiset(a)| == |a| && |multiset(b)| == |b|;
  }

  lemma Rejoined(a: seq<Event>, b: seq<Event>)
    requires a != [] && b != [] && a[..|a| - 1] == b[..|b| - 1] && a[|a| - 1] == b[|b| - 1]
    ensures a == b
  {
    assert a == a[..|a| - 1] + [a[|a| - 1]];
    assert b == b[..|b| - 1] + [b[|b| - 1]];
  }

  /** Two sorted listings of the same events, in which equal stamps mean equal events, are one. */
  lemma {:induction false} SortedIsUnique(a: seq<Event>, b: seq<Event>)
    requires multiset(a) == multiset(b) && Sorted(a) && Sorted(b) && Distinct(a)
    ensures a == b
  {
    SameLength(a, b);
    if a != [] {
      SameLast(a, b);
      ButLast(a);
      ButLast(b);
      SortedIsUnique(a[..|a| - 1], b[..|b| - 1]);
      Rejoined(a, b);
    }
  }

  lemma StampedReadsInOrder(read: seq<Event>, journal: seq<Event>, id: MemoryId)
    requires Reads(read, journal) && StampedAt(journal, id)
    ensures Own(read, id) == Own(journal, id)
  {
    var a, b := Own(journal, id), Own(read, id);
    OwnSorted(journal, id);
    OwnSorted(read, id);
    forall e ensures multiset(a)[e] == multiset(b)[e] {
      OwnMembers(journal, id, e);
      OwnMembers(read, id, e);
    }
    forall i, j | 0 <= i < |a| && 0 <= j < |a| && a[i].at == a[j].at ensures a[i] == a[j] {
      OwnStampsDiffer(journal, id, a[i], a[j]);
    }
    SortedIsUnique(a, b);
  }

  // ----- a reading that shows a disorder

  function Inserted(events: seq<Event>, e: Event): seq<Event> {
    if events != [] && e.at < events[|events| - 1].at then Inserted(events[..|events| - 1], e) + [events[|events| - 1]]
    else events + [e]
  }

  /** One way to read the journal: ties as committed. */
  function ByStamp(events: seq<Event>): seq<Event> {
    if events == [] then [] else Inserted(ByStamp(events[..|events| - 1]), events[|events| - 1])
  }

  lemma {:induction false} InsertedPermutes(events: seq<Event>, e: Event)
    ensures multiset(Inserted(events, e)) == multiset(events) + multiset{e}
  {
    if events != [] && e.at < events[|events| - 1].at {
      InsertedPermutes(events[..|events| - 1], e);
      assert events == events[..|events| - 1] + [events[|events| - 1]];
    }
  }

  lemma {:induction false} InsertedSorted(events: seq<Event>, e: Event)
    requires Sorted(events)
    ensures Sorted(Inserted(events, e))
  {
    if events != [] && e.at < events[|events| - 1].at {
      var front, last := events[..|events| - 1], events[|events| - 1];
      InsertedSorted(front, e);
      InsertedPermutes(front, e);
      forall x | x in Inserted(front, e) ensures x.at <= last.at {
        assert x in multiset(Inserted(front, e));
        assert x in front || x == e;
      }
    }
  }

  lemma {:induction false} ByStampReads(events: seq<Event>)
    ensures Reads(ByStamp(events), events)
  {
    if events != [] {
      var front, last := events[..|events| - 1], events[|events| - 1];
      ByStampReads(front);
      InsertedSorted(ByStamp(front), last);
      InsertedPermutes(ByStamp(front), last);
      assert events == front + [last];
    }
  }

  /** The events of a memory with one stamp. */
  function Ties(events: seq<Event>, id: MemoryId, at: int): seq<Event> {
    if events == [] then []
    else
      var front, last := Ties(events[..|events| - 1], id, at), events[|events| - 1];
      if last.target == id && last.at == at then front + [last] else front
  }

  lemma {:induction false} InsertedTies(events: seq<Event>, e: Event, id: MemoryId, at: int)
    requires Sorted(events)
    ensures Ties(Inserted(events, e), id, at) == Ties(events, id, at) + if e.target == id && e.at == at then [e] else []
  {
    if events != [] && e.at < events[|events| - 1].at {
      var front, last := events[..|events| - 1], events[|events| - 1];
      InsertedTies(front, e, id, at);
      var out := Inserted(events, e);
      assert out[..|out| - 1] == Inserted(front, e);
    } else {
      assert (events + [e])[..|events|] == events;
    }
  }

  lemma {:induction false} ByStampTies(events: seq<Event>, id: MemoryId, at: int)
    ensures Ties(ByStamp(events), id, at) == Ties(events, id, at)
  {
    if events != [] {
      ByStampReads(events[..|events| - 1]);
      ByStampTies(events[..|events| - 1], id, at);
      InsertedTies(ByStamp(events[..|events| - 1]), events[|events| - 1], id, at);
    }
  }

  lemma {:induction false} TiesOfOwn(events: seq<Event>, id: MemoryId, at: int)
    ensures Ties(Own(events, id), id, at) == Ties(events, id, at)
  {
    if events != [] {
      var own, front := Own(events, id), events[..|events| - 1];
      TiesOfOwn(front, id, at);
      if events[|events| - 1].target == id {
        assert own[..|own| - 1] == Own(front, id);
      } else {
        assert own == Own(front, id);
      }
    }
  }

  /** An event stands among its ties right after the ties before it. */
  lemma {:induction false} TiesAt(events: seq<Event>, i: nat)
    requires i < |events|
    ensures var ties := Ties(events, events[i].target, events[i].at);
            var before := Ties(events[..i], events[i].target, events[i].at);
            |before| < |ties| && ties[|before|] == events[i]
  {
    var front := events[..|events| - 1];
    if i < |events| - 1 {
      TiesAt(front, i);
      assert front[..i] == events[..i];
    }
  }

  lemma {:induction false} OwnAt(events: seq<Event>, i: nat)
    requires i < |events|
    ensures var own, before := Own(events, events[i].target), Own(events[..i], events[i].target);
            |before| < |own| && own[|before|] == events[i]
  {
    var front := events[..|events| - 1];
    if i < |events| - 1 {
      OwnAt(front, i);
      assert front[..i] == events[..i];
    }
  }

  /** A stamp that went back: every reading turns the two events around. */
  lemma BackwardStampShows(read: seq<Event>, journal: seq<Event>, i: nat, j: nat)
    requires Reads(read, journal) && i < j < |journal| && journal[i].target == journal[j].target
    requires journal[i].at > journal[j].at
    ensures Own(read, journal[i].target) != Own(journal, journal[i].target)
  {
    var id := journal[i].target;
    OwnSorted(read, id);
    OwnAt(journal, i);
    OwnAt(journal, j);
    assert journal[..j][i] == journal[i] && journal[..j][..i] == journal[..i];
    OwnAt(journal[..j], i);
  }

  /** Two different events under one stamp: some reading turns them around. */
  lemma TieShows(journal: seq<Event>, i: nat, j: nat) returns (read: seq<Event>)
    requires i < j < |journal| && journal[i].target == journal[j].target
    requires journal[i].at == journal[j].at && journal[i] != journal[j]
    ensures Reads(read, journal) && Own(read, journal[i].target) != Own(journal, journal[i].target)
  {
    var id, at := journal[i].target, journal[i].at;
    var swapped := journal[i := journal[j]][j := journal[i]];
    read := ByStamp(swapped);
    ByStampReads(swapped);
    assert multiset(swapped) == multiset(journal);
    assert swapped[..i] == journal[..i];
    TiesAt(journal, i);
    TiesAt(swapped, i);
    ByStampTies(swapped, id, at);
    TiesOfOwn(read, id, at);
    TiesOfOwn(journal, id, at);
  }

  /** Every way to read the journal keeps a memory's sequence of events if and only if its stamps increase with it. */
  lemma ReadsAgreeIffStamped(journal: seq<Event>, id: MemoryId)
    ensures (forall read :: Reads(read, journal) ==> Own(read, id) == Own(journal, id)) <==> StampedAt(journal, id)
  {
    if StampedAt(journal, id) {
      forall read | Reads(read, journal) ensures Own(read, id) == Own(journal, id) {
        StampedReadsInOrder(read, journal, id);
      }
    } else {
      var i, j :| 0 <= i < j < |journal| && journal[i].target == id && journal[j].target == id
        && !(journal[i].at < journal[j].at || journal[i] == journal[j]);
      if journal[i].at > journal[j].at {
        ByStampReads(journal);
        BackwardStampShows(ByStamp(journal), journal, i, j);
      } else {
        var read := TieShows(journal, i, j);
      }
    }
  }

  // ----- whole journals

  ghost predicate Stamped(journal: seq<Event>) {
    forall id :: StampedAt(journal, id)
  }

  lemma StampedPrefix(journal: seq<Event>, longer: seq<Event>, id: MemoryId)
    requires journal <= longer && StampedAt(longer, id)
    ensures StampedAt(journal, id)
  {
    assert forall i :: 0 <= i < |journal| ==> journal[i] == longer[i];
  }

  lemma StampedStepReads(s: Store, step: Step)
    requires Enabled(s, step) && Stamped(s.journal)
    ensures OrderlyRead(s, step)
  {
    if step.DoRevert? || step.DoRebuild? {
      forall id ensures Own(step.read, id) == Own(s.journal, id) {
        assert StampedAt(s.journal, id);
        StampedReadsInOrder(step.read, s.journal, id);
      }
    }
  }
}
