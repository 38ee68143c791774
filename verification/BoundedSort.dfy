/** The stable sort of a list by cursor, and the bounded queue as the tail of that sort. */
module BoundedSort {
  import opened Messages
  import opened Selections
  import opened QueueSpec

  /** Messages with equal cursors appear in the same order in both lists. */
  ghost predicate SameLanes(a: seq<Message>, b: seq<Message>) {
    forall c :: Keep(a, CursorIs(c)) == Keep(b, CursorIs(c))
  }

  ghost predicate IsStableSort(ms: seq<Message>, r: seq<Message>) {
    Sorted(r) && SameLanes(ms, r)
  }

  /** Inserting messages one by one, in order. */
  function SortInto(q: seq<Message>, ms: seq<Message>): seq<Message> {
    if ms == [] then q else Insert(SortInto(q, ms[..|ms| - 1]), ms[|ms| - 1])
  }

  function StableSort(ms: seq<Message>): seq<Message> {
    SortInto([], ms)
  }

  /** The same with a bound on the length after each insertion. */
  function BoundedInto(q: seq<Message>, ms: seq<Message>, limit: nat): seq<Message> {
    if ms == [] then q else LastN(Insert(BoundedInto(q, ms[..|ms| - 1], limit), ms[|ms| - 1]), limit)
  }

  // ----- insertion sort is the stable sort -----

  lemma InsertLane(q: seq<Message>, m: Message, c: int)
    requires Sorted(q)
    ensures Keep(Insert(q, m), CursorIs(c)) == Keep(q + [m], CursorIs(c))
  {
    hide Keep;
    var lane := CursorIs(c);
    var below, above := Keep(q, CursorAtMost(m.cursor)), Keep(q, CursorAbove(m.cursor));
    InsertSorted(q, m);
    KeepAppend(below + [m], above, lane);
    KeepAppend(below, [m], lane);
    KeepAppend(below, above, lane);
    KeepAppend(q, [m], lane);
    KeepOne(m, lane);
    if c == m.cursor {
      KeepNone(above, lane);
    }
  }

  lemma {:induction false} SortIntoSorted(q: seq<Message>, ms: seq<Message>)
    requires Sorted(q)
    ensures Sorted(SortInto(q, ms)) && |SortInto(q, ms)| == |q| + |ms|
    ensures forall x {:trigger x in SortInto(q, ms)} :: x in SortInto(q, ms) <==> x in q || x in ms
  {
    if ms != [] {
      var n := |ms| - 1;
      SortIntoSorted(q, ms[..n]);
      InsertSorted(SortInto(q, ms[..n]), ms[n]);
      assert ms == ms[..n] + [ms[n]];
    }
  }

  lemma {:induction false} SortIntoLanes(q: seq<Message>, ms: seq<Message>, c: int)
    requires Sorted(q)
    ensures Keep(SortInto(q, ms), CursorIs(c)) == Keep(q + ms, CursorIs(c))
  {
    if ms == [] {
      assert q + ms == q;
    } else {
      var n := |ms| - 1;
      SortIntoSorted(q, ms[..n]);
      SortIntoLanes(q, ms[..n], c);
      InsertLane(SortInto(q, ms[..n]), ms[n], c);
      KeepAppend(SortInto(q, ms[..n]), [ms[n]], CursorIs(c));
      KeepAppend(q + ms[..n], [ms[n]], CursorIs(c));
      assert q + ms == (q + ms[..n]) + [ms[n]];
    }
  }

  lemma StableSortIsStable(ms: seq<Message>)
    ensures IsStableSort(ms, StableSort(ms))
  {
    SortIntoSorted([], ms);
    forall c ensures Keep(ms, CursorIs(c)) == Keep(StableSort(ms), CursorIs(c)) {
      SortIntoLanes([], ms, c);
      assert [] + ms == ms;
    }
  }

  lemma FirstOfLane(q: seq<Message>, r: seq<Message>)
    requires Sorted(q) && Sorted(r) && SameLanes(q, r) && q != []
    ensures r != [] && r[0].cursor <= q[0].cursor
  {
    var lane := CursorIs(q[0].cursor);
    assert q[0] in Keep(q, lane);
    assert q[0] in Keep(r, lane);
  }

  /** A list has one stable sort: it is determined by the order and the lanes. */
  lemma {:induction false} StableSortUnique(a: seq<Message>, b: seq<Message>)
    requires Sorted(a) && Sorted(b) && SameLanes(a, b)
    ensures a == b
  {
    if a == [] {
      if b != [] {
        FirstOfLane(b, a);
      }
    } else {
      FirstOfLane(a, b);
      FirstOfLane(b, a);
      var lane := CursorIs(a[0].cursor);
      assert Keep(a, lane)[0] == a[0] && Keep(b, lane)[0] == b[0];
      forall c ensures Keep(a[1..], CursorIs(c)) == Keep(b[1..], CursorIs(c)) {
        var head := if c == a[0].cursor then [a[0]] else [];
        assert Keep(a, CursorIs(c)) == head + Keep(a[1..], CursorIs(c));
        assert Keep(b, CursorIs(c)) == head + Keep(b[1..], CursorIs(c));
        assert (head + Keep(a[1..], CursorIs(c)))[|head|..] == Keep(a[1..], CursorIs(c));
        assert (head + Keep(b[1..], CursorIs(c)))[|head|..] == Keep(b[1..], CursorIs(c));
      }
      StableSortUnique(a[1..], b[1..]);
    }
  }

  lemma StableSortOfSorted(q: seq<Message>)
    requires Sorted(q)
    ensures StableSort(q) == q
  {
    StableSortIsStable(q);
    StableSortUnique(q, StableSort(q));
  }

  lemma {:induction false} SortIntoAppend(q: seq<Message>, a: seq<Message>, b: seq<Message>)
    ensures SortInto(q, a + b) == SortInto(SortInto(q, a), b)
  {
    if b == [] {
      assert a + b == a;
    } else {
      var n := |b| - 1;
      SortIntoAppend(q, a, b[..n]);
      assert (a + b)[..|a + b| - 1] == a + b[..n];
    }
  }

  // ----- trimming early or late -----

  lemma InsertAt(q: seq<Message>, m: Message, at: nat)
    requires at <= |q|
    requires forall k :: 0 <= k < at ==> q[k].cursor <= m.cursor
    requires forall k :: at <= k < |q| ==> q[k].cursor > m.cursor
    ensures Insert(q, m) == q[..at] + [m] + q[at..]
  {
    CutAt(q, m.cursor, at);
  }

  /** A new message that lands before the tail falls off with the rest. */
  lemma TrimInsertBefore(front: seq<Message>, tail: seq<Message>, m: Message, at: nat)
    requires at <= |front|
    requires forall k :: 0 <= k < at ==> front[k].cursor <= m.cursor
    requires forall k :: at <= k < |front| ==> front[k].cursor > m.cursor
    requires forall k :: 0 <= k < |tail| ==> tail[k].cursor > m.cursor
    ensures LastN(Insert(tail, m), |tail|) == tail == LastN(Insert(front + tail, m), |tail|)
  {
    hide Insert, Keep;
    InsertAt(tail, m, 0);
    assert Insert(tail, m) == [m] + tail;
    InsertAt(front + tail, m, at);
    assert (front + tail)[at..] == front[at..] + tail;
  }

  lemma TrimInsertWithin(front: seq<Message>, tail: seq<Message>, m: Message, at: nat)
    requires at <= |tail|
    requires forall k :: 0 <= k < |front| ==> front[k].cursor <= m.cursor
    requires forall k :: 0 <= k < at ==> tail[k].cursor <= m.cursor
    requires forall k :: at <= k < |tail| ==> tail[k].cursor > m.cursor
    ensures LastN(Insert(tail, m), |tail|) == LastN(Insert(front + tail, m), |tail|)
  {
    hide Insert, Keep;
    InsertAt(tail, m, at);
    InsertAt(front + tail, m, |front| + at);
    assert Insert(front + tail, m) == front + Insert(tail, m) by {
      assert (front + tail)[..|front| + at] == front + tail[..at];
      assert (front + tail)[|front| + at..] == tail[at..];
    }
  }

  /** What the bound drops now it would also drop after the insertion, even when the new message itself goes. */
  lemma TrimInsert(q: seq<Message>, m: Message, limit: nat)
    requires Sorted(q)
    ensures LastN(Insert(LastN(q, limit), m), limit) == LastN(Insert(q, m), limit)
  {
    if |q| > limit {
      var at := CutPoint(q, m.cursor);
      var cut := |q| - limit;
      assert q == q[..cut] + q[cut..];
      if at < cut {
        TrimInsertBefore(q[..cut], q[cut..], m, at);
      } else {
        TrimInsertWithin(q[..cut], q[cut..], m, at - cut);
      }
    }
  }

  lemma {:induction false} BoundedIsTailOfSort(q: seq<Message>, ms: seq<Message>, limit: nat)
    requires Sorted(q)
    ensures BoundedInto(LastN(q, limit), ms, limit) == LastN(SortInto(q, ms), limit)
  {
    if ms != [] {
      var n := |ms| - 1;
      BoundedIsTailOfSort(q, ms[..n], limit);
      SortIntoSorted(q, ms[..n]);
      TrimInsert(SortInto(q, ms[..n]), ms[n], limit);
    }
  }
}
