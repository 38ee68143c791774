/** Filtering, trimming and ordering of message lists. */
module Selections {
  import opened Messages

  datatype Selector =
    | AliveAt(now: int)
    | OtherIdentity(identity: string)
    | CursorAtMost(cursor: int)
    | CursorAbove(cursor: int)
    | CursorFrom(cursor: int)
    | CursorIs(cursor: int)
  {
    predicate Selects(m: Message) {
      match this
      case AliveAt(now) => m.DeathTime() >= now
      case OtherIdentity(identity) => m.identity != identity
      case CursorAtMost(cursor) => m.cursor <= cursor
      case CursorAbove(cursor) => m.cursor > cursor
      case CursorFrom(cursor) => m.cursor >= cursor
      case CursorIs(cursor) => m.cursor == cursor
    }
  }

  /** The selected messages, in their old order. */
  function Keep(q: seq<Message>, sel: Selector): (r: seq<Message>)
    ensures |r| <= |q|
    ensures forall m {:trigger m in r} :: m in r <==> m in q && sel.Selects(m)
  {
    if q == [] then []
    else (if sel.Selects(q[0]) then [q[0]] else []) + Keep(q[1..], sel)
  }

  /** The last n elements, or all of them when there are fewer. */
  function LastN<T>(q: seq<T>, n: nat): (r: seq<T>)
    ensures |r| == if |q| <= n then |q| else n
    ensures forall k :: 0 <= k < |r| ==> r[k] == q[|q| - |r| + k]
  {
    if |q| <= n then q else q[|q| - n..]
  }

  ghost predicate Sorted(q: seq<Message>) {
    forall i, j :: 0 <= i < j < |q| ==> q[i].cursor <= q[j].cursor
  }

  ghost predicate All(q: seq<Message>, sel: Selector) {
    forall m :: m in q ==> sel.Selects(m)
  }

  predicate HasIdentity(q: seq<Message>, identity: string) {
    exists i :: 0 <= i < |q| && q[i].identity == identity
  }

  ghost predicate IsSuffix<T>(a: seq<T>, b: seq<T>) {
    |a| <= |b| && b[|b| - |a|..] == a
  }

  lemma SuffixIn<T>(a: seq<T>, b: seq<T>)
    requires IsSuffix(a, b)
    ensures forall x :: x in a ==> x in b
  {
    forall x | x in a ensures x in b {
      assert x in b[|b| - |a|..];
    }
  }

  // ----- filtering -----

  lemma KeepOne(m: Message, sel: Selector)
    ensures Keep([m], sel) == if sel.Selects(m) then [m] else []
  {
    assert [m][1..] == [];
  }

  lemma {:induction false} KeepAppend(a: seq<Message>, b: seq<Message>, sel: Selector)
    ensures Keep(a + b, sel) == Keep(a, sel) + Keep(b, sel)
  {
    if a == [] {
      assert a + b == b;
    } else {
      var head := if sel.Selects(a[0]) then [a[0]] else [];
      assert (a + b)[0] == a[0] && (a + b)[1..] == a[1..] + b;
      KeepAppend(a[1..], b, sel);
      assert Keep(a + b, sel) == head + Keep(a[1..] + b, sel);
      assert Keep(a, sel) == head + Keep(a[1..], sel);
      assert head + (Keep(a[1..], sel) + Keep(b, sel)) == (head + Keep(a[1..], sel)) + Keep(b, sel);
    }
  }

  lemma KeepSnoc(q: seq<Message>, sel: Selector)
    requires q != []
    ensures var k := |q| - 1;
      Keep(q, sel) == if sel.Selects(q[k]) then Keep(q[..k], sel) + [q[k]] else Keep(q[..k], sel)
  {
    var k := |q| - 1;
    assert q == q[..k] + [q[k]];
    KeepAppend(q[..k], [q[k]], sel);
    KeepOne(q[k], sel);
  }

  lemma {:induction false} KeepAll(q: seq<Message>, sel: Selector)
    requires All(q, sel)
    ensures Keep(q, sel) == q
  {
    if q != [] {
      KeepAll(q[1..], sel);
    }
  }

  lemma {:induction false} KeepNone(q: seq<Message>, sel: Selector)
    requires forall m :: m in q ==> !sel.Selects(m)
    ensures Keep(q, sel) == []
  {
    if q != [] {
      KeepNone(q[1..], sel);
    }
  }

  /** Filtering loses nothing exactly when everything is selected. */
  lemma {:induction false} KeepFull(q: seq<Message>, sel: Selector)
    ensures |Keep(q, sel)| == |q| <==> All(q, sel)
  {
    if q != [] {
      KeepFull(q[1..], sel);
      assert forall m :: m in q <==> m == q[0] || m in q[1..];
    }
  }

  lemma SortedJoin(a: seq<Message>, b: seq<Message>)
    requires Sorted(a) && Sorted(b)
    requires forall x, y :: x in a && y in b ==> x.cursor <= y.cursor
    ensures Sorted(a + b)
  {
    var ab := a + b;
    forall i, j | 0 <= i < j < |ab| ensures ab[i].cursor <= ab[j].cursor {
      if i < |a| <= j {
        assert a[i] in a && b[j - |a|] in b;
      }
    }
  }

  lemma {:induction false} KeepSorted(q: seq<Message>, sel: Selector)
    requires Sorted(q)
    ensures Sorted(Keep(q, sel))
  {
    if q != [] {
      KeepSorted(q[1..], sel);
      SortedJoin(if sel.Selects(q[0]) then [q[0]] else [], Keep(q[1..], sel));
    }
  }

  /** Two filters one after the other are the stronger filter. */
  lemma {:induction false} KeepStronger(q: seq<Message>, weak: Selector, strong: Selector)
    requires forall m :: m in q && strong.Selects(m) ==> weak.Selects(m)
    ensures Keep(Keep(q, weak), strong) == Keep(q, strong)
  {
    if q != [] {
      KeepStronger(q[1..], weak, strong);
      KeepAppend(if weak.Selects(q[0]) then [q[0]] else [], Keep(q[1..], weak), strong);
      KeepOne(q[0], strong);
    }
  }

  lemma {:induction false} KeepCommutes(q: seq<Message>, a: Selector, b: Selector)
    ensures Keep(Keep(q, a), b) == Keep(Keep(q, b), a)
  {
    if q != [] {
      KeepCommutes(q[1..], a, b);
      KeepAppend(if a.Selects(q[0]) then [q[0]] else [], Keep(q[1..], a), b);
      KeepAppend(if b.Selects(q[0]) then [q[0]] else [], Keep(q[1..], b), a);
      KeepOne(q[0], a);
      KeepOne(q[0], b);
    }
  }
}
