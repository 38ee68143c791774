/** Ordered indexes: the ascending sequences of keys that the source keeps in std::map and std::set. */
module Ordered {

  ghost predicate StrictTotal<K(!new)>(less: (K, K) -> bool) {
    && (forall a :: !less(a, a))
    && (forall a, b, c :: less(a, b) && less(b, c) ==> less(a, c))
    && (forall a, b :: a != b ==> less(a, b) || less(b, a))
  }

  ghost predicate Ascending<K>(keys: seq<K>, less: (K, K) -> bool) {
    forall i, j :: 0 <= i < j < |keys| ==> less(keys[i], keys[j])
  }

  function Elements<K>(keys: seq<K>): set<K> {
    set k | k in keys
  }

  /** The first place whose key is not less than k. */
  method LowerBound<K(!new)>(keys: seq<K>, k: K, less: (K, K) -> bool) returns (at: nat)
    requires StrictTotal(less) && Ascending(keys, less)
    ensures at <= |keys|
    ensures forall i :: 0 <= i < at ==> less(keys[i], k)
    ensures forall i :: at <= i < |keys| ==> !less(keys[i], k)
  {
    at := 0;
    var end := |keys|;
    while at < end
      invariant 0 <= at <= end <= |keys|
      invariant forall i :: 0 <= i < at ==> less(keys[i], k)
      invariant forall i :: end <= i < |keys| ==> !less(keys[i], k)
    {
      var mid := (at + end) / 2;
      if less(keys[mid], k) {
        at := mid + 1;
      } else {
        end := mid;
      }
    }
  }

  /** Adds a key in its place; a key already there stays single. */
  method Include<K(!new, ==)>(keys: seq<K>, k: K, less: (K, K) -> bool) returns (r: seq<K>, added: bool)
    requires StrictTotal(less) && Ascending(keys, less)
    ensures Ascending(r, less) && Elements(r) == Elements(keys) + {k}
    ensures added == (k !in keys) && (!added ==> r == keys)
  {
    var at := LowerBound(keys, k, less);
    if at < |keys| && keys[at] == k {
      return keys, false;
    }
    NotAtLowerBound(keys, k, less, at);
    r, added := keys[..at] + [k] + keys[at..], true;
    assert keys == keys[..at] + keys[at..];
  }

  lemma NotAtLowerBound<K(!new)>(keys: seq<K>, k: K, less: (K, K) -> bool, at: nat)
    requires StrictTotal(less) && Ascending(keys, less) && at <= |keys|
    requires forall i :: 0 <= i < at ==> less(keys[i], k)
    requires forall i :: at <= i < |keys| ==> !less(keys[i], k)
    requires at < |keys| ==> keys[at] != k
    ensures k !in keys
    ensures forall i :: at <= i < |keys| ==> less(k, keys[i])
  {
    forall i | at <= i < |keys| ensures less(k, keys[i]) {
      assert less(k, keys[at]);
      assert i > at ==> less(keys[at], keys[i]);
    }
  }

  /** Removes a key that may be absent. */
  method Exclude<K(!new, ==)>(keys: seq<K>, k: K, less: (K, K) -> bool) returns (r: seq<K>)
    requires StrictTotal(less) && Ascending(keys, less)
    ensures Ascending(r, less) && Elements(r) == Elements(keys) - {k}
  {
    var at := LowerBound(keys, k, less);
    if at == |keys| || keys[at] != k {
      NotAtLowerBound(keys, k, less, at);
      return keys;
    }
    r := keys[..at] + keys[at + 1..];
    assert keys == keys[..at] + [k] + keys[at + 1..];
    assert k !in r;
  }

  lemma {:induction false} ElementsSize<K(!new)>(keys: seq<K>, less: (K, K) -> bool)
    requires StrictTotal(less) && Ascending(keys, less)
    ensures |Elements(keys)| == |keys|
  {
    if keys != [] {
      var n := |keys| - 1;
      ElementsSize(keys[..n], less);
      LastIsNew(keys, less);
      assert Elements(keys) == Elements(keys[..n]) + {keys[n]};
    }
  }

  lemma LastIsNew<K(!new)>(keys: seq<K>, less: (K, K) -> bool)
    requires StrictTotal(less) && Ascending(keys, less) && keys != []
    ensures keys[|keys| - 1] !in keys[..|keys| - 1]
    ensures keys == keys[..|keys| - 1] + [keys[|keys| - 1]]
  {
    var n := |keys| - 1;
    assert forall i :: 0 <= i < n ==> less(keys[i], keys[n]);
  }

  /** An ascending sequence is determined by its elements. */
  lemma {:induction false} AscendingUnique<K(!new)>(a: seq<K>, b: seq<K>, less: (K, K) -> bool)
    requires StrictTotal(less) && Ascending(a, less) && Ascending(b, less)
    requires Elements(a) == Elements(b)
    ensures a == b
  {
    ElementsSize(a, less);
    ElementsSize(b, less);
    if a != [] {
      SameLast(a, b, less);
      LastIsNew(a, less);
      LastIsNew(b, less);
      var n := |a| - 1;
      assert Elements(a[..n]) == Elements(a) - {a[n]};
      assert Elements(b[..n]) == Elements(b) - {b[n]};
      AscendingUnique(a[..n], b[..n], less);
    }
  }

  lemma SameLast<K(!new)>(a: seq<K>, b: seq<K>, less: (K, K) -> bool)
    requires StrictTotal(less) && Ascending(a, less) && Ascending(b, less)
    requires Elements(a) == Elements(b) && a != [] && |a| == |b|
    ensures a[|a| - 1] == b[|a| - 1]
  {
    var n := |a| - 1;
    assert a[n] in Elements(b) && b[n] in Elements(a);
    var i :| 0 <= i < |b| && b[i] == a[n];
    var j :| 0 <= j < |a| && a[j] == b[n];
    assert i < n ==> less(b[i], b[n]);
    assert j < n ==> less(a[j], a[n]);
  }

  // ----- the ascending sequence of a set -----

  lemma {:induction false} HasLeast<K(!new)>(s: set<K>, less: (K, K) -> bool)
    requires StrictTotal(less) && s != {}
    ensures exists least :: least in s && forall k :: k in s && k != least ==> less(least, k)
  {
    var x :| x in s;
    var rest := s - {x};
    assert s == rest + {x};
    if rest == {} {
      assert x in s && forall k :: k in s && k != x ==> less(x, k);
    } else {
      HasLeast(rest, less);
      var l :| l in rest && forall k :: k in rest && k != l ==> less(l, k);
      var least := if less(x, l) then x else l;
      assert least in s && forall k :: k in s && k != least ==> less(least, k);
    }
  }

  ghost function Least<K(!new)>(s: set<K>, less: (K, K) -> bool): (least: K)
    requires StrictTotal(less) && s != {}
    ensures least in s && forall k :: k in s && k != least ==> less(least, k)
  {
    HasLeast(s, less);
    var least :| least in s && forall k :: k in s && k != least ==> less(least, k);
    least
  }

  ghost function InOrder<K(!new)>(s: set<K>, less: (K, K) -> bool): seq<K>
    requires StrictTotal(less)
  {
    if s == {} then [] else [Least(s, less)] + InOrder(s - {Least(s, less)}, less)
  }

  lemma {:induction false} InOrderIs<K(!new)>(s: set<K>, less: (K, K) -> bool)
    requires StrictTotal(less)
    ensures Ascending(InOrder(s, less), less) && Elements(InOrder(s, less)) == s
  {
    if s != {} {
      var r, rest := InOrder(s, less), s - {Least(s, less)};
      var t := InOrder(rest, less);
      assert s == {Least(s, less)} + rest && r == [Least(s, less)] + t;
      InOrderIs(rest, less);
      forall i, j | 0 <= i < j < |r| ensures less(r[i], r[j]) {
        assert t[j - 1] in Elements(t);
        assert i > 0 ==> less(t[i - 1], t[j - 1]);
      }
      assert Elements(r) == {Least(s, less)} + Elements(t);
    }
  }

  /** Any ascending sequence with these elements is that one. */
  lemma InOrderUnique<K(!new)>(keys: seq<K>, s: set<K>, less: (K, K) -> bool)
    requires StrictTotal(less) && Ascending(keys, less) && Elements(keys) == s
    ensures keys == InOrder(s, less)
  {
    InOrderIs(s, less);
    AscendingUnique(keys, InOrder(s, less), less);
  }

  // ----- the orders in use -----

  /** std::string order: the first difference decides, and a proper prefix comes first. */
  predicate StringLess(a: string, b: string) {
    b != [] && (a == [] || a[0] < b[0] || (a[0] == b[0] && StringLess(a[1..], b[1..])))
  }

  lemma {:induction false} StringLessIrreflexive(a: string)
    ensures !StringLess(a, a)
  {
    if a != [] {
      StringLessIrreflexive(a[1..]);
    }
  }

  lemma {:induction false} StringLessTransitive(a: string, b: string, c: string)
    requires StringLess(a, b) && StringLess(b, c)
    ensures StringLess(a, c)
  {
    if a != [] && a[0] == b[0] == c[0] {
      StringLessTransitive(a[1..], b[1..], c[1..]);
    }
  }

  lemma {:induction false} StringLessConnected(a: string, b: string)
    requires a != b
    ensures StringLess(a, b) || StringLess(b, a)
  {
    if a != [] && b != [] && a[0] == b[0] {
      assert a == [a[0]] + a[1..] && b == [b[0]] + b[1..];
      StringLessConnected(a[1..], b[1..]);
    }
  }

  lemma StringOrder()
    ensures StrictTotal(StringLess)
    ensures forall a :: !StringLess(a, "")
  {
    forall a: string ensures !StringLess(a, a) {
      StringLessIrreflexive(a);
    }
    forall a: string, b: string, c: string | StringLess(a, b) && StringLess(b, c) ensures StringLess(a, c) {
      StringLessTransitive(a, b, c);
    }
    forall a: string, b: string | a != b ensures StringLess(a, b) || StringLess(b, a) {
      StringLessConnected(a, b);
    }
  }

  /** One subscription: who and where. */
  datatype Sub = Sub(id: nat, channel: string)

  predicate IdFirst(a: Sub, b: Sub) {
    a.id < b.id || (a.id == b.id && StringLess(a.channel, b.channel))
  }

  predicate ChannelFirst(a: Sub, b: Sub) {
    StringLess(a.channel, b.channel) || (a.channel == b.channel && a.id < b.id)
  }

  lemma SubOrders()
    ensures StrictTotal(IdFirst) && StrictTotal(ChannelFirst)
    ensures forall a :: !StringLess(a, "")
  {
    StringOrder();
    forall a: Sub, b: Sub | a != b ensures IdFirst(a, b) || IdFirst(b, a) {
      assert a.id == b.id ==> a.channel != b.channel;
    }
    forall a: Sub, b: Sub | a != b ensures ChannelFirst(a, b) || ChannelFirst(b, a) {
      assert a.channel == b.channel ==> a.id != b.id;
    }
  }
}
