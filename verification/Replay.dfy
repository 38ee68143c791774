/** Replaying a stored list through an empty queue: what the database merge and its read both do.
    Each push reads the clock afresh: clk(k) is the k-th reading. */
module Replay {
  import opened Messages
  import opened Selections
  import opened QueueSpec
  import opened BoundedSort

  /** The pushes of ms in order, the first at reading number k0. */
  function PushAll(s: State, ms: seq<Message>, clk: nat -> int, k0: nat): State {
    if ms == [] then s
    else
      var n := |ms| - 1;
      Push(PushAll(s, ms[..n], clk, k0), clk(k0 + n), ms[n])
  }

  /** The list left after the replay and a last expiry. */
  function Rebuild(ms: seq<Message>, clk: nat -> int): seq<Message> {
    Keep(PushAll(EMPTY, ms, clk, 0).msgs, AliveAt(clk(|ms|)))
  }

  /** No reading among the first n comes after the n-th: what a clock that never runs back gives. */
  ghost predicate LatestAt(clk: nat -> int, n: nat) {
    forall k: nat :: k <= n ==> clk(k) <= clk(n)
  }

  function BornAll(ms: seq<Message>, clk: nat -> int): (r: seq<Message>)
    ensures |r| == |ms| && forall i :: 0 <= i < |ms| ==> r[i] == ms[i].Born(clk(i))
  {
    seq(|ms|, i requires 0 <= i < |ms| => ms[i].Born(clk(i)))
  }

  lemma PushAllKeepsInv(s: State, ms: seq<Message>, clk: nat -> int, k0: nat)
    requires Inv(s)
    ensures Inv(PushAll(s, ms, clk, k0))
  {
    hide Push, Inv;
    if ms != [] {
      var n := |ms| - 1;
      PushAllKeepsInv(s, ms[..n], clk, k0);
      PushKeepsInv(PushAll(s, ms[..n], clk, k0), clk(k0 + n), ms[n]);
    }
  }

  lemma {:induction false} PushAllAppend(s: State, a: seq<Message>, b: seq<Message>, clk: nat -> int, k0: nat)
    ensures PushAll(s, a + b, clk, k0) == PushAll(PushAll(s, a, clk, k0), b, clk, k0 + |a|)
  {
    hide Push;
    if b == [] {
      assert a + b == a;
    } else {
      var n := |b| - 1;
      PushAllAppend(s, a, b[..n], clk, k0);
      assert (a + b)[..|a + b| - 1] == a + b[..n];
    }
  }

  // ----- publishing is sorting -----

  ghost predicate Publishes(ms: seq<Message>, limit: nat) {
    && limit > 0
    && forall m :: m in ms ==> m.action.Publish? && m.limit == limit && m.lifetime != 0
  }

  /** One publish into a queue with nothing dead. */
  lemma PushPublish(s: State, now: int, m: Message, end: int)
    requires m.action.Publish? && !m.Unlimited() && now <= end
    requires All(s.msgs, AliveAt(end)) && m.Born(now).DeathTime() >= end
    ensures Push(s, now, m).msgs == LastN(Insert(s.msgs, m.Born(now)), m.limit)
    ensures All(Push(s, now, m).msgs, AliveAt(end))
  {
    KeepAll(s.msgs, AliveAt(now));
    var grown := Insert(s.msgs, m.Born(now));
    assert forall x :: x in grown ==> x in s.msgs || x == m.Born(now);
    assert forall x :: x in LastN(grown, m.limit) ==> x in grown;
  }

  lemma {:induction false} PublishAll(ms: seq<Message>, clk: nat -> int, limit: nat, end: int)
    requires Publishes(ms, limit)
    requires forall k: nat :: k < |ms| ==> clk(k) <= end
    requires All(BornAll(ms, clk), AliveAt(end))
    ensures PushAll(EMPTY, ms, clk, 0).msgs == BoundedInto([], BornAll(ms, clk), limit)
    ensures All(PushAll(EMPTY, ms, clk, 0).msgs, AliveAt(end))
  {
    hide Push, Insert, Keep, LastN;
    if ms != [] {
      var n := |ms| - 1;
      var born := BornAll(ms, clk);
      assert ms[n] in ms && born[n] in born && AliveAt(end).Selects(born[n]);
      assert Publishes(ms[..n], limit) && BornAll(ms[..n], clk) == born[..n];
      assert All(born[..n], AliveAt(end));
      PublishAll(ms[..n], clk, limit, end);
      PushPublish(PushAll(EMPTY, ms[..n], clk, 0), clk(n), ms[n], end);
    }
  }

  /** Publishing live messages under one limit leaves exactly the tail of their stable sort. */
  lemma OnlineIsOffline(ms: seq<Message>, clk: nat -> int, limit: nat, end: int, sorted: seq<Message>)
    requires Publishes(ms, limit)
    requires forall k: nat :: k < |ms| ==> clk(k) <= end
    requires All(BornAll(ms, clk), AliveAt(end))
    requires IsStableSort(BornAll(ms, clk), sorted)
    ensures PushAll(EMPTY, ms, clk, 0).msgs == LastN(sorted, limit)
  {
    var born := BornAll(ms, clk);
    PublishAll(ms, clk, limit, end);
    BoundedIsTailOfSort([], born, limit);
    StableSortIsStable(born);
    StableSortUnique(StableSort(born), sorted);
  }

  // ----- when a stored list replays to itself -----

  /** The action adds the message and withdraws nothing. */
  predicate Adds(q: seq<Message>, m: Message) {
    && (m.lifetime != 0 || m.action.Replace?)
    && (m.action.Publish? || !HasIdentity(q, m.identity))
  }

  /** ... and the limit leaves room for it. */
  predicate Grows(q: seq<Message>, m: Message) {
    m.limit >= |q| + 1 && Adds(q, m)
  }

  ghost predicate AllGrow(q: seq<Message>) {
    forall i :: 0 <= i < |q| ==> Grows(q[..i], q[i])
  }

  ghost predicate Replayable(q: seq<Message>, end: int) {
    && Sorted(q)
    && All(q, AliveAt(end))
    && (forall m :: m in q ==> m.birthtime != 0)
    && AllGrow(q)
  }

  lemma NoIdentityKeepsAll(q: seq<Message>, identity: string)
    ensures HasIdentity(q, identity) <==> |Keep(q, OtherIdentity(identity))| < |q|
    ensures !HasIdentity(q, identity) ==> Keep(q, OtherIdentity(identity)) == q
  {
    KeepFull(q, OtherIdentity(identity));
    if !HasIdentity(q, identity) {
      KeepAll(q, OtherIdentity(identity));
    }
  }

  lemma ActedGrowth(s: State, now: int, m: Message)
    requires Inv(s) && !HandedBack(m)
    ensures |Acted(s, now, m).msgs| <= |s.msgs| + 1
    ensures |Acted(s, now, m).msgs| == |s.msgs| + 1 <==> Adds(s.msgs, m)
    ensures Adds(s.msgs, m) ==> Acted(s, now, m).msgs == Insert(s.msgs, m.Born(now))
  {
    hide FitsBetween, Keep, Insert;
    NoIdentityKeepsAll(s.msgs, m.identity);
    InsertSorted(s.msgs, m.Born(now));
    WithoutIdentityKeepsInv(s, m.identity);
    InsertSorted(WithoutIdentity(s, m.identity).msgs, m.Born(now));
  }

  lemma ExpiredFull(s: State, now: int)
    ensures var q := ExpiredUnlessSameSecond(s, now).msgs;
      && |q| <= |s.msgs|
      && (|q| == |s.msgs| ==> q == s.msgs)
      && (All(s.msgs, AliveAt(now)) ==> q == s.msgs)
  {
    KeepFull(s.msgs, AliveAt(now));
    if All(s.msgs, AliveAt(now)) {
      KeepAll(s.msgs, AliveAt(now));
    }
  }

  /** A push adds at most one message, and adds one exactly when it keeps all the others and inserts. */
  lemma PushGrowth(s: State, now: int, m: Message)
    requires Inv(s)
    ensures |Push(s, now, m).msgs| <= |s.msgs| + 1
    ensures |Push(s, now, m).msgs| == |s.msgs| + 1 ==>
      Grows(s.msgs, m) && Push(s, now, m).msgs == Insert(s.msgs, m.Born(now))
    ensures All(s.msgs, AliveAt(now)) && Grows(s.msgs, m) ==>
      Push(s, now, m).msgs == Insert(s.msgs, m.Born(now))
  {
    ExpiredFull(s, now);
    ExpiredKeepsInv(s, now);
    var s0 := ExpiredUnlessSameSecond(s, now);
    if !HandedBack(m) {
      ActedGrowth(s0, now, m);
    }
  }

  lemma InsertLast(q: seq<Message>, m: Message)
    requires forall k :: 0 <= k < |q| ==> q[k].cursor <= m.cursor
    ensures Insert(q, m) == q + [m]
  {
    InsertAt(q, m, |q|);
  }

  lemma AllGrowSnoc(ms: seq<Message>)
    requires ms != []
    ensures AllGrow(ms) <==> AllGrow(ms[..|ms| - 1]) && Grows(ms[..|ms| - 1], ms[|ms| - 1])
  {
    var n := |ms| - 1;
    assert forall i :: 0 <= i < n ==> ms[..n][i] == ms[i] && ms[..n][..i] == ms[..i];
  }

  lemma {:induction false} ReplayInPlace(q: seq<Message>, clk: nat -> int, end: int)
    requires Replayable(q, end)
    requires forall k: nat :: k < |q| ==> clk(k) <= end
    ensures PushAll(EMPTY, q, clk, 0).msgs == q
  {
    hide Push, Insert, Keep;
    if q != [] {
      var n := |q| - 1;
      AllGrowSnoc(q);
      assert q == q[..n] + [q[n]];
      ReplayInPlace(q[..n], clk, end);
      PushAllKeepsInv(EMPTY, q[..n], clk, 0);
      PushGrowth(PushAll(EMPTY, q[..n], clk, 0), clk(n), q[n]);
      InsertLast(q[..n], q[n]);
    }
  }

  lemma {:induction false} ReplayGrowth(ms: seq<Message>, clk: nat -> int)
    ensures |PushAll(EMPTY, ms, clk, 0).msgs| <= |ms|
    ensures |PushAll(EMPTY, ms, clk, 0).msgs| == |ms| ==>
      PushAll(EMPTY, ms, clk, 0).msgs == StableSort(BornAll(ms, clk)) && AllGrow(ms)
  {
    hide Push, Insert, Keep;
    if ms != [] {
      var n := |ms| - 1;
      var s := PushAll(EMPTY, ms[..n], clk, 0);
      ReplayGrowth(ms[..n], clk);
      PushAllKeepsInv(EMPTY, ms[..n], clk, 0);
      PushGrowth(s, clk(n), ms[n]);
      if |PushAll(EMPTY, ms, clk, 0).msgs| == |ms| {
        assert BornAll(ms, clk)[..n] == BornAll(ms[..n], clk);
        SameIdentities(ms[..n], clk, ms[n].identity);
        AllGrowSnoc(ms);
      }
    }
  }

  lemma SameIdentities(ms: seq<Message>, clk: nat -> int, identity: string)
    ensures HasIdentity(StableSort(BornAll(ms, clk)), identity) <==> HasIdentity(ms, identity)
  {
    var born := BornAll(ms, clk);
    var r := StableSort(born);
    SortIntoSorted([], born);
    if HasIdentity(ms, identity) {
      var i :| 0 <= i < |ms| && ms[i].identity == identity;
      assert born[i] in born && born[i] in r;
    }
    if HasIdentity(r, identity) {
      var k :| 0 <= k < |r| && r[k].identity == identity;
      assert r[k] in r && r[k] in born;
      var i :| 0 <= i < |born| && born[i] == r[k];
      assert ms[i].identity == identity;
    }
  }

  lemma ReplayIdentity(q: seq<Message>, clk: nat -> int)
    requires LatestAt(clk, |q|) && Replayable(q, clk(|q|))
    ensures Rebuild(q, clk) == q
  {
    ReplayInPlace(q, clk, clk(|q|));
    KeepAll(q, AliveAt(clk(|q|)));
  }

  lemma ReplayIdentityOnly(q: seq<Message>, clk: nat -> int)
    requires forall k: nat :: k < |q| ==> clk(k) != 0
    requires Rebuild(q, clk) == q
    ensures Replayable(q, clk(|q|))
  {
    hide Push, Insert;
    var s := PushAll(EMPTY, q, clk, 0);
    var born := BornAll(q, clk);
    ReplayGrowth(q, clk);
    KeepFull(s.msgs, AliveAt(clk(|q|)));
    KeepAll(s.msgs, AliveAt(clk(|q|)));
    assert q == StableSort(born);
    SortIntoSorted([], born);
    forall m | m in q ensures m.birthtime != 0 {
      assert m in born;
    }
  }

  /** A stored list replays to itself exactly when it is sorted, alive, and every entry finds room,
      has its times set, and (unless published) meets no earlier entry of its identity. */
  lemma ReplayExactly(q: seq<Message>, clk: nat -> int)
    requires LatestAt(clk, |q|)
    requires forall k: nat :: k < |q| ==> clk(k) != 0
    ensures Rebuild(q, clk) == q <==> Replayable(q, clk(|q|))
  {
    if Replayable(q, clk(|q|)) {
      ReplayIdentity(q, clk);
    }
    if Rebuild(q, clk) == q {
      ReplayIdentityOnly(q, clk);
    }
  }
}
