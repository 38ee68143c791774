/** Exactly when merging in stages and merging at once can never be told apart, for any mix of actions
    and limits, whatever is pushed afterwards. */
module Agreement {
  import opened Messages
  import opened Selections
  import opened QueueSpec
  import opened BoundedSort
  import opened Replay
  import opened Merging

  /** The value left by further pushes and a last expiry. */
  function After(s: State, ys: seq<Message>, later: nat -> int): seq<Message> {
    Keep(PushAll(s, ys, later, 0).msgs, AliveAt(later(|ys|)))
  }

  /** No reading among the first n + 1 is before `now`. */
  ghost predicate NotBefore(later: nat -> int, n: nat, now: int) {
    forall k: nat :: k <= n ==> later(k) >= now
  }

  // ----- queues with the same future -----

  /** What an update leaves of a message. */
  function Core(m: Message): Message {
    m.(limit := 0, birthtime := 0, lifetime := 0, content := None, key := 0)
  }

  /** Equal, or both dead and the same to any update. */
  predicate Alike(x: Message, y: Message, now: int) {
    x == y || (x.DeathTime() < now && y.DeathTime() < now && Core(x) == Core(y))
  }

  ghost predicate AlikeLists(a: seq<Message>, b: seq<Message>, now: int) {
    |a| == |b| && forall i :: 0 <= i < |a| ==> Alike(a[i], b[i], now)
  }

  lemma AlikeJoin(a: seq<Message>, b: seq<Message>, a': seq<Message>, b': seq<Message>, now: int)
    requires AlikeLists(a, b, now) && AlikeLists(a', b', now)
    ensures AlikeLists(a + a', b + b', now)
  {}

  lemma {:induction false} KeepAlike(a: seq<Message>, b: seq<Message>, sel: Selector, now: int)
    requires AlikeLists(a, b, now) && !sel.AliveAt?
    ensures AlikeLists(Keep(a, sel), Keep(b, sel), now)
  {
    if a != [] {
      KeepAlike(a[1..], b[1..], sel, now);
      assert Alike(a[0], b[0], now);
      AlikeJoin(if sel.Selects(a[0]) then [a[0]] else [], if sel.Selects(b[0]) then [b[0]] else [],
        Keep(a[1..], sel), Keep(b[1..], sel), now);
    }
  }

  lemma {:induction false} LivingAlike(a: seq<Message>, b: seq<Message>, now: int, t: int)
    requires AlikeLists(a, b, now) && t >= now
    ensures Keep(a, AliveAt(t)) == Keep(b, AliveAt(t))
  {
    if a != [] {
      LivingAlike(a[1..], b[1..], now, t);
      assert Alike(a[0], b[0], now);
    }
  }

  lemma PublishedAlike(s: State, w: State, now: int, t: int, m: Message)
    requires AlikeLists(s.msgs, w.msgs, now)
    ensures AlikeLists(Published(s, t, m).msgs, Published(w, t, m).msgs, now)
  {
    hide Keep, FitsBetween, AlikeLists;
    var born, below, above := m.Born(t), CursorAtMost(m.cursor), CursorAbove(m.cursor);
    var sb, sa, wb, wa := Keep(s.msgs, below), Keep(s.msgs, above), Keep(w.msgs, below), Keep(w.msgs, above);
    KeepAlike(s.msgs, w.msgs, below, now);
    KeepAlike(s.msgs, w.msgs, above, now);
    AlikeToSelf([born], now);
    AlikeJoin(sb, wb, [born], [born], now);
    AlikeJoin(sb + [born], wb + [born], sa, wa, now);
  }

  lemma AlikeToSelf(q: seq<Message>, now: int)
    ensures AlikeLists(q, q, now)
  {}

  lemma EditedAlike(a: seq<Message>, b: seq<Message>, now: int, m: Message)
    requires AlikeLists(a, b, now)
    ensures HasIdentity(a, m.identity) <==> HasIdentity(b, m.identity)
    ensures AlikeLists(Edited(a, m), Edited(b, m), now)
  {
    forall i | 0 <= i < |a| ensures Alike(a[i].EditedBy(m), b[i].EditedBy(m), now) && a[i].identity == b[i].identity {
      assert Alike(a[i], b[i], now);
    }
  }

  lemma ActedAlike(s: State, w: State, now: int, t: int, m: Message)
    requires AlikeLists(s.msgs, w.msgs, now)
    ensures AlikeLists(Acted(s, t, m).msgs, Acted(w, t, m).msgs, now)
  {
    hide Keep, AlikeLists, Published, HasIdentity, LimitChanges, Edited;
    EditedAlike(s.msgs, w.msgs, now, m);
    PublishedAlike(s, w, now, t, m);
    KeepAlike(s.msgs, w.msgs, OtherIdentity(m.identity), now);
    PublishedAlike(WithoutIdentity(s, m.identity), WithoutIdentity(w, m.identity), now, t, m);
  }

  lemma SettledAlike(s: State, w: State, now: int, t: int, m: Message)
    requires AlikeLists(s.msgs, w.msgs, now)
    ensures AlikeLists(Settled(s, t, m).msgs, Settled(w, t, m).msgs, now)
  {
    hide Acted;
    if !HandedBack(m) {
      ActedAlike(s, w, now, t, m);
    }
  }

  /** The last expiry matters only to a queue that holds something. */
  ghost predicate SameFuture(s: State, w: State, now: int) {
    AlikeLists(s.msgs, w.msgs, now) && (s.last == w.last || s.msgs == [])
  }

  lemma PushSameFuture(s: State, w: State, now: int, t: int, m: Message)
    requires SameFuture(s, w, now) && t >= now
    ensures SameFuture(Push(s, t, m), Push(w, t, m), now)
  {
    hide Keep, Settled, AlikeLists;
    var s0, w0 := ExpiredUnlessSameSecond(s, t), ExpiredUnlessSameSecond(w, t);
    assert AlikeLists(s0.msgs, w0.msgs, now) by {
      LivingAlike(s.msgs, w.msgs, now, t);
      AlikeToSelf(Keep(s.msgs, AliveAt(t)), now);
      if s.msgs == [] {
        assert |w.msgs| == 0 && Keep([], AliveAt(t)) == [] by {
          EmptyAlike(w.msgs, now, t);
        }
      }
    }
    SettledAlike(s0, w0, now, t, m);
    PushSetsLast(s, t, m);
    PushSetsLast(w, t, m);
  }

  lemma EmptyAlike(b: seq<Message>, now: int, t: int)
    requires AlikeLists([], b, now)
    ensures b == [] && Keep([], AliveAt(t)) == []
  {}

  lemma PushSetsLast(s: State, t: int, m: Message)
    ensures Push(s, t, m).last == t
  {
    hide Keep, Insert, FitsBetween, HasIdentity, LimitChanges, Edited;
  }

  lemma {:induction false} RunSameFuture(s: State, w: State, ys: seq<Message>, later: nat -> int, now: int)
    requires SameFuture(s, w, now) && NotBefore(later, |ys|, now)
    ensures SameFuture(PushAll(s, ys, later, 0), PushAll(w, ys, later, 0), now)
  {
    hide Push, SameFuture;
    if ys != [] {
      var n := |ys| - 1;
      RunSameFuture(s, w, ys[..n], later, now);
      PushSameFuture(PushAll(s, ys[..n], later, 0), PushAll(w, ys[..n], later, 0), now, later(n), ys[n]);
    }
  }

  lemma SameFutureAgrees(s: State, w: State, ys: seq<Message>, later: nat -> int, now: int)
    requires SameFuture(s, w, now) && NotBefore(later, |ys|, now)
    ensures After(s, ys, later) == After(w, ys, later)
  {
    hide Push, PushAll, Keep;
    RunSameFuture(s, w, ys, later, now);
    LivingAlike(PushAll(s, ys, later, 0).msgs, PushAll(w, ys, later, 0).msgs, now, later(|ys|));
  }

  // ----- pushes that tell queues apart -----

  /** Longer than every identity of the list. */
  function Unused(q: seq<Message>): (r: string)
    ensures forall m :: m in q ==> |m.identity| < |r|
  {
    if q == [] then "-" else q[0].identity + Unused(q[1..])
  }

  /** An update without lifetime that only finds messages of its identity, and never inserts. */
  function Reviver(identity: string, limit: nat, now: int): Message {
    Message(Update, limit, now, 0, 0, identity, None, 0, false)
  }

  function Revived(m: Message, limit: nat, now: int): Message {
    m.UpdatedBy(Reviver(m.identity, limit, now))
  }

  /** In a queue that does not know the identity it is a trim. */
  lemma TrimmedTail(s: State, now: int, identity: string, n: nat)
    requires s.last == now || s.msgs == []
    requires !HasIdentity(s.msgs, identity)
    ensures After(s, [Reviver(identity, n, now)], Frozen(now)) == Keep(LastN(s.msgs, n), AliveAt(now))
  {
    var u := Reviver(identity, n, now);
    assert PushAll(s, [u], Frozen(now), 0) == Push(s, now, u) by {
      assert [u][..0] == [];
      assert PushAll(s, [u][..0], Frozen(now), 0) == s;
    }
    assert Keep([], AliveAt(now)) == [];
  }

  ghost predicate RevivedWhere(q: seq<Message>, r: seq<Message>, ids: set<string>, limit: nat, now: int) {
    && |r| == |q|
    && forall i :: 0 <= i < |q| ==> r[i] == if q[i].identity in ids then Revived(q[i], limit, now) else q[i]
  }

  lemma ReviverPush(s: State, identity: string, limit: nat, now: int)
    requires |s.msgs| <= limit && (s.last == now || s.msgs == [])
    ensures var u := Reviver(identity, limit, now);
      Push(s, now, u).msgs == if HasIdentity(s.msgs, identity) then Edited(s.msgs, u) else s.msgs
  {
    hide HasIdentity, Edited;
    assert Keep([], AliveAt(now)) == [];
    assert ExpiredUnlessSameSecond(s, now).msgs == s.msgs;
    hide Keep, Expired;
  }

  lemma ReviveOne(q: seq<Message>, s: State, ids: set<string>, identity: string, limit: nat, now: int)
    requires RevivedWhere(q, s.msgs, ids, limit, now) && |q| <= limit && (s.last == now || s.msgs == [])
    ensures RevivedWhere(q, Push(s, now, Reviver(identity, limit, now)).msgs, ids + {identity}, limit, now)
  {
    hide Push;
    ReviverPush(s, identity, limit, now);
    assert forall i :: 0 <= i < |q| ==> s.msgs[i].identity == q[i].identity;
    if !HasIdentity(s.msgs, identity) {
      assert forall i :: 0 <= i < |q| ==> s.msgs[i].identity != identity;
    }
  }

  function Revivers(q: seq<Message>, limit: nat, now: int): (r: seq<Message>)
    ensures |r| == |q| && forall i :: 0 <= i < |q| ==> r[i] == Reviver(q[i].identity, limit, now)
  {
    seq(|q|, i requires 0 <= i < |q| => Reviver(q[i].identity, limit, now))
  }

  function IdentitiesOf(q: seq<Message>): set<string> {
    set m | m in q :: m.identity
  }

  lemma {:induction false} ReviveAll(s: State, all: seq<Message>, limit: nat, now: int)
    requires (s.last == now || s.msgs == []) && |s.msgs| <= limit
    ensures var s' := PushAll(s, Revivers(all, limit, now), Frozen(now), 0);
      && RevivedWhere(s.msgs, s'.msgs, IdentitiesOf(all), limit, now)
      && (s'.last == now || s'.msgs == [])
  {
    hide Push;
    if all != [] {
      var n := |all| - 1;
      ReviveAll(s, all[..n], limit, now);
      assert Revivers(all, limit, now)[..n] == Revivers(all[..n], limit, now);
      var before := PushAll(s, Revivers(all[..n], limit, now), Frozen(now), 0);
      ReviveOne(s.msgs, before, IdentitiesOf(all[..n]), all[n].identity, limit, now);
      PushSetsLast(before, now, Reviver(all[n].identity, limit, now));
      assert all == all[..n] + [all[n]];
      assert IdentitiesOf(all) == IdentitiesOf(all[..n]) + {all[n].identity};
    }
  }

  /** Reviving everything shows every stored message, the dead included, in what an update leaves of it. */
  lemma RevivedValue(s: State, all: seq<Message>, limit: nat, now: int)
    requires (s.last == now || s.msgs == []) && |s.msgs| <= limit
    requires forall m :: m in s.msgs ==> m in all
    ensures var v := After(s, Revivers(all, limit, now), Frozen(now));
      |v| == |s.msgs| && forall i :: 0 <= i < |v| ==> v[i] == Revived(s.msgs[i], limit, now)
  {
    hide Push, PushAll;
    ReviveAll(s, all, limit, now);
    var r := PushAll(s, Revivers(all, limit, now), Frozen(now), 0).msgs;
    forall i | 0 <= i < |r| ensures r[i] == Revived(s.msgs[i], limit, now) {
      assert s.msgs[i] in all && s.msgs[i].identity in IdentitiesOf(all);
    }
    KeepAll(r, AliveAt(now));
  }

  lemma SameLength(s: State, w: State, now: int)
    requires (s.last == now || s.msgs == []) && (w.last == now || w.msgs == [])
    requires forall ys :: After(s, ys, Frozen(now)) == After(w, ys, Frozen(now))
    ensures |s.msgs| == |w.msgs|
    ensures forall i :: 0 <= i < |s.msgs| ==> Core(s.msgs[i]) == Core(w.msgs[i])
  {
    hide After;
    var all := s.msgs + w.msgs;
    var ys := Revivers(all, |all|, now);
    RevivedValue(s, all, |all|, now);
    RevivedValue(w, all, |all|, now);
    assert After(s, ys, Frozen(now)) == After(w, ys, Frozen(now));
    forall i | 0 <= i < |s.msgs| ensures Core(s.msgs[i]) == Core(w.msgs[i]) {
      assert Revived(s.msgs[i], |all|, now) == Revived(w.msgs[i], |all|, now);
    }
  }

  lemma SameTails(s: State, w: State, now: int, n: nat)
    requires (s.last == now || s.msgs == []) && (w.last == now || w.msgs == [])
    requires forall ys :: After(s, ys, Frozen(now)) == After(w, ys, Frozen(now))
    ensures Keep(LastN(s.msgs, n), AliveAt(now)) == Keep(LastN(w.msgs, n), AliveAt(now))
  {
    hide After;
    var identity := Unused(s.msgs + w.msgs);
    assert !HasIdentity(s.msgs, identity) by {
      assert forall i :: 0 <= i < |s.msgs| ==> s.msgs[i] in s.msgs + w.msgs;
    }
    assert !HasIdentity(w.msgs, identity) by {
      assert forall i :: 0 <= i < |w.msgs| ==> w.msgs[i] in s.msgs + w.msgs;
    }
    TrimmedTail(s, now, identity, n);
    TrimmedTail(w, now, identity, n);
  }

  lemma KeepHead(a: seq<Message>, b: seq<Message>, sel: Selector)
    requires a != [] && b != []
    requires Keep(a, sel) == Keep(b, sel) && Keep(a[1..], sel) == Keep(b[1..], sel)
    ensures (sel.Selects(a[0]) <==> sel.Selects(b[0])) && (sel.Selects(a[0]) ==> a[0] == b[0])
  {
    if sel.Selects(a[0]) {
      assert Keep(a, sel)[0] == a[0];
    }
  }

  lemma LastNHead<T>(q: seq<T>, i: nat)
    requires i < |q|
    ensures var t := LastN(q, |q| - i); t != [] && t[0] == q[i] && t[1..] == LastN(q, |q| - i - 1)
  {}

  lemma AlikeByTails(s: State, w: State, now: int, i: nat)
    requires (s.last == now || s.msgs == []) && (w.last == now || w.msgs == [])
    requires forall ys :: After(s, ys, Frozen(now)) == After(w, ys, Frozen(now))
    requires i < |s.msgs| == |w.msgs| && Core(s.msgs[i]) == Core(w.msgs[i])
    ensures Alike(s.msgs[i], w.msgs[i], now)
  {
    hide After, Keep, LastN;
    var n := |s.msgs| - i;
    SameTails(s, w, now, n);
    SameTails(s, w, now, n - 1);
    LastNHead(s.msgs, i);
    LastNHead(w.msgs, i);
    KeepHead(LastN(s.msgs, n), LastN(w.msgs, n), AliveAt(now));
  }

  /** Two queues expired in the same second cannot be told apart by any pushes, at any readings from that
      second on, if and only if they hold the same messages up to the unseen parts of the dead. */
  lemma FutureExactly(s: State, w: State, now: int)
    requires (s.last == now || s.msgs == []) && (w.last == now || w.msgs == [])
    ensures (forall ys :: After(s, ys, Frozen(now)) == After(w, ys, Frozen(now))) <==> AlikeLists(s.msgs, w.msgs, now)
    ensures (forall ys, later | NotBefore(later, |ys|, now) :: After(s, ys, later) == After(w, ys, later)) <==>
      AlikeLists(s.msgs, w.msgs, now)
  {
    hide After;
    if AlikeLists(s.msgs, w.msgs, now) {
      forall ys, later | NotBefore(later, |ys|, now) ensures After(s, ys, later) == After(w, ys, later) {
        SameFutureAgrees(s, w, ys, later, now);
      }
      assert forall ys: seq<Message> :: NotBefore(Frozen(now), |ys|, now);
    }
    if forall ys :: After(s, ys, Frozen(now)) == After(w, ys, Frozen(now)) {
      SameLength(s, w, now);
      forall i | 0 <= i < |s.msgs| ensures Alike(s.msgs[i], w.msgs[i], now) {
        AlikeByTails(s, w, now, i);
      }
    }
    if forall ys, later | NotBefore(later, |ys|, now) :: After(s, ys, later) == After(w, ys, later) {
      forall ys ensures After(s, ys, Frozen(now)) == After(w, ys, Frozen(now)) {
        assert NotBefore(Frozen(now), |ys|, now);
      }
    }
  }

  // ----- stages -----

  /** n readings of one clock, then another's. */
  function Then(clk: nat -> int, n: nat, later: nat -> int): nat -> int {
    (k: nat) => if k < n then clk(k) else later(k - n)
  }

  /** n readings of `a` from the i-th on are those of `b` from the j-th on. */
  ghost predicate SameReadings(a: nat -> int, i: nat, b: nat -> int, j: nat, n: nat) {
    forall k: nat :: i <= k < i + n ==> a(k) == b(k - i + j)
  }

  lemma {:induction false} PushAllClock(s: State, ms: seq<Message>, a: nat -> int, i: nat, b: nat -> int, j: nat)
    requires SameReadings(a, i, b, j, |ms|)
    ensures PushAll(s, ms, a, i) == PushAll(s, ms, b, j)
  {
    hide Push;
    if ms != [] {
      PushAllClock(s, ms[..|ms| - 1], a, i, b, j);
    }
  }

  lemma RebuildAfter(ms: seq<Message>, ys: seq<Message>, clk: nat -> int, later: nat -> int, whole: nat -> int)
    requires SameReadings(whole, 0, clk, 0, |ms|) && SameReadings(whole, |ms|, later, 0, |ys| + 1)
    ensures Rebuild(ms + ys, whole) == After(PushAll(EMPTY, ms, clk, 0), ys, later)
  {
    hide PushAll, Keep;
    PushAllAppend(EMPTY, ms, ys, whole, 0);
    PushAllClock(EMPTY, ms, whole, 0, clk, 0);
    assert SameReadings(whole, |ms|, later, 0, |ys|) && whole(|ms + ys|) == later(|ys|);
    hide SameReadings;
    PushAllClock(PushAll(EMPTY, ms, clk, 0), ys, whole, |ms|, later, 0);
  }

  lemma RebuildThen(ms: seq<Message>, ys: seq<Message>, clk: nat -> int, later: nat -> int)
    ensures Rebuild(ms + ys, Then(clk, |ms|, later)) == After(PushAll(EMPTY, ms, clk, 0), ys, later)
  {
    hide PushAll, Rebuild, After;
    RebuildAfter(ms, ys, clk, later, Then(clk, |ms|, later));
  }

  /** The last message is pushed in the second `now`. */
  ghost predicate EndsAt(ms: seq<Message>, clk: nat -> int, now: int) {
    ms != [] ==> clk(|ms| - 1) == now
  }

  lemma EndsSettled(ms: seq<Message>, clk: nat -> int, now: int)
    requires EndsAt(ms, clk, now)
    ensures var s := PushAll(EMPTY, ms, clk, 0); s.last == now || s.msgs == []
  {
    hide Push;
    if ms != [] {
      var n := |ms| - 1;
      PushSetsLast(PushAll(EMPTY, ms[..n], clk, 0), clk(n), ms[n]);
    }
  }

  /** A value r stored early and then replayed, against everything replayed at once. With any clocks that
      reach the same second, no later operands and no later readings tell them apart if and only if both
      replays leave the same list, up to the unseen parts of the dead. */
  lemma StagesAgreeExactly(r: seq<Message>, replay: nat -> int, first: seq<Message>, once: nat -> int, now: int)
    requires EndsAt(r, replay, now) && EndsAt(first, once, now)
    ensures (forall ys, later | NotBefore(later, |ys|, now) ::
        Rebuild(r + ys, Then(replay, |r|, later)) == Rebuild(first + ys, Then(once, |first|, later))) <==>
      AlikeLists(PushAll(EMPTY, r, replay, 0).msgs, PushAll(EMPTY, first, once, 0).msgs, now)
  {
    hide Rebuild, PushAll, After, AlikeLists;
    var s, w := PushAll(EMPTY, r, replay, 0), PushAll(EMPTY, first, once, 0);
    EndsSettled(r, replay, now);
    EndsSettled(first, once, now);
    FutureExactly(s, w, now);
    forall ys: seq<Message>, later: nat -> int
      ensures Rebuild(r + ys, Then(replay, |r|, later)) == After(s, ys, later)
      ensures Rebuild(first + ys, Then(once, |first|, later)) == After(w, ys, later)
    {
      RebuildThen(r, ys, replay, later);
      RebuildThen(first, ys, once, later);
    }
  }

  // ----- a stage within one second -----

  ghost predicate BirthsSet(q: seq<Message>) {
    forall m :: m in q ==> m.birthtime != 0
  }

  /** Within one second room alone decides, dead or alive. */
  lemma GrowthSameSecond(s: State, now: int, m: Message)
    requires Inv(s) && (s.last == now || s.msgs == []) && Grows(s.msgs, m)
    ensures Push(s, now, m).msgs == Insert(s.msgs, m.Born(now))
  {
    assert Keep([], AliveAt(now)) == [];
    ExpiredKeepsInv(s, now);
    ActedGrowth(ExpiredUnlessSameSecond(s, now), now, m);
  }

  lemma FrozenSettled(ms: seq<Message>, now: int)
    ensures var s := PushAll(EMPTY, ms, Frozen(now), 0); Inv(s) && (s.last == now || s.msgs == [])
  {
    hide PushAll;
    EndsSettled(ms, Frozen(now), now);
    PushAllKeepsInv(EMPTY, ms, Frozen(now), 0);
  }

  lemma {:induction false} ReplayFrozen(q: seq<Message>, now: int)
    requires Sorted(q) && BirthsSet(q) && AllGrow(q)
    ensures PushAll(EMPTY, q, Frozen(now), 0).msgs == q
  {
    hide Push, Insert, Inv, Keep, Grows;
    if q != [] {
      var n := |q| - 1;
      AllGrowSnoc(q);
      assert q == q[..n] + [q[n]];
      ReplayFrozen(q[..n], now);
      FrozenSettled(q[..n], now);
      GrowthSameSecond(PushAll(EMPTY, q[..n], Frozen(now), 0), now, q[n]);
      InsertLast(q[..n], q[n]);
    }
  }

  /** A replay of the living part as long as the whole: nothing was dead and everything found room. */
  lemma ReplayAsLong(q: seq<Message>, t: int, now: int)
    requires |PushAll(EMPTY, Keep(q, AliveAt(t)), Frozen(now), 0).msgs| == |q|
    ensures All(q, AliveAt(t)) && Keep(q, AliveAt(t)) == q && AllGrow(q)
  {
    hide PushAll, Grows;
    ReplayGrowth(Keep(q, AliveAt(t)), Frozen(now));
    KeepFull(q, AliveAt(t));
    KeepAll(q, AliveAt(t));
  }

  lemma LivingAlikeIsEqual(a: seq<Message>, b: seq<Message>, now: int)
    requires AlikeLists(a, b, now) && All(b, AliveAt(now))
    ensures a == b
  {
    forall i | 0 <= i < |a| ensures a[i] == b[i] {
      assert Alike(a[i], b[i], now) && b[i] in b;
    }
  }

  lemma ReplayAlike(q: seq<Message>, now: int)
    requires now != 0
    ensures var r := Keep(q, AliveAt(now));
      AlikeLists(PushAll(EMPTY, r, Frozen(now), 0).msgs, q, now) <==> All(q, AliveAt(now)) && Replayable(r, now)
  {
    hide PushAll, AllGrow, Keep, AlikeLists;
    var r := Keep(q, AliveAt(now));
    var r' := PushAll(EMPTY, r, Frozen(now), 0).msgs;
    if AlikeLists(r', q, now) {
      assert |r'| == |q| by { AlikeLengths(r', q, now); }
      ReplayAsLong(q, now, now);
      LivingAlikeIsEqual(r', q, now);
      ReplayExactly(r, Frozen(now));
    }
    if All(q, AliveAt(now)) && Replayable(r, now) {
      KeepAll(q, AliveAt(now));
      ReplayInPlace(r, Frozen(now), now);
      AlikeToSelf(q, now);
    }
  }

  lemma AlikeLengths(a: seq<Message>, b: seq<Message>, now: int)
    requires AlikeLists(a, b, now)
    ensures |a| == |b|
  {}

  /** Within one second: merging the first operands early can never be noticed, whatever comes after, if and
      only if nothing of them is dead at the end of that merge and its value replays to itself. */
  lemma StagesAgreeInOneSecond(first: seq<Message>, now: int)
    requires now != 0
    ensures var q, r := PushAll(EMPTY, first, Frozen(now), 0).msgs, Rebuild(first, Frozen(now));
      (forall ys :: Rebuild(r + ys, Frozen(now)) == Rebuild(first + ys, Frozen(now))) <==>
        All(q, AliveAt(now)) && Replayable(r, now)
  {
    hide PushAll, After, AlikeLists, Replayable, Keep;
    var w := PushAll(EMPTY, first, Frozen(now), 0);
    var r := Rebuild(first, Frozen(now));
    var s := PushAll(EMPTY, r, Frozen(now), 0);
    EndsSettled(first, Frozen(now), now);
    EndsSettled(r, Frozen(now), now);
    ReplayAlike(w.msgs, now);
    FutureExactly(s, w, now);
    hide Rebuild;
    forall ys: seq<Message>
      ensures Rebuild(r + ys, Frozen(now)) == After(s, ys, Frozen(now))
      ensures Rebuild(first + ys, Frozen(now)) == After(w, ys, Frozen(now))
    {
      RebuildAfter(r, ys, Frozen(now), Frozen(now), Frozen(now));
      RebuildAfter(first, ys, Frozen(now), Frozen(now), Frozen(now));
    }
  }

  // ----- a stage in an earlier second -----

  lemma PushAnySecond(s: State, t: int, w: State, now: int, m: Message)
    requires s.msgs == w.msgs && (s.last == t || s.msgs == []) && (w.last == now || w.msgs == [])
    requires m.birthtime != 0 && BirthsSet(s.msgs)
    ensures Push(s, t, m).msgs == Push(w, now, m).msgs && BirthsSet(Push(s, t, m).msgs)
  {
    hide FitsBetween, LimitChanges;
    assert Keep([], AliveAt(t)) == [] == Keep([], AliveAt(now));
    var s0, w0 := ExpiredUnlessSameSecond(s, t), ExpiredUnlessSameSecond(w, now);
    assert s0.msgs == s.msgs == w0.msgs;
    assert Acted(s0, t, m).msgs == Acted(w0, now, m).msgs && BirthsSet(Acted(s0, t, m).msgs) by {
      ActedAnySecond(s0, t, w0, now, m);
    }
    hide Acted, Expired;
  }

  lemma PublishedAnySecond(s: State, t: int, w: State, now: int, m: Message)
    requires s.msgs == w.msgs && m.birthtime != 0 && BirthsSet(s.msgs)
    ensures Published(s, t, m).msgs == Published(w, now, m).msgs && BirthsSet(Published(s, t, m).msgs)
  {
    hide FitsBetween, Keep;
  }

  lemma ActedAnySecond(s: State, t: int, w: State, now: int, m: Message)
    requires s.msgs == w.msgs && m.birthtime != 0 && BirthsSet(s.msgs)
    ensures Acted(s, t, m).msgs == Acted(w, now, m).msgs && BirthsSet(Acted(s, t, m).msgs)
  {
    hide Published, LimitChanges, Keep, Edited, HasIdentity;
    EditedBirths(s.msgs, m);
    PublishedAnySecond(s, t, w, now, m);
    PublishedAnySecond(WithoutIdentity(s, m.identity), t, WithoutIdentity(w, m.identity), now, m);
  }

  lemma EditedBirths(q: seq<Message>, m: Message)
    requires m.birthtime != 0 && BirthsSet(q)
    ensures BirthsSet(Edited(q, m))
  {
    var r := Edited(q, m);
    forall x | x in r ensures x.birthtime != 0 {
      var i :| 0 <= i < |r| && r[i] == x;
      assert q[i] in q;
    }
  }

  /** With birthtimes set, a replay within one second leaves the same list in any second. */
  lemma {:induction false} FrozenAnySecond(ms: seq<Message>, t: int, now: int)
    requires BirthsSet(ms)
    ensures PushAll(EMPTY, ms, Frozen(t), 0).msgs == PushAll(EMPTY, ms, Frozen(now), 0).msgs
    ensures BirthsSet(PushAll(EMPTY, ms, Frozen(now), 0).msgs)
  {
    hide Push, Inv;
    if ms != [] {
      var n := |ms| - 1;
      FrozenAnySecond(ms[..n], t, now);
      FrozenSettled(ms[..n], t);
      FrozenSettled(ms[..n], now);
      assert ms[n] in ms;
      PushAnySecond(PushAll(EMPTY, ms[..n], Frozen(t), 0), t, PushAll(EMPTY, ms[..n], Frozen(now), 0), now, ms[n]);
    }
  }

  /** The first operands merged within a second t, the rest from a second `now` on: never noticed if and only
      if nothing was dead at t when that merge ended and everything it stored finds room again. Whether those
      messages still live at `now` does not matter. Birthtimes are set as in every message the server writes. */
  lemma EarlierStageExactly(first: seq<Message>, t: int, now: int)
    requires BirthsSet(first)
    ensures var q, r := PushAll(EMPTY, first, Frozen(t), 0).msgs, Rebuild(first, Frozen(t));
      (forall ys, later | NotBefore(later, |ys|, now) ::
          Rebuild(r + ys, Then(Frozen(now), |r|, later)) == Rebuild(first + ys, Then(Frozen(now), |first|, later))) <==>
        All(q, AliveAt(t)) && AllGrow(q)
  {
    hide PushAll, AlikeLists, AllGrow, Keep, Then;
    var q, r := PushAll(EMPTY, first, Frozen(t), 0).msgs, Rebuild(first, Frozen(t));
    assert r == Keep(q, AliveAt(t));
    hide Rebuild;
    FrozenAnySecond(first, t, now);
    StagesAgreeExactly(r, Frozen(now), first, Frozen(now), now);
    var r' := PushAll(EMPTY, r, Frozen(now), 0).msgs;
    if AlikeLists(r', q, now) {
      AlikeLengths(r', q, now);
      ReplayAsLong(q, t, now);
    }
    if All(q, AliveAt(t)) && AllGrow(q) {
      KeepAll(q, AliveAt(t));
      FrozenSettled(first, t);
      ReplayFrozen(q, now);
      AlikeToSelf(q, now);
    }
  }

  lemma AllGrowUniform(q: seq<Message>, limit: nat)
    requires Uniform(q, limit) && |q| <= limit
    ensures AllGrow(q)
  {
    forall i | 0 <= i < |q| ensures Grows(q[..i], q[i]) {
      assert q[i] in q;
    }
  }

  /** For publishes under one limit only the tail of their sort decides. */
  lemma UniformStageExactly(first: seq<Message>, limit: nat, t: int, now: int)
    requires Uniform(first, limit)
    ensures var r := Rebuild(first, Frozen(t));
      (forall ys, later | NotBefore(later, |ys|, now) ::
          Rebuild(r + ys, Then(Frozen(now), |r|, later)) == Rebuild(first + ys, Then(Frozen(now), |first|, later))) <==>
        All(LastN(StableSort(first), limit), AliveAt(t))
  {
    hide PushAll, AllGrow, Keep, Then, Rebuild, SortInto;
    EarlierStageExactly(first, t, now);
    PublishAllSameSecond(EMPTY, first, limit, t);
    BoundedIsTailOfSort([], first, limit);
    UniformTail(first, limit);
    AllGrowUniform(LastN(StableSort(first), limit), limit);
  }
}
