/** Merging stored lists in stages, as the database may choose to, against merging them at once. */
module Merging {
  import opened Messages
  import opened Selections
  import opened QueueSpec
  import opened BoundedSort
  import opened Replay

  /** One merge: the stored value so far and the operands that came since, with its own clock. */
  datatype Stage = Stage(operands: seq<Message>, clk: nat -> int)

  function Staged(e: seq<Message>, stages: seq<Stage>): seq<Message> {
    if stages == [] then e
    else
      var n := |stages| - 1;
      Rebuild(Staged(e, stages[..n]) + stages[n].operands, stages[n].clk)
  }

  /** Everything ever given to the merges, in order. */
  function Bulk(e: seq<Message>, stages: seq<Stage>): seq<Message> {
    if stages == [] then e
    else
      var n := |stages| - 1;
      Bulk(e, stages[..n]) + stages[n].operands
  }

  /** The clock of a merge made within one second. */
  function Frozen(now: int): nat -> int {
    k => now
  }

  /** Publishes under one limit, with both times set. */
  ghost predicate Uniform(ms: seq<Message>, limit: nat) {
    Publishes(ms, limit) && forall m :: m in ms ==> m.birthtime != 0
  }

  lemma UniformBorn(ms: seq<Message>, clk: nat -> int, limit: nat)
    requires Uniform(ms, limit)
    ensures BornAll(ms, clk) == ms
  {
    assert forall i :: 0 <= i < |ms| ==> ms[i] in ms;
  }

  /** The last reading a stage takes: one for each message it replays, then one for its last expiry. */
  function LastReading(e: seq<Message>, stages: seq<Stage>): int
    requires stages != []
  {
    var n := |stages| - 1;
    stages[n].clk(|Staged(e, stages[..n])| + |stages[n].operands|)
  }

  /** Every stage ends while all it was given so far is alive. */
  ghost predicate AliveThroughout(e: seq<Message>, stages: seq<Stage>) {
    stages != [] ==>
      var n := |stages| - 1;
      && AliveThroughout(e, stages[..n])
      && LatestAt(stages[n].clk, |Staged(e, stages[..n])| + |stages[n].operands|)
      && All(Bulk(e, stages), AliveAt(LastReading(e, stages)))
  }

  // ----- nothing dead: the stages do not matter -----

  lemma RebuildLive(ms: seq<Message>, clk: nat -> int, limit: nat)
    requires Uniform(ms, limit) && LatestAt(clk, |ms|) && All(ms, AliveAt(clk(|ms|)))
    ensures Rebuild(ms, clk) == LastN(StableSort(ms), limit)
  {
    UniformBorn(ms, clk, limit);
    StableSortIsStable(ms);
    PublishAll(ms, clk, limit, clk(|ms|));
    OnlineIsOffline(ms, clk, limit, clk(|ms|), StableSort(ms));
    KeepAll(PushAll(EMPTY, ms, clk, 0).msgs, AliveAt(clk(|ms|)));
  }

  /** Sorting the tail of a sort together with more messages, and trimming again. */
  lemma SortTail(a: seq<Message>, b: seq<Message>, limit: nat)
    ensures LastN(StableSort(LastN(StableSort(a), limit) + b), limit) == LastN(StableSort(a + b), limit)
  {
    var s := StableSort(a);
    SortIntoSorted([], a);
    var t := LastN(s, limit);
    SortIntoAppend([], t, b);
    StableSortOfSorted(t);
    SortIntoAppend([], a, b);
    BoundedIsTailOfSort(s, b, limit);
    BoundedIsTailOfSort(t, b, limit);
    assert LastN(t, limit) == t;
  }

  lemma UniformTail(ms: seq<Message>, limit: nat)
    requires Uniform(ms, limit)
    ensures Uniform(LastN(StableSort(ms), limit), limit)
    ensures forall m :: m in LastN(StableSort(ms), limit) ==> m in ms
  {
    SortIntoSorted([], ms);
    var s := StableSort(ms);
    assert forall m :: m in LastN(s, limit) ==> m in s;
  }

  lemma OneMoreStage(bulk: seq<Message>, r: seq<Message>, ops: seq<Message>, clk: nat -> int, limit: nat)
    requires Uniform(bulk + ops, limit)
    requires r == bulk || r == LastN(StableSort(bulk), limit)
    requires LatestAt(clk, |r| + |ops|) && All(bulk + ops, AliveAt(clk(|r| + |ops|)))
    ensures Rebuild(r + ops, clk) == LastN(StableSort(bulk + ops), limit)
  {
    hide Rebuild, SortInto, Keep;
    assert forall m :: m in bulk ==> m in bulk + ops;
    UniformTail(bulk, limit);
    assert forall m :: m in r + ops ==> m in bulk + ops;
    RebuildLive(r + ops, clk, limit);
    SortTail(bulk, ops, limit);
  }

  /** However many merges the database makes of live publishes, the value is the same. */
  lemma {:induction false} StagesDoNotMatter(e: seq<Message>, stages: seq<Stage>, limit: nat)
    requires stages != []
    requires Uniform(Bulk(e, stages), limit) && AliveThroughout(e, stages)
    ensures Staged(e, stages) == LastN(StableSort(Bulk(e, stages)), limit)
  {
    hide Rebuild, SortInto, Keep;
    var n := |stages| - 1;
    var before, ops := stages[..n], stages[n].operands;
    if n > 0 {
      assert Uniform(Bulk(e, before), limit) by {
        assert forall m :: m in Bulk(e, before) ==> m in Bulk(e, before) + ops;
      }
      StagesDoNotMatter(e, before, limit);
    }
    var bulk, r, clk := Bulk(e, before), Staged(e, before), stages[n].clk;
    assert Bulk(e, stages) == bulk + ops;
    assert r == if n == 0 then bulk else LastN(StableSort(bulk), limit);
    assert LatestAt(clk, |r| + |ops|);
    assert LastReading(e, stages) == clk(|r| + |ops|);
    OneMoreStage(bulk, r, ops, clk, limit);
  }

  /** In particular staged merging is merging at once. */
  lemma StagedIsOneShot(e: seq<Message>, stages: seq<Stage>, clk: nat -> int, limit: nat)
    requires stages != []
    requires Uniform(Bulk(e, stages), limit) && AliveThroughout(e, stages)
    requires LatestAt(clk, |Bulk(e, stages)|) && All(Bulk(e, stages), AliveAt(clk(|Bulk(e, stages)|)))
    ensures Staged(e, stages) == Rebuild(Bulk(e, stages), clk)
  {
    StagesDoNotMatter(e, stages, limit);
    RebuildLive(Bulk(e, stages), clk, limit);
  }

  // ----- with dead messages: staging never loses more -----

  /** r is z without some of its messages, each of them dead at `now` or outside the last n of z. */
  ghost predicate OnlyLoses(z: seq<Message>, r: seq<Message>, n: nat, now: int) {
    if z == [] then r == []
    else
      var k, fewer := |z| - 1, if n == 0 then 0 else n - 1;
      || (r != [] && r[|r| - 1] == z[k] && OnlyLoses(z[..k], r[..|r| - 1], fewer, now))
      || ((n == 0 || z[k].DeathTime() < now) && OnlyLoses(z[..k], r, fewer, now))
  }

  lemma {:induction false} LosesNothing(z: seq<Message>, n: nat, now: int)
    ensures OnlyLoses(z, z, n, now)
  {
    if z != [] {
      LosesNothing(z[..|z| - 1], if n == 0 then 0 else n - 1, now);
    }
  }

  lemma {:induction false} LosesAllOutside(z: seq<Message>, now: int)
    ensures OnlyLoses(z, [], 0, now)
  {
    if z != [] {
      LosesAllOutside(z[..|z| - 1], now);
    }
  }

  lemma {:induction false} LosesMembers(z: seq<Message>, r: seq<Message>, n: nat, now: int)
    requires OnlyLoses(z, r, n, now)
    ensures |r| <= |z| && forall m :: m in r ==> m in z
  {
    if z != [] {
      var k, fewer := |z| - 1, if n == 0 then 0 else n - 1;
      assert z == z[..k] + [z[k]];
      if r != [] && r[|r| - 1] == z[k] && OnlyLoses(z[..k], r[..|r| - 1], fewer, now) {
        assert r == r[..|r| - 1] + [r[|r| - 1]];
        LosesMembers(z[..k], r[..|r| - 1], fewer, now);
      } else {
        LosesMembers(z[..k], r, fewer, now);
      }
    }
  }

  /** Losing twice is losing once, for the smaller window. */
  lemma {:induction false} LosesTwice(z: seq<Message>, r: seq<Message>, t: seq<Message>, n: nat, k: nat, now: int)
    requires n <= k
    requires OnlyLoses(z, r, n, now) && OnlyLoses(r, t, k, now)
    ensures OnlyLoses(z, t, n, now)
  {
    if z != [] {
      var z', n', k' := z[..|z| - 1], if n == 0 then 0 else n - 1, if k == 0 then 0 else k - 1;
      if r != [] && r[|r| - 1] == z[|z| - 1] && OnlyLoses(z', r[..|r| - 1], n', now) {
        var r' := r[..|r| - 1];
        if t != [] && t[|t| - 1] == r[|r| - 1] && OnlyLoses(r', t[..|t| - 1], k', now) {
          LosesTwice(z', r', t[..|t| - 1], n', k', now);
        } else {
          LosesTwice(z', r', t, n', k', now);
        }
      } else {
        LosesTwice(z', r, t, n', k, now);
      }
    }
  }

  lemma LastNSnoc<T>(q: seq<T>, n: nat)
    requires q != [] && n > 0
    ensures var k := |q| - 1;
      LastN(q, n) == LastN(q[..k], n - 1) + [q[k]] && LastN(q, n)[..|LastN(q, n)| - 1] == LastN(q[..k], n - 1)
  {}

  lemma {:induction false} LosesByTrim(r: seq<Message>, n: nat, now: int)
    ensures OnlyLoses(r, LastN(r, n), n, now)
  {
    hide LastN;
    if n == 0 {
      LosesAllOutside(r, now);
    } else if r != [] {
      var k := |r| - 1;
      LosesByTrim(r[..k], n - 1, now);
      LastNSnoc(r, n);
    }
  }

  lemma {:induction false} LosesByExpiry(r: seq<Message>, n: nat, t: int, now: int)
    requires t <= now
    ensures OnlyLoses(r, Keep(r, AliveAt(t)), n, now)
  {
    if r != [] {
      var k := |r| - 1;
      LosesByExpiry(r[..k], if n == 0 then 0 else n - 1, t, now);
      KeepSnoc(r, AliveAt(t));
      var live := Keep(r, AliveAt(t));
      if r[k].DeathTime() >= t {
        assert live[..|live| - 1] == Keep(r[..k], AliveAt(t));
      }
    }
  }

  lemma LosesInSmallerWindow(z: seq<Message>, r: seq<Message>, n: nat, k: nat, now: int)
    requires k <= n && OnlyLoses(z, r, n, now)
    ensures OnlyLoses(z, r, k, now)
  {
    LosesNothing(z, k, now);
    LosesTwice(z, z, r, k, n, now);
  }

  lemma {:induction false} LosesInBoth(a: seq<Message>, b: seq<Message>, ra: seq<Message>, rb: seq<Message>,
      n: nat, now: int)
    requires OnlyLoses(a, ra, if n < |b| then 0 else n - |b|, now)
    requires OnlyLoses(b, rb, n, now)
    ensures OnlyLoses(a + b, ra + rb, n, now)
  {
    if b == [] {
      assert a + b == a && ra + rb == ra;
    } else {
      var k, fewer := |b| - 1, if n == 0 then 0 else n - 1;
      assert (a + b)[..|a + b| - 1] == a + b[..k];
      if rb != [] && rb[|rb| - 1] == b[k] && OnlyLoses(b[..k], rb[..|rb| - 1], fewer, now) {
        LosesInBoth(a, b[..k], ra, rb[..|rb| - 1], fewer, now);
        assert (ra + rb)[..|ra + rb| - 1] == ra + rb[..|rb| - 1];
      } else {
        LosesInBoth(a, b[..k], ra, rb, fewer, now);
      }
    }
  }

  lemma LosesBelow(z: seq<Message>, r: seq<Message>, n: nat, now: int, c: int)
    requires Sorted(z) && z != [] && z[|z| - 1].cursor <= c && OnlyLoses(z, r, n, now)
    ensures Keep(z, CursorAtMost(c)) == z && Keep(r, CursorAtMost(c)) == r
    ensures Keep(z, CursorAbove(c)) == [] && Keep(r, CursorAbove(c)) == []
  {
    LosesMembers(z, r, n, now);
    forall m | m in z ensures m.cursor <= c {
      var i :| 0 <= i < |z| && z[i] == m;
    }
    KeepAll(z, CursorAtMost(c));
    KeepAll(r, CursorAtMost(c));
    KeepNone(z, CursorAbove(c));
    KeepNone(r, CursorAbove(c));
  }

  /** In sorted lists the parts below and above a cursor lose separately. */
  lemma {:induction false} LosesAround(z: seq<Message>, r: seq<Message>, n: nat, now: int, c: int)
    requires Sorted(z) && OnlyLoses(z, r, n, now)
    ensures OnlyLoses(Keep(z, CursorAbove(c)), Keep(r, CursorAbove(c)), n, now)
    ensures var above := |Keep(z, CursorAbove(c))|;
      OnlyLoses(Keep(z, CursorAtMost(c)), Keep(r, CursorAtMost(c)), if n < above then 0 else n - above, now)
  {
    hide Keep;
    if z != [] {
      var k, fewer := |z| - 1, if n == 0 then 0 else n - 1;
      if z[k].cursor <= c {
        LosesBelow(z, r, n, now, c);
      } else {
        KeepSnoc(z, CursorAbove(c));
        KeepSnoc(z, CursorAtMost(c));
        var za := Keep(z, CursorAbove(c));
        assert za[..|za| - 1] == Keep(z[..k], CursorAbove(c));
        if r != [] && r[|r| - 1] == z[k] && OnlyLoses(z[..k], r[..|r| - 1], fewer, now) {
          KeepSnoc(r, CursorAbove(c));
          KeepSnoc(r, CursorAtMost(c));
          var ra := Keep(r, CursorAbove(c));
          assert ra[..|ra| - 1] == Keep(r[..|r| - 1], CursorAbove(c));
          LosesAround(z[..k], r[..|r| - 1], fewer, now, c);
        } else {
          LosesAround(z[..k], r, fewer, now, c);
        }
      }
    }
  }

  lemma LosesThroughInsert(z: seq<Message>, r: seq<Message>, m: Message, n: nat, now: int)
    requires Sorted(z) && OnlyLoses(z, r, n, now)
    ensures OnlyLoses(Insert(z, m), Insert(r, m), n, now)
  {
    var below, above := CursorAtMost(m.cursor), CursorAbove(m.cursor);
    var zb, za, rb, ra := Keep(z, below), Keep(z, above), Keep(r, below), Keep(r, above);
    LosesAround(z, r, n, now, m.cursor);
    var n1 := if n < |za| then 0 else n - |za|;
    var n2 := if n1 < 1 then 0 else n1 - 1;
    LosesInSmallerWindow(zb, rb, n1, n2, now);
    LosesNothing([m], n1, now);
    LosesInBoth(zb, [m], rb, [m], n1, now);
    LosesInBoth(zb + [m], za, rb + [m], ra, n, now);
  }

  /** One publish, whatever it expires by the way. */
  lemma LosesThroughPush(z: seq<Message>, s: State, t: int, m: Message, now: int)
    requires Sorted(z) && t <= now
    requires m.action.Publish? && !m.Unlimited() && m.birthtime != 0
    requires OnlyLoses(z, s.msgs, m.limit, now)
    ensures OnlyLoses(Insert(z, m), Push(s, t, m).msgs, m.limit, now)
  {
    hide OnlyLoses;
    var q := ExpiredUnlessSameSecond(s, t).msgs;
    LosesByExpiry(s.msgs, m.limit, t, now);
    LosesNothing(s.msgs, m.limit, now);
    LosesTwice(z, s.msgs, q, m.limit, m.limit, now);
    LosesThroughInsert(z, q, m, m.limit, now);
    LosesByTrim(Insert(q, m), m.limit, now);
    LosesTwice(Insert(z, m), Insert(q, m), LastN(Insert(q, m), m.limit), m.limit, m.limit, now);
  }

  lemma {:induction false} LosesThroughReplay(z: seq<Message>, s: State, ms: seq<Message>, clk: nat -> int, k0: nat,
      limit: nat, now: int)
    requires Sorted(z) && Uniform(ms, limit)
    requires forall k: nat :: k0 <= k < k0 + |ms| ==> clk(k) <= now
    requires OnlyLoses(z, s.msgs, limit, now)
    ensures OnlyLoses(SortInto(z, ms), PushAll(s, ms, clk, k0).msgs, limit, now)
  {
    hide Push, Insert, OnlyLoses, Keep;
    if ms != [] {
      var n := |ms| - 1;
      assert ms[n] in ms;
      assert Uniform(ms[..n], limit);
      LosesThroughReplay(z, s, ms[..n], clk, k0, limit, now);
      assert Sorted(SortInto(z, ms[..n])) by {
        SortIntoSorted(z, ms[..n]);
      }
      LosesThroughPush(SortInto(z, ms[..n]), PushAll(s, ms[..n], clk, k0), clk(k0 + n), ms[n], now);
    }
  }

  lemma EmptySuffix<T>(b: seq<T>)
    ensures IsSuffix([], b)
  {}

  lemma LiveTailSnoc(a: seq<Message>, b: seq<Message>, x: Message, now: int)
    requires IsSuffix(Keep(a, AliveAt(now)), Keep(b, AliveAt(now)))
    ensures IsSuffix(Keep(a + [x], AliveAt(now)), Keep(b + [x], AliveAt(now)))
    ensures x.DeathTime() < now ==> IsSuffix(Keep(a + [x], AliveAt(now)), Keep(b, AliveAt(now)))
  {
    hide Keep;
    KeepAppend(a, [x], AliveAt(now));
    KeepAppend(b, [x], AliveAt(now));
    KeepOne(x, AliveAt(now));
  }

  lemma {:induction false} KeepsLiveTail(z: seq<Message>, r: seq<Message>, n: nat, now: int)
    requires OnlyLoses(z, r, n, now)
    ensures IsSuffix(Keep(LastN(z, n), AliveAt(now)), Keep(r, AliveAt(now)))
  {
    hide Keep, IsSuffix, LastN;
    if z == [] || n == 0 {
      EmptySuffix(Keep(r, AliveAt(now)));
    } else {
      var z', x := z[..|z| - 1], z[|z| - 1];
      LastNSnoc(z, n);
      if r != [] && r[|r| - 1] == x && OnlyLoses(z', r[..|r| - 1], n - 1, now) {
        KeepsLiveTail(z', r[..|r| - 1], n - 1, now);
        LiveTailSnoc(LastN(z', n - 1), r[..|r| - 1], x, now);
        assert r == r[..|r| - 1] + [x];
      } else {
        KeepsLiveTail(z', r, n - 1, now);
        LiveTailSnoc(LastN(z', n - 1), r, x, now);
      }
    }
  }

  /** Every reading of every stage is at most `now`. */
  ghost predicate ReadingsUpTo(e: seq<Message>, stages: seq<Stage>, now: int) {
    stages != [] ==>
      var n := |stages| - 1;
      && ReadingsUpTo(e, stages[..n], now)
      && forall k: nat :: k <= |Staged(e, stages[..n])| + |stages[n].operands| ==> stages[n].clk(k) <= now
  }

  /** A merge of a sorted value already merged: its own replay loses nothing but the dead. */
  lemma StageLoses(z: seq<Message>, r: seq<Message>, ops: seq<Message>, clk: nat -> int, limit: nat, now: int)
    requires Sorted(z) && Sorted(r) && Uniform(r + ops, limit)
    requires OnlyLoses(z, r, limit, now)
    requires forall k: nat :: k <= |r| + |ops| ==> clk(k) <= now
    ensures OnlyLoses(SortInto(z, ops), Rebuild(r + ops, clk), limit, now)
  {
    hide Push, Insert, OnlyLoses, PushAll, SortInto;
    assert Uniform(r, limit) && Uniform(ops, limit) by {
      assert forall m :: m in r || m in ops ==> m in r + ops;
    }
    LosesNothing([], limit, now);
    LosesThroughReplay([], EMPTY, r, clk, 0, limit, now);
    StableSortOfSorted(r);
    var s := PushAll(EMPTY, r, clk, 0);
    LosesTwice(z, r, s.msgs, limit, limit, now);
    LosesThroughReplay(z, s, ops, clk, |r|, limit, now);
    PushAllAppend(EMPTY, r, ops, clk, 0);
    var q := PushAll(EMPTY, r + ops, clk, 0).msgs;
    LosesByExpiry(q, limit, clk(|r + ops|), now);
    LosesTwice(SortInto(z, ops), q, Rebuild(r + ops, clk), limit, limit, now);
  }

  lemma FirstStageLoses(ms: seq<Message>, clk: nat -> int, limit: nat, now: int)
    requires Uniform(ms, limit)
    requires forall k: nat :: k <= |ms| ==> clk(k) <= now
    ensures OnlyLoses(StableSort(ms), Rebuild(ms, clk), limit, now)
  {
    StageLoses([], [], ms, clk, limit, now) by {
      assert [] + ms == ms;
    }
    assert [] + ms == ms;
  }

  lemma {:induction false} StagedLoses(e: seq<Message>, stages: seq<Stage>, limit: nat, now: int)
    requires stages != []
    requires Uniform(Bulk(e, stages), limit) && ReadingsUpTo(e, stages, now)
    ensures Sorted(Staged(e, stages))
    ensures OnlyLoses(StableSort(Bulk(e, stages)), Staged(e, stages), limit, now)
  {
    hide Push, Insert, OnlyLoses, PushAll, SortInto;
    var n := |stages| - 1;
    var before, ops, clk := stages[..n], stages[n].operands, stages[n].clk;
    var r, bulk := Staged(e, before), Bulk(e, before);
    assert Uniform(bulk, limit) && Uniform(ops, limit) by {
      assert forall m :: m in bulk || m in ops ==> m in bulk + ops;
    }
    PushAllKeepsInv(EMPTY, r + ops, clk, 0);
    KeepSorted(PushAll(EMPTY, r + ops, clk, 0).msgs, AliveAt(clk(|r + ops|)));
    if n == 0 {
      FirstStageLoses(e + ops, clk, limit, now);
    } else {
      StagedLoses(e, before, limit, now);
      SortIntoSorted([], bulk);
      LosesMembers(StableSort(bulk), r, limit, now);
      assert Uniform(r + ops, limit);
      StageLoses(StableSort(bulk), r, ops, clk, limit, now);
      SortIntoAppend([], bulk, ops);
    }
  }

  lemma {:induction false} PublishAllSameSecond(s: State, ms: seq<Message>, limit: nat, now: int)
    requires Uniform(ms, limit) && (s.last == now || s.msgs == [])
    ensures PushAll(s, ms, Frozen(now), 0).msgs == BoundedInto(s.msgs, ms, limit)
    ensures ms != [] ==> PushAll(s, ms, Frozen(now), 0).last == now
  {
    if ms != [] {
      var n := |ms| - 1;
      PublishAllSameSecond(s, ms[..n], limit, now);
      assert ms[n] in ms;
    }
  }

  lemma RebuildSameSecond(ms: seq<Message>, limit: nat, now: int)
    requires Uniform(ms, limit)
    ensures Rebuild(ms, Frozen(now)) == Keep(LastN(StableSort(ms), limit), AliveAt(now))
  {
    PublishAllSameSecond(EMPTY, ms, limit, now);
    BoundedIsTailOfSort([], ms, limit);
  }

  /** Dead messages hold their places in the bound until the end of a merge made within one second,
      so merging earlier, at any readings up to that second, can only keep more: the one-shot value
      is what a reader at that second finds at the end of the staged one. */
  lemma StagingNeverLoses(e: seq<Message>, stages: seq<Stage>, limit: nat, now: int)
    requires stages != []
    requires Uniform(Bulk(e, stages), limit) && ReadingsUpTo(e, stages, now)
    ensures IsSuffix(Rebuild(Bulk(e, stages), Frozen(now)), Keep(Staged(e, stages), AliveAt(now)))
    ensures LastReading(e, stages) == now ==> IsSuffix(Rebuild(Bulk(e, stages), Frozen(now)), Staged(e, stages))
  {
    hide OnlyLoses, SortInto, Push;
    StagedLoses(e, stages, limit, now);
    RebuildSameSecond(Bulk(e, stages), limit, now);
    KeepsLiveTail(StableSort(Bulk(e, stages)), Staged(e, stages), limit, now);
    if LastReading(e, stages) == now {
      KeepAll(Staged(e, stages), AliveAt(now));
    }
  }

  // ----- the hypotheses are needed -----

  lemma InsertOne(q: Message, m: Message)
    ensures Insert([], m) == [m]
    ensures Insert([q], m) == if q.cursor <= m.cursor then [q, m] else [m, q]
  {
    KeepOne(q, CursorAtMost(m.cursor));
    KeepOne(q, CursorAbove(m.cursor));
  }

  lemma SortTwo(x: Message, y: Message)
    ensures StableSort([x]) == [x]
    ensures StableSort([x, y]) == if x.cursor <= y.cursor then [x, y] else [y, x]
  {
    InsertOne(x, y);
    assert [x][..0] == [] && [x, y][..1] == [x];
    assert StableSort([]) == [];
    assert StableSort([x]) == Insert([], x) == [x];
    assert StableSort([x, y]) == Insert(StableSort([x]), y);
  }

  lemma StageTwice(x: Message, y: Message, now: int) returns (stages: seq<Stage>)
    ensures Bulk([], stages) == [x, y]
    ensures ReadingsUpTo([], stages, now)
    ensures Staged([], stages) == Rebuild(Rebuild([x], Frozen(now)) + [y], Frozen(now))
  {
    hide Rebuild;
    var one := [Stage([x], Frozen(now))];
    stages := one + [Stage([y], Frozen(now))];
    assert stages[..1] == one && one[..0] == [] && [] + [x] == [x];
    assert Staged([], one[..0]) == [] && Bulk([], one[..0]) == [];
    assert Staged([], one) == Rebuild([x], Frozen(now)) && Bulk([], one) == [x];
    assert ReadingsUpTo([], one[..0], now) && ReadingsUpTo([], one, now);
  }

  lemma RebuildOne(x: Message, now: int)
    requires Uniform([x], 1)
    ensures Rebuild([x], Frozen(now)) == if x.DeathTime() >= now then [x] else []
  {
    hide Rebuild, SortInto;
    SortTwo(x, x);
    RebuildSameSecond([x], 1, now);
    KeepOne(x, AliveAt(now));
  }

  lemma RebuildLastOfTwo(x: Message, y: Message, now: int)
    requires Uniform([x, y], 1) && y.cursor < x.cursor && x.DeathTime() < now
    ensures Rebuild([x, y], Frozen(now)) == []
  {
    hide Rebuild, SortInto;
    SortTwo(x, y);
    RebuildSameSecond([x, y], 1, now);
    assert LastN([y, x], 1) == [x];
    KeepOne(x, AliveAt(now));
  }

  /** With a dead message around, staging can keep what merging at once drops. */
  lemma StagingCanKeepMore(dead: Message, live: Message, now: int) returns (stages: seq<Stage>)
    requires Uniform([dead, live], 1) && live.cursor < dead.cursor
    requires dead.DeathTime() < now <= live.DeathTime()
    ensures Bulk([], stages) == [dead, live] && ReadingsUpTo([], stages, now)
    ensures Rebuild([dead, live], Frozen(now)) == []
    ensures Staged([], stages) == [live]
  {
    hide Rebuild, Staged, Bulk, ReadingsUpTo;
    stages := StageTwice(dead, live, now);
    assert dead in [dead, live] && live in [dead, live];
    RebuildLastOfTwo(dead, live, now);
    RebuildOne(dead, now);
    RebuildOne(live, now);
    assert [] + [live] == [live];
  }

  lemma PushTwo(x: Message, y: Message, clk: nat -> int)
    ensures PushAll(EMPTY, [x, y], clk, 0) == Push(Push(EMPTY, clk(0), x), clk(1), y)
  {
    assert [x, y][..1] == [x] && [x][..0] == [];
    assert PushAll(EMPTY, [x][..0], clk, 0) == EMPTY;
    assert PushAll(EMPTY, [x, y][..1], clk, 0) == Push(EMPTY, clk(0), x);
  }

  lemma RebuildInReverse(x: Message, y: Message, now: int)
    requires Grows([], x) && Grows([x], y) && y.cursor < x.cursor
    requires x.birthtime != 0 && y.birthtime != 0
    requires x.DeathTime() >= now && y.DeathTime() >= now
    ensures Rebuild([x, y], Frozen(now)) == [y, x]
  {
    hide Insert, Push, Keep;
    var s1 := Push(EMPTY, now, x);
    PushTwo(x, y, Frozen(now));
    PushKeepsInv(EMPTY, now, x);
    assert s1.msgs == [x] by {
      PushGrowth(EMPTY, now, x);
      InsertOne(x, x);
    }
    assert Push(s1, now, y).msgs == [y, x] by {
      PushGrowth(s1, now, y);
      InsertOne(x, y);
    }
    KeepAll([y, x], AliveAt(now));
  }

  lemma AllGrowTwo(a: Message, b: Message)
    ensures AllGrow([a, b]) <==> Grows([], a) && Grows([a], b)
  {
    assert [a, b][..1] == [a] && [a][..0] == [];
    AllGrowSnoc([a, b]);
    AllGrowSnoc([a]);
  }

  /** A merged value need not survive being merged again: replay goes by cursor and not by arrival. */
  lemma RemergeExactly(x: Message, y: Message, now: int)
    requires Grows([], x) && Grows([x], y) && y.cursor < x.cursor
    requires x.birthtime != 0 && y.birthtime != 0 && now != 0
    requires x.DeathTime() >= now && y.DeathTime() >= now
    ensures Rebuild(Rebuild([x, y], Frozen(now)), Frozen(now)) == Rebuild([x, y], Frozen(now)) <==> Grows([y], x)
  {
    hide Rebuild;
    RebuildInReverse(x, y, now);
    var q := [y, x];
    assert Replayable(q, now) <==> Grows([y], x) by {
      AllGrowTwo(y, x);
    }
    ReplayExactly(q, Frozen(now));
  }

  /** It fails for two publishes whose limits differ ... */
  lemma MixedLimitsLose() returns (x: Message, y: Message, now: int)
    ensures x.action.Publish? && y.action.Publish? && x.limit != y.limit
    ensures Rebuild(Rebuild([x, y], Frozen(now)), Frozen(now)) != Rebuild([x, y], Frozen(now))
  {
    x := Message(Publish, 1, 10, 5, 2, "a", None, 0, false);
    y := x.(limit := 2, cursor := 1);
    now := 10;
    RemergeExactly(x, y, now);
  }

  /** ... and for an update that is stored after a message of its identity. */
  lemma StoredEditLoses() returns (x: Message, y: Message, now: int)
    ensures x.action.Update? && y.action.Publish? && x.limit == y.limit
    ensures Rebuild(Rebuild([x, y], Frozen(now)), Frozen(now)) != Rebuild([x, y], Frozen(now))
  {
    x := Message(Update, 2, 10, 5, 2, "a", None, 0, false);
    y := x.(action := Publish, cursor := 1);
    now := 10;
    assert [y][0].identity == x.identity;
    RemergeExactly(x, y, now);
  }
}
