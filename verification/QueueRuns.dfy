/** What holds of one queue after any sequence of operations on it. */
module QueueRuns {
  import opened Messages
  import opened Selections
  import opened QueueSpec

  datatype QueueOp =
    | Pushing(now: int, m: Message)
    | Expiring(now: int)
    | Resizing(limit: nat)
    | Clearing
    | Reporting(reset: bool)

  function Applied(s: State, op: QueueOp): State {
    match op
    case Pushing(now, m) => Push(s, now, m)
    case Expiring(now) => Expired(s, now)
    case Resizing(limit) => Resized(s, limit)
    case Clearing => s.(msgs := [])
    case Reporting(reset) => if reset then s.(removed := 0) else s
  }

  function Run(s: State, ops: seq<QueueOp>): State {
    if ops == [] then s else Applied(Run(s, ops[..|ops| - 1]), ops[|ops| - 1])
  }

  // ----- fast expiry -----

  lemma AppliedKeepsInv(s: State, op: QueueOp)
    requires Inv(s)
    ensures Inv(Applied(s, op))
  {
    match op
    case Pushing(now, m) => PushKeepsInv(s, now, m);
    case Expiring(now) => ExpiredKeepsInv(s, now);
    case Resizing(limit) => ResizedKeepsInv(s, limit);
    case Clearing =>
    case Reporting(reset) =>
  }

  /** In every reachable state the list is sorted, and the flag promises one common deathtime. */
  lemma {:induction false} RunKeepsInv(s: State, ops: seq<QueueOp>)
    requires Inv(s)
    ensures Inv(Run(s, ops))
  {
    if ops != [] {
      RunKeepsInv(s, ops[..|ops| - 1]);
      AppliedKeepsInv(Run(s, ops[..|ops| - 1]), ops[|ops| - 1]);
    }
  }

  /** Expiry that stops at the first live message. */
  function DropDead(q: seq<Message>, now: int): seq<Message> {
    if q != [] && q[0].DeathTime() < now then DropDead(q[1..], now) else q
  }

  /** Whenever the flag is set, stopping early expires exactly the dead. */
  lemma FastExpiryExact(ops: seq<QueueOp>, now: int)
    ensures var s := Run(EMPTY, ops);
      s.sequenced ==> DropDead(s.msgs, now) == Keep(s.msgs, AliveAt(now))
  {
    RunKeepsInv(EMPTY, ops);
    if Run(EMPTY, ops).sequenced {
      DropDeadSameDeath(Run(EMPTY, ops).msgs, now);
    }
  }

  lemma {:induction false} DropDeadSameDeath(q: seq<Message>, now: int)
    requires SameDeath(q)
    ensures DropDead(q, now) == Keep(q, AliveAt(now))
  {
    if q != [] {
      if q[0].DeathTime() < now {
        assert SameDeath(q[1..]);
        DropDeadSameDeath(q[1..], now);
      } else {
        assert q[0] in q;
        KeepAll(q, AliveAt(now));
      }
    }
  }

  // ----- what the flag says of birthtimes -----

  lemma RisingJoin(a: seq<Message>, b: seq<Message>)
    ensures Rising(a + b) <==>
      Rising(a) && Rising(b) && forall x, y :: x in a && y in b ==> x.birthtime <= y.birthtime
  {
    var ab := a + b;
    assert forall i :: 0 <= i < |a| ==> ab[i] == a[i];
    assert forall j :: 0 <= j < |b| ==> ab[|a| + j] == b[j];
    if Rising(ab) {
      forall x, y | x in a && y in b ensures x.birthtime <= y.birthtime {
        var i :| 0 <= i < |a| && a[i] == x;
        var j :| 0 <= j < |b| && b[j] == y;
        assert ab[i].birthtime <= ab[|a| + j].birthtime;
      }
      forall i, j | 0 <= i < j < |b| ensures b[i].birthtime <= b[j].birthtime {
        assert ab[|a| + i].birthtime <= ab[|a| + j].birthtime;
      }
    }
  }

  lemma RisingSplit(a: seq<Message>, m: Message, b: seq<Message>)
    ensures Rising(a + [m] + b) <==>
      && Rising(a + b)
      && (forall x :: x in a ==> x.birthtime <= m.birthtime)
      && (forall x :: x in b ==> m.birthtime <= x.birthtime)
  {
    assert Rising([m]);
    hide Rising;
    RisingJoin(a, b);
    RisingJoin(a, [m]);
    RisingJoin(a + [m], b);
    assert forall x :: x in a + [m] <==> x in a || x == m;
  }

  /** The flag is kept by comparing birthtimes with the clock. Birthtimes keep rising, as the class comment
      of the source also promises, exactly when the new message's own birthtime fits among the others. */
  lemma FlagMeansRisingExactly(s: State, now: int, m: Message)
    requires Inv(s) && s.sequenced && Published(s, now, m).sequenced
    ensures InSequence(Published(s, now, m).msgs) <==>
      && InSequence(s.msgs)
      && forall x :: x in s.msgs ==>
           if x.cursor <= m.cursor then x.birthtime <= m.Born(now).birthtime else m.Born(now).birthtime <= x.birthtime
  {
    var born := m.Born(now);
    var a, b := Keep(s.msgs, CursorAtMost(m.cursor)), Keep(s.msgs, CursorAbove(m.cursor));
    assert a + b == s.msgs && Inv(Published(s, now, m)) by {
      InsertSorted(s.msgs, born);
      PublishedKeepsInv(s, now, m);
    }
    InSequenceIs(s.msgs);
    InSequenceIs(Published(s, now, m).msgs);
    RisingSplit(a, born, b);
    assert forall x :: x in a <==> x in s.msgs && x.cursor <= m.cursor;
    assert forall x :: x in b <==> x in s.msgs && x.cursor > m.cursor;
  }

  /** Every pushed message carries no birthtime, or the time of its push. */
  ghost predicate Stamped(ops: seq<QueueOp>) {
    forall i :: 0 <= i < |ops| && ops[i].Pushing? ==> ops[i].m.birthtime == 0 || ops[i].m.birthtime == ops[i].now
  }

  ghost predicate RisingIfFlagged(s: State) {
    Inv(s) && (s.sequenced ==> Rising(s.msgs))
  }

  lemma {:induction false} KeepRising(q: seq<Message>, sel: Selector)
    requires Rising(q)
    ensures Rising(Keep(q, sel))
  {
    if q != [] {
      KeepRising(q[1..], sel);
      var rest := Keep(q[1..], sel);
      forall i | 0 <= i < |rest| ensures q[0].birthtime <= rest[i].birthtime {
        assert rest[i] in rest && rest[i] in q[1..];
      }
    }
  }

  lemma FitsNow(a: seq<Message>, m: Message, b: seq<Message>, now: int)
    requires Rising(a) && Rising(b) && FitsBetween(a, m, b, now)
    ensures forall x :: x in a ==> x.birthtime <= now
    ensures forall x :: x in b ==> now <= x.birthtime
  {
    assert forall i :: 0 <= i < |a| - 1 ==> a[i].birthtime <= a[|a| - 1].birthtime;
    assert forall i :: 0 < i < |b| ==> b[0].birthtime <= b[i].birthtime;
  }

  lemma PublishedRising(s: State, now: int, m: Message)
    requires RisingIfFlagged(s) && m.Born(now).birthtime == now
    ensures RisingIfFlagged(Published(s, now, m))
  {
    hide Keep, Inv, Rising;
    PublishedKeepsInv(s, now, m);
    if Published(s, now, m).sequenced {
      var a, b := Keep(s.msgs, CursorAtMost(m.cursor)), Keep(s.msgs, CursorAbove(m.cursor));
      KeepRising(s.msgs, CursorAtMost(m.cursor));
      KeepRising(s.msgs, CursorAbove(m.cursor));
      FitsNow(a, m.Born(now), b, now);
      assert a + b == s.msgs by {
        SplitAtCursor(s, m.Born(now));
      }
      RisingSplit(a, m.Born(now), b);
    }
  }

  lemma SplitAtCursor(s: State, m: Message)
    requires Inv(s)
    ensures Keep(s.msgs, CursorAtMost(m.cursor)) + Keep(s.msgs, CursorAbove(m.cursor)) == s.msgs
  {
    InsertSorted(s.msgs, m);
  }

  lemma ActedRising(s: State, now: int, m: Message)
    requires RisingIfFlagged(s) && (m.birthtime == 0 || m.birthtime == now)
    ensures RisingIfFlagged(Acted(s, now, m))
  {
    hide Published, Keep, Rising;
    ActedKeepsInv(s, now, m);
    PublishedRising(s, now, m);
    if m.action.Replace? || m.action.Remove? {
      var rest := WithoutIdentity(s, m.identity);
      WithoutIdentityKeepsInv(s, m.identity);
      if s.sequenced {
        KeepRising(s.msgs, OtherIdentity(m.identity));
      }
      PublishedRising(rest, now, m);
    } else if m.action.Modify? && s.sequenced {
      EditedRising(s.msgs, m);
    }
  }

  lemma EditedRising(q: seq<Message>, m: Message)
    requires Rising(q) && m.action.Modify?
    ensures Rising(Edited(q, m))
  {
    var r := Edited(q, m);
    assert forall i :: 0 <= i < |q| ==> r[i].birthtime == q[i].birthtime;
  }

  lemma ExpiredRising(s: State, now: int)
    requires RisingIfFlagged(s)
    ensures RisingIfFlagged(Expired(s, now))
  {
    hide Keep;
    ExpiredKeepsInv(s, now);
    if s.sequenced {
      KeepRising(s.msgs, AliveAt(now));
    }
    InSequenceIs(Keep(s.msgs, AliveAt(now)));
  }

  lemma AppliedRising(s: State, op: QueueOp)
    requires RisingIfFlagged(s)
    requires op.Pushing? ==> op.m.birthtime == 0 || op.m.birthtime == op.now
    ensures RisingIfFlagged(Applied(s, op))
  {
    hide Acted, Expired;
    AppliedKeepsInv(s, op);
    match op
    case Pushing(now, m) =>
      ExpiredRising(s, now);
      ActedRising(ExpiredUnlessSameSecond(s, now), now, m);
    case Expiring(now) => ExpiredRising(s, now);
    case _ =>
  }

  /** When every message is stamped as it is pushed, the flag does mean what the comment says, after any run. */
  lemma {:induction false} StampedRunsInSequence(ops: seq<QueueOp>)
    requires Stamped(ops)
    ensures RisingIfFlagged(Run(EMPTY, ops))
    ensures Run(EMPTY, ops).sequenced ==> InSequence(Run(EMPTY, ops).msgs)
  {
    if ops != [] {
      StampedRunsInSequence(ops[..|ops| - 1]) by {
        assert Stamped(ops[..|ops| - 1]);
      }
      hide Applied, InSequence, Rising, Inv;
      AppliedRising(Run(EMPTY, ops[..|ops| - 1]), ops[|ops| - 1]);
      InSequenceIs(Run(EMPTY, ops).msgs);
    }
  }

  /** An instance where it does not: the second message was born before the first. */
  lemma FlagAllowsFallingBirthtimes() returns (ops: seq<QueueOp>)
    ensures Run(EMPTY, ops).sequenced && !InSequence(Run(EMPTY, ops).msgs)
  {
    var a := Message(Publish, 2, 5, 5, 1, "", None, 0, false);
    var b := Message(Publish, 2, 3, 7, 1, "", None, 0, false);
    ops := [Pushing(7, a), Pushing(7, b)];
    assert ops[..1] == [Pushing(7, a)] && ops[..1][..0] == [];
    PushOnEmpty(7, a);
    PushAfterOne(a, 7, b);
    var s := Run(EMPTY, ops);
    assert Run(EMPTY, ops[..1][..0]) == EMPTY;
    assert Run(EMPTY, ops[..1]) == State([a], true, 7, 0);
    assert s == State([a, b], true, 7, 0);
    assert s.msgs[0].birthtime > s.msgs[0 + 1].birthtime;
  }

  lemma PushOnEmpty(now: int, a: Message)
    requires a.action.Publish? && !a.Unlimited() && a.birthtime != 0
    ensures Push(EMPTY, now, a) == State([a], true, now, 0)
  {}

  lemma PushAfterOne(a: Message, now: int, b: Message)
    requires b.action.Publish? && b.limit > 1 && b.lifetime != 0 && b.birthtime != 0
    requires a.cursor <= b.cursor && a.DeathTime() == b.DeathTime() && a.birthtime <= now
    ensures Push(State([a], true, now, 0), now, b) == State([a, b], true, now, 0)
  {
    KeepOne(a, CursorAtMost(b.cursor));
    KeepOne(a, CursorAbove(b.cursor));
  }

  // ----- the same-second short cut -----

  /** No stored message died before the second of the last expiry. */
  ghost predicate Guarded(s: State) {
    All(s.msgs, AliveAt(s.last))
  }

  /** Everything this push would write is still alive. */
  predicate Fresh(q: seq<Message>, now: int, m: Message) {
    var alive := m.Born(now).DeathTime() >= now;
    match m.action
    case Publish => m.Unlimited() || alive
    case Modify => HasIdentity(q, m.identity) || m.lifetime == 0 || alive
    case Update => if HasIdentity(q, m.identity) then m.DeathTime() >= now else m.lifetime == 0 || alive
    case Replace => alive
    case Remove => m.lifetime == 0 || alive
  }

  lemma PublishedAlive(s: State, now: int, m: Message)
    requires All(s.msgs, AliveAt(now))
    ensures All(Published(s, now, m).msgs, AliveAt(now)) <==> m.Born(now).DeathTime() >= now
  {
    assert m.Born(now) in Published(s, now, m).msgs;
  }

  lemma EditedAlive(q: seq<Message>, now: int, m: Message)
    requires All(q, AliveAt(now)) && HasIdentity(q, m.identity)
    ensures All(Edited(q, m), AliveAt(now)) <==> (m.action.Update? ==> m.DeathTime() >= now)
  {
    var r := Edited(q, m);
    var i :| 0 <= i < |q| && q[i].identity == m.identity;
    assert r[i] == q[i].EditedBy(m) && r[i] in r;
    if m.action.Update? ==> m.DeathTime() >= now {
      forall x | x in r ensures x.DeathTime() >= now {
        var k :| 0 <= k < |r| && r[k] == x;
        assert q[k] in q && AliveAt(now).Selects(q[k]);
      }
    }
  }

  lemma ActedAlive(s: State, now: int, m: Message)
    requires All(s.msgs, AliveAt(now))
    requires !HandedBack(m)
    ensures All(Acted(s, now, m).msgs, AliveAt(now)) <==> Fresh(s.msgs, now, m)
  {
    PublishedAlive(s, now, m);
    PublishedAlive(WithoutIdentity(s, m.identity), now, m);
    if HasIdentity(s.msgs, m.identity) {
      EditedAlive(s.msgs, now, m);
    }
  }

  /** A push keeps the guard when it is fresh, and only then unless the limit evicts something. */
  lemma PushKeepsGuard(s: State, now: int, m: Message)
    requires Guarded(s)
    ensures var s0 := ExpiredUnlessSameSecond(s, now);
      && (Fresh(s0.msgs, now, m) ==> Guarded(Push(s, now, m)))
      && (|Acted(s0, now, m).msgs| <= m.limit && !HandedBack(m) ==>
            (Guarded(Push(s, now, m)) <==> Fresh(s0.msgs, now, m)))
  {
    var s0 := ExpiredUnlessSameSecond(s, now);
    if !HandedBack(m) {
      ActedAlive(s0, now, m);
      assert Acted(s0, now, m).last == now;
    }
  }

  /** Expiring again in the same second changes nothing when nothing stored is dead. */
  lemma SkipSound(s: State, now: int, m: Message)
    requires Guarded(s)
    ensures Push(s, now, m) == PushExpiring(s, now, m)
  {
    if s.last == now {
      KeepAll(s.msgs, AliveAt(now));
      assert Expired(s, now) == s;
    }
  }

  /** Every push of the run is fresh for the queue it meets. */
  ghost predicate FreshRun(s: State, ops: seq<QueueOp>) {
    ops != [] ==>
      var before := Run(s, ops[..|ops| - 1]);
      && FreshRun(s, ops[..|ops| - 1])
      && match ops[|ops| - 1]
         case Pushing(now, m) => Fresh(ExpiredUnlessSameSecond(before, now).msgs, now, m)
         case _ => true
  }

  /** Over every run of fresh pushes mixed with anything else, the short cut cannot be observed. */
  lemma {:induction false} SkipSoundOverRuns(s: State, ops: seq<QueueOp>, now: int, m: Message)
    requires Guarded(s) && FreshRun(s, ops)
    ensures Guarded(Run(s, ops))
    ensures Push(Run(s, ops), now, m) == PushExpiring(Run(s, ops), now, m)
  {
    if ops != [] {
      var before := Run(s, ops[..|ops| - 1]);
      SkipSoundOverRuns(s, ops[..|ops| - 1], now, m);
      match ops[|ops| - 1] {
        case Pushing(t, x) => PushKeepsGuard(before, t, x);
        case _ =>
      }
    }
    SkipSound(Run(s, ops), now, m);
  }

  /** A message that the dead keep out: it belongs just below a dead one, and its limit leaves room for
      exactly the messages above it, the dead included. Where the dead are gone it is stored. */
  lemma DeadBlocks(s: State, now: int, d: Message) returns (m: Message)
    requires s.last == now && d in s.msgs && d.DeathTime() < now
    ensures m.action.Publish? && !m.Unlimited() && m.birthtime != 0 && m.DeathTime() >= now
    ensures m !in Push(s, now, m).msgs
    ensures forall w: State :: w.msgs == Keep(s.msgs, AliveAt(now)) ==> m in Push(w, now, m).msgs
  {
    hide Keep, Push;
    var above := Keep(s.msgs, CursorAbove(d.cursor - 1));
    assert d in above;
    m := Message(Publish, |above|, 1, if now > 1 then now else 1, d.cursor - 1, "", None, 0, false);
    OutsideTail(s, now, m);
    assert m !in above;
    forall w: State | w.msgs == Keep(s.msgs, AliveAt(now)) ensures m in Push(w, now, m).msgs {
      StoredAmongLiving(s.msgs, w, now, d, m);
    }
  }

  lemma OutsideTail(s: State, now: int, m: Message)
    requires s.last == now && m.action.Publish? && !m.Unlimited() && m.birthtime != 0
    requires m.limit == |Keep(s.msgs, CursorAbove(m.cursor))|
    ensures Push(s, now, m).msgs == Keep(s.msgs, CursorAbove(m.cursor))
  {
    hide Keep;
    var above := Keep(s.msgs, CursorAbove(m.cursor));
    assert Push(s, now, m).msgs == LastN(Keep(s.msgs, CursorAtMost(m.cursor)) + [m] + above, |above|);
  }

  lemma StoredAmongLiving(q: seq<Message>, w: State, now: int, d: Message, m: Message)
    requires w.msgs == Keep(q, AliveAt(now)) && d in q && d.DeathTime() < now
    requires m.action.Publish? && !m.Unlimited() && m.birthtime != 0 && m.cursor < d.cursor
    requires m.limit == |Keep(q, CursorAbove(m.cursor))|
    ensures m in Push(w, now, m).msgs
  {
    var live := AliveAt(now);
    KeepAll(w.msgs, live);
    var above := Keep(q, CursorAbove(m.cursor));
    var below', above' := Keep(w.msgs, CursorAtMost(m.cursor)), Keep(w.msgs, CursorAbove(m.cursor));
    KeepCommutes(q, live, CursorAbove(m.cursor));
    KeepFull(above, live);
    assert d in above && |above'| < |above|;
    var grown := below' + [m] + above';
    assert Push(w, now, m).msgs == LastN(grown, m.limit);
    InTail(below', m, above', m.limit);
  }

  lemma InTail<T>(a: seq<T>, x: T, b: seq<T>, n: nat)
    requires |b| < n
    ensures x in LastN(a + [x] + b, n)
  {
    var r := LastN(a + [x] + b, n);
    assert r[|r| - |b| - 1] == x;
  }

  /** Skipping the expiry changes no living message, whatever is pushed, if and only if the second changed
      or nothing stored is dead. */
  lemma SkipSoundExactly(s: State, now: int)
    ensures s.last != now || All(s.msgs, AliveAt(now)) <==>
      forall m :: Keep(Push(s, now, m).msgs, AliveAt(now)) == Keep(PushExpiring(s, now, m).msgs, AliveAt(now))
  {
    hide Settled, Expired, Keep;
    if s.last != now || All(s.msgs, AliveAt(now)) {
      forall m ensures Push(s, now, m).msgs == PushExpiring(s, now, m).msgs {
        if s.last == now {
          SkipSound(s, now, m);
        }
      }
    } else {
      var m := SkipObserved(s, now);
    }
  }

  /** The difference is a living message, freshly pushed, that the dead keep out. */
  lemma SkipObserved(s: State, now: int) returns (m: Message)
    requires s.last == now && !All(s.msgs, AliveAt(now))
    ensures Fresh(s.msgs, now, m)
    ensures m !in Keep(Push(s, now, m).msgs, AliveAt(now))
    ensures m in Keep(PushExpiring(s, now, m).msgs, AliveAt(now))
  {
    hide Settled, Keep;
    var d :| d in s.msgs && d.DeathTime() < now;
    m := DeadBlocks(s, now, d);
    var w := Expired(s, now).(last := now);
    assert PushExpiring(s, now, m) == Push(w, now, m);
  }

  /** Expiring the queue before the push, as a read does, is unnoticed under the same condition. */
  lemma ExpiryBetweenExactly(s: State, now: int)
    ensures s.last != now || All(s.msgs, AliveAt(now)) <==>
      forall m :: Keep(Push(Expired(s, now), now, m).msgs, AliveAt(now)) == Keep(Push(s, now, m).msgs, AliveAt(now))
  {
    hide Settled, Keep, Push;
    if s.last != now || All(s.msgs, AliveAt(now)) {
      forall m ensures Push(Expired(s, now), now, m).msgs == Push(s, now, m).msgs {
        ExpiryBetween(s, now, m);
      }
    } else {
      var m := ExpiryObserved(s, now);
      assert m in Keep(Push(Expired(s, now), now, m).msgs, AliveAt(now));
      assert m !in Keep(Push(s, now, m).msgs, AliveAt(now));
    }
  }

  lemma ExpiryBetween(s: State, now: int, m: Message)
    requires s.last != now || All(s.msgs, AliveAt(now))
    ensures Push(Expired(s, now), now, m).msgs == Push(s, now, m).msgs
  {
    hide Settled;
    var live := Keep(s.msgs, AliveAt(now));
    KeepAll(live, AliveAt(now));
    if s.last == now {
      KeepAll(s.msgs, AliveAt(now));
    }
    SettledByList(ExpiredUnlessSameSecond(Expired(s, now), now), ExpiredUnlessSameSecond(s, now), now, m);
  }

  lemma ExpiryObserved(s: State, now: int) returns (m: Message)
    requires s.last == now && !All(s.msgs, AliveAt(now))
    ensures m.DeathTime() >= now
    ensures m !in Push(s, now, m).msgs && m in Push(Expired(s, now), now, m).msgs
  {
    hide Settled, Push, Keep;
    var d :| d in s.msgs && d.DeathTime() < now;
    m := DeadBlocks(s, now, d);
  }

  /** An instance reached by one stale push. */
  lemma StalePushIsObservable() returns (ops: seq<QueueOp>, now: int, m: Message)
    ensures m !in Keep(Push(Run(EMPTY, ops), now, m).msgs, AliveAt(now))
    ensures m in Keep(PushExpiring(Run(EMPTY, ops), now, m).msgs, AliveAt(now))
  {
    hide Settled;
    var stale := Message(Publish, 1, 1, 1, 1, "", None, 0, false);
    ops, now := [Pushing(10, stale)], 10;
    assert ops[..0] == [];
    PushOnEmpty(10, stale);
    assert Run(EMPTY, ops[..0]) == EMPTY;
    var s := Run(EMPTY, ops);
    assert s == Push(EMPTY, 10, stale);
    assert stale in s.msgs && !AliveAt(10).Selects(stale);
    m := SkipObserved(s, 10);
  }

  // ----- conservation -----

  predicate Inserts(q: seq<Message>, m: Message) {
    match m.action
    case Publish => !m.Unlimited()
    case Modify => m.lifetime != 0 && !HasIdentity(q, m.identity)
    case Update => m.lifetime != 0 && !HasIdentity(q, m.identity)
    case Replace => true
    case Remove => m.lifetime != 0
  }

  function Inserted(s: State, op: QueueOp): nat {
    if op.Pushing? && Inserts(ExpiredUnlessSameSecond(s, op.now).msgs, op.m) then 1 else 0
  }

  /** Messages that leave without being counted as removed: by identity, or in a clear. */
  function Withdrawn(s: State, op: QueueOp): nat {
    match op
    case Pushing(now, m) =>
      if m.action.Replace? || m.action.Remove? then
        var q := ExpiredUnlessSameSecond(s, now).msgs;
        |q| - |Keep(q, OtherIdentity(m.identity))|
      else 0
    case Clearing => |s.msgs|
    case _ => 0
  }

  function Reported(s: State, op: QueueOp): nat {
    if op.Reporting? && op.reset then s.removed else 0
  }

  datatype Ledger = Ledger(inserted: nat, withdrawn: nat, reported: nat)

  function Accounts(s: State, ops: seq<QueueOp>): Ledger {
    if ops == [] then Ledger(0, 0, 0)
    else
      var before := Run(s, ops[..|ops| - 1]);
      var op := ops[|ops| - 1];
      var l := Accounts(s, ops[..|ops| - 1]);
      Ledger(l.inserted + Inserted(before, op), l.withdrawn + Withdrawn(before, op), l.reported + Reported(before, op))
  }

  lemma ActedConserves(s: State, now: int, m: Message)
    requires Inv(s) && !HandedBack(m)
    ensures Acted(s, now, m).removed == s.removed
    ensures |Acted(s, now, m).msgs| == |s.msgs| + (if Inserts(s.msgs, m) then 1 else 0)
      - (if m.action.Replace? || m.action.Remove? then |s.msgs| - |Keep(s.msgs, OtherIdentity(m.identity))| else 0)
  {
    if m.action.Replace? || m.action.Remove? {
      WithoutIdentityKeepsInv(s, m.identity);
      InsertSorted(WithoutIdentity(s, m.identity).msgs, m.Born(now));
    } else {
      InsertSorted(s.msgs, m.Born(now));
    }
  }

  lemma AppliedConserves(s: State, op: QueueOp)
    requires Inv(s)
    ensures |s.msgs| + s.removed + Inserted(s, op) ==
      |Applied(s, op).msgs| + Applied(s, op).removed + Withdrawn(s, op) + Reported(s, op)
  {
    if op.Pushing? {
      ExpiredKeepsInv(s, op.now);
      if !HandedBack(op.m) {
        ActedConserves(ExpiredUnlessSameSecond(s, op.now), op.now, op.m);
      }
    }
  }

  /** Every message ever inserted is stored, counted as removed, reported as removed, or was withdrawn. */
  lemma {:induction false} RunConserves(ops: seq<QueueOp>)
    ensures var s, l := Run(EMPTY, ops), Accounts(EMPTY, ops);
      l.inserted == |s.msgs| + s.removed + l.reported + l.withdrawn
  {
    if ops != [] {
      RunConserves(ops[..|ops| - 1]);
      RunKeepsInv(EMPTY, ops[..|ops| - 1]);
      AppliedConserves(Run(EMPTY, ops[..|ops| - 1]), ops[|ops| - 1]);
    }
  }
}
