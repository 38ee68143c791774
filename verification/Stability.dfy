/** Messages with equal cursors stay in the order of their arrival. Each stored message carries the
    step of the run that inserted it; the run on tagged lists mirrors the run on plain ones. */
module Stability {
  import opened Messages
  import opened Selections
  import opened QueueSpec
  import opened QueueRuns

  datatype Tagged = Tagged(m: Message, arrival: nat)

  function Plain(ts: seq<Tagged>): (q: seq<Message>)
    ensures |q| == |ts| && forall i :: 0 <= i < |ts| ==> q[i] == ts[i].m
  {
    seq(|ts|, i requires 0 <= i < |ts| => ts[i].m)
  }

  function KeepTagged(ts: seq<Tagged>, sel: Selector): seq<Tagged> {
    if ts == [] then []
    else (if sel.Selects(ts[0].m) then [ts[0]] else []) + KeepTagged(ts[1..], sel)
  }

  function InsertTagged(ts: seq<Tagged>, t: Tagged): seq<Tagged> {
    KeepTagged(ts, CursorAtMost(t.m.cursor)) + [t] + KeepTagged(ts, CursorAbove(t.m.cursor))
  }

  function EditTagged(ts: seq<Tagged>, m: Message): (r: seq<Tagged>)
    ensures |r| == |ts| && forall i :: 0 <= i < |ts| ==> r[i] == Tagged(ts[i].m.EditedBy(m), ts[i].arrival)
  {
    seq(|ts|, i requires 0 <= i < |ts| => Tagged(ts[i].m.EditedBy(m), ts[i].arrival))
  }

  function ActTagged(ts: seq<Tagged>, now: int, m: Message, step: nat): seq<Tagged> {
    var t := Tagged(m.Born(now), step);
    var rest := KeepTagged(ts, OtherIdentity(m.identity));
    match m.action
    case Publish => InsertTagged(ts, t)
    case Replace => InsertTagged(rest, t)
    case Remove => if m.lifetime != 0 then InsertTagged(rest, t) else rest
    case _ =>
      if HasIdentity(Plain(ts), m.identity) then EditTagged(ts, m)
      else if m.lifetime != 0 then InsertTagged(ts, t)
      else ts
  }

  function DoTagged(ts: seq<Tagged>, last: int, op: QueueOp, step: nat): seq<Tagged> {
    match op
    case Expiring(now) => KeepTagged(ts, AliveAt(now))
    case Resizing(limit) => LastN(ts, limit)
    case Clearing => []
    case Reporting(_) => ts
    case Pushing(now, m) =>
      var live := if last != now then KeepTagged(ts, AliveAt(now)) else ts;
      if HandedBack(m) then
        if m.limit == 0 then [] else live
      else
        LastN(ActTagged(live, now, m, step), m.limit)
  }

  /** The tags of a run: a message inserted by the k-th operation arrives at k. */
  function RunTagged(ops: seq<QueueOp>): seq<Tagged> {
    if ops == [] then []
    else
      var n := |ops| - 1;
      DoTagged(RunTagged(ops[..n]), Run(EMPTY, ops[..n]).last, ops[n], n)
  }

  ghost predicate Before(a: Tagged, b: Tagged) {
    a.m.cursor < b.m.cursor || (a.m.cursor == b.m.cursor && a.arrival < b.arrival)
  }

  ghost predicate InOrder(ts: seq<Tagged>) {
    forall i, j :: 0 <= i < j < |ts| ==> Before(ts[i], ts[j])
  }

  ghost predicate ArrivedBefore(ts: seq<Tagged>, step: nat) {
    forall t :: t in ts ==> t.arrival < step
  }

  // ----- tagged steps mirror plain steps -----

  lemma {:induction false} PlainKeep(ts: seq<Tagged>, sel: Selector)
    ensures Plain(KeepTagged(ts, sel)) == Keep(Plain(ts), sel)
  {
    if ts != [] {
      PlainKeep(ts[1..], sel);
      assert Plain(ts)[1..] == Plain(ts[1..]);
      assert Plain(ts)[0] == ts[0].m;
    }
  }

  lemma PlainInsert(ts: seq<Tagged>, t: Tagged)
    ensures Plain(InsertTagged(ts, t)) == Insert(Plain(ts), t.m)
  {
    PlainKeep(ts, CursorAtMost(t.m.cursor));
    PlainKeep(ts, CursorAbove(t.m.cursor));
  }

  lemma PlainAct(s: State, ts: seq<Tagged>, now: int, m: Message, step: nat)
    requires Plain(ts) == s.msgs
    ensures Plain(ActTagged(ts, now, m, step)) == Acted(s, now, m).msgs
  {
    var t := Tagged(m.Born(now), step);
    PlainKeep(ts, OtherIdentity(m.identity));
    PlainInsert(ts, t);
    PlainInsert(KeepTagged(ts, OtherIdentity(m.identity)), t);
    assert Plain(EditTagged(ts, m)) == Edited(s.msgs, m);
  }

  lemma PlainDo(s: State, ts: seq<Tagged>, op: QueueOp, step: nat)
    requires Plain(ts) == s.msgs
    ensures Plain(DoTagged(ts, s.last, op, step)) == Applied(s, op).msgs
  {
    match op
    case Expiring(now) => PlainKeep(ts, AliveAt(now));
    case Pushing(now, m) => PlainPush(s, ts, now, m, step);
    case _ =>
  }

  lemma PlainPush(s: State, ts: seq<Tagged>, now: int, m: Message, step: nat)
    requires Plain(ts) == s.msgs
    ensures Plain(DoTagged(ts, s.last, Pushing(now, m), step)) == Push(s, now, m).msgs
  {
    hide Acted, ActTagged, Keep, KeepTagged, InSequence;
    PlainKeep(ts, AliveAt(now));
    var live := if s.last != now then KeepTagged(ts, AliveAt(now)) else ts;
    var s0 := ExpiredUnlessSameSecond(s, now);
    assert Plain(live) == s0.msgs;
    if !HandedBack(m) {
      PlainAct(s0, live, now, m, step);
      assert Plain(LastN(ActTagged(live, now, m, step), m.limit)) == LastN(Acted(s0, now, m).msgs, m.limit);
    }
  }

  // ----- order -----

  lemma {:induction false} KeepTaggedMembers(ts: seq<Tagged>, sel: Selector)
    ensures forall t {:trigger t in KeepTagged(ts, sel)} :: t in KeepTagged(ts, sel) <==> t in ts && sel.Selects(t.m)
  {
    if ts != [] {
      KeepTaggedMembers(ts[1..], sel);
    }
  }

  lemma {:induction false} KeepInOrder(ts: seq<Tagged>, sel: Selector)
    requires InOrder(ts)
    ensures InOrder(KeepTagged(ts, sel))
  {
    if ts != [] {
      KeepInOrder(ts[1..], sel);
      KeepTaggedMembers(ts[1..], sel);
      JoinInOrder(if sel.Selects(ts[0].m) then [ts[0]] else [], KeepTagged(ts[1..], sel));
    }
  }

  lemma JoinInOrder(a: seq<Tagged>, b: seq<Tagged>)
    requires InOrder(a) && InOrder(b)
    requires forall x, y :: x in a && y in b ==> Before(x, y)
    ensures InOrder(a + b)
  {
    var ab := a + b;
    forall i, j | 0 <= i < j < |ab| ensures Before(ab[i], ab[j]) {
      if i < |a| <= j {
        assert a[i] in a && b[j - |a|] in b;
      }
    }
  }

  lemma InsertInOrder(ts: seq<Tagged>, t: Tagged)
    requires InOrder(ts) && ArrivedBefore(ts, t.arrival)
    ensures InOrder(InsertTagged(ts, t)) && ArrivedBefore(InsertTagged(ts, t), t.arrival + 1)
  {
    var below, above := CursorAtMost(t.m.cursor), CursorAbove(t.m.cursor);
    KeepInOrder(ts, below);
    KeepInOrder(ts, above);
    KeepTaggedMembers(ts, below);
    KeepTaggedMembers(ts, above);
    JoinInOrder(KeepTagged(ts, below), [t]);
    JoinInOrder(KeepTagged(ts, below) + [t], KeepTagged(ts, above));
  }

  lemma ActInOrder(ts: seq<Tagged>, now: int, m: Message, step: nat)
    requires InOrder(ts) && ArrivedBefore(ts, step)
    ensures InOrder(ActTagged(ts, now, m, step)) && ArrivedBefore(ActTagged(ts, now, m, step), step + 1)
  {
    var t := Tagged(m.Born(now), step);
    var other := OtherIdentity(m.identity);
    KeepInOrder(ts, other);
    KeepTaggedMembers(ts, other);
    InsertInOrder(ts, t);
    InsertInOrder(KeepTagged(ts, other), t);
    EditInOrder(ts, m, step);
  }

  lemma EditInOrder(ts: seq<Tagged>, m: Message, step: nat)
    requires InOrder(ts) && ArrivedBefore(ts, step)
    ensures InOrder(EditTagged(ts, m)) && ArrivedBefore(EditTagged(ts, m), step)
  {
    var r := EditTagged(ts, m);
    forall i, j | 0 <= i < j < |r| ensures Before(r[i], r[j]) {
      assert Before(ts[i], ts[j]);
    }
    forall t | t in r ensures t.arrival < step {
      var i :| 0 <= i < |r| && r[i] == t;
      assert ts[i] in ts;
    }
  }

  lemma DoInOrder(ts: seq<Tagged>, last: int, op: QueueOp, step: nat)
    requires InOrder(ts) && ArrivedBefore(ts, step)
    ensures InOrder(DoTagged(ts, last, op, step)) && ArrivedBefore(DoTagged(ts, last, op, step), step + 1)
  {
    match op
    case Expiring(now) =>
      KeepInOrder(ts, AliveAt(now));
      KeepTaggedMembers(ts, AliveAt(now));
    case Pushing(now, m) =>
      KeepInOrder(ts, AliveAt(now));
      KeepTaggedMembers(ts, AliveAt(now));
      var live := if last != now then KeepTagged(ts, AliveAt(now)) else ts;
      ActInOrder(live, now, m, step);
    case _ =>
  }

  /** After any run the queue is ordered by cursor, and by arrival among equal cursors. */
  lemma {:induction false} StableAfterAnyRun(ops: seq<QueueOp>)
    ensures Plain(RunTagged(ops)) == Run(EMPTY, ops).msgs
    ensures InOrder(RunTagged(ops)) && ArrivedBefore(RunTagged(ops), |ops|)
  {
    if ops != [] {
      var n := |ops| - 1;
      StableAfterAnyRun(ops[..n]);
      PlainDo(Run(EMPTY, ops[..n]), RunTagged(ops[..n]), ops[n], n);
      DoInOrder(RunTagged(ops[..n]), Run(EMPTY, ops[..n]).last, ops[n], n);
    }
  }
}
