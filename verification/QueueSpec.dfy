/** What each queue operation means, as functions on the queue's whole state. The lists are
    described by filters, a map and a stable insertion; nothing here searches, stops early or
    skips an expiry. */
module QueueSpec {
  import opened Messages
  import opened Selections

  datatype State = State(msgs: seq<Message>, sequenced: bool, last: int, removed: nat)

  const EMPTY := State([], true, 0, 0)

  /** The ideal order of lifetimes, re-established only by an expiry that removed something. */
  predicate InSequence(q: seq<Message>) {
    forall i :: 0 <= i < |q| - 1 ==>
      q[i].DeathTime() == q[i + 1].DeathTime() && q[i].birthtime <= q[i + 1].birthtime
  }

  ghost predicate SameDeath(q: seq<Message>) {
    forall x, y :: x in q && y in q ==> x.DeathTime() == y.DeathTime()
  }

  /** What every operation keeps. */
  ghost predicate Inv(s: State) {
    && Sorted(s.msgs)
    && (s.sequenced ==> SameDeath(s.msgs))
  }

  function Expired(s: State, now: int): State {
    var live := Keep(s.msgs, AliveAt(now));
    s.(msgs := live,
       sequenced := s.sequenced || (live != [] && |live| < |s.msgs| && InSequence(live)),
       removed := s.removed + (|s.msgs| - |live|))
  }

  function Resized(s: State, limit: nat): State {
    var kept := LastN(s.msgs, limit);
    s.(msgs := kept, removed := s.removed + (|s.msgs| - |kept|))
  }

  /** Stable insertion: after every message whose cursor is at most the new one's. */
  function Insert(q: seq<Message>, m: Message): seq<Message> {
    Keep(q, CursorAtMost(m.cursor)) + [m] + Keep(q, CursorAbove(m.cursor))
  }

  /** The neighbour checks of a publish: equal deathtimes, and birthtimes compared with the clock. */
  predicate FitsBetween(before: seq<Message>, m: Message, after: seq<Message>, now: int) {
    && (before != [] ==> before[|before| - 1].DeathTime() == m.DeathTime() && before[|before| - 1].birthtime <= now)
    && (after != [] ==> after[0].DeathTime() == m.DeathTime() && after[0].birthtime >= now)
  }

  function Published(s: State, now: int, m: Message): State {
    var born := m.Born(now);
    s.(msgs := Insert(s.msgs, born),
       sequenced := s.sequenced &&
         FitsBetween(Keep(s.msgs, CursorAtMost(m.cursor)), born, Keep(s.msgs, CursorAbove(m.cursor)), now))
  }

  function Edited(q: seq<Message>, m: Message): (r: seq<Message>)
    ensures |r| == |q| && forall i :: 0 <= i < |q| ==> r[i] == q[i].EditedBy(m)
  {
    seq(|q|, i requires 0 <= i < |q| => q[i].EditedBy(m))
  }

  predicate LimitChanges(q: seq<Message>, m: Message) {
    exists i :: 0 <= i < |q| && q[i].identity == m.identity && q[i].limit != m.limit
  }

  function WithoutIdentity(s: State, identity: string): State {
    s.(msgs := Keep(s.msgs, OtherIdentity(identity)))
  }

  /** The action itself, on a queue already expired. */
  function Acted(s: State, now: int, m: Message): State {
    match m.action
    case Publish => Published(s, now, m)
    case Modify =>
      if HasIdentity(s.msgs, m.identity) then
        s.(msgs := Edited(s.msgs, m), sequenced := s.sequenced && !LimitChanges(s.msgs, m))
      else if m.lifetime != 0 then Published(s, now, m)
      else s
    case Update =>
      if HasIdentity(s.msgs, m.identity) then
        s.(msgs := Edited(s.msgs, m), sequenced := false)
      else if m.lifetime != 0 then Published(s, now, m)
      else s
    case Replace => Published(WithoutIdentity(s, m.identity), now, m)
    case Remove =>
      var rest := WithoutIdentity(s, m.identity);
      if m.lifetime != 0 then Published(rest, now, m) else rest
  }

  predicate HandedBack(m: Message) {
    m.action.Publish? && m.Unlimited()
  }

  function ExpiredUnlessSameSecond(s: State, now: int): State {
    if s.last != now then Expired(s, now).(last := now) else s
  }

  /** A push on a queue whose expiry is already settled. Unless the message is handed back, its limit
      bounds the queue it leaves. */
  function Settled(s0: State, now: int, m: Message): (s: State)
    ensures |s.msgs| <= m.limit || (HandedBack(m) && s.msgs == s0.msgs)
  {
    if HandedBack(m) then
      if m.limit == 0 then Resized(s0, 0) else s0
    else
      Resized(Acted(s0, now, m), m.limit)
  }

  function Push(s: State, now: int, m: Message): State {
    Settled(ExpiredUnlessSameSecond(s, now), now, m)
  }

  /** The same push without the same-second short cut. */
  function PushExpiring(s: State, now: int, m: Message): State {
    Settled(Expired(s, now).(last := now), now, m)
  }

  /** The last `limit` of the messages whose cursor is at least the given one. */
  function Query(q: seq<Message>, cursor: int, limit: nat): seq<Message> {
    LastN(Keep(q, CursorFrom(cursor)), limit)
  }

  /** s is what a bounded read of the ordered list q should find: the end of q, no more than `limit` messages,
      none before the cursor, and nothing left out from the cursor on unless the limit is used up. */
  ghost predicate LastFrom(s: seq<Message>, q: seq<Message>, cursor: int, limit: nat) {
    && IsSuffix(s, q)
    && |s| <= limit
    && (forall m :: m in s ==> m.cursor >= cursor)
    && (forall i :: 0 <= i < |q| - |s| && q[i].cursor >= cursor ==> |s| == limit)
  }

  lemma LastFromLongest(s: seq<Message>, r: seq<Message>, q: seq<Message>, cursor: int, limit: nat)
    requires LastFrom(s, q, cursor, limit) && LastFrom(r, q, cursor, limit)
    ensures |r| <= |s|
  {
    assert forall j :: |q| - |r| <= j < |q| ==> q[j] == r[j - (|q| - |r|)] && q[j] in r;
    var i := |q| - |s| - 1;
    if i >= 0 {
      assert q[i].cursor >= cursor ==> |s| == limit;
    }
  }

  /** Only one list is. */
  lemma LastFromUnique(s: seq<Message>, r: seq<Message>, q: seq<Message>, cursor: int, limit: nat)
    requires LastFrom(s, q, cursor, limit) && LastFrom(r, q, cursor, limit)
    ensures s == r
  {
    LastFromLongest(s, r, q, cursor, limit);
    LastFromLongest(r, s, q, cursor, limit);
  }

  lemma QueryIsLastFrom(q: seq<Message>, cursor: int, limit: nat)
    requires Sorted(q)
    ensures LastFrom(Query(q, cursor, limit), q, cursor, limit)
  {
    hide Keep, LastN;
    var at := CutPoint(q, cursor - 1);
    SameCut(q, cursor);
    TailOfTail(q, at, limit);
    var s := LastN(q[at..], limit);
    forall m | m in s ensures m.cursor >= cursor {
      assert m in q[at..];
    }
  }

  lemma {:induction false} SameCut(q: seq<Message>, cursor: int)
    ensures Keep(q, CursorAbove(cursor - 1)) == Keep(q, CursorFrom(cursor))
  {
    if q != [] {
      SameCut(q[1..], cursor);
    }
  }

  lemma TailOfTail<T>(q: seq<T>, at: nat, limit: nat)
    requires at <= |q|
    ensures IsSuffix(LastN(q[at..], limit), q)
    ensures forall m :: m in LastN(q[at..], limit) ==> m in q[at..]
    ensures |LastN(q[at..], limit)| == if |q| - at <= limit then |q| - at else limit
  {}

  // ----- lists depend on lists alone -----

  lemma SettledByList(s: State, u: State, now: int, m: Message)
    requires s.msgs == u.msgs
    ensures Settled(s, now, m).msgs == Settled(u, now, m).msgs
  {
    hide Acted, LastN;
    if !HandedBack(m) {
      ActedByList(s, u, now, m);
    }
  }

  lemma ActedByList(s: State, u: State, now: int, m: Message)
    requires s.msgs == u.msgs
    ensures Acted(s, now, m).msgs == Acted(u, now, m).msgs
  {
    hide FitsBetween, Keep, Insert, HasIdentity, LimitChanges, Edited;
  }

  // ----- insertion in a sorted list -----

  /** In a sorted list the filters of Insert are a cut at one place. */
  lemma CutAt(q: seq<Message>, cursor: int, at: nat)
    requires at <= |q|
    requires forall k :: 0 <= k < at ==> q[k].cursor <= cursor
    requires forall k :: at <= k < |q| ==> q[k].cursor > cursor
    ensures Keep(q, CursorAtMost(cursor)) == q[..at]
    ensures Keep(q, CursorAbove(cursor)) == q[at..]
  {
    assert q == q[..at] + q[at..];
    KeepAppend(q[..at], q[at..], CursorAtMost(cursor));
    KeepAppend(q[..at], q[at..], CursorAbove(cursor));
    KeepAll(q[..at], CursorAtMost(cursor));
    KeepNone(q[at..], CursorAtMost(cursor));
    KeepNone(q[..at], CursorAbove(cursor));
    KeepAll(q[at..], CursorAbove(cursor));
  }

  lemma CutPoint(q: seq<Message>, cursor: int) returns (at: nat)
    requires Sorted(q)
    ensures at <= |q|
    ensures forall k :: 0 <= k < at ==> q[k].cursor <= cursor
    ensures forall k :: at <= k < |q| ==> q[k].cursor > cursor
    ensures Keep(q, CursorAtMost(cursor)) == q[..at]
    ensures Keep(q, CursorAbove(cursor)) == q[at..]
  {
    at := 0;
    while at < |q| && q[at].cursor <= cursor
      invariant at <= |q|
      invariant forall k :: 0 <= k < at ==> q[k].cursor <= cursor
    {
      at := at + 1;
    }
    CutAt(q, cursor, at);
  }

  lemma InsertSorted(q: seq<Message>, m: Message)
    requires Sorted(q)
    ensures Sorted(Insert(q, m))
    ensures |Insert(q, m)| == |q| + 1
    ensures forall x {:trigger x in Insert(q, m)} :: x in Insert(q, m) <==> x in q || x == m
    ensures Keep(q, CursorAtMost(m.cursor)) + Keep(q, CursorAbove(m.cursor)) == q
  {
    hide Keep;
    var at := CutPoint(q, m.cursor);
    assert q == q[..at] + q[at..];
  }

  // ----- the invariant -----

  lemma ExpiredKeepsInv(s: State, now: int)
    requires Inv(s)
    ensures Inv(Expired(s, now))
  {
    KeepSorted(s.msgs, AliveAt(now));
    var live := Keep(s.msgs, AliveAt(now));
    if InSequence(live) {
      InSequenceSameDeath(live);
    }
  }

  lemma {:induction false} InSequenceSameDeath(q: seq<Message>)
    requires InSequence(q)
    ensures SameDeath(q)
  {
    if |q| > 1 {
      var front := q[..|q| - 1];
      assert forall i :: 0 <= i < |front| ==> front[i] == q[i];
      InSequenceSameDeath(front);
      var i := |q| - 2;
      assert q[i].DeathTime() == q[i + 1].DeathTime();
      assert q[i] == front[i] && q[i] in front;
      assert q == front + [q[i + 1]];
    }
  }

  ghost predicate Rising(q: seq<Message>) {
    forall i, j :: 0 <= i < j < |q| ==> q[i].birthtime <= q[j].birthtime
  }

  lemma {:induction false} InSequenceRising(q: seq<Message>)
    requires InSequence(q)
    ensures Rising(q)
  {
    if |q| > 1 {
      var front := q[..|q| - 1];
      assert forall i :: 0 <= i < |front| ==> front[i] == q[i];
      InSequenceRising(front);
      var k := |q| - 2;
      assert q[k].birthtime <= q[k + 1].birthtime;
      forall i, j | 0 <= i < j < |q| ensures q[i].birthtime <= q[j].birthtime {
        assert i < k ==> front[i].birthtime <= front[k].birthtime;
        assert j < |front| ==> front[i].birthtime <= front[j].birthtime;
      }
    }
  }

  /** In sequence means one deathtime and birthtimes that do not fall. */
  lemma InSequenceIs(q: seq<Message>)
    ensures InSequence(q) <==> SameDeath(q) && Rising(q)
  {
    if InSequence(q) {
      InSequenceSameDeath(q);
      InSequenceRising(q);
    }
    if SameDeath(q) && Rising(q) {
      forall i | 0 <= i < |q| - 1
        ensures q[i].DeathTime() == q[i + 1].DeathTime() && q[i].birthtime <= q[i + 1].birthtime
      {
        assert q[i] in q && q[i + 1] in q;
      }
    }
  }

  lemma ResizedKeepsInv(s: State, limit: nat)
    requires Inv(s)
    ensures Inv(Resized(s, limit))
  {}

  lemma PublishedKeepsInv(s: State, now: int, m: Message)
    requires Inv(s)
    ensures Inv(Published(s, now, m))
  {
    var born := m.Born(now);
    InsertSorted(s.msgs, born);
    var before, after := Keep(s.msgs, CursorAtMost(m.cursor)), Keep(s.msgs, CursorAbove(m.cursor));
    var r := Published(s, now, m);
    if r.sequenced {
      assert before != [] ==> before[|before| - 1] in before && before[|before| - 1] in s.msgs;
      assert after != [] ==> after[0] in after && after[0] in s.msgs;
      forall x | x in r.msgs ensures x.DeathTime() == born.DeathTime() {
        assert x == born || x in s.msgs;
        assert s.msgs == before + after;
      }
    }
  }

  lemma WithoutIdentityKeepsInv(s: State, identity: string)
    requires Inv(s)
    ensures Inv(WithoutIdentity(s, identity))
  {
    KeepSorted(s.msgs, OtherIdentity(identity));
  }

  lemma EditedKeepsInv(s: State, m: Message)
    requires Inv(s)
    ensures Sorted(Edited(s.msgs, m))
    ensures m.action.Modify? && s.sequenced ==> SameDeath(Edited(s.msgs, m))
  {
    var r := Edited(s.msgs, m);
    assert forall i :: 0 <= i < |r| ==> r[i].cursor == s.msgs[i].cursor;
    if m.action.Modify? && s.sequenced {
      forall x, y | x in r && y in r ensures x.DeathTime() == y.DeathTime() {
        var i :| 0 <= i < |r| && r[i] == x;
        var j :| 0 <= j < |r| && r[j] == y;
        assert s.msgs[i] in s.msgs && s.msgs[j] in s.msgs;
      }
    }
  }

  lemma ActedKeepsInv(s: State, now: int, m: Message)
    requires Inv(s)
    ensures Inv(Acted(s, now, m))
  {
    PublishedKeepsInv(s, now, m);
    match m.action
    case Publish =>
    case Modify => EditedKeepsInv(s, m);
    case Update => EditedKeepsInv(s, m);
    case Replace =>
      WithoutIdentityKeepsInv(s, m.identity);
      PublishedKeepsInv(WithoutIdentity(s, m.identity), now, m);
    case Remove =>
      WithoutIdentityKeepsInv(s, m.identity);
      PublishedKeepsInv(WithoutIdentity(s, m.identity), now, m);
  }

  lemma PushKeepsInv(s: State, now: int, m: Message)
    requires Inv(s)
    ensures Inv(Push(s, now, m))
  {
    ExpiredKeepsInv(s, now);
    var s0 := ExpiredUnlessSameSecond(s, now);
    ActedKeepsInv(s0, now, m);
    ResizedKeepsInv(s0, 0);
    ResizedKeepsInv(Acted(s0, now, m), m.limit);
  }
}
