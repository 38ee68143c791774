/** What a push does, field by field and place by place. The four cases below cover every push: it edits
    messages in place, inserts one, only withdraws, or is handed back. */
module PushLaws {
  import opened Messages
  import opened Selections
  import opened QueueSpec

  /** Expiry removes exactly the messages whose lifetime is over, and moves nothing. */
  lemma ExpiryIs(s: State, now: int)
    ensures var q := Expired(s, now).msgs;
      && (forall m :: m in q <==> m in s.msgs && m.birthtime + m.lifetime >= now)
      && Expired(s, now).removed == s.removed + (|s.msgs| - |q|)
      && Expired(s, now).last == s.last
  {
    var q := Expired(s, now).msgs;
    assert forall m :: m in q <==> m in s.msgs && AliveAt(now).Selects(m);
  }

  /** An expiry gives the flag back exactly when it removed something, kept something, and what it kept has one
      deathtime and birthtimes that do not fall. */
  lemma ExpiryFlag(s: State, now: int)
    ensures var q := Keep(s.msgs, AliveAt(now));
      Expired(s, now).sequenced <==>
        s.sequenced || (q != [] && !All(s.msgs, AliveAt(now)) && SameDeath(q) && Rising(q))
  {
    KeepFull(s.msgs, AliveAt(now));
    InSequenceIs(Keep(s.msgs, AliveAt(now)));
  }

  /** The first part of every push: expired, unless that was already done in this second. */
  lemma FoundByPush(s: State, now: int)
    ensures var s0 := ExpiredUnlessSameSecond(s, now);
      && s0.msgs == (if s.last == now then s.msgs else Keep(s.msgs, AliveAt(now)))
      && s0.last == now
      && s0.sequenced == (if s.last == now then s.sequenced else Expired(s, now).sequenced)
  {}

  /** y is x with the incoming limit, content and key, and with the incoming times under an update only. */
  predicate EditedPlace(x: Message, m: Message, y: Message) {
    && y.limit == m.limit && y.content == m.content && y.key == m.key
    && y.action == x.action && y.cursor == x.cursor && y.identity == x.identity && y.persistent == x.persistent
    && y.birthtime == (if m.action.Update? then m.birthtime else x.birthtime)
    && y.lifetime == (if m.action.Update? then m.lifetime else x.lifetime)
  }

  lemma PushEditsList(s: State, now: int, m: Message, q: seq<Message>)
    requires q == if s.last == now then s.msgs else Keep(s.msgs, AliveAt(now))
    requires m.action.Modify? || m.action.Update?
    requires exists i :: 0 <= i < |q| && q[i].identity == m.identity
    ensures Push(s, now, m).msgs == LastN(Edited(q, m), m.limit)
  {
    FoundByPush(s, now);
    assert HasIdentity(q, m.identity);
    hide Keep, Edited, HasIdentity, Expired;
  }

  ghost predicate EditedPlaces(q: seq<Message>, m: Message, r: seq<Message>) {
    && |r| == |q|
    && forall k :: 0 <= k < |q| ==> if q[k].identity == m.identity then EditedPlace(q[k], m, r[k]) else r[k] == q[k]
  }

  /** r is the end of q after an edit and a trim, place by place. */
  ghost predicate EditedTail(q: seq<Message>, m: Message, r: seq<Message>) {
    && |r| == (if |q| <= m.limit then |q| else m.limit)
    && EditedPlaces(q[|q| - |r|..], m, r)
  }

  lemma EditedByIs(x: Message, m: Message)
    requires m.action.Modify? || m.action.Update?
    ensures if x.identity == m.identity then EditedPlace(x, m, x.EditedBy(m)) else x.EditedBy(m) == x
  {}

  lemma LastEdited(q: seq<Message>, m: Message)
    requires m.action.Modify? || m.action.Update?
    ensures EditedTail(q, m, LastN(Edited(q, m), m.limit))
  {
    hide EditedPlace, Message.EditedBy;
    var r := LastN(Edited(q, m), m.limit);
    var tail := q[|q| - |r|..];
    forall k | 0 <= k < |tail|
      ensures if tail[k].identity == m.identity then EditedPlace(tail[k], m, r[k]) else r[k] == tail[k]
    {
      EditedByIs(tail[k], m);
    }
  }

  /** A modify or an update that finds its identity edits every such place and nothing else anywhere; then the
      limit trims the front. */
  lemma PushEdits(s: State, now: int, m: Message, q: seq<Message>)
    requires q == if s.last == now then s.msgs else Keep(s.msgs, AliveAt(now))
    requires m.action.Modify? || m.action.Update?
    requires exists i :: 0 <= i < |q| && q[i].identity == m.identity
    ensures EditedTail(q, m, Push(s, now, m).msgs)
  {
    hide Push, Keep, EditedTail, LastN, Edited;
    PushEditsList(s, now, m, q);
    LastEdited(q, m);
  }

  /** The flag after an edit: an update clears it, a modify only when it changes a limit. */
  lemma EditFlag(s: State, now: int, m: Message, q: seq<Message>)
    requires q == if s.last == now then s.msgs else Keep(s.msgs, AliveAt(now))
    requires m.action.Modify? || m.action.Update?
    requires exists i :: 0 <= i < |q| && q[i].identity == m.identity
    ensures Push(s, now, m).sequenced <==>
      && m.action.Modify?
      && (if s.last == now then s.sequenced else Expired(s, now).sequenced)
      && (forall i :: 0 <= i < |q| && q[i].identity == m.identity ==> q[i].limit == m.limit)
  {
    hide Keep, Expired, Edited;
    FoundByPush(s, now);
    assert HasIdentity(q, m.identity);
  }

  /** The message as it is stored, in its place among the kept ones, and the limit trimming the front. */
  ghost predicate InsertedAt(r: seq<Message>, kept: seq<Message>, at: nat, x: Message, limit: nat) {
    && at <= |kept|
    && (forall i :: 0 <= i < at ==> kept[i].cursor <= x.cursor)
    && (forall i :: at <= i < |kept| ==> kept[i].cursor > x.cursor)
    && IsSuffix(r, kept[..at] + [x] + kept[at..])
    && |r| == if |kept| + 1 <= limit then |kept| + 1 else limit
  }

  /** The push inserts: nothing was found to edit, and the lifetime is set or the action is a replace. */
  ghost predicate Inserting(q: seq<Message>, m: Message) {
    && (m.action.Replace? || m.lifetime != 0)
    && (m.action.Publish? ==> m.limit != 0)
    && (m.action.Modify? || m.action.Update? ==> forall i :: 0 <= i < |q| ==> q[i].identity != m.identity)
  }

  lemma PushInsertsList(s: State, now: int, m: Message, q: seq<Message>, kept: seq<Message>)
    requires q == if s.last == now then s.msgs else Keep(s.msgs, AliveAt(now))
    requires kept == if m.action.Replace? || m.action.Remove? then Keep(q, OtherIdentity(m.identity)) else q
    requires Inserting(q, m)
    ensures Push(s, now, m).msgs == LastN(Insert(kept, m.Born(now)), m.limit)
  {
    FoundByPush(s, now);
    assert m.action.Modify? || m.action.Update? ==> !HasIdentity(q, m.identity);
    hide Keep, Insert, Edited, HasIdentity, Expired, FitsBetween, LimitChanges;
  }

  /** A push that inserts puts one message after all cursors up to its own, with all its fields, and a birthtime
      only if it had none. A replace or a remove first withdraws its identity. */
  lemma PushInserts(s: State, now: int, m: Message, q: seq<Message>, kept: seq<Message>)
      returns (at: nat, x: Message)
    requires Sorted(s.msgs) && Inserting(q, m)
    requires q == if s.last == now then s.msgs else Keep(s.msgs, AliveAt(now))
    requires kept == if m.action.Replace? || m.action.Remove? then Keep(q, OtherIdentity(m.identity)) else q
    ensures x == m.(birthtime := if m.birthtime == 0 then now else m.birthtime)
    ensures InsertedAt(Push(s, now, m).msgs, kept, at, x, m.limit)
    ensures forall y :: y in kept <==>
      y in q && (m.action.Replace? || m.action.Remove? ==> y.identity != m.identity)
  {
    hide Push, Inserting, InsertedAt, Sorted, IsSuffix;
    x := m.(birthtime := if m.birthtime == 0 then now else m.birthtime);
    assert x == m.Born(now);
    assert Sorted(kept) by {
      KeepSorted(s.msgs, AliveAt(now));
      KeepSorted(q, OtherIdentity(m.identity));
    }
    PushInsertsList(s, now, m, q, kept);
    at := LastInserted(kept, x, m.limit);
  }

  lemma LastInserted(kept: seq<Message>, x: Message, limit: nat) returns (at: nat)
    requires Sorted(kept)
    ensures InsertedAt(LastN(Insert(kept, x), limit), kept, at, x, limit)
  {
    hide Keep;
    at := CutPoint(kept, x.cursor);
    assert Insert(kept, x) == kept[..at] + [x] + kept[at..];
  }

  lemma PushWithdrawsList(s: State, now: int, m: Message, q: seq<Message>, kept: seq<Message>)
    requires q == if s.last == now then s.msgs else Keep(s.msgs, AliveAt(now))
    requires kept == if m.action.Remove? then Keep(q, OtherIdentity(m.identity)) else q
    requires m.lifetime == 0 && (m.action.Remove? || m.action.Modify? || m.action.Update?)
    requires m.action.Modify? || m.action.Update? ==> forall i :: 0 <= i < |q| ==> q[i].identity != m.identity
    ensures Push(s, now, m).msgs == LastN(kept, m.limit)
  {
    FoundByPush(s, now);
    assert m.action.Modify? || m.action.Update? ==> !HasIdentity(q, m.identity);
    hide Keep, Expired, Edited, HasIdentity, LimitChanges, Published, LastN;
  }

  /** A push that neither finds its identity to edit nor inserts: the rest stays, up to the limit. */
  lemma PushWithdraws(s: State, now: int, m: Message, q: seq<Message>, kept: seq<Message>)
    requires q == if s.last == now then s.msgs else Keep(s.msgs, AliveAt(now))
    requires kept == if m.action.Remove? then Keep(q, OtherIdentity(m.identity)) else q
    requires m.lifetime == 0 && (m.action.Remove? || m.action.Modify? || m.action.Update?)
    requires m.action.Modify? || m.action.Update? ==> forall i :: 0 <= i < |q| ==> q[i].identity != m.identity
    ensures var r := Push(s, now, m).msgs;
      IsSuffix(r, kept) && |r| == (if |kept| <= m.limit then |kept| else m.limit)
    ensures forall y :: y in kept <==> y in q && (m.action.Remove? ==> y.identity != m.identity)
  {
    hide Push, Keep;
    PushWithdrawsList(s, now, m, q, kept);
  }

  /** A publish without lifetime or limit stores nothing; without limit it empties the queue. */
  lemma PushHandsBack(s: State, now: int, m: Message, q: seq<Message>)
    requires q == if s.last == now then s.msgs else Keep(s.msgs, AliveAt(now))
    requires m.action.Publish? && (m.lifetime == 0 || m.limit == 0)
    ensures Push(s, now, m).msgs == if m.limit == 0 then [] else q
  {
    hide Keep;
    FoundByPush(s, now);
  }

  /** The flag after an insertion into a queue in sequence: it stays exactly when the deathtimes are still all the
      same and the neighbours were born on their side of the clock. */
  lemma InsertFlag(s: State, now: int, m: Message, at: nat, x: Message)
    requires Inv(s) && s.sequenced
    requires x == m.Born(now) && InsertedAt(Published(s, now, m).msgs, s.msgs, at, x, |s.msgs| + 1)
    ensures Published(s, now, m).sequenced <==>
      && SameDeath(Published(s, now, m).msgs)
      && (at > 0 ==> s.msgs[at - 1].birthtime <= now)
      && (at < |s.msgs| ==> s.msgs[at].birthtime >= now)
  {
    hide Keep, Inv;
    CutAt(s.msgs, x.cursor, at);
    InsertFlagDeaths(s, now, m, at, x);
  }

  lemma InsertFlagDeaths(s: State, now: int, m: Message, at: nat, x: Message)
    requires Inv(s) && s.sequenced && at <= |s.msgs| && x == m.Born(now)
    requires Published(s, now, m).msgs == s.msgs[..at] + [x] + s.msgs[at..]
    ensures SameDeath(Published(s, now, m).msgs) <==>
      && (at > 0 ==> s.msgs[at - 1].DeathTime() == x.DeathTime())
      && (at < |s.msgs| ==> s.msgs[at].DeathTime() == x.DeathTime())
  {
    hide Published;
    var r := Published(s, now, m).msgs;
    assert x in r;
    assert s.msgs == s.msgs[..at] + s.msgs[at..];
    assert forall y :: y in r <==> y in s.msgs || y == x;
    if at > 0 {
      assert s.msgs[at - 1] in s.msgs;
    }
    if at < |s.msgs| {
      assert s.msgs[at] in s.msgs;
    }
  }
}
