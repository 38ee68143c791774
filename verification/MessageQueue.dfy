/** The queue of one channel: sorted by cursor, with two short cuts. Expiry stops at the first live
    message while the queue is known to be in sequence, and a push skips expiry when one was already
    made for the same second. */
module MessageQueues {
  import opened Messages
  import opened Selections
  import opened QueueSpec

  class MessageQueue {
    var msgs: seq<Message>
    var sequenced: bool
    var lastRemoveDeath: int
    var removed: nat

    ghost function View(): State
      reads this
    {
      State(msgs, sequenced, lastRemoveDeath, removed)
    }

    ghost predicate Valid()
      reads this
    {
      Inv(View())
    }

    constructor ()
      ensures Valid() && View() == EMPTY
    {
      msgs, sequenced, lastRemoveDeath, removed := [], true, 0, 0;
    }

    method GetRemoved(reset: bool) returns (count: nat)
      modifies this`removed
      ensures count == old(removed)
      ensures removed == if reset then 0 else old(removed)
    {
      count := removed;
      if reset {
        removed := 0;
      }
    }

    method Clear()
      requires Valid()
      modifies this`msgs
      ensures Valid() && View() == old(View()).(msgs := [])
    {
      msgs := [];
    }

    /** Returns the message when the queue did not take it. */
    method Push(now: int, m: Message) returns (back: Option<Message>)
      requires Valid()
      modifies this
      ensures Valid()
      ensures View() == QueueSpec.Push(old(View()), now, m)
      ensures back == if m.action.Publish? && (m.lifetime == 0 || m.limit == 0) then Some(m) else None
    {
      ghost var s0 := ExpiredUnlessSameSecond(View(), now);
      if lastRemoveDeath != now {
        RemoveDeath(now);
        lastRemoveDeath := now;
      }
      assert View() == s0;
      if m.action.Publish? {
        if m.limit == 0 {
          Resize(0);
        }
        if m.Unlimited() {
          return Some(m);
        }
      }
      match m.action {
        case Publish => PublishMessage(now, m);
        case Modify => ModifyMessages(now, m);
        case Update => UpdateMessages(now, m);
        case Replace => ReplaceMessages(now, m);
        case Remove => RemoveMessages(now, m);
      }
      assert View() == Acted(s0, now, m);
      Resize(m.limit);
      back := None;
    }

    method Resize(limit: nat)
      requires Valid()
      modifies this`msgs, this`removed
      ensures Valid()
      ensures View() == Resized(old(View()), limit)
    {
      if |msgs| <= limit {
        return;
      }
      var first := |msgs| - limit;
      var total := removed + |msgs|;
      msgs := msgs[first..];
      removed := total - |msgs|;
    }

    method RemoveDeath(now: int)
      requires Valid()
      modifies this`msgs, this`sequenced, this`removed
      ensures Valid()
      ensures View() == Expired(old(View()), now)
    {
      ghost var before := View();
      var hasRemoved := PopDead(now);
      if !sequenced && msgs != [] {
        EraseDead(now, hasRemoved);
      }
      assert View() == Expired(before, now);
      assert Valid() by {
        ExpiredKeepsInv(before, now);
      }
    }

    /** The full pass over a queue out of sequence; any removal is a chance that order is restored. */
    method EraseDead(now: int, popped: bool)
      modifies this`msgs, this`sequenced, this`removed
      ensures msgs == Keep(old(msgs), AliveAt(now))
      ensures removed == old(removed) + (|old(msgs)| - |msgs|)
      ensures sequenced == if popped || |msgs| < |old(msgs)| then InSequence(msgs) else old(sequenced)
    {
      var size := |msgs|;
      EraseUnless(AliveAt(now));
      var hasRemoved := popped || size != |msgs|;
      removed := removed + (size - |msgs|);
      if hasRemoved {
        RecomputeSequenced();
      }
    }

    /** Drops dead messages from the front, up to the first live one. */
    method PopDead(now: int) returns (hasRemoved: bool)
      requires Valid()
      modifies this`msgs, this`removed
      ensures Keep(msgs, AliveAt(now)) == Keep(old(msgs), AliveAt(now))
      ensures msgs == [] <==> Keep(old(msgs), AliveAt(now)) == []
      ensures sequenced ==> msgs == Keep(old(msgs), AliveAt(now))
      ensures removed == old(removed) + (|old(msgs)| - |msgs|)
      ensures |msgs| <= |old(msgs)| && (hasRemoved <==> |msgs| < |old(msgs)|)
    {
      ghost var was := msgs;
      ghost var k := 0;
      hasRemoved := false;
      while msgs != []
        invariant k <= |was| && msgs == was[k..]
        invariant forall i :: 0 <= i < k ==> was[i].DeathTime() < now
        invariant removed == old(removed) + k
        invariant hasRemoved <==> k > 0
        decreases |msgs|
      {
        if msgs[0].DeathTime() < now {
          removed := removed + 1;
          msgs := msgs[1..];
          k := k + 1;
        } else {
          break;
        }
        hasRemoved := true;
      }
      KeepAfterDead(was, k, now);
      if msgs != [] {
        assert msgs[0] in Keep(msgs, AliveAt(now));
        if sequenced {
          FrontLiveMeansAllLive(was, k, now);
        }
      }
    }

    /** The loop that decides whether order of lifetimes has been restored. */
    method RecomputeSequenced()
      modifies this`sequenced
      ensures sequenced == InSequence(msgs)
    {
      sequenced := true;
      if |msgs| > 1 {
        var i := 0;
        while sequenced && i != |msgs| - 1
          invariant 0 <= i <= |msgs| - 1
          invariant sequenced <==> (forall j :: 0 <= j < i ==>
            msgs[j].DeathTime() == msgs[j + 1].DeathTime() && msgs[j].birthtime <= msgs[j + 1].birthtime)
          decreases |msgs| - i, sequenced
        {
          sequenced := msgs[i].DeathTime() == msgs[i + 1].DeathTime() && msgs[i].birthtime <= msgs[i + 1].birthtime;
          i := i + 1;
        }
      }
    }

    /** std::remove_if and erase: compacts the selected messages in place, then cuts the tail. */
    method EraseUnless(sel: Selector)
      modifies this`msgs
      ensures msgs == Keep(old(msgs), sel)
    {
      ghost var was := msgs;
      var i, kept := 0, 0;
      while i < |msgs|
        invariant 0 <= kept <= i <= |msgs| == |was|
        invariant msgs[..kept] == Keep(was[..i], sel)
        invariant forall k :: i <= k < |was| ==> msgs[k] == was[k]
      {
        assert msgs[i] == was[i] && was[..i + 1] == was[..i] + [was[i]];
        KeepAppend(was[..i], [was[i]], sel);
        KeepOne(was[i], sel);
        if sel.Selects(msgs[i]) {
          msgs := msgs[kept := msgs[i]];
          kept := kept + 1;
        }
        i := i + 1;
      }
      assert was[..i] == was;
      msgs := msgs[..kept];
    }

    /** std::upper_bound by cursor: the first place after all messages with this cursor. */
    method UpperBound(cursor: int) returns (first: nat)
      requires Valid()
      ensures first <= |msgs|
      ensures forall k :: 0 <= k < first ==> msgs[k].cursor <= cursor
      ensures forall k :: first <= k < |msgs| ==> msgs[k].cursor > cursor
    {
      first := 0;
      var len := |msgs|;
      while len > 0
        invariant 0 <= len && first + len <= |msgs|
        invariant forall k :: 0 <= k < first ==> msgs[k].cursor <= cursor
        invariant forall k :: first + len <= k < |msgs| ==> msgs[k].cursor > cursor
      {
        var half := len / 2;
        if cursor < msgs[first + half].cursor {
          len := half;
        } else {
          first := first + half + 1;
          len := len - half - 1;
        }
      }
    }

    /** std::lower_bound by cursor. */
    method LowerBound(cursor: int) returns (first: nat)
      requires Valid()
      ensures first <= |msgs|
      ensures forall k :: 0 <= k < first ==> msgs[k].cursor < cursor
      ensures forall k :: first <= k < |msgs| ==> msgs[k].cursor >= cursor
    {
      first := 0;
      var len := |msgs|;
      while len > 0
        invariant 0 <= len && first + len <= |msgs|
        invariant forall k :: 0 <= k < first ==> msgs[k].cursor < cursor
        invariant forall k :: first + len <= k < |msgs| ==> msgs[k].cursor >= cursor
      {
        var half := len / 2;
        if msgs[first + half].cursor < cursor {
          first := first + half + 1;
          len := len - half - 1;
        } else {
          len := half;
        }
      }
    }

    method InsertMessage(now: int, m: Message) returns (at: nat)
      requires Valid()
      modifies this`msgs
      ensures Sorted(msgs) && msgs == Insert(old(msgs), m.Born(now))
      ensures at < |msgs| && msgs[at] == m.Born(now)
      ensures msgs[..at] == Keep(old(msgs), CursorAtMost(m.cursor))
      ensures msgs[at + 1..] == Keep(old(msgs), CursorAbove(m.cursor))
    {
      at := UpperBound(m.cursor);
      ghost var before, after := msgs[..at], msgs[at..];
      assert before == Keep(msgs, CursorAtMost(m.cursor)) && after == Keep(msgs, CursorAbove(m.cursor)) by {
        CutAt(msgs, m.cursor, at);
      }
      msgs := msgs[..at] + [m] + msgs[at..];
      if msgs[at].birthtime == 0 {
        msgs := msgs[at := msgs[at].(birthtime := now)];
      }
      assert msgs == before + [m.Born(now)] + after;
      assert Sorted(msgs) by {
        InsertSorted(old(msgs), m.Born(now));
      }
    }

    method PublishMessage(now: int, m: Message)
      requires Valid()
      modifies this`msgs, this`sequenced
      ensures Valid()
      ensures View() == Published(old(View()), now, m)
    {
      PublishedKeepsInv(View(), now, m);
      var at := InsertMessage(now, m);
      ghost var before, after := msgs[..at], msgs[at + 1..];
      if sequenced {
        if at != 0 {
          assert before[|before| - 1] == msgs[at - 1];
          sequenced := msgs[at - 1].DeathTime() == msgs[at].DeathTime() && msgs[at - 1].birthtime <= now;
        }
        if sequenced && at + 1 != |msgs| {
          assert after[0] == msgs[at + 1];
          sequenced := msgs[at + 1].DeathTime() == msgs[at].DeathTime() && msgs[at + 1].birthtime >= now;
        }
      }
    }

    method UpdateMessages(now: int, m: Message)
      requires Valid() && m.action.Update?
      modifies this`msgs, this`sequenced
      ensures Valid()
      ensures View() == Acted(old(View()), now, m)
    {
      ActedKeepsInv(View(), now, m);
      ghost var was := msgs;
      var count := 0;
      for i := 0 to |msgs|
        invariant |msgs| == |was| && 0 <= count && sequenced == old(sequenced)
        invariant forall k :: 0 <= k < i ==> msgs[k] == was[k].EditedBy(m)
        invariant forall k :: i <= k < |was| ==> msgs[k] == was[k]
        invariant count > 0 <==> HasIdentity(was[..i], m.identity)
      {
        ScanOneMore(was, i, m);
        if msgs[i].identity == m.identity {
          msgs := msgs[i := msgs[i].UpdatedBy(m)];
          count := count + 1;
        }
      }
      assert was[..|was|] == was;
      assert msgs == Edited(was, m);
      if count > 0 {
        sequenced := false;
      } else {
        NothingToEdit(was, m);
        assert View() == old(View());
      }
      if m.lifetime != 0 && count == 0 {
        PublishMessage(now, m);
      }
    }

    method ModifyMessages(now: int, m: Message)
      requires Valid() && m.action.Modify?
      modifies this`msgs, this`sequenced
      ensures Valid()
      ensures View() == Acted(old(View()), now, m)
    {
      ActedKeepsInv(View(), now, m);
      ghost var was := msgs;
      var count, violation := 0, false;
      for i := 0 to |msgs|
        invariant |msgs| == |was| && 0 <= count && sequenced == old(sequenced)
        invariant forall k :: 0 <= k < i ==> msgs[k] == was[k].EditedBy(m)
        invariant forall k :: i <= k < |was| ==> msgs[k] == was[k]
        invariant count > 0 <==> HasIdentity(was[..i], m.identity)
        invariant violation <==> LimitChanges(was[..i], m)
      {
        ScanOneMore(was, i, m);
        if msgs[i].identity == m.identity {
          if !violation && msgs[i].limit != m.limit {
            violation := true;
          }
          msgs := msgs[i := msgs[i].ModifiedBy(m)];
          count := count + 1;
        }
      }
      assert was[..|was|] == was;
      assert msgs == Edited(was, m);
      if sequenced && violation {
        sequenced := false;
      }
      if count == 0 {
        NothingToEdit(was, m);
        assert View() == old(View());
      }
      if m.lifetime != 0 && count == 0 {
        PublishMessage(now, m);
      }
    }

    method RemoveIdentity(identity: string)
      requires Valid()
      modifies this`msgs
      ensures Valid()
      ensures View() == WithoutIdentity(old(View()), identity)
    {
      WithoutIdentityKeepsInv(View(), identity);
      EraseUnless(OtherIdentity(identity));
    }

    method RemoveMessages(now: int, m: Message)
      requires Valid() && m.action.Remove?
      modifies this`msgs, this`sequenced
      ensures Valid()
      ensures View() == Acted(old(View()), now, m)
    {
      RemoveIdentity(m.identity);
      if m.lifetime != 0 {
        PublishMessage(now, m);
      }
    }

    method ReplaceMessages(now: int, m: Message)
      requires Valid() && m.action.Replace?
      modifies this`msgs, this`sequenced
      ensures Valid()
      ensures View() == Acted(old(View()), now, m)
    {
      RemoveIdentity(m.identity);
      PublishMessage(now, m);
    }

    method CopyAll(out: seq<Message>) returns (r: seq<Message>)
      ensures r == out + msgs
    {
      r := out + msgs;
    }

    method CopyFrom(cursor: int, out: seq<Message>) returns (r: seq<Message>)
      requires Valid()
      ensures r == out + Keep(msgs, CursorFrom(cursor))
    {
      var first := LowerBound(cursor);
      CutFrom(msgs, cursor, first);
      r := out + msgs[first..];
    }

    method CopyLast(cursor: int, limit: nat, out: seq<Message>) returns (r: seq<Message>)
      requires Valid()
      ensures r == out + Query(msgs, cursor, limit)
      ensures out <= r && LastFrom(r[|out|..], msgs, cursor, limit)
    {
      var first := LowerBound(cursor);
      CutFrom(msgs, cursor, first);
      var size := |msgs| - first;
      if limit < size {
        first := first + (size - limit);
      }
      r := out + msgs[first..];
      QueryIsLastFrom(msgs, cursor, limit);
      assert r[|out|..] == msgs[first..];
    }
  }

  // ----- facts the loops use -----

  lemma KeepAfterDead(q: seq<Message>, k: nat, now: int)
    requires k <= |q|
    requires forall i :: 0 <= i < k ==> q[i].DeathTime() < now
    ensures Keep(q, AliveAt(now)) == Keep(q[k..], AliveAt(now))
  {
    assert q == q[..k] + q[k..];
    KeepAppend(q[..k], q[k..], AliveAt(now));
    KeepNone(q[..k], AliveAt(now));
  }

  /** Equal deathtimes are what lets expiry stop at the first live message. */
  lemma FrontLiveMeansAllLive(q: seq<Message>, k: nat, now: int)
    requires k < |q| && SameDeath(q)
    requires forall i :: 0 <= i < k ==> q[i].DeathTime() < now
    requires q[k].DeathTime() >= now
    ensures k == 0 && Keep(q, AliveAt(now)) == q
  {
    assert q[0] in q && q[k] in q;
    KeepAll(q, AliveAt(now));
  }

  lemma CutFrom(q: seq<Message>, cursor: int, at: nat)
    requires at <= |q|
    requires forall k :: 0 <= k < at ==> q[k].cursor < cursor
    requires forall k :: at <= k < |q| ==> q[k].cursor >= cursor
    ensures Keep(q, CursorFrom(cursor)) == q[at..]
  {
    assert q == q[..at] + q[at..];
    KeepAppend(q[..at], q[at..], CursorFrom(cursor));
    KeepNone(q[..at], CursorFrom(cursor));
    KeepAll(q[at..], CursorFrom(cursor));
  }

  lemma ScanOneMore(q: seq<Message>, i: nat, m: Message)
    requires i < |q|
    ensures HasIdentity(q[..i + 1], m.identity) <==> HasIdentity(q[..i], m.identity) || q[i].identity == m.identity
    ensures LimitChanges(q[..i + 1], m) <==>
      LimitChanges(q[..i], m) || (q[i].identity == m.identity && q[i].limit != m.limit)
  {
    assert q[..i + 1][i] == q[i];
    assert forall k :: 0 <= k < i ==> q[..i + 1][k] == q[..i][k];
  }

  lemma NothingToEdit(q: seq<Message>, m: Message)
    requires !HasIdentity(q, m.identity)
    ensures Edited(q, m) == q && !LimitChanges(q, m)
  {}
}
