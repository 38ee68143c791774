/** Channels by name. A read expires its channel first and erases it when nothing is left. */
module ChannelMaps {
  import opened Messages
  import opened Selections
  import opened QueueSpec
  import opened QueueRuns
  import opened MessageQueues

  // ----- meaning -----

  function ListOf(chs: map<string, State>, name: string): seq<Message> {
    if name in chs then chs[name].msgs else []
  }

  function PushChannel(chs: map<string, State>, name: string, now: int, m: Message): map<string, State> {
    if name in chs then chs[name := Push(chs[name], now, m)]
    else if m.lifetime == 0 && m.limit == 0 then chs
    else chs[name := Push(EMPTY, now, m)]
  }

  function TouchChannel(chs: map<string, State>, name: string, now: int): map<string, State> {
    if name !in chs then chs
    else
      var s := Expired(chs[name], now);
      if s.msgs == [] then chs - {name} else chs[name := s]
  }

  function ReadChannel(chs: map<string, State>, name: string, now: int, cursor: int, limit: nat): seq<Message> {
    Query(Keep(ListOf(chs, name), AliveAt(now)), cursor, limit)
  }

  class ChannelMap {
    var channels: map<string, MessageQueue>

    ghost function Repr(): set<object>
      reads this
    {
      {this} + channels.Values
    }

    /** No two channels share a queue. */
    ghost predicate Valid()
      reads this, channels.Values
    {
      && (forall c :: c in channels ==> channels[c].Valid())
      && (forall a, b :: a in channels && b in channels && a != b ==> channels[a] != channels[b])
    }

    ghost function View(): map<string, State>
      reads this, channels.Values
    {
      map c | c in channels :: channels[c].View()
    }

    constructor ()
      ensures Valid() && View() == map[] && fresh(Repr())
    {
      channels := map[];
    }

    method AddChannel(name: string)
      requires Valid() && name !in channels
      modifies this
      ensures Valid() && fresh(Repr() - old(Repr()))
      ensures View() == old(View())[name := EMPTY] && name in channels && fresh(channels[name])
    {
      hide Inv;
      var queue := new MessageQueue();
      channels := channels[name := queue];
    }

    method PushInto(name: string, now: int, m: Message) returns (back: Option<Message>)
      requires Valid() && name in channels
      modifies channels[name]
      ensures Valid() && Repr() == old(Repr())
      ensures View() == old(View())[name := QueueSpec.Push(old(View())[name], now, m)]
      ensures back == if m.action.Publish? && (m.lifetime == 0 || m.limit == 0) then Some(m) else None
    {
      hide QueueSpec.Push, Inv;
      back := channels[name].Push(now, m);
    }

    method Push(name: string, now: int, m: Message) returns (taken: bool)
      requires Valid()
      modifies Repr()
      ensures Valid() && fresh(Repr() - old(Repr()))
      ensures View() == PushChannel(old(View()), name, now, m)
      ensures taken == if m.action.Publish? then m.lifetime != 0 && m.limit != 0
        else name in old(channels) || m.lifetime != 0 || m.limit != 0
    {
      hide QueueSpec.Push, Inv;
      if name !in channels {
        if m.lifetime == 0 && m.limit == 0 {
          return false;
        }
        AddChannel(name);
      }
      assert channels[name] in Repr();
      var back := PushInto(name, now, m);
      taken := back == None;
    }

    /** Finds the channel, expires it, and erases it when it became empty. */
    method FindAndRemoveDeath(name: string, now: int) returns (found: Option<MessageQueue>)
      requires Valid()
      modifies Repr()
      ensures Valid() && Repr() <= old(Repr())
      ensures View() == TouchChannel(old(View()), name, now)
      ensures found == if name in channels then Some(channels[name]) else None
    {
      hide Expired, Inv;
      if name !in channels {
        return None;
      }
      var queue := channels[name];
      queue.RemoveDeath(now);
      if queue.msgs == [] {
        channels := channels - {name};
        return None;
      }
      found := Some(queue);
    }

    method GetMessages(ml: seq<Message>, name: string, now: int, cursor: int, limit: nat) returns (ml': seq<Message>)
      requires Valid()
      modifies Repr()
      ensures Valid() && Repr() <= old(Repr())
      ensures View() == TouchChannel(old(View()), name, now)
      ensures ml' == ml + ReadChannel(old(View()), name, now, cursor, limit)
    {
      ghost var before := View();
      var found := FindAndRemoveDeath(name, now);
      if found == None {
        return ml;
      }
      assert View()[name] == Expired(before[name], now);
      ml' := found.value.CopyLast(cursor, limit, ml);
    }

    method Erase(name: string)
      requires Valid()
      modifies this
      ensures Valid() && Repr() <= old(Repr())
      ensures View() == old(View()) - {name}
    {
      channels := channels - {name};
    }
  }

  // ----- what a read finds -----

  /** A read finds the end of the channel's living list, and of what is alive and not before the cursor it
      leaves something out only when the limit is used up. */
  lemma ReadIs(chs: map<string, State>, name: string, now: int, cursor: int, limit: nat)
    requires name in chs ==> Sorted(chs[name].msgs)
    ensures var r := ReadChannel(chs, name, now, cursor, limit);
      && LastFrom(r, if name in chs then Keep(chs[name].msgs, AliveAt(now)) else [], cursor, limit)
      && (forall m :: m in r ==> m.birthtime + m.lifetime >= now && m.cursor >= cursor)
      && (name in chs && |r| < limit ==> forall m :: m in chs[name].msgs ==>
            (m in r <==> m.birthtime + m.lifetime >= now && m.cursor >= cursor))
  {
    var r, live := ReadChannel(chs, name, now, cursor, limit), Keep(ListOf(chs, name), AliveAt(now));
    KeepSorted(ListOf(chs, name), AliveAt(now));
    QueryIsLastFrom(live, cursor, limit);
    assert forall m :: m in r ==> m in live;
    hide Keep, LastN, Query;
    if |r| < limit {
      forall m | m in live && m.cursor >= cursor ensures m in r {
        NothingLeftOut(r, live, cursor, limit, m);
      }
    }
  }

  lemma NothingLeftOut(r: seq<Message>, q: seq<Message>, cursor: int, limit: nat, m: Message)
    requires LastFrom(r, q, cursor, limit) && |r| < limit
    requires m in q && m.cursor >= cursor
    ensures m in r
  {
    var i :| 0 <= i < |q| && q[i] == m;
    var cut := |q| - |r|;
    assert i >= cut;
    assert r[i - cut] == q[cut..][i - cut] == q[i];
  }

  // ----- an absent channel behaves as an empty queue -----

  /** Whatever an emptied queue remembers, the next push sees an empty list, for all five actions. */
  lemma AbsentIsEmpty(chs: map<string, State>, name: string, now: int, m: Message, forgotten: State)
    requires name !in chs && forgotten.msgs == []
    ensures ListOf(PushChannel(chs, name, now, m), name) == Push(forgotten, now, m).msgs
  {
    hide Settled;
    assert Keep([], AliveAt(now)) == [];
    SettledByList(ExpiredUnlessSameSecond(EMPTY, now), ExpiredUnlessSameSecond(forgotten, now), now, m);
  }

  /** An erased channel starts over: its counter of removed messages and its flag are those of a new queue. */
  lemma ErasureForgets(chs: map<string, State>, name: string, t: int, now: int, m: Message)
    requires name in chs && Expired(chs[name], t).msgs == [] && !(m.lifetime == 0 && m.limit == 0)
    ensures PushChannel(TouchChannel(chs, name, t), name, now, m)[name] == Push(EMPTY, now, m)
  {
    hide Push, Expired;
  }

  // ----- a read between pushes -----

  /** The push after a read meets the expired list, erased or not. */
  lemma PushAfterTouch(chs: map<string, State>, name: string, now: int, m: Message)
    requires name in chs
    ensures ListOf(PushChannel(TouchChannel(chs, name, now), name, now, m), name) ==
      Push(Expired(chs[name], now), now, m).msgs
  {
    hide Push, Expired;
    if Expired(chs[name], now).msgs == [] {
      AbsentIsEmpty(chs - {name}, name, now, m, Expired(chs[name], now));
    }
  }

  /** What a later read finds after the push. */
  function ReadLater(chs: map<string, State>, name: string, now: int, m: Message, t: int, cursor: int, limit: nat)
    : seq<Message>
  {
    ReadChannel(PushChannel(chs, name, now, m), name, t, cursor, limit)
  }

  /** A read in between can never be noticed by a later read, whatever is pushed, if and only if the channel
      was not expired in this second or holds nothing dead. */
  lemma ReadsUnobservableExactly(chs: map<string, State>, name: string, now: int)
    ensures (forall m, t, cursor, limit | t >= now ::
        ReadLater(TouchChannel(chs, name, now), name, now, m, t, cursor, limit) ==
          ReadLater(chs, name, now, m, t, cursor, limit)) <==>
      (name in chs ==> chs[name].last != now || All(chs[name].msgs, AliveAt(now)))
  {
    hide Push, Expired, Keep, All, PushChannel;
    if name in chs {
      var s := chs[name];
      if s.last != now || All(s.msgs, AliveAt(now)) {
        forall m ensures ListOf(PushChannel(TouchChannel(chs, name, now), name, now, m), name) ==
            ListOf(PushChannel(chs, name, now, m), name) {
          ExpiryBetween(s, now, m);
          PushAfterTouch(chs, name, now, m);
          PushInPlace(chs, name, now, m);
        }
      } else {
        var m := ExpiryObserved(s, now);
        PushAfterTouch(chs, name, now, m);
        PushInPlace(chs, name, now, m);
        var limit := |Push(Expired(s, now), now, m).msgs| + |Push(s, now, m).msgs|;
        FoundByRead(PushChannel(TouchChannel(chs, name, now), name, now, m), name, now, m, limit);
        NotFoundByRead(PushChannel(chs, name, now, m), name, now, m, limit);
        assert ReadLater(TouchChannel(chs, name, now), name, now, m, now, m.cursor, limit) !=
          ReadLater(chs, name, now, m, now, m.cursor, limit);
      }
    }
  }

  lemma PushInPlace(chs: map<string, State>, name: string, now: int, m: Message)
    requires name in chs
    ensures ListOf(PushChannel(chs, name, now, m), name) == Push(chs[name], now, m).msgs
  {
    hide Push;
  }

  lemma FoundByRead(chs: map<string, State>, name: string, now: int, m: Message, limit: nat)
    requires m in ListOf(chs, name) && m.DeathTime() >= now && limit >= |ListOf(chs, name)|
    ensures m in ReadChannel(chs, name, now, m.cursor, limit)
  {}

  lemma NotFoundByRead(chs: map<string, State>, name: string, now: int, m: Message, limit: nat)
    requires m !in ListOf(chs, name)
    ensures m !in ReadChannel(chs, name, now, m.cursor, limit)
  {
    var found := Keep(Keep(ListOf(chs, name), AliveAt(now)), CursorFrom(m.cursor));
    assert forall x :: x in LastN(found, limit) ==> x in found;
  }
}
