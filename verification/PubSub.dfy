/** One shard: its channels, its subscriptions in two mirrored indexes, and delivery. */
module PubSubs {
  import opened Messages
  import opened Selections
  import opened QueueSpec
  import opened ChannelMaps
  import opened Ordered

  /** A subscriber's callback, identified by a number. */
  type Handler = nat

  datatype Call = Call(handler: Handler, channel: string, m: Message)

  datatype Options = Options(
    persistentDefault: bool,
    rocksdbDisabled: bool,
    cacheDisabled: bool,
    defaultLifetime: int,
    defaultLimit: nat)

  datatype Params = Params(channel: string, cursor: int, limit: nat)

  // ----- meaning -----

  datatype Shard = Shard(channels: map<string, State>, subs: map<Sub, Handler>)

  const NEW_SHARD := Shard(map[], map[])

  /** A message without lifetime and limit is only delivered. */
  predicate Transient(m: Message) {
    m.lifetime == 0 && m.limit == 0
  }

  function Normalized(opt: Options, now: int, m: Message): Message {
    if Transient(m) then m
    else m.(birthtime := if m.birthtime == 0 then now else m.birthtime,
            lifetime := if m.lifetime == 0 then opt.defaultLifetime else m.lifetime,
            limit := if m.limit == 0 then opt.defaultLimit else m.limit)
  }

  predicate Cached(opt: Options, m: Message) {
    !Transient(m) && !opt.cacheDisabled && !m.persistent
  }

  function IdsOf(subs: map<Sub, Handler>, channel: string): set<nat> {
    set s | s in subs && s.channel == channel :: s.id
  }

  predicate NatLess(a: nat, b: nat) {
    a < b
  }

  function Calls(subs: map<Sub, Handler>, ids: seq<nat>, channel: string, m: Message): seq<Call>
    requires forall id :: id in ids ==> Sub(id, channel) in subs
  {
    seq(|ids|, i requires 0 <= i < |ids| => Call(subs[Sub(ids[i], channel)], channel, m))
  }

  /** One call to each handler subscribed to the channel, in increasing order of subscriber. */
  ghost function Deliveries(subs: map<Sub, Handler>, channel: string, m: Message): seq<Call> {
    var ids := InOrder(IdsOf(subs, channel), NatLess);
    InOrderIs(IdsOf(subs, channel), NatLess);
    assert forall id :: id in ids ==> id in Elements(ids);
    Calls(subs, ids, channel, m)
  }

  function SubsOf(subs: map<Sub, Handler>, id: nat): set<Sub> {
    set s | s in subs && s.id == id
  }

  function PublishShard(opt: Options, sh: Shard, t1: int, t2: int, channel: string, m: Message): Shard {
    if Cached(opt, m) then sh.(channels := PushChannel(sh.channels, channel, t2, Normalized(opt, t1, m))) else sh
  }

  function SubscribeShard(sh: Shard, id: nat, channel: string, handler: Handler): Shard {
    sh.(subs := sh.subs[Sub(id, channel) := handler])
  }

  function DescribeShardOne(sh: Shard, id: nat, channel: string): Shard {
    sh.(subs := sh.subs - {Sub(id, channel)})
  }

  function DescribeShard(sh: Shard, id: nat): Shard {
    sh.(subs := sh.subs - SubsOf(sh.subs, id))
  }

  /** The answer so far, once the database has appended its part. */
  function WithDb(opt: Options, hasDb: bool, ml: seq<Message>, fromDb: seq<Message>): seq<Message> {
    if !opt.rocksdbDisabled && hasDb then ml + fromDb else ml
  }

  /** The cache is asked unless it is off, or everything persists by default and something was found. */
  predicate AsksCache(opt: Options, hasDb: bool, all: seq<Message>) {
    !opt.cacheDisabled && !(!opt.rocksdbDisabled && hasDb && all != [] && opt.persistentDefault)
  }

  function ReadShard(opt: Options, hasDb: bool, sh: Shard, all: seq<Message>, t: int, p: Params): seq<Message> {
    if AsksCache(opt, hasDb, all) then all + ReadChannel(sh.channels, p.channel, t, p.cursor, p.limit) else all
  }

  /** A read expires the channel it asks. */
  function TouchShard(opt: Options, hasDb: bool, sh: Shard, all: seq<Message>, t: int, p: Params): Shard {
    if AsksCache(opt, hasDb, all) then sh.(channels := TouchChannel(sh.channels, p.channel, t)) else sh
  }

  /** What a shard keeps of a publish: nothing of a message without lifetime and limit; otherwise the message
      with only its unset birthtime, lifetime and limit filled in, in the cache unless it is off or the message
      is persistent. */
  lemma PublishIs(opt: Options, sh: Shard, t1: int, t2: int, channel: string, m: Message)
    ensures m.lifetime == 0 && m.limit == 0 ==>
      Normalized(opt, t1, m) == m && PublishShard(opt, sh, t1, t2, channel, m) == sh
    ensures m.lifetime != 0 || m.limit != 0 ==>
      var x := m.(
        birthtime := if m.birthtime == 0 then t1 else m.birthtime,
        lifetime := if m.lifetime == 0 then opt.defaultLifetime else m.lifetime,
        limit := if m.limit == 0 then opt.defaultLimit else m.limit);
      && Normalized(opt, t1, m) == x
      && PublishShard(opt, sh, t1, t2, channel, m) ==
           if opt.cacheDisabled || m.persistent then sh
           else sh.(channels := PushChannel(sh.channels, channel, t2, x))
  {}

  /** What a read answers: the caller's list, then the database's answer if the database is in use, and then the
      end of the channel's living list, left out exactly when the cache is off, or when everything persists in a
      database in use and something was found already. */
  lemma ReadShardIs(opt: Options, hasDb: bool, sh: Shard, ml: seq<Message>, fromDb: seq<Message>, t: int, p: Params)
    requires p.channel in sh.channels ==> Sorted(sh.channels[p.channel].msgs)
    ensures var inUse := !opt.rocksdbDisabled && hasDb;
      var found := if inUse then ml + fromDb else ml;
      var r := ReadShard(opt, hasDb, sh, WithDb(opt, hasDb, ml, fromDb), t, p);
      && found <= r
      && (opt.cacheDisabled || (inUse && opt.persistentDefault && found != []) ==> r == found)
      && (!opt.cacheDisabled && !(inUse && opt.persistentDefault && found != []) ==>
            LastFrom(r[|found|..],
              if p.channel in sh.channels then Keep(sh.channels[p.channel].msgs, AliveAt(t)) else [],
              p.cursor, p.limit))
      && (forall m :: m in r[|found|..] ==> m.birthtime + m.lifetime >= t && m.cursor >= p.cursor)
  {
    hide ReadChannel, Keep;
    ReadIs(sh.channels, p.channel, t, p.cursor, p.limit);
    var found := WithDb(opt, hasDb, ml, fromDb);
    var cached := ReadChannel(sh.channels, p.channel, t, p.cursor, p.limit);
    assert (found + cached)[|found|..] == cached && found[|found|..] == [];
  }

  class PubSub {
    const opt: Options
    const hasDb: bool
    const cache: ChannelMap
    var subscriberSet: seq<Sub>
    var handlerKeys: seq<Sub>
    var handlers: map<Sub, Handler>
    var calls: seq<Call>

    ghost function Repr(): set<object>
      reads cache
    {
      {this} + cache.Repr()
    }

    /** Both indexes hold the same subscriptions, each in its own order. */
    ghost predicate Mirrored()
      reads this
    {
      && Ascending(subscriberSet, IdFirst)
      && Ascending(handlerKeys, ChannelFirst)
      && Elements(subscriberSet) == handlers.Keys
      && Elements(handlerKeys) == handlers.Keys
    }

    ghost predicate Valid()
      reads this, cache, cache.channels.Values
    {
      this !in cache.Repr() && cache.Valid() && Mirrored()
    }

    ghost function View(): Shard
      reads this, cache, cache.channels.Values
    {
      Shard(cache.View(), handlers)
    }

    constructor (opt: Options, hasDb: bool)
      ensures Valid() && View() == NEW_SHARD && calls == [] && fresh(Repr())
      ensures this.opt == opt && this.hasDb == hasDb
    {
      this.opt, this.hasDb := opt, hasDb;
      cache := new ChannelMap();
      subscriberSet, handlerKeys, handlers, calls := [], [], map[], [];
    }

    /** Returns what goes to the database, and always delivers. */
    method Publish(t1: int, t2: int, channel: string, m: Message) returns (toDb: Option<Message>)
      requires Valid()
      modifies Repr()
      ensures Valid() && fresh(Repr() - old(Repr()))
      ensures View() == PublishShard(opt, old(View()), t1, t2, channel, m)
      ensures calls == old(calls) + Deliveries(old(handlers), channel, Normalized(opt, t1, m))
      ensures toDb.Some? <==>
        (m.lifetime != 0 || m.limit != 0) && (m.persistent || opt.persistentDefault) && !opt.rocksdbDisabled && hasDb
      ensures toDb.Some? ==> toDb.value == m.(
        birthtime := if m.birthtime == 0 then t1 else m.birthtime,
        lifetime := if m.lifetime == 0 then opt.defaultLifetime else m.lifetime,
        limit := if m.limit == 0 then opt.defaultLimit else m.limit)
    {
      hide PushChannel, Deliveries, Ascending, Elements, StringLess, Inv, Push;
      toDb := None;
      var msg := m;
      if !(msg.lifetime == 0 && msg.limit == 0) {
        if msg.birthtime == 0 {
          msg := msg.(birthtime := t1);
        }
        if msg.lifetime == 0 {
          msg := msg.(lifetime := opt.defaultLifetime);
        }
        if msg.limit == 0 {
          msg := msg.(limit := opt.defaultLimit);
        }
        if msg.persistent || opt.persistentDefault {
          if !opt.rocksdbDisabled && hasDb {
            toDb := Some(msg);
          }
        }
        if !opt.cacheDisabled && !msg.persistent {
          var taken := cache.Push(channel, t2, msg);
        }
      }
      Fire(channel, msg);
    }

    /** Calls every handler of the channel: a scan from the channel's lowest possible key. */
    method Fire(channel: string, m: Message)
      requires Valid()
      modifies this`calls
      ensures Valid()
      ensures calls == old(calls) + Deliveries(handlers, channel, m)
    {
      hide Deliveries, Ascending, StrictTotal, ChannelFirst, Inv;
      SubOrders();
      var itr := LowerBound(handlerKeys, Sub(0, channel), ChannelFirst);
      ghost var start, ids := itr, [];
      while itr < |handlerKeys| && handlerKeys[itr].channel == channel
        invariant start <= itr <= |handlerKeys|
        invariant |ids| == itr - start
        invariant forall i :: start <= i < itr ==> handlerKeys[i] == Sub(ids[i - start], channel)
        invariant forall id :: id in ids ==> Sub(id, channel) in handlers
        invariant calls == old(calls) + Calls(handlers, ids, channel, m)
      {
        assert handlerKeys[itr] in Elements(handlerKeys);
        calls := calls + [Call(handlers[handlerKeys[itr]], channel, m)];
        ids := ids + [handlerKeys[itr].id];
        itr := itr + 1;
      }
      ScanIsChannel(handlerKeys, handlers.Keys, channel, start, itr, ids);
      DeliveriesAre(handlers, channel, m, ids);
    }

    /** `fromDb` is what the database, when it is in use, appended. */
    method GetMessages(ml: seq<Message>, fromDb: seq<Message>, t: int, p: Params) returns (ml': seq<Message>)
      requires Valid()
      modifies cache.Repr()
      ensures Valid() && fresh(Repr() - old(Repr()))
      ensures View() == TouchShard(opt, hasDb, old(View()), WithDb(opt, hasDb, ml, fromDb), t, p)
      ensures ml' == ReadShard(opt, hasDb, old(View()), WithDb(opt, hasDb, ml, fromDb), t, p)
      ensures var inUse := !opt.rocksdbDisabled && hasDb;
        var found := if inUse then ml + fromDb else ml;
        ml' == if opt.cacheDisabled || (inUse && opt.persistentDefault && found != []) then found
          else found + ReadChannel(old(View()).channels, p.channel, t, p.cursor, p.limit)
    {
      ml' := ml;
      if !opt.rocksdbDisabled && hasDb {
        ml' := ml' + fromDb;
        if ml' != [] && opt.persistentDefault {
          return;
        }
      }
      if !opt.cacheDisabled {
        ml' := cache.GetMessages(ml', p.channel, t, p.cursor, p.limit);
      }
    }

    /** Re-subscribing replaces the handler: the old one is removed first. */
    method Subscribe(ml: seq<Message>, fromDb: seq<Message>, t: int, id: nat, p: Params, handler: Handler)
      returns (ml': seq<Message>)
      requires Valid()
      modifies this`subscriberSet, this`handlerKeys, this`handlers, cache.Repr()
      ensures Valid() && fresh(Repr() - old(Repr()))
      ensures View() == SubscribeShard(
        TouchShard(opt, hasDb, old(View()), WithDb(opt, hasDb, ml, fromDb), t, p), id, p.channel, handler)
      ensures ml' == ReadShard(opt, hasDb, old(View()), WithDb(opt, hasDb, ml, fromDb), t, p)
    {
      hide PubSub.Mirrored, ChannelMap.Valid, TouchChannel, ReadChannel, Inv, WithDb, AsksCache;
      var found := DescribeOne(id, p.channel);
      var added := AddSubscription(id, p.channel, handler);
      ml' := GetMessages(ml, fromDb, t, p);
    }

    /** std::map insertion: a handler already there would stay. */
    method AddSubscription(id: nat, channel: string, handler: Handler) returns (added: bool)
      requires Valid()
      modifies this`subscriberSet, this`handlerKeys, this`handlers
      ensures Valid()
      ensures added == (Sub(id, channel) !in old(handlers))
      ensures handlers == if added then old(handlers)[Sub(id, channel) := handler] else old(handlers)
    {
      hide StrictTotal, Ascending, IdFirst, ChannelFirst;
      SubOrders();
      hide StrictTotal, Ascending;
      var known;
      subscriberSet, known := Include(subscriberSet, Sub(id, channel), IdFirst);
      handlerKeys, added := Include(handlerKeys, Sub(id, channel), ChannelFirst);
      if added {
        handlers := handlers[Sub(id, channel) := handler];
      }
    }

    method DescribeOne(id: nat, channel: string) returns (found: bool)
      requires Valid()
      modifies this`subscriberSet, this`handlerKeys, this`handlers
      ensures Valid()
      ensures found == (Sub(id, channel) in old(handlers))
      ensures handlers == old(handlers) - {Sub(id, channel)}
    {
      SubOrders();
      var key := Sub(id, channel);
      var at := LowerBound(subscriberSet, key, IdFirst);
      if at == |subscriberSet| || subscriberSet[at].id != id || subscriberSet[at].channel != channel {
        NotAtLowerBound(subscriberSet, key, IdFirst, at);
        assert key !in Elements(subscriberSet);
        return false;
      }
      assert subscriberSet[at] == key && key in Elements(subscriberSet);
      handlerKeys := Exclude(handlerKeys, key, ChannelFirst);
      handlers := handlers - {key};
      CutOne(subscriberSet, at);
      subscriberSet := subscriberSet[..at] + subscriberSet[at + 1..];
      found := true;
    }

    /** Removes all subscriptions of one subscriber: a scan of one index, erasing from both. */
    method Describe(id: nat) returns (count: nat)
      requires Valid()
      modifies this`subscriberSet, this`handlerKeys, this`handlers
      ensures Valid()
      ensures handlers == old(handlers) - SubsOf(old(handlers), id)
      ensures count == |SubsOf(old(handlers), id)|
    {
      hide StrictTotal, Ascending, IdFirst, ChannelFirst, Elements;
      SubOrders();
      var beg := LowerBound(subscriberSet, Sub(id, ""), IdFirst);
      var itr := beg;
      EraseNothing(handlers, subscriberSet, beg);
      while itr < |subscriberSet| && subscriberSet[itr].id == id
        invariant beg <= itr <= |subscriberSet| && subscriberSet == old(subscriberSet)
        invariant forall i :: beg <= i < itr ==> subscriberSet[i].id == id
        invariant Ascending(handlerKeys, ChannelFirst) && Elements(handlerKeys) == handlers.Keys
        invariant handlers == old(handlers) - Elements(subscriberSet[beg..itr])
      {
        EraseOneMore(old(handlers), subscriberSet, beg, itr);
        handlerKeys := Exclude(handlerKeys, subscriberSet[itr], ChannelFirst);
        handlers := handlers - {subscriberSet[itr]};
        itr := itr + 1;
      }
      ScanIsSubscriber(subscriberSet, old(handlers), id, beg, itr);
      count := itr - beg;
      subscriberSet := subscriberSet[..beg] + subscriberSet[itr..];
    }

    /** The source aborts when the sizes of the two indexes differ; they never do. */
    method SubscriberCount() returns (count: nat)
      requires Valid()
      ensures count == |handlers|
    {
      SubOrders();
      ElementsSize(handlerKeys, ChannelFirst);
      ElementsSize(subscriberSet, IdFirst);
      if |handlerKeys| != |subscriberSet| {
        assert false;
      }
      count := |handlerKeys|;
    }
  }

  // ----- range scans -----

  lemma EraseNothing(subs: map<Sub, Handler>, keys: seq<Sub>, at: nat)
    requires at <= |keys|
    ensures subs - Elements(keys[at..at]) == subs
  {}

  lemma EraseOneMore(subs: map<Sub, Handler>, keys: seq<Sub>, beg: nat, itr: nat)
    requires beg <= itr < |keys|
    ensures subs - Elements(keys[beg..itr]) - {keys[itr]} == subs - Elements(keys[beg..itr + 1])
  {
    assert keys[beg..itr + 1] == keys[beg..itr] + [keys[itr]];
    assert Elements(keys[beg..itr + 1]) == Elements(keys[beg..itr]) + {keys[itr]};
  }

  /** From the lower bound of (channel, 0) to the first other channel lie exactly the channel's keys. */
  lemma ScanIsChannel(keys: seq<Sub>, subs: set<Sub>, channel: string, start: nat, end: nat, ids: seq<nat>)
    requires Ascending(keys, ChannelFirst) && Elements(keys) == subs
    requires start <= end <= |keys| && |ids| == end - start
    requires forall i :: 0 <= i < start ==> ChannelFirst(keys[i], Sub(0, channel))
    requires forall i :: start <= i < |keys| ==> !ChannelFirst(keys[i], Sub(0, channel))
    requires forall i :: start <= i < end ==> keys[i] == Sub(ids[i - start], channel)
    requires end < |keys| ==> keys[end].channel != channel
    ensures Ascending(ids, NatLess)
    ensures forall id :: id in Elements(ids) <==> Sub(id, channel) in subs
  {
    SubOrders();
    forall i, j | 0 <= i < j < |ids| ensures NatLess(ids[i], ids[j]) {
      assert ChannelFirst(keys[start + i], keys[start + j]);
    }
    forall i | end <= i < |keys| ensures keys[i].channel != channel {
      assert !ChannelFirst(keys[end], Sub(0, channel));
      StringLessConnected(channel, keys[end].channel);
      if i != end {
        assert ChannelFirst(keys[end], keys[i]);
        NotLessThroughGreater(channel, keys[end].channel, keys[i].channel);
      }
    }
    forall id: nat ensures id in Elements(ids) <==> Sub(id, channel) in subs {
      if id in ids {
        var k :| 0 <= k < |ids| && ids[k] == id;
        assert keys[start + k] == Sub(id, channel) && keys[start + k] in Elements(keys);
      }
      if Sub(id, channel) in Elements(keys) {
        var i :| 0 <= i < |keys| && keys[i] == Sub(id, channel);
        assert start <= i < end;
        assert ids[i - start] == id;
      }
    }
  }

  lemma NotLessThroughGreater(a: string, b: string, c: string)
    requires StringLess(a, b) && (b == c || StringLess(b, c))
    ensures a != c
  {
    StringLessIrreflexive(a);
    if b != c {
      StringLessTransitive(a, b, c);
    }
  }

  lemma DeliveriesAre(subs: map<Sub, Handler>, channel: string, m: Message, ids: seq<nat>)
    requires Ascending(ids, NatLess)
    requires forall id :: id in Elements(ids) <==> Sub(id, channel) in subs
    ensures forall id :: id in ids ==> Sub(id, channel) in subs
    ensures Deliveries(subs, channel, m) == Calls(subs, ids, channel, m)
  {
    var all := IdsOf(subs, channel);
    assert Elements(ids) == all;
    InOrderUnique(ids, all, NatLess);
    assert forall id :: id in ids ==> id in Elements(ids);
  }

  /** Every subscriber of the channel is called once, with its current handler, and nobody else is. */
  lemma DeliveriesExact(subs: map<Sub, Handler>, channel: string, m: Message) returns (ids: seq<nat>)
    ensures |Deliveries(subs, channel, m)| == |ids|
    ensures forall i, j :: 0 <= i < j < |ids| ==> ids[i] < ids[j]
    ensures forall id :: id in ids <==> Sub(id, channel) in subs
    ensures forall i :: 0 <= i < |ids| ==>
      Deliveries(subs, channel, m)[i] == Call(subs[Sub(ids[i], channel)], channel, m)
  {
    var all := IdsOf(subs, channel);
    ids := InOrder(all, NatLess);
    InOrderIs(all, NatLess);
    forall id: nat ensures id in ids <==> Sub(id, channel) in subs {
      assert id in Elements(ids) <==> id in all;
    }
    forall i, j | 0 <= i < j < |ids| ensures ids[i] < ids[j] {
      assert NatLess(ids[i], ids[j]);
    }
  }

  lemma CutOne(keys: seq<Sub>, at: nat)
    requires Ascending(keys, IdFirst) && at < |keys|
    ensures Ascending(keys[..at] + keys[at + 1..], IdFirst)
    ensures Elements(keys[..at] + keys[at + 1..]) == Elements(keys) - {keys[at]}
  {
    SubOrders();
    var r := keys[..at] + keys[at + 1..];
    assert keys == keys[..at] + [keys[at]] + keys[at + 1..];
    assert keys[at] !in r;
  }

  /** From the lower bound of (id, "") to the first other subscriber lie exactly the subscriber's keys. */
  lemma ScanIsSubscriber(keys: seq<Sub>, subs: map<Sub, Handler>, id: nat, beg: nat, end: nat)
    requires Ascending(keys, IdFirst) && Elements(keys) == subs.Keys
    requires beg <= end <= |keys|
    requires forall i :: 0 <= i < beg ==> IdFirst(keys[i], Sub(id, ""))
    requires forall i :: beg <= i < |keys| ==> !IdFirst(keys[i], Sub(id, ""))
    requires forall i :: beg <= i < end ==> keys[i].id == id
    requires end < |keys| ==> keys[end].id != id
    ensures Elements(keys[beg..end]) == SubsOf(subs, id) && end - beg == |SubsOf(subs, id)|
    ensures Ascending(keys[..beg] + keys[end..], IdFirst)
    ensures Elements(keys[..beg] + keys[end..]) == subs.Keys - SubsOf(subs, id)
  {
    SubOrders();
    forall i | end <= i < |keys| ensures keys[i].id != id {
      assert keys[end].id > id;
      assert i == end || IdFirst(keys[end], keys[i]);
    }
    ElementsSize(keys[beg..end], IdFirst);
    SplitElements(keys, subs.Keys, id, beg, end);
    assert Elements(keys[beg..end]) == SubsOf(subs, id);
    assert Elements(keys[..beg] + keys[end..]) == subs.Keys - SubsOf(subs, id);
  }

  lemma SplitElements(keys: seq<Sub>, subs: set<Sub>, id: nat, beg: nat, end: nat)
    requires beg <= end <= |keys| && Elements(keys) == subs
    requires forall i :: 0 <= i < |keys| ==> (keys[i].id == id <==> beg <= i < end)
    ensures forall s :: s in Elements(keys[beg..end]) <==> s in subs && s.id == id
    ensures forall s :: s in Elements(keys[..beg] + keys[end..]) <==> s in subs && s.id != id
  {
    assert keys == keys[..beg] + keys[beg..end] + keys[end..];
    assert forall s :: s in keys <==> s in Elements(keys);
    assert forall s :: s in keys[..beg] + keys[end..] ==> s.id != id;
    assert forall s :: s in keys[beg..end] ==> s.id == id;
  }
}
