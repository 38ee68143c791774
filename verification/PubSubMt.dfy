/** Shards chosen by the hash of the channel name, one lock each: every operation below on a single
    shard is one atomic step. */
module PubSubMts {
  import opened Messages
  import opened Selections
  import opened QueueSpec
  import opened ChannelMaps
  import opened Ordered
  import opened PubSubs

  // ----- meaning -----

  function Index(hash: string -> nat, size: nat, channel: string): nat
    requires size > 0
    ensures Index(hash, size, channel) < size
  {
    hash(channel) % size
  }

  /** Messages and subscriptions of a channel live only in the shard of its hash. */
  ghost predicate Placed(sys: seq<Shard>, hash: string -> nat) {
    sys != [] && forall i :: 0 <= i < |sys| ==> PlacedAt(sys[i], hash, |sys|, i)
  }

  ghost predicate PlacedAt(sh: Shard, hash: string -> nat, size: nat, i: nat)
    requires size > 0
  {
    && (forall c :: c in sh.channels ==> Index(hash, size, c) == i)
    && (forall s :: s in sh.subs ==> Index(hash, size, s.channel) == i)
  }

  lemma PlacedNew(size: nat, hash: string -> nat)
    requires size > 0
    ensures Placed(seq(size, i => NEW_SHARD), hash)
  {}

  lemma PlacedAfter(sys: seq<Shard>, hash: string -> nat, i: nat, sh: Shard)
    requires Placed(sys, hash) && i < |sys|
    requires forall c :: c in sh.channels ==> c in sys[i].channels || Index(hash, |sys|, c) == i
    requires forall s :: s in sh.subs ==> s in sys[i].subs || Index(hash, |sys|, s.channel) == i
    ensures Placed(sys[i := sh], hash)
  {
    assert PlacedAt(sys[i], hash, |sys|, i);
  }

  /** All subscriptions of all shards. */
  function AllSubs(sys: seq<Shard>): map<Sub, Handler> {
    if sys == [] then map[] else AllSubs(sys[..|sys| - 1]) + sys[|sys| - 1].subs
  }

  function SumSubs(sys: seq<Shard>): nat {
    if sys == [] then 0 else SumSubs(sys[..|sys| - 1]) + |sys[|sys| - 1].subs|
  }

  function SumOf(sys: seq<Shard>, id: nat): nat {
    if sys == [] then 0 else SumOf(sys[..|sys| - 1], id) + |SubsOf(sys[|sys| - 1].subs, id)|
  }

  // ----- steps -----

  /** `ml` is the list a read appends to, `fromDb` what the database, when it is in use, appends first. */
  datatype Op =
    | Publishing(t1: int, t2: int, channel: string, m: Message)
    | Getting(ml: seq<Message>, fromDb: seq<Message>, t: int, p: Params)
    | Subscribing(ml: seq<Message>, fromDb: seq<Message>, t: int, id: nat, p: Params, handler: Handler)
    | Describing(id: nat, channel: string)
    | Sweeping(i: nat, id: nat)

  datatype Reply = Delivered(calls: seq<Call>) | Messages(ml: seq<Message>) | Found(found: bool) | Count(count: nat)

  datatype Config = Config(opt: Options, hasDb: bool, hash: string -> nat)

  function ShardOf(cfg: Config, size: nat, op: Op): nat
    requires size > 0
  {
    match op
    case Publishing(_, _, channel, _) => Index(cfg.hash, size, channel)
    case Getting(_, _, _, p) => Index(cfg.hash, size, p.channel)
    case Subscribing(_, _, _, _, p, _) => Index(cfg.hash, size, p.channel)
    case Describing(_, channel) => Index(cfg.hash, size, channel)
    case Sweeping(i, _) => i
  }

  /** The effect of one step on its shard. */
  function DoAt(cfg: Config, sh: Shard, op: Op): Shard {
    match op
    case Publishing(t1, t2, channel, m) => PublishShard(cfg.opt, sh, t1, t2, channel, m)
    case Getting(ml, fromDb, t, p) =>
      TouchShard(cfg.opt, cfg.hasDb, sh, WithDb(cfg.opt, cfg.hasDb, ml, fromDb), t, p)
    case Subscribing(ml, fromDb, t, id, p, handler) =>
      SubscribeShard(
        TouchShard(cfg.opt, cfg.hasDb, sh, WithDb(cfg.opt, cfg.hasDb, ml, fromDb), t, p), id, p.channel, handler)
    case Describing(id, channel) => DescribeShardOne(sh, id, channel)
    case Sweeping(_, id) => DescribeShard(sh, id)
  }

  ghost function ReplyAt(cfg: Config, sh: Shard, op: Op): Reply {
    match op
    case Publishing(t1, _, channel, m) => Delivered(Deliveries(sh.subs, channel, Normalized(cfg.opt, t1, m)))
    case Getting(ml, fromDb, t, p) =>
      Messages(ReadShard(cfg.opt, cfg.hasDb, sh, WithDb(cfg.opt, cfg.hasDb, ml, fromDb), t, p))
    case Subscribing(ml, fromDb, t, _, p, _) =>
      Messages(ReadShard(cfg.opt, cfg.hasDb, sh, WithDb(cfg.opt, cfg.hasDb, ml, fromDb), t, p))
    case Describing(id, channel) => Found(Sub(id, channel) in sh.subs)
    case Sweeping(_, id) => Count(|SubsOf(sh.subs, id)|)
  }

  function Do(cfg: Config, sys: seq<Shard>, op: Op): (sys': seq<Shard>)
    requires sys != [] && (op.Sweeping? ==> op.i < |sys|)
    ensures |sys'| == |sys|
  {
    var i := ShardOf(cfg, |sys|, op);
    sys[i := DoAt(cfg, sys[i], op)]
  }

  ghost function ReplyTo(cfg: Config, sys: seq<Shard>, op: Op): Reply
    requires sys != [] && (op.Sweeping? ==> op.i < |sys|)
  {
    ReplyAt(cfg, sys[ShardOf(cfg, |sys|, op)], op)
  }

  /** Every step keeps every channel in its own shard. */
  lemma DoKeepsPlaced(cfg: Config, sys: seq<Shard>, op: Op)
    requires sys != [] && Placed(sys, cfg.hash) && (op.Sweeping? ==> op.i < |sys|)
    ensures Placed(Do(cfg, sys, op), cfg.hash)
  {
    hide Placed, Push, Expired, AsksCache, Normalized, Cached;
    var i := ShardOf(cfg, |sys|, op);
    PlacedAfter(sys, cfg.hash, i, DoAt(cfg, sys[i], op));
  }

  /** The same of a read or a subscription in the whole system: its shard's channel answers it. */
  lemma ReplyIs(cfg: Config, sys: seq<Shard>, op: Op)
    requires sys != [] && (op.Getting? || op.Subscribing?)
    requires var chs := sys[Index(cfg.hash, |sys|, op.p.channel)].channels;
      op.p.channel in chs ==> Sorted(chs[op.p.channel].msgs)
    ensures ReplyTo(cfg, sys, op).Messages?
    ensures var chs := sys[Index(cfg.hash, |sys|, op.p.channel)].channels;
      var inUse := !cfg.opt.rocksdbDisabled && cfg.hasDb;
      var found := if inUse then op.ml + op.fromDb else op.ml;
      var r := ReplyTo(cfg, sys, op).ml;
      && found <= r
      && (cfg.opt.cacheDisabled || (inUse && cfg.opt.persistentDefault && found != []) ==> r == found)
      && (!cfg.opt.cacheDisabled && !(inUse && cfg.opt.persistentDefault && found != []) ==>
            LastFrom(r[|found|..],
              if op.p.channel in chs then Keep(chs[op.p.channel].msgs, AliveAt(op.t)) else [],
              op.p.cursor, op.p.limit))
      && (forall m :: m in r[|found|..] ==> m.birthtime + m.lifetime >= op.t && m.cursor >= op.p.cursor)
  {
    hide ReadShard, WithDb, Keep, LastFrom;
    var sh := sys[Index(cfg.hash, |sys|, op.p.channel)];
    ReadShardIs(cfg.opt, cfg.hasDb, sh, op.ml, op.fromDb, op.t, op.p);
  }

  class PubSubMt {
    const opt: Options
    const hasDb: bool
    const hash: string -> nat
    const shards: seq<PubSub>
    ghost var Repr: set<object>

    /** Each shard lies within the footprint. */
    ghost predicate Inside()
      reads this, Repr
    {
      && this in Repr
      && forall i :: 0 <= i < |shards| ==> shards[i].cache in Repr && shards[i].Repr() <= Repr
    }

    /** No object belongs to two shards. */
    ghost predicate Apart()
      reads this, Repr
      requires Inside()
    {
      && (forall i :: 0 <= i < |shards| ==> this !in shards[i].Repr())
      && (forall i, j :: 0 <= i < j < |shards| ==> shards[i].Repr() !! shards[j].Repr())
    }

    ghost predicate Valid()
      reads this, Repr
    {
      && shards != [] && Inside() && Apart()
      && (forall i :: 0 <= i < |shards| ==> shards[i].Valid() && shards[i].opt == opt && shards[i].hasDb == hasDb)
      && Placed(View(), hash)
    }

    ghost function View(): (sys: seq<Shard>)
      reads this, Repr
      requires Inside()
      ensures |sys| == |shards| && forall i :: 0 <= i < |shards| ==> sys[i] == shards[i].View()
    {
      seq(|shards|, i requires 0 <= i < |shards| && Inside() reads this, Repr => shards[i].View())
    }

    /** The calls each shard has made to handlers. */
    ghost function Log(): (log: seq<seq<Call>>)
      reads this, Repr
      requires Inside()
      ensures |log| == |shards| && forall i :: 0 <= i < |shards| ==> log[i] == shards[i].calls
    {
      seq(|shards|, i requires 0 <= i < |shards| && Inside() reads this, Repr => shards[i].calls)
    }

    function Cfg(): Config {
      Config(opt, hasDb, hash)
    }

    /** A hash size of zero is raised to one. */
    constructor (opt: Options, hasDb: bool, hash: string -> nat, hashSize: nat)
      ensures Valid() && fresh(Repr)
      ensures this.opt == opt && this.hasDb == hasDb && this.hash == hash
      ensures View() == seq(if hashSize == 0 then 1 else hashSize, i => NEW_SHARD)
    {
      hide PubSub.Mirrored, Placed, Inv;
      var size := if hashSize == 0 then 1 else hashSize;
      var list, objects := MakeShards(opt, hasDb, size);
      this.opt, this.hasDb, this.hash := opt, hasDb, hash;
      shards := list;
      Repr := {this} + objects;
      new;
      assert View() == seq(size, i => NEW_SHARD);
      PlacedNew(size, hash);
    }

    static method MakeShards(opt: Options, hasDb: bool, size: nat)
      returns (list: seq<PubSub>, ghost objects: set<object>)
      ensures |list| == size && fresh(objects)
      ensures forall p :: p in list ==>
        p.cache in objects && p.Repr() <= objects && p.Valid() && p.View() == NEW_SHARD &&
        p.opt == opt && p.hasDb == hasDb
      ensures forall i, j :: 0 <= i < j < |list| ==> list[i].Repr() !! list[j].Repr()
    {
      list, objects := [], {};
      for i := 0 to size
        invariant |list| == i && fresh(objects)
        invariant forall p :: p in list ==>
          p.cache in objects && p.Repr() <= objects && p.Valid() && p.View() == NEW_SHARD &&
          p.opt == opt && p.hasDb == hasDb
        invariant forall i, j :: 0 <= i < j < |list| ==> list[i].Repr() !! list[j].Repr()
      {
        var p := new PubSub(opt, hasDb);
        list := list + [p];
        objects := objects + p.Repr();
      }
    }

    /** A step on shard i, whose new objects have joined the footprint, leaves the others as they were. */
    twostate lemma OneShardStep(i: nat)
      requires old(Valid()) && i < |shards|
      requires shards[i].Valid() && fresh(shards[i].Repr() - old(shards[i].Repr()))
      requires Repr == old(Repr) + shards[i].Repr()
      requires forall o {:trigger o in old(Repr)} ::
        o in old(Repr) && o != this && o !in old(shards[i].Repr()) ==> unchanged(o)
      ensures Inside() && Apart()
      ensures forall j :: 0 <= j < |shards| ==> shards[j].Valid()
      ensures View() == old(View())[i := shards[i].View()]
      ensures Log() == old(Log())[i := shards[i].calls]
    {
      hide PubSub.Mirrored, Placed;
      forall j | 0 <= j < |shards| && j != i
        ensures shards[j].Repr() == old(shards[j].Repr())
        ensures shards[j].Valid() && shards[j].View() == old(shards[j].View())
        ensures shards[j].calls == old(shards[j].calls)
      {
        assert old(shards[j].Repr()) !! old(shards[i].Repr());
        ShardKept(shards[j]);
      }
      assert this !in shards[i].Repr();
      assert forall j :: 0 <= j < |shards| && j != i ==> shards[j].Repr() !! shards[i].Repr();
    }

    twostate lemma ShardKept(p: PubSub)
      requires old(p.Valid())
      requires forall o :: o in old(p.Repr()) ==> unchanged(o)
      ensures p.Repr() == old(p.Repr())
      ensures p.Valid() && p.View() == old(p.View()) && p.calls == old(p.calls)
    {
      hide PubSub.Mirrored;
      assert p in old(p.Repr()) && p.cache in old(p.Repr());
    }

    method Publish(t1: int, t2: int, channel: string, m: Message) returns (toDb: Option<Message>)
      requires Valid()
      modifies Repr
      ensures Valid() && fresh(Repr - old(Repr))
      ensures var op, i := Publishing(t1, t2, channel, m), Index(hash, |shards|, channel);
        && View() == Do(Cfg(), old(View()), op)
        && Log() == old(Log())[i := old(Log())[i] + ReplyTo(Cfg(), old(View()), op).calls]
      ensures toDb.Some? <==>
        (m.lifetime != 0 || m.limit != 0) && (m.persistent || opt.persistentDefault) && !opt.rocksdbDisabled && hasDb
      ensures toDb.Some? ==> toDb.value == m.(
        birthtime := if m.birthtime == 0 then t1 else m.birthtime,
        lifetime := if m.lifetime == 0 then opt.defaultLifetime else m.lifetime,
        limit := if m.limit == 0 then opt.defaultLimit else m.limit)
    {
      hide PubSub.Mirrored, Placed, Push, Deliveries, Inv, Normalized, PushChannel;
      var i := Index(hash, |shards|, channel);
      toDb := shards[i].Publish(t1, t2, channel, m);
      Repr := Repr + shards[i].Repr();
      OneShardStep(i);
      DoKeepsPlaced(Cfg(), old(View()), Publishing(t1, t2, channel, m));
    }

    method GetMessages(ml: seq<Message>, fromDb: seq<Message>, t: int, p: Params) returns (ml': seq<Message>)
      requires Valid()
      modifies Repr
      ensures Valid() && fresh(Repr - old(Repr))
      ensures var op := Getting(ml, fromDb, t, p);
        && View() == Do(Cfg(), old(View()), op) && Log() == old(Log())
        && ml' == ReplyTo(Cfg(), old(View()), op).ml
    {
      hide PubSub.Mirrored, Placed, ReadShard, TouchShard, WithDb, Inv, PublishShard, Deliveries;
      var i := Index(hash, |shards|, p.channel);
      ml' := shards[i].GetMessages(ml, fromDb, t, p);
      Repr := Repr + shards[i].Repr();
      OneShardStep(i);
      DoKeepsPlaced(Cfg(), old(View()), Getting(ml, fromDb, t, p));
    }

    method Subscribe(ml: seq<Message>, fromDb: seq<Message>, t: int, id: nat, p: Params, handler: Handler)
      returns (ml': seq<Message>)
      requires Valid()
      modifies Repr
      ensures Valid() && fresh(Repr - old(Repr))
      ensures var op := Subscribing(ml, fromDb, t, id, p, handler);
        && View() == Do(Cfg(), old(View()), op) && Log() == old(Log())
        && ml' == ReplyTo(Cfg(), old(View()), op).ml
    {
      hide PubSub.Mirrored, Placed, ReadShard, TouchShard, SubscribeShard, WithDb, Inv, PublishShard, Deliveries;
      var i := Index(hash, |shards|, p.channel);
      ml' := shards[i].Subscribe(ml, fromDb, t, id, p, handler);
      Repr := Repr + shards[i].Repr();
      OneShardStep(i);
      DoKeepsPlaced(Cfg(), old(View()), Subscribing(ml, fromDb, t, id, p, handler));
    }

    method DescribeOne(id: nat, channel: string) returns (found: bool)
      requires Valid()
      modifies Repr
      ensures Valid() && fresh(Repr - old(Repr))
      ensures var op := Describing(id, channel);
        && View() == Do(Cfg(), old(View()), op) && Log() == old(Log())
        && Found(found) == ReplyTo(Cfg(), old(View()), op)
    {
      hide PubSub.Mirrored, Placed, Inv, PublishShard, TouchShard, SubscribeShard, DescribeShard, ReadShard;
      hide Deliveries, WithDb, ChannelMap.Valid, Normalized;
      var i := Index(hash, |shards|, channel);
      found := shards[i].DescribeOne(id, channel);
      Repr := Repr + shards[i].Repr();
      OneShardStep(i);
      DoKeepsPlaced(Cfg(), old(View()), Describing(id, channel));
    }

    /** One locked step of the sweep. */
    method DescribeAt(i: nat, id: nat) returns (count: nat)
      requires Valid() && i < |shards|
      modifies Repr
      ensures Valid() && fresh(Repr - old(Repr))
      ensures var op := Sweeping(i, id);
        && View() == Do(Cfg(), old(View()), op) && Log() == old(Log())
        && Count(count) == ReplyTo(Cfg(), old(View()), op)
    {
      hide PubSub.Mirrored, Placed, SubsOf, Inv, PublishShard, TouchShard, SubscribeShard, ReadShard, Deliveries;
      count := shards[i].Describe(id);
      Repr := Repr + shards[i].Repr();
      OneShardStep(i);
      DoKeepsPlaced(Cfg(), old(View()), Sweeping(i, id));
    }

    /** The sweep over all shards when nothing runs between its steps. */
    method Describe(id: nat) returns (count: nat)
      requires Valid()
      modifies Repr
      ensures Valid() && fresh(Repr - old(Repr))
      ensures View() == Described(old(View()), id, |shards|) && Log() == old(Log())
      ensures count == |SubsOf(AllSubs(old(View())), id)|
    {
      hide Placed, SumOf, AllSubs;
      ghost var was := View();
      count := 0;
      SumOfNone(was, id);
      for i := 0 to |shards|
        invariant Valid() && fresh(Repr - old(Repr))
        invariant View() == Described(was, id, i) && Log() == old(Log())
        invariant count == SumOf(was[..i], id)
      {
        var n := DescribeAt(i, id);
        count := count + n;
        SumOfOneMore(was, id, i);
      }
      assert was[..|shards|] == was;
      SumOfAll(was, hash, id);
    }

    method SubscriberCount() returns (count: nat)
      requires Valid()
      ensures count == |AllSubs(View())|
    {
      hide Placed, SumSubs, AllSubs;
      ghost var sys := View();
      count := 0;
      SumSubsNone(sys);
      for i := 0 to |shards|
        invariant count == SumSubs(sys[..i])
      {
        var n := shards[i].SubscriberCount();
        count := count + n;
        SumSubsOneMore(sys, i);
      }
      assert sys[..|shards|] == sys;
      SumSubsAll(sys, hash);
    }
  }

  /** The first n shards swept. */
  function Described(sys: seq<Shard>, id: nat, n: nat): (r: seq<Shard>)
    requires n <= |sys|
    ensures |r| == |sys| && forall i :: 0 <= i < |sys| ==> r[i] == if i < n then DescribeShard(sys[i], id) else sys[i]
  {
    seq(|sys|, i requires 0 <= i < |sys| => if i < n then DescribeShard(sys[i], id) else sys[i])
  }

  // ----- sums over shards -----

  lemma SumOfNone(sys: seq<Shard>, id: nat)
    ensures SumOf(sys[..0], id) == 0
  {}

  lemma SumSubsNone(sys: seq<Shard>)
    ensures SumSubs(sys[..0]) == 0
  {}

  lemma SumOfOneMore(sys: seq<Shard>, id: nat, i: nat)
    requires i < |sys|
    ensures SumOf(sys[..i + 1], id) == SumOf(sys[..i], id) + |SubsOf(sys[i].subs, id)|
  {
    assert sys[..i + 1][..i] == sys[..i];
  }

  lemma SumSubsOneMore(sys: seq<Shard>, i: nat)
    requires i < |sys|
    ensures SumSubs(sys[..i + 1]) == SumSubs(sys[..i]) + |sys[i].subs|
  {
    assert sys[..i + 1][..i] == sys[..i];
  }

  /** No subscription is in two shards. */
  ghost predicate Separate(sys: seq<Shard>) {
    forall i, j :: 0 <= i < j < |sys| ==> sys[i].subs.Keys !! sys[j].subs.Keys
  }

  lemma PlacedIsSeparate(sys: seq<Shard>, hash: string -> nat)
    requires Placed(sys, hash)
    ensures Separate(sys)
  {
    forall i, j | 0 <= i < j < |sys| ensures sys[i].subs.Keys !! sys[j].subs.Keys {
      assert PlacedAt(sys[i], hash, |sys|, i) && PlacedAt(sys[j], hash, |sys|, j);
    }
  }

  lemma {:induction false} AllSubsMembers(sys: seq<Shard>, s: Sub)
    requires Separate(sys)
    ensures s in AllSubs(sys) <==> exists i :: 0 <= i < |sys| && s in sys[i].subs
    ensures forall i :: 0 <= i < |sys| && s in sys[i].subs ==> AllSubs(sys)[s] == sys[i].subs[s]
  {
    if sys != [] {
      var n := |sys| - 1;
      AllSubsMembers(sys[..n], s);
      assert forall i :: 0 <= i < n ==> sys[..n][i] == sys[i];
    }
  }

  lemma LastApart(sys: seq<Shard>)
    requires Separate(sys) && sys != []
    ensures Separate(sys[..|sys| - 1])
    ensures AllSubs(sys[..|sys| - 1]).Keys !! sys[|sys| - 1].subs.Keys
  {
    var n := |sys| - 1;
    assert forall i :: 0 <= i < n ==> sys[..n][i] == sys[i];
    forall s | s in AllSubs(sys[..n]) ensures s !in sys[n].subs {
      AllSubsMembers(sys[..n], s);
    }
  }

  lemma {:induction false} SumSubsSeparate(sys: seq<Shard>)
    requires Separate(sys)
    ensures SumSubs(sys) == |AllSubs(sys)|
  {
    if sys != [] {
      var n := |sys| - 1;
      LastApart(sys);
      SumSubsSeparate(sys[..n]);
      var a, b := AllSubs(sys[..n]), sys[n].subs;
      assert (a + b).Keys == a.Keys + b.Keys;
      assert |a.Keys| == |a| && |b.Keys| == |b| && |(a + b).Keys| == |a + b|;
    }
  }

  lemma {:induction false} SumOfSeparate(sys: seq<Shard>, id: nat)
    requires Separate(sys)
    ensures SumOf(sys, id) == |SubsOf(AllSubs(sys), id)|
  {
    if sys != [] {
      var n := |sys| - 1;
      LastApart(sys);
      SumOfSeparate(sys[..n], id);
      var a, b := SubsOf(AllSubs(sys[..n]), id), SubsOf(sys[n].subs, id);
      assert SubsOf(AllSubs(sys), id) == a + b;
      assert a !! b;
    }
  }

  /** The count of a quiescent system is the size of its set of subscriptions. */
  lemma SumSubsAll(sys: seq<Shard>, hash: string -> nat)
    requires Placed(sys, hash)
    ensures SumSubs(sys) == |AllSubs(sys)|
  {
    PlacedIsSeparate(sys, hash);
    SumSubsSeparate(sys);
  }

  lemma SumOfAll(sys: seq<Shard>, hash: string -> nat, id: nat)
    requires Placed(sys, hash)
    ensures SumOf(sys, id) == |SubsOf(AllSubs(sys), id)|
  {
    PlacedIsSeparate(sys, hash);
    SumOfSeparate(sys, id);
  }
}
