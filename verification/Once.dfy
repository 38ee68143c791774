/** No publish is found twice: what a read appends are different publishes, whether they come from the
    cache or from a database. */
module Once {
  import opened Messages
  import opened Selections
  import opened QueueSpec
  import opened Replay
  import opened Merging
  import opened ChannelMaps
  import opened PubSubs
  import opened PubSubMts
  import opened Stack
  import opened Databases

  // ----- selections take part of a list -----

  lemma KeepFirst(q: seq<Message>, sel: Selector)
    requires q != []
    ensures multiset(Keep(q, sel)) ==
      (if sel.Selects(q[0]) then multiset{q[0]} else multiset{}) + multiset(Keep(q[1..], sel))
  {}

  lemma FirstOf(q: seq<Message>)
    requires q != []
    ensures multiset(q) == multiset{q[0]} + multiset(q[1..])
  {
    assert q == [q[0]] + q[1..];
  }

  lemma {:induction false} KeepPart(q: seq<Message>, sel: Selector)
    ensures multiset(Keep(q, sel)) <= multiset(q)
  {
    hide Keep;
    if q == [] {
      assert Keep(q, sel) == [];
    } else {
      KeepPart(q[1..], sel);
      KeepFirst(q, sel);
      FirstOf(q);
    }
  }

  lemma LastPart(q: seq<Message>, n: nat)
    ensures multiset(LastN(q, n)) <= multiset(q)
  {
    if |q| > n {
      assert q == q[..|q| - n] + q[|q| - n..];
    }
  }

  lemma {:induction false} CursorParts(q: seq<Message>, cursor: int)
    ensures multiset(Keep(q, CursorAtMost(cursor))) + multiset(Keep(q, CursorAbove(cursor))) == multiset(q)
  {
    hide Keep;
    if q == [] {
      assert Keep(q, CursorAtMost(cursor)) == [] == Keep(q, CursorAbove(cursor));
    } else {
      CursorParts(q[1..], cursor);
      KeepFirst(q, CursorAtMost(cursor));
      KeepFirst(q, CursorAbove(cursor));
      FirstOf(q);
    }
  }

  lemma QueryPart(q: seq<Message>, cursor: int, limit: nat)
    ensures multiset(Query(q, cursor, limit)) <= multiset(q)
  {
    KeepPart(q, CursorFrom(cursor));
    LastPart(Keep(q, CursorFrom(cursor)), limit);
  }

  /** A publish adds itself at most. */
  lemma PushPart(s: State, now: int, m: Message)
    requires m.action.Publish? && m.birthtime != 0
    ensures multiset(Push(s, now, m).msgs) <= multiset(s.msgs) + multiset{m}
  {
    var q := ExpiredUnlessSameSecond(s, now).msgs;
    KeepPart(s.msgs, AliveAt(now));
    CursorParts(q, m.cursor);
    hide Keep;
    var grown := Insert(q, m);
    assert multiset(grown) == multiset(q) + multiset{m};
    LastPart(grown, m.limit);
  }

  /** Publishes whose birthtime is set. */
  ghost predicate PublishesOnly(ms: seq<Message>) {
    forall m :: m in ms ==> m.action.Publish? && m.birthtime != 0
  }

  lemma {:induction false} ReplayPart(ms: seq<Message>, clk: nat -> int)
    requires PublishesOnly(ms)
    ensures multiset(PushAll(EMPTY, ms, clk, 0).msgs) <= multiset(ms)
  {
    hide Push;
    if ms != [] {
      var n := |ms| - 1;
      ReplayPart(ms[..n], clk);
      PushPart(PushAll(EMPTY, ms[..n], clk, 0), clk(n), ms[n]);
      assert ms == ms[..n] + [ms[n]];
    }
  }

  lemma RebuildPart(ms: seq<Message>, clk: nat -> int)
    requires PublishesOnly(ms)
    ensures multiset(Rebuild(ms, clk)) <= multiset(ms)
  {
    hide PushAll;
    ReplayPart(ms, clk);
    KeepPart(PushAll(EMPTY, ms, clk, 0).msgs, AliveAt(clk(|ms|)));
  }

  lemma PartOfPublishes(a: seq<Message>, b: seq<Message>)
    requires PublishesOnly(b) && multiset(a) <= multiset(b)
    ensures PublishesOnly(a)
  {
    forall m | m in a ensures m.action.Publish? && m.birthtime != 0 {
      assert m in multiset(a);
    }
  }

  lemma {:induction false} StagedPart(stages: seq<Stage>)
    requires PublishesOnly(Bulk([], stages))
    ensures multiset(Staged([], stages)) <= multiset(Bulk([], stages))
  {
    hide Rebuild, PublishesOnly;
    if stages != [] {
      var n := |stages| - 1;
      var r, bulk, ops := Staged([], stages[..n]), Bulk([], stages[..n]), stages[n].operands;
      assert PublishesOnly(bulk) by {
        PartOfPublishes(bulk, bulk + ops);
      }
      StagedPart(stages[..n]);
      PartOfPublishes(r + ops, bulk + ops);
      RebuildPart(r + ops, stages[n].clk);
    }
  }

  // ----- the databases' part -----

  lemma AnswerPart(cfg: Config, ttls: seq<int>, es: seq<Step>, key: Key, clocks: Clocks, cursor: int, limit: nat)
    requires PublishesOnly(Written(cfg, ttls, es, key))
    ensures multiset(Answer(DbRun(cfg, ttls, es), key, clocks, cursor, limit)) <= multiset(Written(cfg, ttls, es, key))
  {
    var db, written := DbRun(cfg, ttls, es), Written(cfg, ttls, es, key);
    RecordsHoldPublishes(cfg, ttls, es, key);
    hide Written, DbRun, Rebuild, PublishesOnly, Query;
    if key in db {
      var r, merge, replay := db[key], clocks.merge(key.ttl), clocks.replay(key.ttl);
      CompactedHolds(r, |r.pending|, merge);
      assert Bulk([], Compacted(r, |r.pending|, merge).stages) == written;
      StagedPart(Compacted(r, |r.pending|, merge).stages);
      PartOfPublishes(Gotten(r, merge), written);
      RebuildPart(Gotten(r, merge), replay);
      QueryPart(Rebuild(Gotten(r, merge), replay), cursor, limit);
    }
  }

  /** Everything published to a channel that lasts: one entry for each publish, in its encoded form. */
  function Published(cfg: Config, es: seq<Step>, channel: string): seq<Message> {
    if es == [] then []
    else
      var e := es[|es| - 1];
      Published(cfg, es[..|es| - 1], channel) +
        if e.Put? && e.channel == channel && (e.m.lifetime != 0 || e.m.limit != 0)
        then [Encoded(Filled(cfg.opt, e.t1, e.m))] else []
  }

  /** All records of a channel together. */
  function WrittenIn(cfg: Config, all: seq<int>, ttls: seq<int>, es: seq<Step>, channel: string): multiset<Message> {
    if ttls == [] then multiset{}
    else
      var n := |ttls| - 1;
      WrittenIn(cfg, all, ttls[..n], es, channel) + multiset(Written(cfg, all, es, Key(ttls[n], channel)))
  }

  /** Those of the publishes that a database, or the cache, is given. */
  function Given(cfg: Config, es: seq<Step>, channel: string, cache: bool): seq<Message> {
    if es == [] then []
    else
      var e := es[|es| - 1];
      Given(cfg, es[..|es| - 1], channel, cache) +
        if e.Put? && e.channel == channel && (if cache then ToCache(cfg, e.m) else ToDb(cfg, e.m))
        then [Encoded(Filled(cfg.opt, e.t1, e.m))] else []
  }

  /** The publish is written to one of these databases. */
  predicate Reaches(cfg: Config, all: seq<int>, ttls: seq<int>, e: Step, channel: string) {
    ttls != [] &&
      var n := |ttls| - 1;
      Reaches(cfg, all, ttls[..n], e, channel) || GoesTo(cfg, all, e, Key(ttls[n], channel))
  }

  lemma {:induction false} ReachesOne(cfg: Config, all: seq<int>, ttls: seq<int>, e: Step, key: Key)
    requires Reaches(cfg, all, ttls, e, key.channel) && GoesTo(cfg, all, e, key)
    ensures key.ttl in ttls
  {
    var n := |ttls| - 1;
    if Reaches(cfg, all, ttls[..n], e, key.channel) {
      ReachesOne(cfg, all, ttls[..n], e, key);
    }
  }

  lemma {:induction false} OneStepWritten(cfg: Config, all: seq<int>, ttls: seq<int>, es: seq<Step>, channel: string)
    requires es != [] && Increasing(ttls)
    ensures var n, e := |es| - 1, es[|es| - 1];
      var before := WrittenIn(cfg, all, ttls, es[..n], channel);
      && (!Reaches(cfg, all, ttls, e, channel) ==> WrittenIn(cfg, all, ttls, es, channel) == before)
      && (Reaches(cfg, all, ttls, e, channel) ==> (
            && e.Put? && e.channel == channel && ToDb(cfg, e.m)
            && WrittenIn(cfg, all, ttls, es, channel) == before + multiset{Encoded(Filled(cfg.opt, e.t1, e.m))}))
  {
    hide Encoded, Filled, Place, ToDb;
    if ttls != [] {
      var k, e := |ttls| - 1, es[|es| - 1];
      OneStepWritten(cfg, all, ttls[..k], es, channel);
      if Reaches(cfg, all, ttls[..k], e, channel) && GoesTo(cfg, all, e, Key(ttls[k], channel)) {
        ReachesOne(cfg, all, ttls[..k], e, Key(ttls[k], channel));
        assert false;
      }
    }
  }

  /** Each publish is written to at most one database. */
  lemma {:induction false} WrittenOnce(cfg: Config, ttls: seq<int>, es: seq<Step>, channel: string)
    requires Increasing(ttls)
    ensures WrittenIn(cfg, ttls, ttls, es, channel) <= multiset(Given(cfg, es, channel, false))
  {
    hide Filled, Place, ToDb, Encoded, WrittenIn;
    if es == [] {
      NothingWritten(cfg, ttls, ttls, channel);
    } else {
      WrittenOnce(cfg, ttls, es[..|es| - 1], channel);
      OneStepWritten(cfg, ttls, ttls, es, channel);
    }
  }

  lemma {:induction false} NothingWritten(cfg: Config, all: seq<int>, ttls: seq<int>, channel: string)
    ensures WrittenIn(cfg, all, ttls, [], channel) == multiset{}
  {
    if ttls != [] {
      NothingWritten(cfg, all, ttls[..|ttls| - 1], channel);
    }
  }

  lemma {:induction false} AnswersPart(cfg: Config, ttls: seq<int>, es: seq<Step>, n: nat, p: Params, clocks: Clocks)
    requires n <= |ttls|
    requires forall t :: t in ttls ==> PublishesOnly(Written(cfg, ttls, es, Key(t, p.channel)))
    ensures multiset(JoinedAnswers(DbRun(cfg, ttls, es), ttls[..n], p, clocks)) <=
      WrittenIn(cfg, ttls, ttls[..n], es, p.channel)
  {
    hide PublishesOnly, Written, DbRun, Answer;
    if n > 0 {
      AnswersPart(cfg, ttls, es, n - 1, p, clocks);
      assert ttls[..n][..n - 1] == ttls[..n - 1];
      AnswerPart(cfg, ttls, es, Key(ttls[n - 1], p.channel), clocks, p.cursor, p.limit);
    }
  }

  // ----- the cache's part -----

  /** The stored list of one channel in its shard. */
  function CachedList(cfg: Config, sys: seq<Shard>, channel: string): seq<Message>
    requires sys != []
  {
    ListOf(sys[Index(cfg.hash, |sys|, channel)].channels, channel)
  }

  lemma PushChannelPart(chs: map<string, State>, channel: string, now: int, m: Message)
    requires m.action.Publish? && m.birthtime != 0
    ensures multiset(ListOf(PushChannel(chs, channel, now, m), channel)) <= multiset(ListOf(chs, channel)) + multiset{m}
  {
    hide Push;
    PushPart(if channel in chs then chs[channel] else EMPTY, now, m);
  }

  lemma TouchPart(chs: map<string, State>, channel: string, now: int)
    ensures multiset(ListOf(TouchChannel(chs, channel, now), channel)) <= multiset(ListOf(chs, channel))
  {
    KeepPart(ListOf(chs, channel), AliveAt(now));
  }

  lemma DoPart(cfg: Config, sys: seq<Shard>, op: Op, channel: string)
    requires sys != []
    requires op.Publishing? && op.channel == channel ==> op.m.action.Publish? && (op.m.birthtime != 0 || op.t1 != 0)
    ensures multiset(CachedList(cfg, StackDo(cfg, sys, op), channel)) <=
      multiset(CachedList(cfg, sys, channel)) +
        if op.Publishing? && op.channel == channel && ToCache(cfg, op.m)
        then multiset{Encoded(Filled(cfg.opt, op.t1, op.m))} else multiset{}
  {
    hide Push, Expired, PushChannel, TouchChannel;
    var chs := sys[Index(cfg.hash, |sys|, channel)].channels;
    if op.Publishing? && op.channel == channel {
      if ToCache(cfg, op.m) {
        assert Encoded(Filled(cfg.opt, op.t1, op.m)) == Normalized(cfg.opt, op.t1, op.m);
        PushChannelPart(chs, channel, op.t2, Normalized(cfg.opt, op.t1, op.m));
      }
    } else if (op.Getting? || op.Subscribing?) && op.p.channel == channel {
      TouchPart(chs, channel, op.t);
    } else if !op.Sweeping? {
      OtherChannels(cfg, sys, op, channel);
    }
  }

  /** All pushes to the channel are publishes with a birthtime, their own or the clock's. */
  ghost predicate OnlyPublishes(es: seq<Step>, channel: string) {
    forall i :: 0 <= i < |es| && es[i].Put? && es[i].channel == channel ==>
      es[i].m.action.Publish? && (es[i].m.birthtime != 0 || es[i].t1 != 0)
  }

  lemma {:induction false} CachePart(cfg: Config, ttls: seq<int>, size: nat, es: seq<Step>, channel: string)
    requires size > 0 && OnlyPublishes(es, channel)
    ensures multiset(CachedList(cfg, StackRun(cfg, size, OpsOf(cfg, ttls, es)), channel)) <=
      multiset(Given(cfg, es, channel, true))
  {
    hide StackDo, CachedList, ToCache, Filled, Encoded, DbRun, JoinedAnswers;
    if es == [] {
      NewCache(cfg, size, channel);
    } else {
      var n := |es| - 1;
      CachePart(cfg, ttls, size, es[..n], channel);
      if es[n].Compact? {
        assert OpsOf(cfg, ttls, es) == OpsOf(cfg, ttls, es[..n]);
      } else {
        OneMoreOp(cfg, ttls, size, es);
        hide StackRun, OpsOf, OnlyPublishes;
        var op := OpOf(ttls, DbRun(cfg, ttls, es[..n]), es[n]);
        DoPart(cfg, StackRun(cfg, size, OpsOf(cfg, ttls, es[..n])), op, channel);
      }
    }
  }

  lemma NewCache(cfg: Config, size: nat, channel: string)
    requires size > 0
    ensures CachedList(cfg, StackRun(cfg, size, []), channel) == []
  {}

  lemma OneMoreOp(cfg: Config, ttls: seq<int>, size: nat, es: seq<Step>)
    requires size > 0 && es != [] && !es[|es| - 1].Compact?
    ensures var n := |es| - 1;
      StackRun(cfg, size, OpsOf(cfg, ttls, es)) ==
        StackDo(cfg, StackRun(cfg, size, OpsOf(cfg, ttls, es[..n])), OpOf(ttls, DbRun(cfg, ttls, es[..n]), es[n]))
  {
    hide StackDo, OpOf, DbRun;
    var n := |es| - 1;
    var ops := OpsOf(cfg, ttls, es);
    assert ops[..|ops| - 1] == OpsOf(cfg, ttls, es[..n]);
  }

  // ----- together -----

  lemma {:induction false} GivenPart(cfg: Config, es: seq<Step>, channel: string, cache: bool)
    ensures multiset(Given(cfg, es, channel, cache)) <= multiset(Published(cfg, es, channel))
  {
    hide Filled, Encoded;
    if es != [] {
      GivenPart(cfg, es[..|es| - 1], channel, cache);
    }
  }

  /** Unless everything persists by default, each publish is given to a database or to the cache and never both. */
  lemma {:induction false} GivenOnce(cfg: Config, es: seq<Step>, channel: string)
    requires !cfg.opt.persistentDefault
    ensures multiset(Given(cfg, es, channel, false)) + multiset(Given(cfg, es, channel, true)) <=
      multiset(Published(cfg, es, channel))
  {
    hide Filled, Encoded;
    if es != [] {
      GivenOnce(cfg, es[..|es| - 1], channel);
    }
  }

  lemma {:induction false} WrittenPublishes(cfg: Config, ttls: seq<int>, es: seq<Step>, key: Key)
    requires OnlyPublishes(es, key.channel)
    ensures PublishesOnly(Written(cfg, ttls, es, key))
  {
    hide Place, ToDb;
    if es != [] {
      WrittenPublishes(cfg, ttls, es[..|es| - 1], key);
    }
  }

  /** A read appends a part of what was published to the channel: each publish at most once, from one database or
      from the cache, in every configuration, whatever else the run does and whenever the databases merge. */
  lemma NothingFoundTwice(cfg: Config, ttls: seq<int>, size: nat, es: seq<Step>, e: Step)
    requires size > 0 && Increasing(ttls) && e.Read? && OnlyPublishes(es, e.p.channel)
    ensures var r := StackReply(cfg, StackRun(cfg, size, OpsOf(cfg, ttls, es)), OpOf(ttls, DbRun(cfg, ttls, es), e));
      && r.Messages? && e.ml <= r.ml
      && multiset(r.ml[|e.ml|..]) <= multiset(Published(cfg, es, e.p.channel))
  {
    var sys, db, c := StackRun(cfg, size, OpsOf(cfg, ttls, es)), DbRun(cfg, ttls, es), e.p.channel;
    var fromDb := JoinedAnswers(db, ttls, e.p, e.clocks);
    var cached := ReadChannel(sys[Index(cfg.hash, |sys|, c)].channels, c, e.t, e.p.cursor, e.p.limit);
    assert multiset(fromDb) <= multiset(Given(cfg, es, c, false)) by {
      forall t | t in ttls ensures PublishesOnly(Written(cfg, ttls, es, Key(t, c))) {
        WrittenPublishes(cfg, ttls, es, Key(t, c));
      }
      AnswersPart(cfg, ttls, es, |ttls|, e.p, e.clocks);
      assert ttls[..|ttls|] == ttls;
      WrittenOnce(cfg, ttls, es, c);
    }
    assert multiset(cached) <= multiset(Given(cfg, es, c, true)) by {
      CachePart(cfg, ttls, size, es, c);
      KeepPart(CachedList(cfg, sys, c), AliveAt(e.t));
      QueryPart(Keep(CachedList(cfg, sys, c), AliveAt(e.t)), e.p.cursor, e.p.limit);
    }
    ReplyParts(cfg, sys, e.ml, fromDb, e.t, e.p, cached);
    GivenPart(cfg, es, c, false);
    GivenPart(cfg, es, c, true);
    if !cfg.opt.persistentDefault {
      GivenOnce(cfg, es, c);
    }
  }

  /** What a read appends is the databases' part, the cache's part, or both; both only when not everything
      persists by default. */
  lemma ReplyParts(cfg: Config, sys: seq<Shard>, ml: seq<Message>, fromDb: seq<Message>, t: int, p: Params,
      cached: seq<Message>)
    requires sys != []
    requires cached == ReadChannel(sys[Index(cfg.hash, |sys|, p.channel)].channels, p.channel, t, p.cursor, p.limit)
    ensures var r := StackReply(cfg, sys, Getting(ml, fromDb, t, p));
      && r.Messages? && ml <= r.ml
      && var rest := r.ml[|ml|..];
         || rest == [] || rest == fromDb || rest == cached
         || (rest == fromDb + cached && !cfg.opt.persistentDefault)
  {
    hide ReadChannel;
    assert (ml + fromDb)[|ml|..] == fromDb && (ml + cached)[|ml|..] == cached;
    assert ((ml + fromDb) + cached)[|ml|..] == fromDb + cached;
    assert ml[|ml|..] == [];
  }

  // ----- persistent messages and the cache -----

  /** Without persistent publishes. */
  function Volatile(ops: seq<Op>): seq<Op> {
    if ops == [] then []
    else
      var op := ops[|ops| - 1];
      Volatile(ops[..|ops| - 1]) + if op.Publishing? && op.m.persistent then [] else [op]
  }

  /** A persistent publish never enters the cache: deleting all of them from a run changes no cached list. */
  lemma {:induction false} PersistentBypassesCache(opt: Options, ops: seq<Op>)
    ensures PlainRun(opt, Volatile(ops)) == PlainRun(opt, ops)
  {
    hide PushList, Normalized, PlainList;
    if ops != [] {
      var n := |ops| - 1;
      var rest, kept := Volatile(ops[..n]), Volatile(ops);
      PersistentBypassesCache(opt, ops[..n]);
      if ops[n].Publishing? && ops[n].m.persistent {
        assert kept == rest;
      } else {
        assert kept[..|kept| - 1] == rest && kept[|kept| - 1] == ops[n];
      }
    }
  }
}
