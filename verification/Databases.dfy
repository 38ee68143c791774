/** The stack with its databases. Every database keeps one record per channel: the merges it made so far and
    the operands it has not merged yet. It merges when it likes. A publish goes to the database that its
    lifetime selects, and a read joins the answers of all of them. */
module Databases {
  import opened Messages
  import opened Selections
  import opened QueueSpec
  import opened BoundedSort
  import opened Replay
  import opened Merging
  import opened Stores
  import opened ChannelMaps
  import opened PubSubs
  import opened PubSubMts
  import opened Stack

  // ----- the databases -----

  datatype Key = Key(ttl: int, channel: string)

  datatype Record = Record(stages: seq<Stage>, pending: seq<Message>)

  /** The clocks of a read: for each database its merge of the pending operands and its replay. */
  datatype Clocks = Clocks(merge: int -> nat -> int, replay: int -> nat -> int)

  datatype Step =
    | Put(t1: int, t2: int, channel: string, m: Message)
    | Read(ml: seq<Message>, t: int, p: Params, clocks: Clocks)
    | Join(ml: seq<Message>, t: int, id: nat, p: Params, handler: Handler, clocks: Clocks)
    | Leave(id: nat, channel: string)
    | LeaveAll(id: nat)
    | Compact(key: Key, n: nat, clk: nat -> int)

  /** Which database keeps a lifetime: the first that is long enough, or the last. */
  function Place(ttls: seq<int>, lifetime: int): Option<int> {
    if ttls == [] then None
    else if |ttls| == 1 || ttls[0] >= lifetime then Some(ttls[0])
    else Place(ttls[1..], lifetime)
  }

  ghost predicate Increasing(ttls: seq<int>) {
    forall i, j :: 0 <= i < j < |ttls| ==> ttls[i] < ttls[j]
  }

  /** Ordered as the source's map orders them, the place is the least ttl not below the lifetime, or the greatest. */
  lemma {:induction false} PlaceIs(ttls: seq<int>, lifetime: int)
    requires Increasing(ttls) && ttls != []
    ensures var r := Place(ttls, lifetime);
      && r.Some? && r.value in ttls
      && (r.value >= lifetime ==> forall t :: t in ttls && t >= lifetime ==> r.value <= t)
      && (r.value < lifetime ==> forall t :: t in ttls ==> t <= r.value)
  {
    if |ttls| > 1 && ttls[0] < lifetime {
      PlaceIs(ttls[1..], lifetime);
      assert forall t :: t in ttls <==> t == ttls[0] || t in ttls[1..];
      assert ttls[0] < ttls[1] && ttls[1] in ttls[1..];
    }
  }

  /** The message with its unset times and limit filled in. */
  function Filled(opt: Options, t1: int, m: Message): Message {
    m.(birthtime := if m.birthtime == 0 then t1 else m.birthtime,
       lifetime := if m.lifetime == 0 then opt.defaultLifetime else m.lifetime,
       limit := if m.limit == 0 then opt.defaultLimit else m.limit)
  }

  /** The encoding of a stored message has no member for this field. */
  function Encoded(m: Message): Message {
    m.(persistent := false)
  }

  predicate Lasting(m: Message) {
    m.lifetime != 0 || m.limit != 0
  }

  predicate InUse(cfg: Config) {
    !cfg.opt.rocksdbDisabled && cfg.hasDb
  }

  predicate ToDb(cfg: Config, m: Message) {
    Lasting(m) && (m.persistent || cfg.opt.persistentDefault) && InUse(cfg)
  }

  predicate ToCache(cfg: Config, m: Message) {
    Lasting(m) && !m.persistent && !cfg.opt.cacheDisabled
  }

  function Appended(db: map<Key, Record>, key: Key, m: Message): map<Key, Record> {
    db[key := if key in db then db[key].(pending := db[key].pending + [m]) else Record([], [m])]
  }

  /** The database merges the first n pending operands into the value. */
  function Compacted(r: Record, n: nat, clk: nat -> int): Record {
    var n := if n <= |r.pending| then n else |r.pending|;
    if n == 0 then r else Record(r.stages + [Stage(r.pending[..n], clk)], r.pending[n..])
  }

  function NextDb(cfg: Config, ttls: seq<int>, db: map<Key, Record>, e: Step): map<Key, Record> {
    match e
    case Put(t1, _, channel, m) =>
      var x := Filled(cfg.opt, t1, m);
      var place := Place(ttls, x.lifetime);
      if ToDb(cfg, m) && place.Some? then Appended(db, Key(place.value, channel), Encoded(x)) else db
    case Compact(key, n, clk) => if key in db then db[key := Compacted(db[key], n, clk)] else db
    case _ => db
  }

  function DbRun(cfg: Config, ttls: seq<int>, es: seq<Step>): map<Key, Record> {
    if es == [] then map[] else NextDb(cfg, ttls, DbRun(cfg, ttls, es[..|es| - 1]), es[|es| - 1])
  }

  /** What the database hands out: its value, with the pending operands merged for the occasion. */
  function Gotten(r: Record, merge: nat -> int): seq<Message> {
    Staged([], Compacted(r, |r.pending|, merge).stages)
  }

  function Answer(db: map<Key, Record>, key: Key, clocks: Clocks, cursor: int, limit: nat): seq<Message> {
    if key in db then Query(Rebuild(Gotten(db[key], clocks.merge(key.ttl)), clocks.replay(key.ttl)), cursor, limit)
    else []
  }

  function JoinedAnswers(db: map<Key, Record>, ttls: seq<int>, p: Params, clocks: Clocks): seq<Message> {
    if ttls == [] then []
    else
      var n := |ttls| - 1;
      JoinedAnswers(db, ttls[..n], p, clocks) + Answer(db, Key(ttls[n], p.channel), clocks, p.cursor, p.limit)
  }

  // ----- the stack in front of them -----

  function OpOf(ttls: seq<int>, db: map<Key, Record>, e: Step): Op
    requires !e.Compact?
  {
    match e
    case Put(t1, t2, channel, m) => Publishing(t1, t2, channel, m)
    case Read(ml, t, p, clocks) => Getting(ml, JoinedAnswers(db, ttls, p, clocks), t, p)
    case Join(ml, t, id, p, handler, clocks) => Subscribing(ml, JoinedAnswers(db, ttls, p, clocks), t, id, p, handler)
    case Leave(id, channel) => Describing(id, channel)
    case LeaveAll(id) => Sweeping(0, id)
  }

  /** What the shards see of a run. */
  function OpsOf(cfg: Config, ttls: seq<int>, es: seq<Step>): seq<Op> {
    if es == [] then []
    else
      var n := |es| - 1;
      OpsOf(cfg, ttls, es[..n]) + if es[n].Compact? then [] else [OpOf(ttls, DbRun(cfg, ttls, es[..n]), es[n])]
  }

  // ----- the records hold what was published -----

  /** A publish that is written to this record. */
  predicate GoesTo(cfg: Config, ttls: seq<int>, e: Step, key: Key) {
    && e.Put? && e.channel == key.channel && ToDb(cfg, e.m)
    && Place(ttls, Filled(cfg.opt, e.t1, e.m).lifetime) == Some(key.ttl)
  }

  /** The messages of a run that belong into one record, in order. */
  function Written(cfg: Config, ttls: seq<int>, es: seq<Step>, key: Key): seq<Message> {
    if es == [] then []
    else
      var e := es[|es| - 1];
      Written(cfg, ttls, es[..|es| - 1], key) +
        if GoesTo(cfg, ttls, e, key) then [Encoded(Filled(cfg.opt, e.t1, e.m))] else []
  }

  /** With a database in use, every publish that persists, by itself or by default, and has a lifetime or a limit
      is written, with its unset fields filled in, to the database its lifetime selects. */
  lemma {:induction false} EveryPublishIsWritten(cfg: Config, ttls: seq<int>, es: seq<Step>, i: nat)
      returns (key: Key, x: Message)
    requires i < |es| && es[i].Put? && ttls != [] && !cfg.opt.rocksdbDisabled && cfg.hasDb
    requires es[i].m.lifetime != 0 || es[i].m.limit != 0
    requires es[i].m.persistent || cfg.opt.persistentDefault
    ensures key.channel == es[i].channel && Place(ttls, x.lifetime) == Some(key.ttl)
    ensures var m := es[i].m; x == m.(
      persistent := false,
      birthtime := if m.birthtime == 0 then es[i].t1 else m.birthtime,
      lifetime := if m.lifetime == 0 then cfg.opt.defaultLifetime else m.lifetime,
      limit := if m.limit == 0 then cfg.opt.defaultLimit else m.limit)
    ensures x in Written(cfg, ttls, es, key)
  {
    var n := |es| - 1;
    if i == n {
      x := Encoded(Filled(cfg.opt, es[i].t1, es[i].m));
      PlaceSome(ttls, x.lifetime);
      key := Key(Place(ttls, x.lifetime).value, es[i].channel);
    } else {
      key, x := EveryPublishIsWritten(cfg, ttls, es[..n], i);
    }
  }

  lemma {:induction false} PlaceSome(ttls: seq<int>, lifetime: int)
    requires ttls != []
    ensures Place(ttls, lifetime).Some? && Place(ttls, lifetime).value in ttls
  {
    if |ttls| > 1 {
      PlaceSome(ttls[1..], lifetime);
    }
  }

  /** What subscribers are called with is what is stored, but for the field the encoding drops. */
  lemma DeliveredIsStored(cfg: Config, sys: seq<Shard>, t1: int, t2: int, channel: string, m: Message)
    requires sys != []
    ensures ReplyTo(cfg, sys, Publishing(t1, t2, channel, m)).Delivered?
    ensures forall c :: c in ReplyTo(cfg, sys, Publishing(t1, t2, channel, m)).calls ==>
      c.channel == channel && c.m == if m.lifetime == 0 && m.limit == 0 then m else Filled(cfg.opt, t1, m)
  {
    hide Deliveries;
    var subs := sys[Index(cfg.hash, |sys|, channel)].subs;
    var x := Normalized(cfg.opt, t1, m);
    var ids := DeliveriesExact(subs, channel, x);
    forall c | c in Deliveries(subs, channel, x) ensures c.channel == channel && c.m == x {
      var i :| 0 <= i < |ids| && Deliveries(subs, channel, x)[i] == c;
    }
  }

  ghost predicate Holds(db: map<Key, Record>, key: Key, written: seq<Message>) {
    if key in db then written != [] && Bulk([], db[key].stages) + db[key].pending == written else written == []
  }

  lemma CompactedHolds(r: Record, n: nat, clk: nat -> int)
    ensures var r' := Compacted(r, n, clk);
      && Bulk([], r'.stages) + r'.pending == Bulk([], r.stages) + r.pending
      && (n >= |r.pending| ==> r'.pending == [])
  {
    var n := if n <= |r.pending| then n else |r.pending|;
    var stages' := r.stages + [Stage(r.pending[..n], clk)];
    assert stages'[..|r.stages|] == r.stages;
    assert r.pending == r.pending[..n] + r.pending[n..];
  }

  /** Whenever and however often the databases merge, the merges and the pending operands of a record are
      together exactly what was published into it. */
  lemma {:induction false} RecordsHoldPublishes(cfg: Config, ttls: seq<int>, es: seq<Step>, key: Key)
    ensures Holds(DbRun(cfg, ttls, es), key, Written(cfg, ttls, es, key))
  {
    if es != [] {
      hide Filled, Place, ToDb, Compacted;
      var n := |es| - 1;
      RecordsHoldPublishes(cfg, ttls, es[..n], key);
      var db := DbRun(cfg, ttls, es[..n]);
      if es[n].Compact? && es[n].key == key && key in db {
        CompactedHolds(db[key], es[n].n, es[n].clk);
      }
    }
  }

  // ----- what a read finds of live publishes -----

  /** A clock that does not run back and stays below `end`. */
  ghost predicate SteadyUpTo(clk: nat -> int, end: int) {
    forall i: nat, j: nat :: i <= j ==> clk(i) <= clk(j) <= end
  }

  ghost predicate StagesUpTo(stages: seq<Stage>, end: int) {
    forall i :: 0 <= i < |stages| ==> SteadyUpTo(stages[i].clk, end)
  }

  /** Every merge of the run is made with such a clock. */
  ghost predicate MergesUpTo(es: seq<Step>, end: int) {
    forall i :: 0 <= i < |es| && es[i].Compact? ==> SteadyUpTo(es[i].clk, end)
  }

  lemma {:induction false} RecordClocks(cfg: Config, ttls: seq<int>, es: seq<Step>, key: Key, end: int)
    requires MergesUpTo(es, end)
    ensures var db := DbRun(cfg, ttls, es); key in db ==> StagesUpTo(db[key].stages, end)
  {
    if es != [] {
      hide SteadyUpTo, Filled, Place, ToDb;
      RecordClocks(cfg, ttls, es[..|es| - 1], key, end);
    }
  }

  lemma {:induction false} StagesAlive(stages: seq<Stage>, end: int)
    requires StagesUpTo(stages, end) && All(Bulk([], stages), AliveAt(end))
    ensures AliveThroughout([], stages)
  {
    hide Staged;
    if stages != [] {
      var n := |stages| - 1;
      assert forall m :: m in Bulk([], stages[..n]) ==> m in Bulk([], stages);
      StagesAlive(stages[..n], end);
      assert SteadyUpTo(stages[n].clk, end);
      assert LastReading([], stages) <= end;
    }
  }

  /** Whatever was published live under one limit is found as the tail of its stable sort: the merges of the
      database, at whatever moments, change nothing. */
  lemma AnswerIsTail(cfg: Config, ttls: seq<int>, es: seq<Step>, key: Key, limit: nat, clocks: Clocks, end: int,
      cursor: int, count: nat)
    requires Uniform(Written(cfg, ttls, es, key), limit) && All(Written(cfg, ttls, es, key), AliveAt(end))
    requires MergesUpTo(es, end)
    requires SteadyUpTo(clocks.merge(key.ttl), end) && SteadyUpTo(clocks.replay(key.ttl), end)
    ensures Answer(DbRun(cfg, ttls, es), key, clocks, cursor, count) ==
      Query(LastN(StableSort(Written(cfg, ttls, es, key)), limit), cursor, count)
  {
    var db, written := DbRun(cfg, ttls, es), Written(cfg, ttls, es, key);
    RecordsHoldPublishes(cfg, ttls, es, key);
    hide Written, DbRun, Uniform, All, Rebuild, Staged, StableSort, Query, MergesUpTo;
    if key in db {
      RecordClocks(cfg, ttls, es, key, end);
      var r, merge, replay := db[key], clocks.merge(key.ttl), clocks.replay(key.ttl);
      var stages := Compacted(r, |r.pending|, merge).stages;
      CompactedHolds(r, |r.pending|, merge);
      assert Bulk([], stages) == written && stages != [];
      assert StagesUpTo(stages, end);
      StagesAlive(stages, end);
      TailAlive(written, |Staged([], stages)|, replay, end);
      ReadAfterMerges([], stages, limit, replay, cursor, count);
    } else {
      EmptyTail(limit, cursor, count);
    }
  }

  lemma TailAlive(ms: seq<Message>, n: nat, clk: nat -> int, end: int)
    requires All(ms, AliveAt(end)) && SteadyUpTo(clk, end)
    ensures LatestAt(clk, n) && All(ms, AliveAt(clk(n)))
  {
    assert clk(n) <= end;
  }

  lemma EmptyTail(limit: nat, cursor: int, count: nat)
    ensures Query(LastN(StableSort([]), limit), cursor, count) == []
  {
    assert StableSort([]) == [];
  }

  /** Within the limits nothing written from the cursor on is missing. */
  lemma AllWrittenFound(written: seq<Message>, limit: nat, cursor: int, count: nat, m: Message)
    requires |written| <= limit && |written| <= count && m in written && m.cursor >= cursor
    ensures m in Query(LastN(StableSort(written), limit), cursor, count)
  {
    SortIntoSorted([], written);
    var found := Keep(StableSort(written), CursorFrom(cursor));
    assert m in found && |found| <= count;
    assert LastN(found, count) == found;
  }

  lemma {:induction false} AnswerInJoined(db: map<Key, Record>, ttls: seq<int>, p: Params, clocks: Clocks, t: int,
      m: Message)
    requires t in ttls && m in Answer(db, Key(t, p.channel), clocks, p.cursor, p.limit)
    ensures m in JoinedAnswers(db, ttls, p, clocks)
  {
    hide Answer;
    var n := |ttls| - 1;
    if ttls[n] != t {
      assert ttls == ttls[..n] + [ttls[n]];
      AnswerInJoined(db, ttls[..n], p, clocks, t, m);
    }
  }

  /** A publish that persists reaches every later reader of its channel from its cursor on, while what was written
      is alive and within the limits, whenever the databases merged in between and whatever the cache holds. */
  lemma PublishReachesReaders(cfg: Config, ttls: seq<int>, size: nat, es: seq<Step>, i: nat, e: Step,
      limits: int -> nat, end: int) returns (x: Message)
    requires size > 0 && i < |es| && es[i].Put? && ttls != [] && !cfg.opt.rocksdbDisabled && cfg.hasDb
    requires es[i].m.lifetime != 0 || es[i].m.limit != 0
    requires es[i].m.persistent || cfg.opt.persistentDefault
    requires e.Read? && e.p.channel == es[i].channel && e.p.cursor <= es[i].m.cursor
    requires LiveUniform(cfg, ttls, es, e.p.channel, limits, e.clocks, end)
    requires forall t :: t in ttls ==>
      var written := Written(cfg, ttls, es, Key(t, e.p.channel)); |written| <= limits(t) && |written| <= e.p.limit
    ensures var m := es[i].m; x == m.(
      persistent := false,
      birthtime := if m.birthtime == 0 then es[i].t1 else m.birthtime,
      lifetime := if m.lifetime == 0 then cfg.opt.defaultLifetime else m.lifetime,
      limit := if m.limit == 0 then cfg.opt.defaultLimit else m.limit)
    ensures var r := StackReply(cfg, StackRun(cfg, size, OpsOf(cfg, ttls, es)), OpOf(ttls, DbRun(cfg, ttls, es), e));
      r.Messages? && x in r.ml
  {
    hide Uniform, All, SteadyUpTo, MergesUpTo, Answer, Query, LastN, StableSort, DbRun, Written, StackRun, OpsOf;
    var key;
    key, x := EveryPublishIsWritten(cfg, ttls, es, i);
    PlaceSome(ttls, x.lifetime);
    var k :| 0 <= k < |ttls| && ttls[k] == key.ttl;
    AnswerIsTail(cfg, ttls, es, key, limits(key.ttl), e.clocks, end, e.p.cursor, e.p.limit);
    AllWrittenFound(Written(cfg, ttls, es, key), limits(key.ttl), e.p.cursor, e.p.limit, x);
    AnswerInJoined(DbRun(cfg, ttls, es), ttls, e.p, e.clocks, key.ttl, x);
    hide LiveUniform, JoinedAnswers, ReadChannel;
    assert x in e.ml + JoinedAnswers(DbRun(cfg, ttls, es), ttls, e.p, e.clocks);
  }

  /** The databases' part as it should be: of each, the end of the sort of what was written to it. */
  function Tails(cfg: Config, ttls: seq<int>, es: seq<Step>, all: seq<int>, limits: int -> nat, p: Params)
    : seq<Message>
  {
    if ttls == [] then []
    else
      var n := |ttls| - 1;
      var written := Written(cfg, all, es, Key(ttls[n], p.channel));
      Tails(cfg, ttls[..n], es, all, limits, p) +
        Query(LastN(StableSort(written), limits(ttls[n])), p.cursor, p.limit)
  }

  /** In every database, what was written of the channel is live and under one limit. */
  ghost predicate LiveUniform(cfg: Config, ttls: seq<int>, es: seq<Step>, channel: string, limits: int -> nat,
      clocks: Clocks, end: int) {
    && MergesUpTo(es, end)
    && forall i :: 0 <= i < |ttls| ==>
         var written := Written(cfg, ttls, es, Key(ttls[i], channel));
         && Uniform(written, limits(ttls[i])) && All(written, AliveAt(end))
         && SteadyUpTo(clocks.merge(ttls[i]), end) && SteadyUpTo(clocks.replay(ttls[i]), end)
  }

  lemma {:induction false} AnswersAreTails(cfg: Config, ttls: seq<int>, es: seq<Step>, n: nat, p: Params,
      limits: int -> nat, clocks: Clocks, end: int)
    requires n <= |ttls| && LiveUniform(cfg, ttls, es, p.channel, limits, clocks, end)
    ensures JoinedAnswers(DbRun(cfg, ttls, es), ttls[..n], p, clocks) == Tails(cfg, ttls[..n], es, ttls, limits, p)
  {
    hide Uniform, All, SteadyUpTo, MergesUpTo, Answer, Query, LastN, StableSort, DbRun, Written;
    if n > 0 {
      AnswersAreTails(cfg, ttls, es, n - 1, p, limits, clocks, end);
      assert ttls[..n][..n - 1] == ttls[..n - 1];
      AnswerIsTail(cfg, ttls, es, Key(ttls[n - 1], p.channel), limits(ttls[n - 1]), clocks, end, p.cursor, p.limit);
    }
  }

  /** A read of the whole system, databases included, is determined by what was published: the caller's list, the
      ends of the sorted writes if a database is in use, and the channel's living plain list unless the cache is
      off or everything persists and something was found. */
  lemma ReadIsOfPublishes(cfg: Config, ttls: seq<int>, size: nat, es: seq<Step>, start: int, e: Step,
      limits: int -> nat, end: int)
    requires size > 0 && Legal(cfg.opt, OpsOf(cfg, ttls, es), start)
    requires e.Read? && e.t >= Clock(OpsOf(cfg, ttls, es), start)
    requires LiveUniform(cfg, ttls, es, e.p.channel, limits, e.clocks, end)
    ensures var ops := OpsOf(cfg, ttls, es);
      var inUse := !cfg.opt.rocksdbDisabled && cfg.hasDb;
      var found := if inUse then e.ml + Tails(cfg, ttls, es, ttls, limits, e.p) else e.ml;
      StackReply(cfg, StackRun(cfg, size, ops), OpOf(ttls, DbRun(cfg, ttls, es), e)) == PubSubMts.Messages(
        if cfg.opt.cacheDisabled || (inUse && cfg.opt.persistentDefault && found != []) then found
        else found + Query(Keep(PlainList(PlainRun(cfg.opt, ops), e.p.channel), AliveAt(e.t)), e.p.cursor, e.p.limit))
  {
    hide StackReply, StackRun, PlainRun, Legal, Clock, OpsOf, LiveUniform, DbRun, JoinedAnswers, Tails, Query, Keep;
    var ops, op := OpsOf(cfg, ttls, es), OpOf(ttls, DbRun(cfg, ttls, es), e);
    AnswersAreTails(cfg, ttls, es, |ttls|, e.p, limits, e.clocks, end);
    assert ttls[..|ttls|] == ttls;
    StackRefinesPlain(cfg, size, ops, start, op);
  }
}
