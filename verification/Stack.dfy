/** The whole stack: sharded, expiring lazily, skipping expiries and erasing channels. To its callers it
    is one map from channel to message list and one map from subscription to handler, in front of
    whatever the database answered. */
module Stack {
  import opened Messages
  import opened Selections
  import opened QueueSpec
  import opened QueueRuns
  import opened ChannelMaps
  import opened Ordered
  import opened PubSubs
  import opened PubSubMts
  import opened Sweep

  // ----- the plain system -----

  datatype Plain = Plain(lists: map<string, seq<Message>>, subs: map<Sub, Handler>)

  function PlainList(a: Plain, channel: string): seq<Message> {
    if channel in a.lists then a.lists[channel] else []
  }

  /** A list expired at `now`, with nothing to remember. */
  function JustExpired(q: seq<Message>, now: int): State {
    State(Keep(q, AliveAt(now)), true, now, 0)
  }

  /** A push that always expires first, on a list alone. */
  function PushList(q: seq<Message>, now: int, m: Message): seq<Message> {
    Settled(JustExpired(q, now), now, m).msgs
  }

  function PlainDo(opt: Options, a: Plain, op: Op): Plain {
    match op
    case Publishing(t1, t2, channel, m) =>
      if Cached(opt, m) then
        a.(lists := a.lists[channel := PushList(PlainList(a, channel), t2, Normalized(opt, t1, m))])
      else a
    case Getting(_, _, _, _) => a
    case Subscribing(_, _, _, id, p, handler) => a.(subs := a.subs[Sub(id, p.channel) := handler])
    case Describing(id, channel) => a.(subs := a.subs - {Sub(id, channel)})
    case Sweeping(_, id) => a.(subs := a.subs - SubsOf(a.subs, id))
  }

  /** Reads find the database's answer, and what is alive at the moment of reading unless the cache is off or
      everything persists and something was found already; they leave no trace. */
  function PlainRead(cfg: Config, a: Plain, ml: seq<Message>, fromDb: seq<Message>, t: int, p: Params): seq<Message> {
    var inUse := !cfg.opt.rocksdbDisabled && cfg.hasDb;
    var found := if inUse then ml + fromDb else ml;
    if cfg.opt.cacheDisabled || (inUse && cfg.opt.persistentDefault && found != []) then found
    else found + Query(Keep(PlainList(a, p.channel), AliveAt(t)), p.cursor, p.limit)
  }

  ghost function PlainReply(cfg: Config, a: Plain, op: Op): Reply {
    match op
    case Publishing(t1, _, channel, m) => Delivered(Deliveries(a.subs, channel, Normalized(cfg.opt, t1, m)))
    case Getting(ml, fromDb, t, p) => Messages(PlainRead(cfg, a, ml, fromDb, t, p))
    case Subscribing(ml, fromDb, t, _, p, _) => Messages(PlainRead(cfg, a, ml, fromDb, t, p))
    case Describing(id, channel) => Found(Sub(id, channel) in a.subs)
    case Sweeping(_, id) => Count(|SubsOf(a.subs, id)|)
  }

  function PlainRun(opt: Options, ops: seq<Op>): Plain {
    if ops == [] then Plain(map[], map[])
    else PlainDo(opt, PlainRun(opt, ops[..|ops| - 1]), ops[|ops| - 1])
  }

  ghost function PlainReplies(cfg: Config, ops: seq<Op>): seq<Reply> {
    if ops == [] then []
    else
      var n := |ops| - 1;
      PlainReplies(cfg, ops[..n]) + [PlainReply(cfg, PlainRun(cfg.opt, ops[..n]), ops[n])]
  }

  // ----- the stack -----

  /** A whole describe, with nothing in between, is written Sweeping(0, id) here: all shards at once. */
  function StackDo(cfg: Config, sys: seq<Shard>, op: Op): (sys': seq<Shard>)
    requires sys != []
    ensures |sys'| == |sys|
  {
    if op.Sweeping? then Described(sys, op.id, |sys|) else Do(cfg, sys, op)
  }

  ghost function StackReply(cfg: Config, sys: seq<Shard>, op: Op): Reply
    requires sys != []
  {
    if op.Sweeping? then Count(|SubsOf(AllSubs(sys), op.id)|) else ReplyTo(cfg, sys, op)
  }

  function StackRun(cfg: Config, size: nat, ops: seq<Op>): (sys: seq<Shard>)
    requires size > 0
    ensures |sys| == size
  {
    if ops == [] then seq(size, i => NEW_SHARD)
    else StackDo(cfg, StackRun(cfg, size, ops[..|ops| - 1]), ops[|ops| - 1])
  }

  ghost function StackReplies(cfg: Config, size: nat, ops: seq<Op>): seq<Reply>
    requires size > 0
  {
    if ops == [] then []
    else
      var n := |ops| - 1;
      StackReplies(cfg, size, ops[..n]) + [StackReply(cfg, StackRun(cfg, size, ops[..n]), ops[n])]
  }

  // ----- what callers owe: a clock that does not run back, and fresh messages -----

  function LastTime(op: Op, clock: int): int {
    match op
    case Publishing(_, t2, _, _) => t2
    case Getting(_, _, t, _) => t
    case Subscribing(_, _, t, _, _, _) => t
    case _ => clock
  }

  function Clock(ops: seq<Op>, start: int): int {
    if ops == [] then start else LastTime(ops[|ops| - 1], Clock(ops[..|ops| - 1], start))
  }

  predicate LegalNext(opt: Options, a: Plain, op: Op, clock: int) {
    && LastTime(op, clock) >= clock
    && (op.Publishing? && Cached(opt, op.m) ==>
          Fresh(Keep(PlainList(a, op.channel), AliveAt(op.t2)), op.t2, Normalized(opt, op.t1, op.m)))
  }

  ghost predicate Legal(opt: Options, ops: seq<Op>, start: int) {
    ops != [] ==>
      var n := |ops| - 1;
      && Legal(opt, ops[..n], start)
      && LegalNext(opt, PlainRun(opt, ops[..n]), ops[n], Clock(ops[..n], start))
  }

  // ----- one channel -----

  /** From `clock` on, both lists hold the same living messages. */
  ghost predicate SameAlive(c: seq<Message>, a: seq<Message>, clock: int) {
    forall t :: t >= clock ==> Keep(c, AliveAt(t)) == Keep(a, AliveAt(t))
  }

  lemma PushAsList(s: State, a: seq<Message>, now: int, m: Message, clock: int)
    requires Guarded(s) && SameAlive(s.msgs, a, clock) && now >= clock
    requires Fresh(Keep(a, AliveAt(now)), now, m)
    ensures Push(s, now, m).msgs == PushList(a, now, m)
    ensures Guarded(Push(s, now, m))
  {
    hide Settled, Fresh, Keep;
    SkipSound(s, now, m);
    SettledByList(Expired(s, now).(last := now), JustExpired(a, now), now, m);
    if s.last == now {
      KeepAll(s.msgs, AliveAt(now));
    }
    PushKeepsGuard(s, now, m);
  }

  /** What an absent channel ignores, an empty list ignores too. */
  lemma IgnoredWhenAbsent(a: seq<Message>, now: int, m: Message, clock: int)
    requires SameAlive([], a, clock) && now >= clock && m.lifetime == 0 && m.limit == 0
    ensures PushList(a, now, m) == []
  {
    assert Keep(a, AliveAt(now)) == Keep([], AliveAt(now)) == [];
  }

  lemma ExpiryKeepsSameAlive(c: seq<Message>, a: seq<Message>, t: int, clock: int)
    requires SameAlive(c, a, clock) && t >= clock
    ensures SameAlive(Keep(c, AliveAt(t)), a, t)
  {
    forall t' | t' >= t ensures Keep(Keep(c, AliveAt(t)), AliveAt(t')) == Keep(a, AliveAt(t')) {
      KeepStronger(c, AliveAt(t), AliveAt(t'));
    }
  }

  /** A channel of the stack against its plain list. */
  ghost predicate ChannelRefines(chs: map<string, State>, a: Plain, channel: string, clock: int) {
    && SameAlive(ListOf(chs, channel), PlainList(a, channel), clock)
    && (channel in chs ==> Guarded(chs[channel]))
  }

  lemma PushRefines(chs: map<string, State>, a: Plain, channel: string, now: int, m: Message, clock: int)
    requires ChannelRefines(chs, a, channel, clock) && now >= clock
    requires Fresh(Keep(PlainList(a, channel), AliveAt(now)), now, m)
    ensures ChannelRefines(PushChannel(chs, channel, now, m),
      a.(lists := a.lists[channel := PushList(PlainList(a, channel), now, m)]), channel, now)
  {
    hide Push, PushList, Fresh, Keep;
    var q := PlainList(a, channel);
    if channel in chs {
      PushAsList(chs[channel], q, now, m, clock);
    } else if m.lifetime == 0 && m.limit == 0 {
      IgnoredWhenAbsent(q, now, m, clock);
    } else {
      PushAsList(EMPTY, q, now, m, clock);
    }
  }

  lemma TouchRefines(chs: map<string, State>, a: Plain, channel: string, t: int, clock: int)
    requires ChannelRefines(chs, a, channel, clock) && t >= clock
    ensures ChannelRefines(TouchChannel(chs, channel, t), a, channel, t)
  {
    hide Keep, SameAlive;
    ExpiryKeepsSameAlive(ListOf(chs, channel), PlainList(a, channel), t, clock);
    assert Keep([], AliveAt(t)) == [];
  }

  lemma LaterRefines(chs: map<string, State>, a: Plain, channel: string, t: int, clock: int)
    requires ChannelRefines(chs, a, channel, clock) && t >= clock
    ensures ChannelRefines(chs, a, channel, t)
  {}

  // ----- the whole -----

  /** The channels of the shard that serves one channel. */
  function ChannelsFor(hash: string -> nat, sys: seq<Shard>, c: string): map<string, State>
    requires sys != []
  {
    sys[Index(hash, |sys|, c)].channels
  }

  ghost predicate Refines(sys: seq<Shard>, hash: string -> nat, a: Plain, clock: int) {
    && sys != [] && Placed(sys, hash)
    && AllSubs(sys) == a.subs
    && forall c :: ChannelRefines(ChannelsFor(hash, sys, c), a, c, clock)
  }

  /** A step leaves every other channel's queue as it was. */
  lemma OtherChannels(cfg: Config, sys: seq<Shard>, op: Op, c: string)
    requires sys != [] && !op.Sweeping?
    requires op.Publishing? ==> op.channel != c
    requires op.Getting? || op.Subscribing? ==> op.p.channel != c
    ensures var i := Index(cfg.hash, |sys|, c);
      var before, after := sys[i].channels, Do(cfg, sys, op)[i].channels;
      (c in before <==> c in after) && (c in before ==> after[c] == before[c])
  {
    hide Push, Expired, Normalized;
  }

  lemma ChannelsStep(cfg: Config, sys: seq<Shard>, a: Plain, op: Op, clock: int, c: string)
    requires Refines(sys, cfg.hash, a, clock) && LegalNext(cfg.opt, a, op, clock)
    requires !op.Sweeping?
    ensures ChannelRefines(ChannelsFor(cfg.hash, Do(cfg, sys, op), c), PlainDo(cfg.opt, a, op), c, LastTime(op, clock))
  {
    hide Push, Expired, Normalized, PushList, SameAlive, PushChannel, TouchChannel, Cached, Guarded, Placed, Fresh;
    var chs, t := ChannelsFor(cfg.hash, sys, c), LastTime(op, clock);
    assert ChannelRefines(chs, a, c, clock);
    LaterRefines(chs, a, c, t, clock);
    if op.Publishing? && op.channel == c {
      if Cached(cfg.opt, op.m) {
        PushRefines(chs, a, c, t, Normalized(cfg.opt, op.t1, op.m), clock);
      }
    } else if (op.Getting? || op.Subscribing?) && op.p.channel == c {
      TouchRefines(chs, a, c, t, clock);
    } else {
      OtherChannels(cfg, sys, op, c);
    }
  }

  /** AllSubs follows the step of the one shard. */
  lemma SubsStep(cfg: Config, sys: seq<Shard>, a: Plain, op: Op)
    requires sys != [] && Placed(sys, cfg.hash) && AllSubs(sys) == a.subs && !op.Sweeping?
    ensures AllSubs(Do(cfg, sys, op)) == PlainDo(cfg.opt, a, op).subs
  {
    hide Placed, AllSubs, PushChannel, TouchChannel, Normalized, PushList, Cached;
    var sys' := Do(cfg, sys, op);
    DoKeepsPlaced(cfg, sys, op);
    forall s
      ensures s in AllSubs(sys') <==> s in PlainDo(cfg.opt, a, op).subs
      ensures s in AllSubs(sys') ==> AllSubs(sys')[s] == PlainDo(cfg.opt, a, op).subs[s]
    {
      Where(sys, cfg.hash, s);
      Where(sys', cfg.hash, s);
    }
  }

  lemma DescribedStep(sys: seq<Shard>, hash: string -> nat, id: nat)
    requires sys != [] && Placed(sys, hash)
    ensures Placed(Described(sys, id, |sys|), hash)
    ensures AllSubs(Described(sys, id, |sys|)) == AllSubs(sys) - SubsOf(AllSubs(sys), id)
  {
    hide AllSubs;
    var sys' := Described(sys, id, |sys|);
    forall i | 0 <= i < |sys| ensures PlacedAt(sys'[i], hash, |sys|, i) {
      assert PlacedAt(sys[i], hash, |sys|, i);
    }
    forall s
      ensures s in AllSubs(sys') <==> s in AllSubs(sys) && s.id != id
      ensures s in AllSubs(sys') ==> AllSubs(sys')[s] == AllSubs(sys)[s]
    {
      Where(sys, hash, s);
      Where(sys', hash, s);
    }
  }

  lemma StackStep(cfg: Config, sys: seq<Shard>, a: Plain, op: Op, clock: int)
    requires Refines(sys, cfg.hash, a, clock) && LegalNext(cfg.opt, a, op, clock)
    ensures Refines(StackDo(cfg, sys, op), cfg.hash, PlainDo(cfg.opt, a, op), LastTime(op, clock))
    ensures StackReply(cfg, sys, op) == PlainReply(cfg, a, op)
  {
    hide Do, PlainDo, ChannelRefines, Placed, AllSubs, LegalNext, ReplyTo, PlainReply;
    if op.Sweeping? {
      DescribedStep(sys, cfg.hash, op.id);
      SweepIsPlain(cfg, sys, a, op, clock);
    } else {
      DoKeepsPlaced(cfg, sys, op);
      SubsStep(cfg, sys, a, op);
      var sys', a' := Do(cfg, sys, op), PlainDo(cfg.opt, a, op);
      forall c ensures ChannelRefines(ChannelsFor(cfg.hash, sys', c), a', c, LastTime(op, clock)) {
        ChannelsStep(cfg, sys, a, op, clock, c);
      }
      ReplyIsPlain(cfg, sys, a, op, clock);
    }
  }

  lemma SweepIsPlain(cfg: Config, sys: seq<Shard>, a: Plain, op: Op, clock: int)
    requires Refines(sys, cfg.hash, a, clock) && op.Sweeping?
    ensures PlainDo(cfg.opt, a, op) == a.(subs := a.subs - SubsOf(a.subs, op.id))
    ensures PlainReply(cfg, a, op) == Count(|SubsOf(AllSubs(sys), op.id)|)
    ensures var sys', a' := Described(sys, op.id, |sys|), PlainDo(cfg.opt, a, op);
      forall c :: ChannelRefines(ChannelsFor(cfg.hash, sys', c), a', c, clock)
  {
    hide Placed, AllSubs, SameAlive, Guarded;
    var sys', a' := Described(sys, op.id, |sys|), PlainDo(cfg.opt, a, op);
    forall c ensures ChannelRefines(ChannelsFor(cfg.hash, sys', c), a', c, clock) {
      assert ChannelRefines(ChannelsFor(cfg.hash, sys, c), a, c, clock);
    }
  }

  lemma ReplyIsPlain(cfg: Config, sys: seq<Shard>, a: Plain, op: Op, clock: int)
    requires Refines(sys, cfg.hash, a, clock) && LegalNext(cfg.opt, a, op, clock)
    requires !op.Sweeping?
    ensures ReplyTo(cfg, sys, op) == PlainReply(cfg, a, op)
  {
    hide Placed, AllSubs, Guarded, Normalized, Keep, InOrder;
    match op
    case Publishing(t1, t2, channel, m) => SameDeliveries(cfg, sys, channel, Normalized(cfg.opt, t1, m));
    case Getting(ml, fromDb, t, p) => assert ChannelRefines(ChannelsFor(cfg.hash, sys, p.channel), a, p.channel, clock);
    case Subscribing(ml, fromDb, t, id, p, handler) =>
      assert ChannelRefines(ChannelsFor(cfg.hash, sys, p.channel), a, p.channel, clock);
    case Describing(id, channel) => Where(sys, cfg.hash, Sub(id, channel));
  }

  /** One shard knows all subscribers of its channels. */
  lemma SameDeliveries(cfg: Config, sys: seq<Shard>, channel: string, m: Message)
    requires sys != [] && Placed(sys, cfg.hash)
    ensures Deliveries(sys[Index(cfg.hash, |sys|, channel)].subs, channel, m) == Deliveries(AllSubs(sys), channel, m)
  {
    hide Placed, AllSubs, InOrder, Ascending;
    var subs := sys[Index(cfg.hash, |sys|, channel)].subs;
    forall id: nat
      ensures Sub(id, channel) in subs <==> Sub(id, channel) in AllSubs(sys)
      ensures Sub(id, channel) in subs ==> subs[Sub(id, channel)] == AllSubs(sys)[Sub(id, channel)]
    {
      Where(sys, cfg.hash, Sub(id, channel));
    }
    forall id ensures id in IdsOf(subs, channel) <==> id in IdsOf(AllSubs(sys), channel) {
      assert id in IdsOf(subs, channel) <==> Sub(id, channel) in subs;
      assert id in IdsOf(AllSubs(sys), channel) <==> Sub(id, channel) in AllSubs(sys);
    }
    assert IdsOf(subs, channel) == IdsOf(AllSubs(sys), channel);
    var ids := InOrder(IdsOf(subs, channel), NatLess);
    InOrderIs(IdsOf(subs, channel), NatLess);
    assert forall id :: id in ids ==> id in Elements(ids);
    forall i | 0 <= i < |ids|
      ensures Sub(ids[i], channel) in subs && Sub(ids[i], channel) in AllSubs(sys)
      ensures subs[Sub(ids[i], channel)] == AllSubs(sys)[Sub(ids[i], channel)]
    {
      assert ids[i] in Elements(ids);
    }
    assert Calls(subs, ids, channel, m) == Calls(AllSubs(sys), ids, channel, m);
  }

  lemma NewRefines(cfg: Config, size: nat, start: int)
    requires size > 0
    ensures Refines(seq(size, i => NEW_SHARD), cfg.hash, Plain(map[], map[]), start)
  {
    var sys := seq(size, i => NEW_SHARD);
    PlacedNew(size, cfg.hash);
    forall s ensures s !in AllSubs(sys) {
      Where(sys, cfg.hash, s);
    }
  }

  lemma {:induction false} RunRefines(cfg: Config, size: nat, ops: seq<Op>, start: int)
    requires size > 0 && Legal(cfg.opt, ops, start)
    ensures Refines(StackRun(cfg, size, ops), cfg.hash, PlainRun(cfg.opt, ops), Clock(ops, start))
    ensures StackReplies(cfg, size, ops) == PlainReplies(cfg, ops)
  {
    hide Refines, StackDo, PlainDo, StackReply, PlainReply, LegalNext, LastTime;
    if ops == [] {
      NewRefines(cfg, size, start);
    } else {
      var n := |ops| - 1;
      RunRefines(cfg, size, ops[..n], start);
      StackStep(cfg, StackRun(cfg, size, ops[..n]), PlainRun(cfg.opt, ops[..n]), ops[n], Clock(ops[..n], start));
    }
  }

  /** Sharding, lazy expiry, the same-second skip and channel erasure cannot be observed: every reply of
      every legal run is the plain system's, and so is whatever is asked next. */
  lemma StackRefinesPlain(cfg: Config, size: nat, ops: seq<Op>, start: int, op: Op)
    requires size > 0 && Legal(cfg.opt, ops, start)
    requires LegalNext(cfg.opt, PlainRun(cfg.opt, ops), op, Clock(ops, start))
    ensures StackReplies(cfg, size, ops) == PlainReplies(cfg, ops)
    ensures StackReply(cfg, StackRun(cfg, size, ops), op) == PlainReply(cfg, PlainRun(cfg.opt, ops), op)
  {
    hide Refines, StackDo, PlainDo, StackReply, PlainReply, LegalNext;
    RunRefines(cfg, size, ops, start);
    StackStep(cfg, StackRun(cfg, size, ops), PlainRun(cfg.opt, ops), op, Clock(ops, start));
  }

  /** What a server gives that stamps messages itself: publishers set no birthtime, the clock does not run
      back, and no publish takes longer to store than its message lives. */
  ghost predicate Timely(opt: Options, ops: seq<Op>, start: int) {
    forall i :: 0 <= i < |ops| ==> TimelyStep(opt, ops[i], Clock(ops[..i], start))
  }

  predicate TimelyStep(opt: Options, op: Op, clock: int) {
    && LastTime(op, clock) >= clock
    && (op.Publishing? && Cached(opt, op.m) ==>
          op.m.birthtime == 0 && op.t1 != 0 && op.t2 <= op.t1 + Normalized(opt, op.t1, op.m).lifetime)
  }

  lemma {:induction false} TimelyIsLegal(opt: Options, ops: seq<Op>, start: int)
    requires Timely(opt, ops, start)
    ensures Legal(opt, ops, start)
  {
    hide PlainDo, PlainList, Clock, Keep;
    if ops != [] {
      var n := |ops| - 1;
      assert forall i :: 0 <= i < n ==> ops[..n][i] == ops[i] && ops[..n][..i] == ops[..i];
      TimelyIsLegal(opt, ops[..n], start);
      assert TimelyStep(opt, ops[n], Clock(ops[..n], start));
    }
  }

  /** For such a server no condition on the queues is left: whatever is published, with any of the five
      actions, the stack cannot be told from the plain system. */
  lemma TimelyRunsArePlain(cfg: Config, size: nat, ops: seq<Op>, start: int)
    requires size > 0 && Timely(cfg.opt, ops, start)
    ensures StackReplies(cfg, size, ops) == PlainReplies(cfg, ops)
  {
    hide StackReplies, PlainReplies, Timely, Legal;
    TimelyIsLegal(cfg.opt, ops, start);
    RunRefines(cfg, size, ops, start);
  }

  // ----- reads and other channels leave no trace -----

  function PublishesTo(ops: seq<Op>, channel: string): seq<Op> {
    if ops == [] then []
    else
      var op := ops[|ops| - 1];
      PublishesTo(ops[..|ops| - 1], channel) + if op.Publishing? && op.channel == channel then [op] else []
  }

  lemma ListAfter(opt: Options, a: Plain, op: Op, channel: string)
    ensures PlainList(PlainDo(opt, a, op), channel) ==
      if op.Publishing? && op.channel == channel && Cached(opt, op.m)
      then PushList(PlainList(a, channel), op.t2, Normalized(opt, op.t1, op.m))
      else PlainList(a, channel)
  {
    hide PushList, Normalized, Cached;
  }

  lemma PushListSorted(q: seq<Message>, now: int, m: Message)
    requires Sorted(q)
    ensures Sorted(PushList(q, now, m))
  {
    hide Keep, Acted;
    KeepSorted(q, AliveAt(now));
    var s := JustExpired(q, now).(sequenced := false);
    assert Settled(s, now, m).msgs == PushList(q, now, m) by {
      SettledByList(s, JustExpired(q, now), now, m);
    }
    ActedKeepsInv(s, now, m);
    ResizedKeepsInv(s, 0);
    ResizedKeepsInv(Acted(s, now, m), m.limit);
  }

  /** The plain lists are ordered by cursor after any run. */
  lemma {:induction false} PlainListsSorted(opt: Options, ops: seq<Op>, channel: string)
    ensures Sorted(PlainList(PlainRun(opt, ops), channel))
  {
    if ops != [] {
      hide PushList, Normalized, Cached, PlainDo, PlainList, Sorted;
      var a, op := PlainRun(opt, ops[..|ops| - 1]), ops[|ops| - 1];
      PlainListsSorted(opt, ops[..|ops| - 1], channel);
      ListAfter(opt, a, op, channel);
      if op.Publishing? {
        PushListSorted(PlainList(a, channel), op.t2, Normalized(opt, op.t1, op.m));
      }
    }
  }

  /** What a read or a subscription answers after a legal run: the caller's list, the database's answer if the
      database is in use, and then the last messages of the living plain list from the cursor on, as many as the
      limit admits and none of them beyond its lifetime. The cached part is left out exactly when the cache is off,
      or when everything persists in a database in use and something was found already. */
  lemma StackReadIs(cfg: Config, size: nat, ops: seq<Op>, start: int, op: Op)
    requires size > 0 && Legal(cfg.opt, ops, start) && (op.Getting? || op.Subscribing?) && op.t >= Clock(ops, start)
    ensures StackReply(cfg, StackRun(cfg, size, ops), op).Messages?
    ensures var inUse := !cfg.opt.rocksdbDisabled && cfg.hasDb;
      var found := if inUse then op.ml + op.fromDb else op.ml;
      var r := StackReply(cfg, StackRun(cfg, size, ops), op).ml;
      && found <= r
      && (cfg.opt.cacheDisabled || (inUse && cfg.opt.persistentDefault && found != []) ==> r == found)
      && (!cfg.opt.cacheDisabled && !(inUse && cfg.opt.persistentDefault && found != []) ==>
            LastFrom(r[|found|..], Keep(PlainList(PlainRun(cfg.opt, ops), op.p.channel), AliveAt(op.t)),
              op.p.cursor, op.p.limit))
      && (forall m :: m in r[|found|..] ==> m.birthtime + m.lifetime >= op.t)
  {
    hide StackReply, StackRun, PlainRun, PlainList, Clock, Legal, Keep, LastFrom, Sorted, LastN;
    StackRefinesPlain(cfg, size, ops, start, op);
    PlainListsSorted(cfg.opt, ops, op.p.channel);
    var q := PlainList(PlainRun(cfg.opt, ops), op.p.channel);
    KeepSorted(q, AliveAt(op.t));
    QueryIsLastFrom(Keep(q, AliveAt(op.t)), op.p.cursor, op.p.limit);
    var found := if !cfg.opt.rocksdbDisabled && cfg.hasDb then op.ml + op.fromDb else op.ml;
    var cached := Query(Keep(q, AliveAt(op.t)), op.p.cursor, op.p.limit);
    assert (found + cached)[|found|..] == cached && found[|found|..] == [];
    assert forall m :: m in cached ==> m.birthtime + m.lifetime >= op.t by {
      QueryAlive(q, op.t, op.p.cursor, op.p.limit);
    }
  }

  lemma QueryAlive(q: seq<Message>, t: int, cursor: int, limit: nat)
    ensures forall m :: m in Query(Keep(q, AliveAt(t)), cursor, limit) ==> m.birthtime + m.lifetime >= t
  {
    var found := Keep(Keep(q, AliveAt(t)), CursorFrom(cursor));
    assert forall m :: m in LastN(found, limit) ==> m in found;
  }

  /** A channel's list is made by the publishes to it alone. */
  lemma {:induction false} ListOfItsPublishes(opt: Options, ops: seq<Op>, channel: string)
    ensures PlainList(PlainRun(opt, ops), channel) == PlainList(PlainRun(opt, PublishesTo(ops, channel)), channel)
  {
    hide PushList, Normalized, Cached, PlainDo, PlainList;
    if ops != [] {
      var n := |ops| - 1;
      var rest, pubs := PublishesTo(ops[..n], channel), PublishesTo(ops, channel);
      ListOfItsPublishes(opt, ops[..n], channel);
      ListAfter(opt, PlainRun(opt, ops[..n]), ops[n], channel);
      if ops[n].Publishing? && ops[n].channel == channel {
        assert pubs[..|pubs| - 1] == rest && pubs[|pubs| - 1] == ops[n];
        ListAfter(opt, PlainRun(opt, rest), ops[n], channel);
      } else {
        assert pubs == rest;
      }
    }
  }

  /** Two legal runs that publish the same to a channel answer the same reads of it, whatever else they
      read, subscribe, describe or publish elsewhere, and however they are sharded. */
  lemma OnlyItsPublishesMatter(cfg: Config, size: nat, ops: seq<Op>, start: int,
      cfg': Config, size': nat, ops': seq<Op>, start': int, ml: seq<Message>, fromDb: seq<Message>, t: int, p: Params)
    requires size > 0 && Legal(cfg.opt, ops, start) && t >= Clock(ops, start)
    requires size' > 0 && Legal(cfg'.opt, ops', start') && t >= Clock(ops', start')
    requires cfg.opt == cfg'.opt && cfg.hasDb == cfg'.hasDb
    requires PublishesTo(ops, p.channel) == PublishesTo(ops', p.channel)
    ensures StackReply(cfg, StackRun(cfg, size, ops), Getting(ml, fromDb, t, p)) ==
      StackReply(cfg', StackRun(cfg', size', ops'), Getting(ml, fromDb, t, p))
  {
    hide StackReply, StackRun, PlainRun, Clock, Legal, Keep, PublishesTo;
    StackRefinesPlain(cfg, size, ops, start, Getting(ml, fromDb, t, p));
    StackRefinesPlain(cfg', size', ops', start', Getting(ml, fromDb, t, p));
    ListOfItsPublishes(cfg.opt, ops, p.channel);
    ListOfItsPublishes(cfg.opt, ops', p.channel);
  }

  /** A run without some of its reads. */
  function Dropping(ops: seq<Op>, keep: seq<bool>): seq<Op>
    requires |keep| == |ops|
  {
    if ops == [] then []
    else
      var n := |ops| - 1;
      Dropping(ops[..n], keep[..n]) + if ops[n].Getting? && !keep[n] then [] else [ops[n]]
  }

  lemma {:induction false} DroppedReads(opt: Options, ops: seq<Op>, keep: seq<bool>, start: int)
    requires |keep| == |ops| && Legal(opt, ops, start)
    ensures PlainRun(opt, Dropping(ops, keep)) == PlainRun(opt, ops)
    ensures Legal(opt, Dropping(ops, keep), start) && Clock(Dropping(ops, keep), start) <= Clock(ops, start)
  {
    hide PlainList, PushList, Fresh, Normalized, Cached, Keep;
    if ops != [] {
      var n := |ops| - 1;
      var rest, kept := Dropping(ops[..n], keep[..n]), Dropping(ops, keep);
      DroppedReads(opt, ops[..n], keep[..n], start);
      if ops[n].Getting? && !keep[n] {
        assert kept == rest;
      } else {
        assert kept[..|kept| - 1] == rest && kept[|kept| - 1] == ops[n];
      }
    }
  }

  /** Deleting any reads from a run, with the expiries and erasures they caused, changes no later reply. */
  lemma ReadsAreUnobservable(cfg: Config, size: nat, ops: seq<Op>, keep: seq<bool>, start: int, op: Op)
    requires |keep| == |ops|
    requires size > 0 && Legal(cfg.opt, ops, start)
    requires LegalNext(cfg.opt, PlainRun(cfg.opt, ops), op, Clock(ops, start))
    ensures StackReply(cfg, StackRun(cfg, size, Dropping(ops, keep)), op) ==
      StackReply(cfg, StackRun(cfg, size, ops), op)
  {
    hide StackReply, StackRun, PlainRun, Clock, Legal, Dropping, PlainReply, Fresh, Keep;
    DroppedReads(cfg.opt, ops, keep, start);
    StackRefinesPlain(cfg, size, ops, start, op);
    StackRefinesPlain(cfg, size, Dropping(ops, keep), start, op);
  }
}
