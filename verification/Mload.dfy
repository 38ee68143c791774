/** Loading many channels at once: the domain flattens its answers, the adapter groups them again. */
module Mload {
  import opened Messages
  import opened Selections
  import opened QueueSpec
  import opened ChannelMaps
  import opened Ordered
  import opened PubSubs
  import opened PubSubMts
  import opened Stack

  datatype Topic = Topic(channel: string, m: Message)

  datatype Load = Load(channel: string, messages: seq<Message>)

  // ----- the flat answer of the domain -----

  function Topics(channel: string, ml: seq<Message>): seq<Topic> {
    seq(|ml|, i requires 0 <= i < |ml| => Topic(channel, ml[i]))
  }

  /** Answers one after another, each message under the channel it was asked of. */
  function Flat(reqs: seq<Params>, answers: seq<seq<Message>>): seq<Topic>
    requires |reqs| == |answers|
  {
    if reqs == [] then []
    else
      var n := |reqs| - 1;
      Flat(reqs[..n], answers[..n]) + Topics(reqs[n].channel, answers[n])
  }

  /** What a request brings at its moment: the clock, and what the database appends. */
  datatype Moment = Moment(t: int, fromDb: seq<Message>)

  function Asking(cfg: Config, p: Params, at: Moment): Op {
    Getting([], at.fromDb, at.t, p)
  }

  function AfterAsking(cfg: Config, sys: seq<Shard>, reqs: seq<Params>, moments: seq<Moment>): (sys': seq<Shard>)
    requires sys != [] && |reqs| == |moments|
    ensures |sys'| == |sys|
  {
    if reqs == [] then sys
    else
      var n := |reqs| - 1;
      Do(cfg, AfterAsking(cfg, sys, reqs[..n], moments[..n]), Asking(cfg, reqs[n], moments[n]))
  }

  ghost function Answers(cfg: Config, sys: seq<Shard>, reqs: seq<Params>, moments: seq<Moment>): (r: seq<seq<Message>>)
    requires sys != [] && |reqs| == |moments|
    ensures |r| == |reqs|
  {
    if reqs == [] then []
    else
      var n := |reqs| - 1;
      Answers(cfg, sys, reqs[..n], moments[..n]) +
        [ReplyTo(cfg, AfterAsking(cfg, sys, reqs[..n], moments[..n]), Asking(cfg, reqs[n], moments[n])).ml]
  }

  lemma AnswersOneMore(cfg: Config, sys: seq<Shard>, reqs: seq<Params>, moments: seq<Moment>, i: nat)
    requires sys != [] && i < |reqs| == |moments|
    ensures var before := AfterAsking(cfg, sys, reqs[..i], moments[..i]);
      var op := Asking(cfg, reqs[i], moments[i]);
      && AfterAsking(cfg, sys, reqs[..i + 1], moments[..i + 1]) == Do(cfg, before, op)
      && Flat(reqs[..i + 1], Answers(cfg, sys, reqs[..i + 1], moments[..i + 1])) ==
           Flat(reqs[..i], Answers(cfg, sys, reqs[..i], moments[..i])) +
             Topics(reqs[i].channel, ReplyTo(cfg, before, op).ml)
  {
    hide Do, ReplyTo, Asking;
    assert reqs[..i + 1][..i] == reqs[..i] && moments[..i + 1][..i] == moments[..i];
    var a := Answers(cfg, sys, reqs[..i + 1], moments[..i + 1]);
    assert a[..i] == Answers(cfg, sys, reqs[..i], moments[..i]);
  }

  /** pubsub_domain::get_messages: one read after another, flattened as they come. */
  method GetAll(ps: PubSubMt, reqs: seq<Params>, moments: seq<Moment>) returns (messages: seq<Topic>)
    requires ps.Valid() && |reqs| == |moments|
    modifies ps.Repr
    ensures ps.Valid() && fresh(ps.Repr - old(ps.Repr))
    ensures ps.View() == AfterAsking(ps.Cfg(), old(ps.View()), reqs, moments)
    ensures messages == Flat(reqs, Answers(ps.Cfg(), old(ps.View()), reqs, moments))
  {
    hide Do, ReplyTo, Answers, AfterAsking, Flat, PubSub.Valid, PubSub.Mirrored, Placed, Inv;
    messages := [];
    ghost var sys := ps.View();
    AskedNothing(ps.Cfg(), sys, reqs, moments);
    for i := 0 to |reqs|
      invariant ps.Valid() && fresh(ps.Repr - old(ps.Repr))
      invariant ps.View() == AfterAsking(ps.Cfg(), sys, reqs[..i], moments[..i])
      invariant messages == Flat(reqs[..i], Answers(ps.Cfg(), sys, reqs[..i], moments[..i]))
    {
      var ml := ps.GetMessages([], moments[i].fromDb, moments[i].t, reqs[i]);
      AnswersOneMore(ps.Cfg(), sys, reqs, moments, i);
      ghost var before := messages;
      for k := 0 to |ml|
        invariant messages == before + Topics(reqs[i].channel, ml[..k])
      {
        messages := messages + [Topic(reqs[i].channel, ml[k])];
      }
      assert ml[..|ml|] == ml;
    }
    assert reqs[..|reqs|] == reqs && moments[..|reqs|] == moments;
  }

  lemma AskedNothing(cfg: Config, sys: seq<Shard>, reqs: seq<Params>, moments: seq<Moment>)
    requires sys != [] && |reqs| == |moments|
    ensures AfterAsking(cfg, sys, reqs[..0], moments[..0]) == sys
    ensures Flat(reqs[..0], Answers(cfg, sys, reqs[..0], moments[..0])) == []
  {}

  lemma {:induction false} AnswerAt(cfg: Config, sys: seq<Shard>, reqs: seq<Params>, moments: seq<Moment>, i: nat)
    requires sys != [] && i < |reqs| == |moments|
    ensures Answers(cfg, sys, reqs, moments)[i] ==
      ReplyTo(cfg, AfterAsking(cfg, sys, reqs[..i], moments[..i]), Asking(cfg, reqs[i], moments[i])).ml
  {
    hide ReplyTo, Asking, AfterAsking;
    var n := |reqs| - 1;
    if i < n {
      AnswerAt(cfg, sys, reqs[..n], moments[..n], i);
      assert reqs[..n][..i] == reqs[..i] && moments[..n][..i] == moments[..i];
    }
  }

  lemma AskingKeepsLiving(cfg: Config, sys: seq<Shard>, p: Params, at: Moment, c: string, t: int)
    requires sys != [] && at.t <= t
    ensures Keep(ListOf(ChannelsFor(cfg.hash, Do(cfg, sys, Asking(cfg, p, at)), c), c), AliveAt(t)) ==
      Keep(ListOf(ChannelsFor(cfg.hash, sys, c), c), AliveAt(t))
  {
    hide Keep;
    if p.channel == c {
      KeepStronger(ListOf(ChannelsFor(cfg.hash, sys, c), c), AliveAt(at.t), AliveAt(t));
    } else {
      OtherChannels(cfg, sys, Asking(cfg, p, at), c);
    }
  }

  lemma {:induction false} AllKeepLiving(cfg: Config, sys: seq<Shard>, reqs: seq<Params>, moments: seq<Moment>,
      c: string, t: int)
    requires sys != [] && |reqs| == |moments| && forall k :: 0 <= k < |moments| ==> moments[k].t <= t
    ensures Keep(ListOf(ChannelsFor(cfg.hash, AfterAsking(cfg, sys, reqs, moments), c), c), AliveAt(t)) ==
      Keep(ListOf(ChannelsFor(cfg.hash, sys, c), c), AliveAt(t))
  {
    hide Keep, Do, Asking, ListOf, ChannelsFor;
    if reqs != [] {
      var n := |reqs| - 1;
      AllKeepLiving(cfg, sys, reqs[..n], moments[..n], c, t);
      AskingKeepsLiving(cfg, AfterAsking(cfg, sys, reqs[..n], moments[..n]), reqs[n], moments[n], c, t);
    }
  }

  /** Each request is answered by its own cursor and limit: after the database's answer the end of what its channel
      held alive when the call began, at the request's moment, whatever the requests before it touched. */
  lemma AnswerIs(cfg: Config, sys: seq<Shard>, reqs: seq<Params>, moments: seq<Moment>, i: nat)
    requires sys != [] && i < |reqs| == |moments|
    requires forall k :: 0 <= k < i ==> moments[k].t <= moments[i].t
    requires var chs, c := sys[Index(cfg.hash, |sys|, reqs[i].channel)].channels, reqs[i].channel;
      c in chs ==> Sorted(chs[c].msgs)
    ensures var chs, c := sys[Index(cfg.hash, |sys|, reqs[i].channel)].channels, reqs[i].channel;
      var inUse := !cfg.opt.rocksdbDisabled && cfg.hasDb;
      var found := if inUse then moments[i].fromDb else [];
      var r := Answers(cfg, sys, reqs, moments)[i];
      && found <= r
      && (cfg.opt.cacheDisabled || (inUse && cfg.opt.persistentDefault && found != []) ==> r == found)
      && (!cfg.opt.cacheDisabled && !(inUse && cfg.opt.persistentDefault && found != []) ==>
            LastFrom(r[|found|..], if c in chs then Keep(chs[c].msgs, AliveAt(moments[i].t)) else [],
              reqs[i].cursor, reqs[i].limit))
  {
    hide Answers, AfterAsking, Keep, LastFrom, Sorted, LastN;
    var p, at, c := reqs[i], moments[i], reqs[i].channel;
    var sys' := AfterAsking(cfg, sys, reqs[..i], moments[..i]);
    AnswerAt(cfg, sys, reqs, moments, i);
    AllKeepLiving(cfg, sys, reqs[..i], moments[..i], c, at.t);
    var living := Keep(ListOf(ChannelsFor(cfg.hash, sys, c), c), AliveAt(at.t));
    assert Sorted(living) && Keep([], AliveAt(at.t)) == [] by {
      KeepSorted(ListOf(ChannelsFor(cfg.hash, sys, c), c), AliveAt(at.t));
      EmptyKept(at.t);
    }
    QueryIsLastFrom(living, p.cursor, p.limit);
    var found := WithDb(cfg.opt, cfg.hasDb, [], at.fromDb);
    assert [] + at.fromDb == at.fromDb;
    var cached := Query(living, p.cursor, p.limit);
    assert (found + cached)[|found|..] == cached && found[|found|..] == [];
  }

  lemma EmptyKept(t: int)
    ensures Keep([], AliveAt(t)) == [] && Sorted([])
  {}

  // ----- grouping -----

  function Requested(reqs: seq<Params>): set<string> {
    set p | p in reqs :: p.channel
  }

  function Answered(flat: seq<Topic>): set<string> {
    set t | t in flat :: t.channel
  }

  /** The messages of one channel, in their order in the flat list. */
  function MessagesOf(flat: seq<Topic>, channel: string): seq<Message> {
    if flat == [] then []
    else
      var n := |flat| - 1;
      MessagesOf(flat[..n], channel) + if flat[n].channel == channel then [flat[n].m] else []
  }

  function Loads(channels: seq<string>, flat: seq<Topic>): seq<Load> {
    seq(|channels|, i requires 0 <= i < |channels| => Load(channels[i], MessagesOf(flat, channels[i])))
  }

  /** The answered channels in order, then the requested ones that got nothing. */
  ghost function Grouped(reqs: seq<Params>, flat: seq<Topic>): seq<Load> {
    StringOrder();
    Loads(InOrder(Answered(flat), StringLess), flat) +
      Loads(InOrder(Requested(reqs) - Answered(flat), StringLess), flat)
  }

  lemma OneMoreTopic(flat: seq<Topic>, i: nat)
    requires i < |flat|
    ensures Answered(flat[..i + 1]) == Answered(flat[..i]) + {flat[i].channel}
    ensures forall c :: (
      MessagesOf(flat[..i + 1], c) == MessagesOf(flat[..i], c) + if flat[i].channel == c then [flat[i].m] else [])
  {
    assert flat[..i + 1] == flat[..i] + [flat[i]];
    assert flat[..i + 1][..i] == flat[..i];
  }

  lemma OneMoreRequest(reqs: seq<Params>, i: nat)
    requires i < |reqs|
    ensures Requested(reqs[..i + 1]) == Requested(reqs[..i]) + {reqs[i].channel}
  {
    assert reqs[..i + 1] == reqs[..i] + [reqs[i]];
  }

  lemma {:induction false} NotAnswered(flat: seq<Topic>, channel: string)
    requires channel !in Answered(flat)
    ensures MessagesOf(flat, channel) == []
  {
    if flat != [] {
      var n := |flat| - 1;
      assert flat[n] in flat;
      NotAnswered(flat[..n], channel);
    }
  }

  /** The distinct requested channels, as a std::set. */
  method ChannelList(reqs: seq<Params>) returns (channels: seq<string>)
    ensures Ascending(channels, StringLess) && Elements(channels) == Requested(reqs)
  {
    StringOrder();
    hide StrictTotal, Ascending, StringLess, Elements;
    NoChannels();
    channels := [];
    for i := 0 to |reqs|
      invariant Ascending(channels, StringLess) && Elements(channels) == Requested(reqs[..i])
    {
      OneMoreRequest(reqs, i);
      var added;
      channels, added := Include(channels, reqs[i].channel, StringLess);
    }
    assert reqs[..|reqs|] == reqs;
  }

  lemma NoChannels()
    ensures Ascending<string>([], StringLess) && Elements<string>([]) == {}
  {}

  /** One pass over the flat list: fills the buckets and crosses answered channels off the list. */
  method FillBuckets(flat: seq<Topic>, reqs: seq<Params>, requested: seq<string>)
    returns (chlist: seq<string>, keys: seq<string>, buckets: map<string, seq<Message>>)
    requires Ascending(requested, StringLess) && Elements(requested) == Requested(reqs)
    ensures Ascending(chlist, StringLess) && Elements(chlist) == Requested(reqs) - Answered(flat)
    ensures Ascending(keys, StringLess) && Elements(keys) == Answered(flat) == buckets.Keys
    ensures forall c :: c in buckets ==> buckets[c] == MessagesOf(flat, c)
  {
    StringOrder();
    hide StrictTotal, Ascending, StringLess, Elements, MessagesOf, Answered;
    NoChannels();
    NothingAnswered();
    chlist, keys, buckets := requested, [], map[];
    for i := 0 to |flat|
      invariant Ascending(chlist, StringLess) && Elements(chlist) == Requested(reqs) - Answered(flat[..i])
      invariant Ascending(keys, StringLess) && Elements(keys) == Answered(flat[..i]) == buckets.Keys
      invariant forall c :: c in buckets ==> buckets[c] == MessagesOf(flat[..i], c)
    {
      var c := flat[i].channel;
      OneMoreTopic(flat, i);
      if c !in buckets {
        NotAnswered(flat[..i], c);
      }
      chlist := Exclude(chlist, c, StringLess);
      var added;
      keys, added := Include(keys, c, StringLess);
      buckets := buckets[c := (if c in buckets then buckets[c] else []) + [flat[i].m]];
    }
    assert flat[..|flat|] == flat;
  }

  /** The callback of mload. A missing reply counts as an empty one. */
  method Regroup(reqs: seq<Params>, res: Option<seq<Topic>>) returns (reply: seq<Load>)
    ensures reply == Grouped(reqs, if res.Some? then res.value else [])
  {
    hide StrictTotal, Ascending, StringLess, Elements, MessagesOf, InOrder, Answered, Requested, Loads;
    var requested := ChannelList(reqs);
    var flat := if res.Some? then res.value else [];
    var chlist, keys, buckets := FillBuckets(flat, reqs, requested);
    StringOrder();
    InOrderUnique(keys, Answered(flat), StringLess);
    InOrderUnique(chlist, Requested(reqs) - Answered(flat), StringLess);
    NoLoads(keys, chlist, flat);
    reply := [];
    for i := 0 to |keys|
      invariant reply == Loads(keys[..i], flat)
    {
      InElements(keys, i);
      LoadsOneMore(keys, flat, i);
      reply := reply + [Load(keys[i], buckets[keys[i]])];
    }
    assert keys[..|keys|] == keys;
    ghost var first := reply;
    for i := 0 to |chlist|
      invariant reply == first + Loads(chlist[..i], flat)
    {
      InElements(chlist, i);
      NotAnswered(flat, chlist[i]);
      LoadsOneMore(chlist, flat, i);
      reply := reply + [Load(chlist[i], [])];
    }
    assert chlist[..|chlist|] == chlist;
  }

  lemma NoLoads(keys: seq<string>, chlist: seq<string>, flat: seq<Topic>)
    ensures Loads(keys[..0], flat) == [] == Loads(chlist[..0], flat)
  {}

  lemma LoadsOneMore(keys: seq<string>, flat: seq<Topic>, i: nat)
    requires i < |keys|
    ensures Loads(keys[..i + 1], flat) == Loads(keys[..i], flat) + [Load(keys[i], MessagesOf(flat, keys[i]))]
  {}

  lemma NothingAnswered()
    ensures Answered([]) == {}
  {}

  lemma InElements(keys: seq<string>, i: nat)
    requires i < |keys|
    ensures keys[i] in Elements(keys)
  {}

  // ----- nothing lost, nothing duplicated -----

  /** All answers to requests of one channel, in order of the requests. */
  function Joined(reqs: seq<Params>, answers: seq<seq<Message>>, channel: string): seq<Message>
    requires |reqs| == |answers|
  {
    if reqs == [] then []
    else
      var n := |reqs| - 1;
      Joined(reqs[..n], answers[..n], channel) + if reqs[n].channel == channel then answers[n] else []
  }

  /** A channel asked for once gets that one answer. */
  lemma {:induction false} JoinedOnce(reqs: seq<Params>, answers: seq<seq<Message>>, i: nat)
    requires i < |reqs| == |answers|
    requires forall k :: 0 <= k < |reqs| && k != i ==> reqs[k].channel != reqs[i].channel
    ensures Joined(reqs, answers, reqs[i].channel) == answers[i]
  {
    var n := |reqs| - 1;
    if i < n {
      JoinedOnce(reqs[..n], answers[..n], i);
    } else {
      JoinedNever(reqs[..n], answers[..n], reqs[i].channel);
    }
  }

  lemma {:induction false} JoinedNever(reqs: seq<Params>, answers: seq<seq<Message>>, channel: string)
    requires |reqs| == |answers| && forall k :: 0 <= k < |reqs| ==> reqs[k].channel != channel
    ensures Joined(reqs, answers, channel) == []
  {
    if reqs != [] {
      JoinedNever(reqs[..|reqs| - 1], answers[..|reqs| - 1], channel);
    }
  }

  lemma {:induction false} MessagesOfAppend(a: seq<Topic>, b: seq<Topic>, channel: string)
    ensures MessagesOf(a + b, channel) == MessagesOf(a, channel) + MessagesOf(b, channel)
  {
    if b == [] {
      assert a + b == a;
    } else {
      var n := |b| - 1;
      assert (a + b)[..|a + b| - 1] == a + b[..n];
      MessagesOfAppend(a, b[..n], channel);
    }
  }

  lemma {:induction false} MessagesOfTopics(c: string, ml: seq<Message>, channel: string)
    ensures MessagesOf(Topics(c, ml), channel) == if c == channel then ml else []
  {
    if ml != [] {
      var n := |ml| - 1;
      assert Topics(c, ml)[..n] == Topics(c, ml[..n]);
      MessagesOfTopics(c, ml[..n], channel);
      assert ml == ml[..n] + [ml[n]];
    }
  }

  lemma {:induction false} MessagesOfFlat(reqs: seq<Params>, answers: seq<seq<Message>>, channel: string)
    requires |reqs| == |answers|
    ensures MessagesOf(Flat(reqs, answers), channel) == Joined(reqs, answers, channel)
    ensures Answered(Flat(reqs, answers)) <= Requested(reqs)
  {
    if reqs != [] {
      var n := |reqs| - 1;
      MessagesOfFlat(reqs[..n], answers[..n], channel);
      MessagesOfAppend(Flat(reqs[..n], answers[..n]), Topics(reqs[n].channel, answers[n]), channel);
      MessagesOfTopics(reqs[n].channel, answers[n], channel);
      assert reqs[n] in reqs;
      forall t | t in Flat(reqs, answers) ensures t.channel in Requested(reqs) {
        if t in Flat(reqs[..n], answers[..n]) {
          assert t.channel in Answered(Flat(reqs[..n], answers[..n]));
        }
      }
    }
  }

  lemma AnsweredIffMessages(flat: seq<Topic>, channel: string)
    ensures channel in Answered(flat) <==> MessagesOf(flat, channel) != []
  {
    if channel in Answered(flat) {
      var t :| t in flat && t.channel == channel;
      var i :| 0 <= i < |flat| && flat[i] == t;
      assert flat == flat[..i] + ([t] + flat[i + 1..]);
      MessagesOfAppend(flat[..i], [t] + flat[i + 1..], channel);
      MessagesOfAppend([t], flat[i + 1..], channel);
      assert [t][..0] == [];
    } else {
      NotAnswered(flat, channel);
    }
  }

  /** The reply has exactly one entry per requested channel, holding exactly what was answered to the
      requests of that channel; those with messages come first, and each part is in channel order. */
  lemma MloadExact(reqs: seq<Params>, answers: seq<seq<Message>>)
    requires |reqs| == |answers|
    ensures var r := Grouped(reqs, Flat(reqs, answers));
      && (forall c :: c in Requested(reqs) <==> exists i :: 0 <= i < |r| && r[i].channel == c)
      && (forall i :: 0 <= i < |r| ==> r[i].messages == Joined(reqs, answers, r[i].channel))
      && (forall i, j :: 0 <= i < j < |r| ==>
            if r[i].messages == [] then r[j].messages == [] && StringLess(r[i].channel, r[j].channel)
            else r[j].messages == [] || StringLess(r[i].channel, r[j].channel))
      && (forall i, j :: 0 <= i < j < |r| ==> r[i].channel != r[j].channel)
  {
    var flat := Flat(reqs, answers);
    var some, none := Answered(flat), Requested(reqs) - Answered(flat);
    StringOrder();
    InOrderIs(some, StringLess);
    InOrderIs(none, StringLess);
    MessagesOfFlat(reqs, answers, "");
    var ks, ke := InOrder(some, StringLess), InOrder(none, StringLess);
    var r := Grouped(reqs, flat);
    assert r == Loads(ks, flat) + Loads(ke, flat);
    EntriesExact(reqs, answers, ks, ke, r);
  }

  /** Two ascending parts that cover the requested channels. */
  ghost predicate Cover(reqs: seq<Params>, flat: seq<Topic>, ks: seq<string>, ke: seq<string>) {
    && Elements(ks) == Answered(flat) && Elements(ke) == Requested(reqs) - Answered(flat)
    && Ascending(ks, StringLess) && Ascending(ke, StringLess)
  }

  lemma EntryExact(reqs: seq<Params>, answers: seq<seq<Message>>, ks: seq<string>, ke: seq<string>, i: nat)
    requires |reqs| == |answers| && Cover(reqs, Flat(reqs, answers), ks, ke) && i < |ks| + |ke|
    ensures var e := (Loads(ks, Flat(reqs, answers)) + Loads(ke, Flat(reqs, answers)))[i];
      && e.channel == (ks + ke)[i] && e.channel in Requested(reqs)
      && e.messages == Joined(reqs, answers, e.channel)
      && (e.messages == [] <==> i >= |ks|)
  {
    hide Flat, Answered, Requested, MessagesOf, StringLess, Ascending, Joined;
    var flat, c := Flat(reqs, answers), (ks + ke)[i];
    MessagesOfFlat(reqs, answers, c);
    AnsweredIffMessages(flat, c);
    if i < |ks| {
      InElements(ks, i);
    } else {
      InElements(ke, i - |ks|);
    }
  }

  lemma KeysOrdered(reqs: seq<Params>, flat: seq<Topic>, ks: seq<string>, ke: seq<string>, i: nat, j: nat)
    requires Cover(reqs, flat, ks, ke) && i < j < |ks| + |ke|
    ensures (i < |ks| <==> j < |ks|) ==> StringLess((ks + ke)[i], (ks + ke)[j])
    ensures (ks + ke)[i] != (ks + ke)[j]
  {
    hide Answered, Requested, StringLess;
    StringLessIrreflexive((ks + ke)[i]);
    if j < |ks| {
      assert StringLess(ks[i], ks[j]);
    } else if i >= |ks| {
      assert StringLess(ke[i - |ks|], ke[j - |ks|]);
    } else {
      InElements(ks, i);
      InElements(ke, j - |ks|);
    }
  }

  lemma KeysComplete(reqs: seq<Params>, flat: seq<Topic>, ks: seq<string>, ke: seq<string>, c: string)
    requires Cover(reqs, flat, ks, ke) && c in Requested(reqs)
    ensures exists i :: 0 <= i < |ks + ke| && (ks + ke)[i] == c
  {
    hide Answered, Requested, StringLess, Ascending;
    assert c in Elements(ks) || c in Elements(ke);
    assert c in ks + ke;
  }

  lemma EntriesExact(reqs: seq<Params>, answers: seq<seq<Message>>, ks: seq<string>, ke: seq<string>, r: seq<Load>)
    requires |reqs| == |answers| && Cover(reqs, Flat(reqs, answers), ks, ke)
    requires r == Loads(ks, Flat(reqs, answers)) + Loads(ke, Flat(reqs, answers))
    ensures forall c :: c in Requested(reqs) <==> exists i :: 0 <= i < |r| && r[i].channel == c
    ensures forall i :: 0 <= i < |r| ==> r[i].messages == Joined(reqs, answers, r[i].channel)
    ensures forall i, j :: 0 <= i < j < |r| ==>
      if r[i].messages == [] then r[j].messages == [] && StringLess(r[i].channel, r[j].channel)
      else r[j].messages == [] || StringLess(r[i].channel, r[j].channel)
    ensures forall i, j :: 0 <= i < j < |r| ==> r[i].channel != r[j].channel
  {
    hide Flat, Requested, Joined, StringLess, Cover;
    assert |r| == |ks| + |ke|;
    forall i | 0 <= i < |r|
      ensures r[i].channel == (ks + ke)[i] && r[i].channel in Requested(reqs)
      ensures r[i].messages == Joined(reqs, answers, r[i].channel)
      ensures r[i].messages == [] <==> i >= |ks|
    {
      EntryExact(reqs, answers, ks, ke, i);
    }
    hide Loads;
    forall c | c in Requested(reqs) ensures exists i :: 0 <= i < |r| && r[i].channel == c {
      KeysComplete(reqs, Flat(reqs, answers), ks, ke, c);
      var i :| 0 <= i < |ks + ke| && (ks + ke)[i] == c;
      assert r[i].channel == c;
    }
    forall i, j | 0 <= i < j < |r|
      ensures (i < |ks| <==> j < |ks|) ==> StringLess(r[i].channel, r[j].channel)
      ensures r[i].channel != r[j].channel
    {
      KeysOrdered(reqs, Flat(reqs, answers), ks, ke, i, j);
    }
  }

  /** The adapter's mload over the domain. */
  method LoadMany(ps: PubSubMt, reqs: seq<Params>, moments: seq<Moment>) returns (reply: seq<Load>)
    requires ps.Valid() && |reqs| == |moments|
    modifies ps.Repr
    ensures ps.Valid() && fresh(ps.Repr - old(ps.Repr))
    ensures ps.View() == AfterAsking(ps.Cfg(), old(ps.View()), reqs, moments)
    ensures reply == Grouped(reqs, Flat(reqs, Answers(ps.Cfg(), old(ps.View()), reqs, moments)))
  {
    var messages := GetAll(ps, reqs, moments);
    reply := Regroup(reqs, Some(messages));
  }
}
