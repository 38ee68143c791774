/** Describing a subscriber from every shard takes one lock after another, and other operations run in
    between. A run interleaves the sweep's own steps with any steps of others. */
module Sweep {
  import opened Messages
  import opened Ordered
  import opened PubSubs
  import opened PubSubMts

  datatype Event = Own | Other(op: Op)

  /** `taken` and `lost` record the subscriber's subscriptions that the sweep, or others, removed. */
  datatype Sweeper = Sweeper(sys: seq<Shard>, next: nat, count: nat, taken: set<Sub>, lost: set<Sub>)

  function IdSubs(sys: seq<Shard>, id: nat): set<Sub> {
    SubsOf(AllSubs(sys), id)
  }

  /** Others do anything to any shard, other sweeps included, but do not subscribe this subscriber. */
  predicate Allowed(w: Sweeper, id: nat, e: Event) {
    match e
    case Own => w.next < |w.sys|
    case Other(op) => (op.Subscribing? ==> op.id != id) && (op.Sweeping? ==> op.i < |w.sys|)
  }

  function Next(cfg: Config, w: Sweeper, id: nat, e: Event): Sweeper
    requires w.sys != [] && Allowed(w, id, e)
  {
    match e
    case Own =>
      var gone := SubsOf(w.sys[w.next].subs, id);
      Sweeper(Do(cfg, w.sys, Sweeping(w.next, id)), w.next + 1, w.count + |gone|, w.taken + gone, w.lost)
    case Other(op) =>
      var sys' := Do(cfg, w.sys, op);
      w.(sys := sys', lost := w.lost + (IdSubs(w.sys, id) - IdSubs(sys', id)))
  }

  ghost predicate Runs(cfg: Config, w: Sweeper, id: nat, es: seq<Event>, w': Sweeper)
    decreases |es|
  {
    if es == [] then w == w'
    else w.sys != [] && Allowed(w, id, es[0]) && Runs(cfg, Next(cfg, w, id, es[0]), id, es[1..], w')
  }

  // ----- subscriptions of a well-placed system -----

  lemma Where(sys: seq<Shard>, hash: string -> nat, s: Sub)
    requires sys != [] && Placed(sys, hash)
    ensures var at := Index(hash, |sys|, s.channel);
      && (s in AllSubs(sys) <==> s in sys[at].subs)
      && (s in AllSubs(sys) ==> AllSubs(sys)[s] == sys[at].subs[s])
      && (forall i :: 0 <= i < |sys| && s in sys[i].subs ==> i == at)
  {
    PlacedIsSeparate(sys, hash);
    AllSubsMembers(sys, s);
    forall i | 0 <= i < |sys| && s in sys[i].subs ensures i == Index(hash, |sys|, s.channel) {
      assert PlacedAt(sys[i], hash, |sys|, i);
    }
  }

  /** One step changes the subscriptions only as its shard's step does. */
  lemma AllSubsAfter(cfg: Config, sys: seq<Shard>, op: Op, s: Sub)
    requires sys != [] && Placed(sys, cfg.hash) && (op.Sweeping? ==> op.i < |sys|)
    ensures var i := ShardOf(cfg, |sys|, op);
      s in AllSubs(Do(cfg, sys, op)) <==>
        if Index(cfg.hash, |sys|, s.channel) == i then s in DoAt(cfg, sys[i], op).subs else s in AllSubs(sys)
  {
    hide DoAt, Placed;
    DoKeepsPlaced(cfg, sys, op);
    Where(sys, cfg.hash, s);
    Where(Do(cfg, sys, op), cfg.hash, s);
  }

  /** The sweep's own step takes the subscriber's subscriptions of its shard and nothing else. */
  lemma OwnStep(cfg: Config, sys: seq<Shard>, i: nat, id: nat)
    requires sys != [] && Placed(sys, cfg.hash) && i < |sys|
    ensures var sys', gone := Do(cfg, sys, Sweeping(i, id)), SubsOf(sys[i].subs, id);
      && IdSubs(sys', id) == IdSubs(sys, id) - gone
      && gone <= IdSubs(sys, id)
      && AllSubs(sys') == AllSubs(sys) - gone
      && forall k :: 0 <= k < |sys| ==> sys'[k].channels == sys[k].channels
  {
    hide Placed, AllSubs;
    var op := Sweeping(i, id);
    var sys', gone := Do(cfg, sys, op), SubsOf(sys[i].subs, id);
    DoKeepsPlaced(cfg, sys, op);
    forall s ensures s in AllSubs(sys') <==> s in AllSubs(sys) && s !in gone {
      AllSubsAfter(cfg, sys, op, s);
      Where(sys, cfg.hash, s);
    }
    forall s | s in AllSubs(sys') ensures AllSubs(sys')[s] == AllSubs(sys)[s] {
      Where(sys, cfg.hash, s);
      Where(sys', cfg.hash, s);
    }
    forall s | s in gone ensures s in AllSubs(sys) {
      Where(sys, cfg.hash, s);
    }
  }

  /** What others do can only remove subscriptions of a subscriber they do not subscribe. */
  lemma OtherStep(cfg: Config, sys: seq<Shard>, op: Op, id: nat)
    requires sys != [] && Placed(sys, cfg.hash)
    requires (op.Subscribing? ==> op.id != id) && (op.Sweeping? ==> op.i < |sys|)
    ensures IdSubs(Do(cfg, sys, op), id) <= IdSubs(sys, id)
    ensures forall i :: 0 <= i < |sys| ==> SubsOf(Do(cfg, sys, op)[i].subs, id) <= SubsOf(sys[i].subs, id)
  {
    hide Placed, TouchShard, PublishShard;
    var i := ShardOf(cfg, |sys|, op);
    var added := if op.Subscribing? then {Sub(op.id, op.p.channel)} else {};
    assert DoAt(cfg, sys[i], op).subs.Keys <= sys[i].subs.Keys + added by {
      TouchKeepsSubs(cfg, sys[i], op);
    }
    forall s | s in AllSubs(Do(cfg, sys, op)) && s.id == id ensures s in AllSubs(sys) {
      AllSubsAfter(cfg, sys, op, s);
      Where(sys, cfg.hash, s);
    }
  }

  lemma TouchKeepsSubs(cfg: Config, sh: Shard, op: Op)
    ensures op.Getting? || op.Publishing? ==> DoAt(cfg, sh, op).subs == sh.subs
    ensures op.Subscribing? ==> DoAt(cfg, sh, op).subs == sh.subs[Sub(op.id, op.p.channel) := op.handler]
  {}

  // ----- the sweep -----

  ghost predicate Invariant(cfg: Config, w: Sweeper, id: nat, start: set<Sub>) {
    && w.sys != [] && Placed(w.sys, cfg.hash)
    && w.next <= |w.sys|
    && (forall i :: 0 <= i < w.next ==> SubsOf(w.sys[i].subs, id) == {})
    && w.count == |w.taken|
    && Parts(w.taken, w.lost, IdSubs(w.sys, id), start)
  }

  lemma SweptStaysSwept(cfg: Config, w: Sweeper, id: nat, start: set<Sub>)
    requires Invariant(cfg, w, id, start) && w.next < |w.sys|
    ensures forall i :: 0 <= i <= w.next ==> SubsOf(Do(cfg, w.sys, Sweeping(w.next, id))[i].subs, id) == {}
  {
    hide Placed, AllSubs;
    var sys' := Do(cfg, w.sys, Sweeping(w.next, id));
    assert SubsOf(sys'[w.next].subs, id) == {};
  }

  /** The three parts of what the subscriber had: taken, lost and still there. */
  ghost predicate Parts(taken: set<Sub>, lost: set<Sub>, here: set<Sub>, start: set<Sub>) {
    taken !! lost && taken !! here && lost !! here && taken + lost + here == start
  }

  lemma TakeSome(taken: set<Sub>, lost: set<Sub>, here: set<Sub>, start: set<Sub>, gone: set<Sub>)
    requires Parts(taken, lost, here, start) && gone <= here
    ensures Parts(taken + gone, lost, here - gone, start) && |taken + gone| == |taken| + |gone|
  {}

  lemma LoseSome(taken: set<Sub>, lost: set<Sub>, here: set<Sub>, start: set<Sub>, left: set<Sub>)
    requires Parts(taken, lost, here, start) && left <= here
    ensures Parts(taken, lost + (here - left), left, start)
  {}

  lemma OwnKeepsInvariant(cfg: Config, w: Sweeper, id: nat, start: set<Sub>)
    requires Invariant(cfg, w, id, start) && w.next < |w.sys|
    ensures Invariant(cfg, Next(cfg, w, id, Own), id, start)
  {
    hide Placed, AllSubs, SubsOf, Do, Parts, IdSubs;
    SweptStaysSwept(cfg, w, id, start);
    DoKeepsPlaced(cfg, w.sys, Sweeping(w.next, id));
    OwnStep(cfg, w.sys, w.next, id);
    TakeSome(w.taken, w.lost, IdSubs(w.sys, id), start, SubsOf(w.sys[w.next].subs, id));
  }

  lemma OtherKeepsInvariant(cfg: Config, w: Sweeper, id: nat, op: Op, start: set<Sub>)
    requires Invariant(cfg, w, id, start) && Allowed(w, id, Other(op))
    ensures Invariant(cfg, Next(cfg, w, id, Other(op)), id, start)
  {
    hide Placed, AllSubs, SubsOf, Do, Parts, IdSubs;
    DoKeepsPlaced(cfg, w.sys, op);
    OtherStep(cfg, w.sys, op, id);
    LoseSome(w.taken, w.lost, IdSubs(w.sys, id), start, IdSubs(Do(cfg, w.sys, op), id));
  }

  lemma NextKeepsInvariant(cfg: Config, w: Sweeper, id: nat, e: Event, start: set<Sub>)
    requires Invariant(cfg, w, id, start) && Allowed(w, id, e)
    ensures Invariant(cfg, Next(cfg, w, id, e), id, start)
    ensures |Next(cfg, w, id, e).sys| == |w.sys|
  {
    hide Invariant, Do;
    match e
    case Own => OwnKeepsInvariant(cfg, w, id, start);
    case Other(op) => OtherKeepsInvariant(cfg, w, id, op, start);
  }

  lemma {:induction false} RunKeepsInvariant(cfg: Config, w: Sweeper, id: nat, es: seq<Event>, w': Sweeper,
      start: set<Sub>)
    requires Invariant(cfg, w, id, start) && Runs(cfg, w, id, es, w')
    ensures Invariant(cfg, w', id, start) && |w'.sys| == |w.sys|
    decreases |es|
  {
    hide Invariant, Next, Allowed;
    if es != [] {
      NextKeepsInvariant(cfg, w, id, es[0], start);
      RunKeepsInvariant(cfg, Next(cfg, w, id, es[0]), id, es[1..], w', start);
    }
  }

  /** Whatever interleaves, a finished sweep leaves the subscriber nowhere, and it counted exactly what
      it took: what the subscriber had at the start, less what others removed meanwhile. */
  lemma SweepIsComplete(cfg: Config, sys: seq<Shard>, id: nat, es: seq<Event>, w: Sweeper)
    requires sys != [] && Placed(sys, cfg.hash)
    requires Runs(cfg, Sweeper(sys, 0, 0, {}, {}), id, es, w) && w.next == |w.sys|
    ensures Placed(w.sys, cfg.hash)
    ensures forall i, s :: 0 <= i < |w.sys| && s in w.sys[i].subs ==> s.id != id
    ensures w.count == |w.taken|
    ensures w.taken + w.lost == IdSubs(sys, id) && w.taken !! w.lost
    ensures w.count + |w.lost| == |IdSubs(sys, id)|
  {
    hide Invariant, Placed, IdSubs, Runs;
    var start := Sweeper(sys, 0, 0, {}, {});
    StartInvariant(cfg, sys, id);
    RunKeepsInvariant(cfg, start, id, es, w, IdSubs(sys, id));
    FinishedSweep(cfg, w, id, IdSubs(sys, id));
  }

  lemma StartInvariant(cfg: Config, sys: seq<Shard>, id: nat)
    requires sys != [] && Placed(sys, cfg.hash)
    ensures Invariant(cfg, Sweeper(sys, 0, 0, {}, {}), id, IdSubs(sys, id))
  {
    hide Placed, IdSubs;
  }

  lemma FinishedSweep(cfg: Config, w: Sweeper, id: nat, start: set<Sub>)
    requires Invariant(cfg, w, id, start) && w.next == |w.sys|
    ensures Placed(w.sys, cfg.hash)
    ensures forall i, s :: 0 <= i < |w.sys| && s in w.sys[i].subs ==> s.id != id
    ensures w.count == |w.taken|
    ensures w.taken + w.lost == start && w.taken !! w.lost
    ensures w.count + |w.lost| == |start|
  {
    hide AllSubs, Placed;
    forall i, s | 0 <= i < |w.sys| && s in w.sys[i].subs ensures s.id != id {
      assert s !in SubsOf(w.sys[i].subs, id);
    }
    forall s ensures s !in IdSubs(w.sys, id) {
      Where(w.sys, cfg.hash, s);
    }
    assert w.taken + w.lost == start;
  }
}
