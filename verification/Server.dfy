/** The shards and their databases as one object: what the running steps do to the records, and what a read
    gathers from them. */
module Servers {
  import opened Messages
  import opened QueueSpec
  import opened Replay
  import Stores
  import opened PubSubs
  import opened PubSubMts
  import opened Databases

  /** A read asks every database in turn, each appending to the list of the ones before. */
  method GatherAnswers(records: map<Key, Record>, ttls: seq<int>, p: Params, clocks: Clocks)
    returns (fromDb: seq<Message>)
    ensures fromDb == JoinedAnswers(records, ttls, p, clocks)
  {
    hide Query, Rebuild, Gotten;
    fromDb := [];
    NoAnswers(records, ttls, p, clocks);
    for i := 0 to |ttls|
      invariant fromDb == JoinedAnswers(records, ttls[..i], p, clocks)
    {
      var key := Key(ttls[i], p.channel);
      var stored: Option<Stores.Slice> := None;
      if key in records {
        stored := Some(Stores.Decoded(Gotten(records[key], clocks.merge(ttls[i]))));
      }
      var found;
      assert ttls[..i + 1][..i] == ttls[..i];
      found, fromDb := Stores.GetMessages(stored, clocks.replay(ttls[i]), p.cursor, p.limit, fromDb);
    }
    assert ttls[..|ttls|] == ttls;
  }

  lemma NoAnswers(records: map<Key, Record>, ttls: seq<int>, p: Params, clocks: Clocks)
    ensures JoinedAnswers(records, ttls[..0], p, clocks) == []
  {}

  class Server {
    const ps: PubSubMt
    const ttls: seq<int>
    var records: map<Key, Record>

    ghost predicate Valid()
      reads this, ps, ps.Repr
    {
      ps.Valid() && this !in ps.Repr
    }

    constructor (opt: Options, hasDb: bool, hash: string -> nat, hashSize: nat, ttls: seq<int>)
      ensures Valid() && this.ttls == ttls && records == map[]
      ensures ps.opt == opt && ps.hasDb == hasDb && ps.hash == hash
      ensures ps.View() == seq(if hashSize == 0 then 1 else hashSize, i => NEW_SHARD)
    {
      this.ttls := ttls;
      ps := new PubSubMt(opt, hasDb, hash, hashSize);
      records := map[];
    }

    /** A publish: the shard decides what is written, the lifetime to which database. */
    method Publish(t1: int, t2: int, channel: string, m: Message)
      requires Valid()
      modifies this`records, ps.Repr
      ensures Valid() && fresh(ps.Repr - old(ps.Repr))
      ensures ps.View() == Do(ps.Cfg(), old(ps.View()), Publishing(t1, t2, channel, m))
      ensures records == NextDb(ps.Cfg(), ttls, old(records), Put(t1, t2, channel, m))
    {
      hide PubSubMt.Valid, Do, Place;
      var toDb := ps.Publish(t1, t2, channel, m);
      if toDb.Some? {
        var place := Place(ttls, toDb.value.lifetime);
        if place.Some? {
          records := Appended(records, Key(place.value, channel), Encoded(toDb.value));
        }
      }
    }

    method GetMessages(ml: seq<Message>, t: int, p: Params, clocks: Clocks) returns (ml': seq<Message>)
      requires Valid()
      modifies ps.Repr
      ensures Valid() && fresh(ps.Repr - old(ps.Repr))
      ensures var op := OpOf(ttls, records, Read(ml, t, p, clocks));
        && ps.View() == Do(ps.Cfg(), old(ps.View()), op)
        && ml' == ReplyTo(ps.Cfg(), old(ps.View()), op).ml
    {
      hide PubSubMt.Valid, Do, ReplyTo, JoinedAnswers;
      var fromDb := GatherAnswers(records, ttls, p, clocks);
      ml' := ps.GetMessages(ml, fromDb, t, p);
    }

    method Subscribe(ml: seq<Message>, t: int, id: nat, p: Params, handler: Handler, clocks: Clocks)
      returns (ml': seq<Message>)
      requires Valid()
      modifies ps.Repr
      ensures Valid() && fresh(ps.Repr - old(ps.Repr))
      ensures var op := OpOf(ttls, records, Join(ml, t, id, p, handler, clocks));
        && ps.View() == Do(ps.Cfg(), old(ps.View()), op)
        && ml' == ReplyTo(ps.Cfg(), old(ps.View()), op).ml
    {
      hide PubSubMt.Valid, Do, ReplyTo, JoinedAnswers;
      var fromDb := GatherAnswers(records, ttls, p, clocks);
      ml' := ps.Subscribe(ml, fromDb, t, id, p, handler);
    }
  }
}
