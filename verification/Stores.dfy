/** The database merge operator and the database read, over stored values already decoded. */
module Stores {
  import opened Messages
  import opened Selections
  import opened QueueSpec
  import opened MessageQueues
  import opened BoundedSort
  import opened Replay
  import opened Merging

  /** A stored value: a list of messages, or bytes the parser refuses. */
  datatype Slice = Garbled | Decoded(messages: seq<Message>)

  /** The lists of the decoded values one after another; a garbled value adds nothing. */
  function Joined(values: seq<Slice>): seq<Message> {
    if values == [] then []
    else
      var last := values[|values| - 1];
      Joined(values[..|values| - 1]) + if last.Decoded? then last.messages else []
  }

  /** Pushes one decoded value; a garbled one is skipped. `read` counts clock readings. */
  method AddToQueue(queue: MessageQueue, value: Slice, clk: nat -> int, read: nat) returns (read': nat)
    requires queue.Valid()
    modifies queue
    ensures queue.Valid()
    ensures value.Decoded? ==>
      queue.View() == PushAll(old(queue.View()), value.messages, clk, read) && read' == read + |value.messages|
    ensures value.Garbled? ==> queue.View() == old(queue.View()) && read' == read
  {
    hide Push, MessageQueue.Valid;
    read' := read;
    match value
    case Garbled =>
    case Decoded(messages) =>
      for i := 0 to |messages|
        invariant queue.Valid() && read' == read + i
        invariant queue.View() == PushAll(old(queue.View()), messages[..i], clk, read)
      {
        assert messages[..i + 1][..i] == messages[..i];
        var back := queue.Push(clk(read'), messages[i]);
        read' := read' + 1;
      }
      assert messages[..|messages|] == messages;
  }

  lemma NoOperandsYet(first: seq<Message>, operands: seq<Slice>, clk: nat -> int)
    ensures first + Joined(operands[..0]) == first
    ensures PushAll(EMPTY, [], clk, 0) == EMPTY
  {}

  lemma OneMoreOperand(first: seq<Message>, operands: seq<Slice>, i: nat, clk: nat -> int)
    requires i < |operands|
    ensures var sofar, op := first + Joined(operands[..i]), operands[i];
      && (op.Garbled? ==> first + Joined(operands[..i + 1]) == sofar)
      && (op.Decoded? ==>
            && first + Joined(operands[..i + 1]) == sofar + op.messages
            && PushAll(EMPTY, sofar + op.messages, clk, 0) ==
                 PushAll(PushAll(EMPTY, sofar, clk, 0), op.messages, clk, |sofar|))
  {
    hide Push, PushAll;
    var sofar, op := first + Joined(operands[..i]), operands[i];
    assert operands[..i + 1][..i] == operands[..i];
    if op.Decoded? {
      PushAllAppend(EMPTY, sofar, op.messages, clk, 0);
    }
  }

  /** Replays the existing value and then every operand. Without operands nothing is written. */
  method FullMerge(existing: Option<Slice>, operands: seq<Slice>, clk: nat -> int)
    returns (out: Option<seq<Message>>)
    ensures operands == [] <==> out == None
    ensures operands != [] && existing.Some? && existing.value.Decoded? ==>
      out == Some(Rebuild(existing.value.messages + Joined(operands), clk))
    ensures operands != [] && !(existing.Some? && existing.value.Decoded?) ==>
      out == Some(Rebuild(Joined(operands), clk))
  {
    hide Push, Keep, PushAll, Joined, MessageQueue.Valid;
    if operands == [] {
      return None;
    }
    var queue := new MessageQueue();
    var read := 0;
    ghost var first := if existing.Some? && existing.value.Decoded? then existing.value.messages else [];
    NoOperandsYet(first, operands, clk);
    if existing.Some? {
      read := AddToQueue(queue, existing.value, clk, 0);
    }
    assert queue.View() == PushAll(EMPTY, first, clk, 0);
    for i := 0 to |operands|
      invariant queue.Valid()
      invariant read == |first + Joined(operands[..i])|
      invariant queue.View() == PushAll(EMPTY, first + Joined(operands[..i]), clk, 0)
    {
      read := AddToQueue(queue, operands[i], clk, read);
      OneMoreOperand(first, operands, i, clk);
    }
    assert operands[..|operands|] == operands;
    queue.RemoveDeath(clk(read));
    var list := queue.CopyAll([]);
    assert list == Rebuild(first + Joined(operands), clk);
    assert [] + Joined(operands) == Joined(operands);
    out := Some(list);
  }

  /** Joining is determined by its parts: decoded lists follow one another, garbled values vanish. */
  lemma {:induction false} JoinedParts(a: seq<Slice>, b: seq<Slice>)
    ensures Joined(a + b) == Joined(a) + Joined(b)
    ensures forall ms :: Joined([Decoded(ms)]) == ms
    ensures Joined([Garbled]) == []
  {
    forall v: Slice ensures Joined([v]) == if v.Decoded? then v.messages else [] {
      assert [v][..0] == [];
    }
    if b == [] {
      assert a + b == a;
    } else {
      var n := |b| - 1;
      assert (a + b)[..|a + b| - 1] == a + b[..n];
      JoinedParts(a, b[..n]);
    }
  }

  /** Each push writes one operand with one message: joined they are the messages pushed. */
  lemma {:induction false} JoinedPushes(ms: seq<Message>)
    ensures Joined(seq(|ms|, i requires 0 <= i < |ms| => Decoded([ms[i]]))) == ms
  {
    if ms != [] {
      var n := |ms| - 1;
      var values := seq(|ms|, i requires 0 <= i < |ms| => Decoded([ms[i]]));
      assert values[..n] == seq(n, i requires 0 <= i < n => Decoded([ms[..n][i]]));
      JoinedPushes(ms[..n]);
      assert ms == ms[..n] + [ms[n]];
    }
  }

  // ----- a chain of merges -----

  /** One call of the operator. The database makes one only when it has operands. */
  datatype Merge = Merge(operands: seq<Slice>, clk: nat -> int)

  ghost predicate StagesOf(merges: seq<Merge>, stages: seq<Stage>) {
    && |stages| == |merges|
    && forall i :: 0 <= i < |merges| ==>
         stages[i].operands == Joined(merges[i].operands) && stages[i].clk == merges[i].clk
  }

  lemma OneMoreStageOf(e: seq<Message>, merges: seq<Merge>, stages: seq<Stage>, i: nat)
    requires i < |merges| && StagesOf(merges[..i], stages)
    ensures var stages' := stages + [Stage(Joined(merges[i].operands), merges[i].clk)];
      && StagesOf(merges[..i + 1], stages')
      && Staged(e, stages') == Rebuild(Staged(e, stages) + Joined(merges[i].operands), merges[i].clk)
  {
    hide Joined, Rebuild;
    var stages' := stages + [Stage(Joined(merges[i].operands), merges[i].clk)];
    assert stages'[..i] == stages;
  }

  /** The operator called again and again, each time on the value it returned before: what it returns last is
      the staged merge of everything it was given. */
  method MergeChain(existing: Option<Slice>, merges: seq<Merge>)
    returns (value: Option<Slice>, ghost stages: seq<Stage>)
    requires forall c :: c in merges ==> c.operands != []
    ensures merges == [] ==> value == existing
    ensures StagesOf(merges, stages)
    ensures merges != [] && existing.Some? && existing.value.Decoded? ==>
      value == Some(Decoded(Staged(existing.value.messages, stages)))
    ensures merges != [] && !(existing.Some? && existing.value.Decoded?) ==> value == Some(Decoded(Staged([], stages)))
  {
    hide Staged, Rebuild, Joined;
    ghost var e := if existing.Some? && existing.value.Decoded? then existing.value.messages else [];
    value, stages := existing, [];
    NoStages(e, merges);
    for i := 0 to |merges|
      invariant StagesOf(merges[..i], stages)
      invariant if i == 0 then value == existing else value == Some(Decoded(Staged(e, stages)))
      invariant i == 0 ==> stages == []
    {
      OneMoreStageOf(e, merges, stages, i);
      assert [] + Joined(merges[i].operands) == Joined(merges[i].operands);
      var out := FullMerge(value, merges[i].operands, merges[i].clk);
      assert merges[i] in merges;
      value := Some(Decoded(out.value));
      stages := stages + [Stage(Joined(merges[i].operands), merges[i].clk)];
    }
    assert merges[..|merges|] == merges;
  }

  lemma NoStages(e: seq<Message>, merges: seq<Merge>)
    ensures StagesOf(merges[..0], []) && Staged(e, []) == e
  {}

  function AllOperands(merges: seq<Merge>): seq<Slice> {
    if merges == [] then [] else AllOperands(merges[..|merges| - 1]) + merges[|merges| - 1].operands
  }

  lemma {:induction false} BulkOfMerges(e: seq<Message>, merges: seq<Merge>, stages: seq<Stage>)
    requires StagesOf(merges, stages)
    ensures Bulk(e, stages) == e + Joined(AllOperands(merges))
  {
    hide Joined;
    if merges == [] {
      JoinedParts([], []);
      assert Joined([]) == [] by { JoinedNothing(); }
    } else {
      var n := |merges| - 1;
      BulkOfMerges(e, merges[..n], stages[..n]);
      JoinedParts(AllOperands(merges[..n]), merges[n].operands);
    }
  }

  lemma JoinedNothing()
    ensures Joined([]) == []
  {}

  /** However the database splits live publishes under one limit into calls of the operator, the last call
      returns the tail of the stable sort of everything written. */
  method MergeLive(existing: Option<Slice>, merges: seq<Merge>, limit: nat) returns (value: Option<Slice>)
    requires merges != [] && forall c :: c in merges ==> c.operands != []
    requires var e := if existing.Some? && existing.value.Decoded? then existing.value.messages else [];
      && Uniform(e + Joined(AllOperands(merges)), limit)
      && forall stages | StagesOf(merges, stages) :: AliveThroughout(e, stages)
    ensures var e := if existing.Some? && existing.value.Decoded? then existing.value.messages else [];
      value == Some(Decoded(LastN(StableSort(e + Joined(AllOperands(merges))), limit)))
  {
    hide Joined, StableSort, Rebuild, Staged, StagesOf, AliveThroughout;
    ghost var stages;
    value, stages := MergeChain(existing, merges);
    ghost var e := if existing.Some? && existing.value.Decoded? then existing.value.messages else [];
    BulkOfMerges(e, merges, stages);
    assert stages != [] by { SameCount(merges, stages); }
    assert value == Some(Decoded(Staged(e, stages)));
    assert AliveThroughout(e, stages) && Uniform(Bulk(e, stages), limit);
    StagesDoNotMatter(e, stages, limit);
  }

  lemma SameCount(merges: seq<Merge>, stages: seq<Stage>)
    requires StagesOf(merges, stages)
    ensures |merges| == |stages|
  {}

  /** The read: replay the stored value, expire, and answer the query. */
  method GetMessages(stored: Option<Slice>, clk: nat -> int, cursor: int, limit: nat, ml: seq<Message>)
    returns (found: bool, ml': seq<Message>)
    ensures found == (stored.Some? && stored.value.Decoded?)
    ensures ml' == if found then ml + Query(Rebuild(stored.value.messages, clk), cursor, limit) else ml
    ensures found ==> ml <= ml' && LastFrom(ml'[|ml|..], Rebuild(stored.value.messages, clk), cursor, limit)
    ensures found ==> forall m :: m in ml'[|ml|..] ==> m.birthtime + m.lifetime >= clk(|stored.value.messages|)
  {
    hide Push, PushAll, Keep, Inv;
    if stored == None || stored.value.Garbled? {
      return false, ml;
    }
    var queue := new MessageQueue();
    var read := AddToQueue(queue, stored.value, clk, 0);
    queue.RemoveDeath(clk(read));
    ml' := queue.CopyLast(cursor, limit, ml);
    found := true;
    ghost var r := ml'[|ml|..];
    assert queue.msgs == Rebuild(stored.value.messages, clk);
    SuffixIn(r, queue.msgs);
    assert forall m :: m in r ==> m in queue.msgs && AliveAt(clk(|stored.value.messages|)).Selects(m);
  }

  /** The read of a stored list is a query on the list itself, for every cursor and limit, exactly
      when the list replays in place. */
  lemma ReadIsQuery(q: seq<Message>, clk: nat -> int)
    requires LatestAt(clk, |q|)
    requires forall k: nat :: k < |q| ==> clk(k) != 0
    ensures (forall cursor, limit :: Query(Rebuild(q, clk), cursor, limit) == Query(q, cursor, limit)) <==>
      Replayable(q, clk(|q|))
  {
    ReplayExactly(q, clk);
    var r := Rebuild(q, clk);
    if forall cursor, limit :: Query(r, cursor, limit) == Query(q, cursor, limit) {
      var least := LowestCursor(q + r);
      assert forall m :: m in q || m in r ==> m in q + r;
      KeepAll(q, CursorFrom(least));
      KeepAll(r, CursorFrom(least));
      assert Query(r, least, |q| + |r|) == r && Query(q, least, |q| + |r|) == q;
    }
  }

  lemma {:induction false} LowestCursor(q: seq<Message>) returns (least: int)
    ensures forall m :: m in q ==> least <= m.cursor
  {
    if q == [] {
      least := 0;
    } else {
      var c := LowestCursor(q[1..]);
      least := if c < q[0].cursor then c else q[0].cursor;
    }
  }

  /** However the merges were staged, a later read of live publishes finds the tail of their sort. */
  lemma ReadAfterMerges(e: seq<Message>, stages: seq<Stage>, limit: nat, clk: nat -> int, cursor: int, count: nat)
    requires stages != []
    requires Uniform(Bulk(e, stages), limit) && AliveThroughout(e, stages)
    requires var n := |Staged(e, stages)|; LatestAt(clk, n) && All(Bulk(e, stages), AliveAt(clk(n)))
    ensures Query(Rebuild(Staged(e, stages), clk), cursor, count) ==
      Query(LastN(StableSort(Bulk(e, stages)), limit), cursor, count)
  {
    var bulk, r := Bulk(e, stages), Staged(e, stages);
    StagesDoNotMatter(e, stages, limit);
    UniformTail(bulk, limit);
    RebuildLive(r, clk, limit);
    SortIntoSorted([], bulk);
    StableSortOfSorted(r);
  }
}
