# wfc_pubsub: the channel message store, verified

This project models the message store of wfc_pubsub and the layers that must agree with it, and proves
what they promise to each other.

- A channel keeps its messages in a queue sorted by cursor. A push applies one of five actions, expires
  dead messages and trims the queue to the pushed message's limit. Two short cuts make this fast: expiry
  stops at the first live message while the queue is flagged as being in sequence, and a push skips expiry
  when one was already made for the same second. Both depend on invariants kept by every method.
- The database keeps one list per channel. Its merge operator and its read both replay stored lists
  through an empty queue, and the database chooses when to merge.
- Channels, subscriptions and delivery live in shards chosen by hash. Reads expire lazily and erase empty
  channels, and subscriptions are kept in two mirrored ordered indexes that are scanned by range.
- The adapter's `mload` groups the domain's flat answer by channel again.

The main results:

1. **Queue.** The class `MessageQueue` does what the source does (binary search, in-place compaction, early
   stop, flags) and is proved equal to list operations made of filters, a map and a stable insertion. Over
   every run: the list is sorted and stable by arrival (`StableAfterAnyRun`), early-stopping expiry removes
   exactly the dead (`FastExpiryExact`), the same-second skip cannot be observed if pushes are fresh
   (`SkipSoundOverRuns`), with the exact condition under which no push can show it to a reader
   (`SkipSoundExactly`, reached by one stale push in `StalePushIsObservable`), and no message is lost from
   the accounts (`RunConserves`). What one push does is stated field by field and place by place: it edits,
   inserts, only withdraws, or is handed back (`PushEdits`, `PushInserts`, `PushWithdraws`, `PushHandsBack`). A
   bounded read is the one list that is an end of the queue, within the limit, from the cursor on, and as long
   as that allows (`LastFrom`).
2. **Replay.** A stored list replays to itself exactly when it is sorted, alive, and every entry finds room,
   has its times set and, unless published, meets no earlier entry of its identity (`ReplayExactly`).
   Publishing online under one limit leaves the tail of the offline stable sort (`OnlineIsOffline`).
3. **Merging.** However many merges of live publishes the database makes, with any clock readings, the value
   is the same (`StagesDoNotMatter`, `StagedIsOneShot`). With dead messages around, merging at once keeps a
   suffix of what staged merging keeps (`StagingNeverLoses`). For any mix of the five actions and of limits it
   is settled exactly when merging early can ever be noticed. Two queues of one second have the same future if
   and only if they hold the same messages, where of the dead only what an update leaves of them counts
   (`FutureExactly`). A value stored early, in any number of stages, and everything merged at once agree for
   all later operands and readings if and only if their replays are such queues (`StagesAgreeExactly`). For a
   stage within one second this comes down to: nothing is dead when it ends and everything it stored finds room
   again (`StagesAgreeInOneSecond`, `EarlierStageExactly`), and for publishes under one limit to: nothing in the
   tail of their sort is dead (`UniformStageExactly`). `StagingCanKeepMore`, `RemergeExactly`, `MixedLimitsLose`
   and `StoredEditLoses` are small instances of failure.
4. **Databases.** A chain of operator calls, each on the value of the one before, is the staged merge of everything
   written (`MergeChain`), and for live publishes under one limit the tail of its sort (`MergeLive`). Every publish
   that persists is written to the database its lifetime selects, as it is delivered (`EveryPublishIsWritten`,
   `DeliveredIsStored`), and whenever the databases merge, a record holds exactly what was written to it
   (`RecordsHoldPublishes`). So reads of the whole system are determined by what was published
   (`ReadIsOfPublishes`), live publishes reach their readers (`PublishReachesReaders`), and no publish is found
   twice, in the cache and in a database or in two databases (`NothingFoundTwice`).
5. **Stack.** In every configuration, every reply of the sharded, lazily expiring, channel-erasing stack is that
   of one plain map of sorted lists and one map of subscriptions, in front of what the database answered
   (`StackRefinesPlain`, `PlainListsSorted`, and in plain terms `StackReadIs`). Reads can be deleted from a run unnoticed (`ReadsAreUnobservable`),
   and only the publishes to a channel matter to its reads (`OnlyItsPublishesMatter`). The runs are those whose
   clock does not run back and whose publishes are alive when stored; a server that stamps messages itself and
   stores them within their lifetime has no others (`TimelyRunsArePlain`). Otherwise a read before a push can
   be noticed exactly when its channel stores a dead message although it was already expired in this second
   (`ReadsUnobservableExactly`).
6. **Subscriptions.** The two indexes never differ, range scans remove and call exactly the right entries
   in order, and a describe that sweeps the shards while others run is complete and counts what it took
   (`SweepIsComplete`).
7. **mload** loses and duplicates nothing (`MloadExact`), and each request is answered by its own cursor and limit
   from what its channel held when the call began (`AnswerIs`).

Clock readings are parameters. Where a loop reads the clock once per message, `clk(k)` is its k-th reading.

## How it is laid out

| file | contents |
|---|---|
| Messages.dfy, Selections.dfy | messages and their edits; filters, trimming, order |
| QueueSpec.dfy, MessageQueue.dfy | the meaning of queue operations; the queue itself |
| PushLaws.dfy | what one push or expiry does, by fields and places |
| QueueRuns.dfy, Stability.dfy | runs of queue operations |
| BoundedSort.dfy, Replay.dfy | stable sort and its tail; replay of stored lists |
| Merging.dfy, Agreement.dfy | staged merging; exactly when it agrees with merging at once |
| Stores.dfy | the merge operator and the database read |
| Ordered.dfy | ascending key sequences and string order |
| ChannelMap.dfy, PubSub.dfy, PubSubMt.dfy | channels, one shard, all shards |
| Sweep.dfy, Stack.dfy | the interleaved describe; the refinement of the whole stack |
| Databases.dfy, Once.dfy, Server.dfy | the stack with its databases; nothing found twice; both as one object |
| Mload.dfy | flattening and regrouping |

Objects that the source updates in place are classes: `MessageQueue`, `ChannelMap`, `PubSub` and
`PubSubMt`; `Server` joins the shards with the records of the databases.
A std::map or std::set scanned in order is an ascending sequence of keys, with a map for the values.

## Where the code and its comments differ

The model follows the code.

- The class comment of the queue says that a queue in sequence has equal lifetimes and rising birthtimes
  (libpubsub/pubsub/message_queue.hpp:36-43). The code compares deathtimes, and compares birthtimes with the
  clock and not with the new message. So the flag promises equal deathtimes (`RunKeepsInv`). It promises rising
  birthtimes after a publish exactly when the message's own birthtime fits among the others
  (`FlagMeansRisingExactly`; `FlagAllowsFallingBirthtimes` is an instance where it does not), and in every run
  whose messages carry no birthtime or the time of their push (`StampedRunsInSequence`).
- The comment on `update` says that the birthtime becomes the current time
  (libpubsub/pubsub/message_queue.hpp:90). The code stores the incoming birthtime, even an unset one.
  `modify` is said to change the lifetime (line 89) and does not.
- A non-publish action with limit 0 empties the queue and still reports that it was taken.
- `_removed` does not count messages withdrawn by identity, and a channel erased by a read loses its count
  (`ErasureForgets`).
- `channel_map::push` reports an absent channel's refusal for every action with lifetime and limit 0, while an
  empty queue refuses only a publish.

## Model

| member | source | states |
|---|---|---|
| Messages.Message.UpdatedBy | libpubsub/pubsub/stored_message.hpp:117-124 | an updated message is the incoming one in the old place: only action, cursor, identity and persistence survive |
| Messages.Message.ModifiedBy | libpubsub/pubsub/stored_message.hpp:126-131 | a modified message also keeps both its times, so its deathtime |
| QueueSpec.InsertSorted | libpubsub/pubsub/message_queue.cpp:263-277 | insertion into a sorted list keeps it sorted and adds exactly the new message |
| QueueSpec.CutAt | libpubsub/pubsub/message_queue.cpp:266 | the place found by the upper bound cuts the list exactly where the cursor filters do |
| QueueSpec.PublishedKeepsInv | libpubsub/pubsub/message_queue.cpp:279-303 | the neighbour checks keep the flag's promise of one common deathtime, and the list stays sorted |
| QueueSpec.ExpiredKeepsInv | libpubsub/pubsub/message_queue.cpp:208-256 | expiry and the recomputed flag keep the invariant |
| QueueSpec.PushKeepsInv | libpubsub/pubsub/message_queue.cpp:149-184 | every push of any of the five actions keeps order and the flag's promise |
| QueueSpec.Settled | libpubsub/pubsub/message_queue.cpp:158-183 | after a push the queue is at most the limit long, unless the message was handed back and nothing changed |
| QueueSpec.QueryIsLastFrom | libpubsub/pubsub/message_queue.hpp:149-160 | a query on an ordered list is its end from the cursor on, as long as the limit admits |
| QueueSpec.LastFromUnique | libpubsub/pubsub/message_queue.hpp:149-160 | only one list is |
| PushLaws.PushEdits | libpubsub/pubsub/message_queue.cpp:306-326 | a modify or update that finds its identity writes limit, content and key, an update also both times, in every such place; all other fields and places stay; then the limit trims the front |
| PushLaws.EditFlag | libpubsub/pubsub/message_queue.cpp:306-326 | after an edit the flag is set only for a modify of a flagged queue that changes no limit |
| PushLaws.PushInserts | libpubsub/pubsub/message_queue.cpp:263-353 | an inserting push puts the message, with all its fields and a birthtime if it had none, after all cursors up to its own; replace and remove first withdraw the identity |
| PushLaws.InsertFlag | libpubsub/pubsub/message_queue.cpp:279-303 | an insertion keeps the flag exactly when all deathtimes stay equal and the neighbours were born on their side of the clock |
| PushLaws.PushWithdraws | libpubsub/pubsub/message_queue.cpp:306-346 | without lifetime, a remove withdraws the identity and an unmatched edit nothing; the limit trims what stays |
| PushLaws.PushHandsBack | libpubsub/pubsub/message_queue.cpp:158-167 | a publish without lifetime or limit stores nothing, and without limit it empties the queue |
| PushLaws.ExpiryIs | libpubsub/pubsub/message_queue.cpp:208-256 | expiry keeps exactly the messages whose birthtime and lifetime reach the moment, and counts the rest |
| PushLaws.ExpiryFlag | libpubsub/pubsub/message_queue.cpp:241-253 | expiry gives the flag back exactly when it removed something and what is left has one deathtime and rising birthtimes |
| MessageQueues.MessageQueue.Push | libpubsub/pubsub/message_queue.cpp:149-184 | the whole new state is that of the list step, and the message comes back exactly for a publish without lifetime or limit |
| MessageQueues.MessageQueue.RemoveDeath | libpubsub/pubsub/message_queue.cpp:208-256 | whichever path it takes, exactly the living remain in their order; flag and counter follow |
| MessageQueues.MessageQueue.PopDead | libpubsub/pubsub/message_queue.cpp:215-229 | dropping from the front loses only dead messages, and all of them when the queue is in sequence |
| MessageQueues.MessageQueue.RecomputeSequenced | libpubsub/pubsub/message_queue.cpp:241-253 | the loop decides whether all neighbours are in sequence |
| MessageQueues.MessageQueue.EraseUnless | libpubsub/pubsub/message_queue.cpp:336-346 | in-place compaction is filtering in the old order |
| MessageQueues.MessageQueue.Resize | libpubsub/pubsub/message_queue.cpp:187-196 | the last `limit` messages remain and the rest are counted as removed |
| MessageQueues.MessageQueue.UpperBound | libpubsub/pubsub/message_queue.cpp:266 | the search lands after all messages with an equal cursor |
| MessageQueues.MessageQueue.LowerBound | libpubsub/pubsub/message_queue.hpp:142 | the search lands on the first message whose cursor is at least the given one |
| MessageQueues.MessageQueue.InsertMessage | libpubsub/pubsub/message_queue.cpp:263-277 | search and splice are the stable insertion of the message, born now when its birthtime is unset |
| MessageQueues.MessageQueue.PublishMessage | libpubsub/pubsub/message_queue.cpp:279-303 | list and flag after an insertion |
| MessageQueues.MessageQueue.UpdateMessages | libpubsub/pubsub/message_queue.cpp:306-313 | all of the identity are updated and the flag falls, or the message is inserted when none matched and it has a lifetime |
| MessageQueues.MessageQueue.ModifyMessages | libpubsub/pubsub/message_queue.cpp:316-326 | all of the identity are modified, the flag falls when a limit changed, or the message is inserted |
| MessageQueues.MessageQueue.RemoveMessages | libpubsub/pubsub/message_queue.cpp:328-346 | the identity is gone, and the message inserted if it has a lifetime |
| MessageQueues.MessageQueue.ReplaceMessages | libpubsub/pubsub/message_queue.cpp:349-353 | the identity is gone and the message inserted |
| MessageQueues.MessageQueue.CopyFrom | libpubsub/pubsub/message_queue.hpp:139-146 | appends exactly the messages from the cursor on |
| MessageQueues.MessageQueue.CopyLast | libpubsub/pubsub/message_queue.hpp:149-160 | appends an end of the queue: at most `limit` messages, none before the cursor, and nothing from the cursor on left out before the limit is used up |
| QueueRuns.RunKeepsInv | libpubsub/pubsub/message_queue.cpp:149-256 | in every reachable state the list is sorted and the flag implies one common deathtime |
| QueueRuns.FastExpiryExact | libpubsub/pubsub/message_queue.cpp:215-232 | after any run, if the flag is set, stopping at the first live message expires exactly the dead |
| QueueRuns.FlagMeansRisingExactly | libpubsub/pubsub/message_queue.cpp:279-303 | when a publish leaves the flag set, the list is in sequence, birthtimes included, if and only if it was before and the new birthtime is not below those before its place nor above those after it |
| QueueRuns.StampedRunsInSequence | libpubsub/pubsub/message_queue.hpp:36-43 | in every run whose messages carry no birthtime or the time of their push, the flag means equal deathtimes and rising birthtimes |
| QueueRuns.PushKeepsGuard | libpubsub/pubsub/message_queue.cpp:151-156 | after a fresh push nothing stored died before the last expiry; without eviction this holds only after a fresh push |
| QueueRuns.SkipSound | libpubsub/pubsub/message_queue.cpp:151-156 | with nothing dead stored the push equals the one that always expires first, in its whole state |
| QueueRuns.SkipSoundOverRuns | libpubsub/pubsub/message_queue.cpp:151-156 | over every run of fresh pushes, expiries at any times, resizes, clears and reports, the skip cannot be observed |
| QueueRuns.SkipSoundExactly | libpubsub/pubsub/message_queue.cpp:151-156 | every push leaves the same living messages as the push that always expires first, if and only if the second changed or nothing stored is dead |
| QueueRuns.ExpiryBetweenExactly | libpubsub/pubsub/message_queue.cpp:149-184 | expiring the queue just before a push leaves the same living messages, for every push, if and only if the second changed or nothing stored is dead |
| QueueRuns.RunConserves | libpubsub/pubsub/message_queue.cpp:113-119 | inserted = stored + counted + reported + withdrawn by identity or clear, over every run |
| Stability.StableAfterAnyRun | libpubsub/pubsub/message_queue.hpp:21-22 | after any run the list is ordered by cursor, and by arrival among equal cursors |
| BoundedSort.StableSortIsStable | libpubsub/pubsub/message_queue.hpp:166-174 | inserting one by one gives a sorted list with each cursor's messages in their order |
| BoundedSort.StableSortUnique | libpubsub/pubsub/message_queue.hpp:166-174 | order and per-cursor order determine the list |
| BoundedSort.TrimInsert | libpubsub/pubsub/message_queue.cpp:187-196 | trimming before an insertion changes nothing after it, even if the new message is evicted |
| BoundedSort.BoundedIsTailOfSort | libpubsub/pubsub/message_queue.cpp:149-196 | insertion with trimming each time is the tail of the unbounded sort |
| Replay.OnlineIsOffline | libpubsub/pubsub/message_queue.cpp:149-196 | live publishes under one limit leave exactly the tail of any stable sort of them |
| Replay.PushGrowth | libpubsub/pubsub/message_queue.cpp:149-184 | a push adds at most one message; it adds one only if it inserts, has room and withdraws nothing, and in a living queue then always |
| Replay.ReplayInPlace | libpubsub/pubsub/rocksdb/rocksdb.cpp:95-98 | a replayable list of any mix of actions rebuilds itself |
| Replay.ReplayExactly | libpubsub/pubsub/rocksdb/rocksdb.cpp:95-103 | replay and last expiry give the list back if and only if it is replayable |
| Merging.StagesDoNotMatter | libpubsub/pubsub/rocksdb/merge_operator.cpp:38-70 | any number of merges of live publishes leaves the tail of the stable sort of everything given |
| Merging.StagedIsOneShot | libpubsub/pubsub/rocksdb/merge_operator.cpp:38-70 | staged merging equals merging at once |
| Merging.LosesThroughPush | libpubsub/pubsub/rocksdb/merge_operator.cpp:30-31 | a push into a list that lost only dead or out-of-bound messages keeps it such a list |
| Merging.StagedLoses | libpubsub/pubsub/rocksdb/merge_operator.cpp:48-64 | a staged value misses, of the full sort, only dead messages and those beyond the limit |
| Merging.StagingNeverLoses | libpubsub/pubsub/rocksdb/merge_operator.cpp:48-64 | the value merged at once within a second is a suffix of the living part of the staged one |
| Agreement.FutureExactly | libpubsub/pubsub/message_queue.cpp:149-196 | two queues of one second leave the same living messages after all further pushes, at any later readings, if and only if they are equal message by message, the dead up to what an update leaves of them |
| Agreement.StagesAgreeExactly | libpubsub/pubsub/rocksdb/merge_operator.cpp:38-70 | a value stored early and everything merged at once agree for all later operands and readings if and only if their replays to one second leave such queues; any actions, limits and clocks |
| Agreement.StagesAgreeInOneSecond | libpubsub/pubsub/rocksdb/merge_operator.cpp:48-64 | within one second merging the first operands early is never noticed if and only if nothing of them is dead at the end and their value replays to itself |
| Agreement.EarlierStageExactly | libpubsub/pubsub/rocksdb/merge_operator.cpp:48-64 | a stage in any other second is never noticed if and only if nothing was dead when it ended and each stored message finds room again, be it dead by then or not |
| Agreement.UniformStageExactly | libpubsub/pubsub/rocksdb/merge_operator.cpp:48-64 | for publishes under one limit: if and only if nothing in the tail of their sort was dead when the stage ended |
| Stores.AddToQueue | libpubsub/pubsub/rocksdb/merge_operator.cpp:13-33 | pushes the messages of a decoded value one by one; a garbled value changes nothing |
| Stores.FullMerge | libpubsub/pubsub/rocksdb/merge_operator.cpp:38-70 | the new value is the replay of the existing value's messages, if it is decoded, and all operands; without operands none is written |
| Stores.JoinedParts | libpubsub/pubsub/rocksdb/merge_operator.cpp:56-59 | decoded operands follow one another in order and garbled ones vanish |
| Stores.JoinedPushes | libpubsub/pubsub/rocksdb/rocksdb.cpp:55-66 | the one-message operands that pushes write join to the messages pushed |
| Stores.MergeChain | libpubsub/pubsub/rocksdb/merge_operator.cpp:38-70 | repeated calls, each on the value returned before, return the staged merge of all operands; a garbled or missing first value counts as empty |
| Stores.MergeLive | libpubsub/pubsub/rocksdb/merge_operator.cpp:38-70 | for live publishes under one limit the last call returns the tail of the sort of everything written, however it is split into calls |
| Stores.GetMessages | libpubsub/pubsub/rocksdb/rocksdb.cpp:68-105 | appends the end of the replayed value from the cursor on, within the limit and nothing dead, or nothing when the value is missing or garbled |
| Stores.ReadIsQuery | libpubsub/pubsub/rocksdb/rocksdb.cpp:95-104 | every read is a direct query on the stored list if and only if the list is replayable |
| Stores.ReadAfterMerges | libpubsub/pubsub/rocksdb/rocksdb.cpp:95-104 | however merges were staged, a read of live publishes queries the tail of their sort |
| Ordered.LowerBound | libpubsub/pubsub/pubsub.cpp:79 | the first key not less than the given one |
| Ordered.StringOrder | libpubsub/pubsub/pubsub.hpp:62-65 | string order is a strict total order with the empty string least |
| Ordered.AscendingUnique | libpubsub/pubsub/pubsub.hpp:62-65 | an ordered index is determined by its keys |
| ChannelMaps.ChannelMap.Push | libpubsub/pubsub/channel_map.cpp:61-72 | pushes to the one channel, created on demand; an absent channel ignores a message without lifetime and limit |
| ChannelMaps.ChannelMap.FindAndRemoveDeath | libpubsub/pubsub/channel_map.cpp:113-126 | expires the one channel and erases it when it becomes empty |
| ChannelMaps.ChannelMap.GetMessages | libpubsub/pubsub/channel_map.cpp:96-106 | appends the query on what is alive, leaving other channels alone |
| ChannelMaps.ReadIs | libpubsub/pubsub/channel_map.cpp:96-106 | a read finds the end of the channel's living list from the cursor on, nothing beyond its lifetime, and everything else unless the limit is used up |
| ChannelMaps.AbsentIsEmpty | libpubsub/pubsub/channel_map.cpp:61-72 | whatever an emptied queue remembered, the next push of any action leaves the list an absent channel would get |
| ChannelMaps.ReadsUnobservableExactly | libpubsub/pubsub/channel_map.cpp:96-126 | a read before a push, erasing the channel or not, is noticed by no later read, whatever is pushed, if and only if the channel was not expired in this second or holds nothing dead |
| PubSubs.PubSub.Publish | libpubsub/pubsub/pubsub.cpp:21-47 | a lasting message goes to the database in use exactly when it or the default persists, with only its unset fields filled in; the cache follows PublishIs, and everyone is called |
| PubSubs.PublishIs | libpubsub/pubsub/pubsub.cpp:21-47 | which fields of a publish are filled in, and exactly when it enters the cache |
| PubSubs.PubSub.Fire | libpubsub/pubsub/pubsub.cpp:139-146 | the range scan makes exactly the channel's deliveries |
| PubSubs.DeliveriesExact | libpubsub/pubsub/pubsub.cpp:139-146 | each subscriber of the channel is called once with its current handler, in increasing order, and no one else |
| PubSubs.PubSub.GetMessages | libpubsub/pubsub/pubsub.cpp:49-60 | the caller's list, the database's answer if in use, then the cache's, left out exactly when the cache is off or everything persists in a database in use and something was found |
| PubSubs.ReadShardIs | libpubsub/pubsub/pubsub.cpp:49-60 | the three parts of a reply: both lists as a prefix, then the end of the channel's living list, with the exact condition for leaving it out |
| PubSubs.PubSub.Subscribe | libpubsub/pubsub/pubsub.cpp:70-75 | installs the new handler in place of any old one and answers like a read |
| PubSubs.PubSub.AddSubscription | libpubsub/pubsub/pubsub.cpp:133-137 | insertion in both indexes; an existing handler would stay |
| PubSubs.PubSub.DescribeOne | libpubsub/pubsub/pubsub.cpp:96-108 | removes the one subscription from both indexes and reports whether it was there |
| PubSubs.PubSub.Describe | libpubsub/pubsub/pubsub.cpp:77-89 | the range scan removes exactly the subscriber's entries from both indexes and returns their number |
| PubSubs.PubSub.SubscriberCount | libpubsub/pubsub/pubsub.cpp:110-115 | the sizes of the indexes never differ, so the abort is unreachable |
| PubSubs.ScanIsChannel | libpubsub/pubsub/pubsub.cpp:141-142 | from the lower bound of (channel, 0) to the first other channel lie exactly the channel's keys |
| PubSubs.ScanIsSubscriber | libpubsub/pubsub/pubsub.cpp:79-86 | from the lower bound of (id, "") to the first other id lie exactly the subscriber's keys |
| PubSubMts.DoKeepsPlaced | libpubsub/pubsub/pubsub_mt.cpp:147-150 | every step keeps each channel's messages and subscriptions in the shard of its hash |
| PubSubMts.PubSubMt.constructor | libpubsub/pubsub/pubsub_mt.cpp:8-24 | empty shards, at least one |
| PubSubMts.PubSubMt.Publish | libpubsub/pubsub/pubsub_mt.cpp:45-50 | one step on the channel's shard; every other shard and its calls stay as they were |
| PubSubMts.PubSubMt.GetMessages | libpubsub/pubsub/pubsub_mt.cpp:38-43 | one read step on the channel's shard |
| PubSubMts.ReplyIs | libpubsub/pubsub/pubsub_mt.cpp:38-64 | the same three parts for a read or subscription of the whole system, from the shard of the channel's hash |
| PubSubMts.PubSubMt.Subscribe | libpubsub/pubsub/pubsub_mt.cpp:59-64 | one subscription step on the channel's shard |
| PubSubMts.PubSubMt.DescribeOne | libpubsub/pubsub/pubsub_mt.cpp:77-82 | one removal step on the channel's shard |
| PubSubMts.PubSubMt.DescribeAt | libpubsub/pubsub/pubsub_mt.cpp:71-72 | one locked step of the sweep |
| PubSubMts.PubSubMt.Describe | libpubsub/pubsub/pubsub_mt.cpp:66-75 | undisturbed, the sweep removes the subscriber from all shards and counts its subscriptions |
| PubSubMts.PubSubMt.SubscriberCount | libpubsub/pubsub/pubsub_mt.cpp:84-93 | at rest the count is the size of the set of all subscriptions |
| PubSubMts.SumSubsAll | libpubsub/pubsub/pubsub_mt.cpp:84-93 | summing over shards counts every subscription once |
| Sweep.OwnStep | libpubsub/pubsub/pubsub_mt.cpp:71-72 | the sweep's own step removes that shard's subscriptions of the subscriber and touches nothing else |
| Sweep.OtherStep | libpubsub/pubsub/pubsub_mt.cpp:45-82 | steps of others, not subscribing this subscriber, can only take subscriptions away from it |
| Sweep.NextKeepsInvariant | libpubsub/pubsub/pubsub_mt.cpp:66-75 | every interleaved step keeps the split of the subscriber's subscriptions into taken, lost and left |
| Sweep.SweepIsComplete | libpubsub/pubsub/pubsub_mt.cpp:66-75 | whatever interleaves, no shard holds the subscriber afterwards and the count is what it had less what others removed |
| Stack.PushAsList | libpubsub/pubsub/channel_map.cpp:61-72 | a lazily expiring queue and a plain list with the same living messages agree after any fresh push |
| Stack.StackStep | libpubsub/pubsub/pubsub_mt.cpp:38-82 | one step keeps the refinement and gives the plain system's reply |
| Stack.RunRefines | libpubsub/pubsub/pubsub_mt.cpp:38-82 | every legal run keeps the refinement, and all its replies are the plain system's |
| Stack.StackRefinesPlain | libpubsub/pubsub/pubsub_mt.cpp:38-82 | in every configuration the replies of a legal run, and to whatever is asked next, are those of one map of lists and one of subscriptions, after the database's part |
| Stack.StackReadIs | libpubsub/pubsub/pubsub_mt.cpp:38-64 | after a legal run a reply is the lists found before, then the last living messages of the channel's plain list from the cursor on within the limit |
| Stack.TimelyRunsArePlain | libpubsub/pubsub/pubsub.cpp:21-47 | when the server stamps every message and stores it within its lifetime, all replies of the run are the plain system's, whatever the actions |
| Stack.PlainListsSorted | libpubsub/pubsub/message_queue.cpp:263-277 | every plain list is ordered by cursor after any run |
| Stack.ListOfItsPublishes | libpubsub/pubsub/pubsub_mt.cpp:45-50 | a channel's list is made by the publishes to it alone |
| Stack.OnlyItsPublishesMatter | libpubsub/pubsub/pubsub_mt.cpp:38-50 | runs with the same publishes to a channel and the same options answer its reads alike, whatever else they do and however they are sharded |
| Stack.ReadsAreUnobservable | libpubsub/pubsub/channel_map.cpp:96-126 | deleting any reads from a legal run changes no later reply |
| Databases.PlaceIs | libpubsub/pubsub/rocksdb/multi_rocksdb.cpp:114-126 | a message goes to the database with the least lifetime that is long enough, or to the longest |
| Databases.EveryPublishIsWritten | libpubsub/pubsub/pubsub.cpp:34-40 | with a database in use every lasting publish that persists by itself or by default is written, with its unset fields filled in, to the database its lifetime selects |
| Databases.DeliveredIsStored | libpubsub/pubsub/pubsub.cpp:23-46 | subscribers are called with the very message that is stored, filled in alike |
| Databases.RecordsHoldPublishes | libpubsub/pubsub/rocksdb/rocksdb.cpp:55-66 | whenever the databases merge, a record's merges and pending operands are together exactly what was written to it, in order |
| Databases.AnswerIsTail | libpubsub/pubsub/rocksdb/rocksdb.cpp:68-105 | a database answers a read of live publishes from the tail of their sort, whenever it merged |
| Databases.ReadIsOfPublishes | libpubsub/pubsub/pubsub.cpp:49-60 | a read of the system with its databases is a function of what was published: caller's list, tails of the writes, living plain list, each under its condition |
| Databases.PublishReachesReaders | libpubsub/pubsub/pubsub.cpp:34-60 | a persisting publish is in every later reply from its cursor on, while the writes are live and within the limits |
| Once.NothingFoundTwice | libpubsub/pubsub/pubsub.cpp:34-60 | in every configuration a read of published messages appends each publish at most once, from one database or from the cache |
| Once.GivenOnce | libpubsub/pubsub/pubsub.cpp:34-43 | unless everything persists by default, no publish is given both to a database and to the cache |
| Once.PersistentBypassesCache | libpubsub/pubsub/pubsub.cpp:42-43 | deleting all persistent publishes from a run changes no cached list |
| Servers.GatherAnswers | libpubsub/pubsub/rocksdb/multi_rocksdb.cpp:95-103 | the loop over the databases joins their answers in order |
| Servers.Server.Publish | libpubsub/pubsub/pubsub.cpp:21-47 | a running publish changes shards and records as the two steps say |
| Servers.Server.GetMessages | libpubsub/pubsub/pubsub.cpp:49-60 | a running read gathers the databases' answers and asks the channel's shard |
| Servers.Server.Subscribe | libpubsub/pubsub/pubsub.cpp:70-75 | a running subscription answers like that read |
| Mload.GetAll | package/pubsub/domain/pubsub_domain.cpp:91-116 | reads one request after another and flattens the answers under their channels |
| Mload.AnswerIs | package/pubsub/domain/pubsub_domain.cpp:91-116 | each request is answered with its own cursor and limit from what its channel held alive when the call began, after the database's answer |
| Mload.ChannelList | package/comet_adapter/domain/comet_adapter_domain.cpp:238-247 | the distinct requested channels in order |
| Mload.FillBuckets | package/comet_adapter/domain/comet_adapter_domain.cpp:252-260 | each answered channel's messages in order, and the requested channels not answered |
| Mload.Regroup | package/comet_adapter/domain/comet_adapter_domain.cpp:248-283 | answered channels in order, then the empty ones in order; a missing reply counts as empty |
| Mload.MessagesOfFlat | package/pubsub/domain/pubsub_domain.cpp:100-113 | grouping undoes flattening, channel by channel |
| Mload.JoinedOnce | package/pubsub/domain/pubsub_domain.cpp:100-113 | a channel asked for once gets exactly that answer |
| Mload.MloadExact | package/comet_adapter/domain/comet_adapter_domain.cpp:248-283 | one entry per distinct requested channel with exactly the answers to its requests; channels with messages first, each part in order |
| Mload.LoadMany | package/comet_adapter/domain/comet_adapter_domain.cpp:230-287 | the whole call over the domain |

## Left out

- The database engine, its own expiry, file paths and options: foreign code. A stored value is a list already
  decoded, or garbled bytes.
- JSON encoding: an external library. An empty stored value is treated like a garbled one. The encoding has no
  member for `persistent` (libpubsub/pubsub/api/message_json.hpp:28-36): what Databases.dfy writes has lost that
  field, elsewhere decoded lists are taken as they are.
- `multi_rocksdb` configuration, closing and `has`: the list of databases is fixed.
- NothingFoundTwice: only for channels that are published to. An edit makes a message that was not published as such.
- AnswerIsTail: only live publishes under one limit. For others a staged value may differ, exactly as the merging
  results say.
- ChannelMap sums of sizes, removed counts and empty channels: simple sums.
- PubSub.Subscribe: the overload that draws its own subscriber number from a shared counter is not modelled.
- PubSub.Fire: handlers are numbers and a call is an entry in a log, so a handler that re-enters the shard is not
  modelled.
- Stored messages are values: each is owned by one queue, so an edit in place is a change of the queue's element.
- The default branch of the action switch and the merge operator's exception handlers: no action value reaches them.
- Times, cursors and counters are unbounded integers.
- Null replies to callers, access bans, logging, timers and the domain classes around the store.
