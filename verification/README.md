# eau2 in Dafny

eau2 keeps data frames on N nodes.  A frame is cut into blocks, the blocks are spread
over the nodes' key-value stores, and nodes read each other's data by sending messages
and waiting for replies.  This project models the parts of eau2 in which a mistake
would be hard to see and proves what they promise, for every number of nodes, every
block size and every run.  `dafny verify dfyconfig.toml` checks all of it.

## What is modelled

**The blocking-get and teardown protocol** (`Messages`, `Cluster*`, `KVStore`).
`Cluster` is a state machine: each node has an application thread, a receiver thread, a
store, a cache of unanswered requests and arrived replies, and a first-in first-out
inbox.  Looking a request up and then caching or answering it are two steps, and so are
storing a value and then answering whoever waits for it: other threads can come in
between.  One step is: a push on or a pop from a queue, with the lookup that follows a
pop; answering all requests cached under a key, all with the value then stored; one
operation on a store.  `ClusterInvariant` has the invariant, the next three modules show
that every step keeps it, `ClusterSteps` says what one step can do to one queue, receiver,
cache entry and store, and the rest draw the consequences: what is left behind and why
(`ClusterLiveness`), how far a wait is from its answer (`ClusterProgress`), which waits can
end (`ClusterWaits`) and after how much work under any schedule (`ClusterSchedules`), what
they return (`ClusterHistory`, `ClusterReads`), when all stores together are like one map
(`ClusterStores`) and how the system shuts down (`ClusterShutdown`).  `KVStore` has the
objects of the code, and shows that their methods take exactly the protocol's steps.

**Linus** (`Collaborators`, `LinusCluster`, `LinusNode`, `LinusFrames`, `LinusRun`).  The frontier search
on one node, the same search spread over N nodes, and the naive closure both are compared
with; the sets, taggers, writers and updaters as objects with loops, and N nodes of such
objects run together stage by stage, trading their deltas through frames in the stores.

**The column store** (`RowBlocks`, `BlockKeys`, `Cache`, `ColumnStore`, `Columns`,
`DataFrame`, `StoredFrames`).  A frame is built from a writer's rows, stored as bytes under block keys,
fetched by another node and read back through bounded caches.

**Data structures** (`HashMap`, `FifoQueue`, `LinkedCache`, `FieldArrays`).  The chained
hash table, the linked queue, the cache over these two, and the growing field arrays as
heap structures.  The hash function of the table is arbitrary.

**Bytes** (`Codec`, `Serializer`, `Network`).  The formats, the growing buffer with its
cursors, and the nested serialize and deserialize methods up to frames and messages.  A
deserialize method is told, for the proof only, which value stands at its cursor.

**Word count and .sor parsing** (`WordCount`, `WordCountFrames`, `Sorer`).  Counting and
reducing, and the whole program with its words and counts stored as frames.

## Where the code does not do what is said of it

* *No waiter is left behind* is false when other threads can run between the receiver's
  lookup and its caching of a request.  `ClusterLiveness.StrandedIffRacy` says exactly
  which step does it: caching a request for a key that is already stored, after the thread
  that stored it has been through the cache.  `RaceStrandsAWaiter` is a run of five steps
  on two nodes after which a node waits for a stored key and nothing is under way; such a
  node stays blocked until the key is put once more (`ClusterWaits.StrandedUntilStored`).
* *Linus depends on the number of nodes* (suspected in `report/doc.md:480-484`, with
  `local_map` named as the likely cause) is not so in the modelled logic:
  `LinusCluster.NodeCountDoesNotMatter` and `RowBlocks.EachRowHasOneVisitor`.
* *The sets are degrees of separation* is false for data with identifiers out of range,
  which `Set::test` takes for members.  The author of a commit to a project that does not
  exist, or to one that an author out of range also committed to, passes for a collaborator
  of everybody (`Collaborators.Wild`).  What the sets are for all data, and for a Linus out
  of range as well, is `NaiveUsersAreReached`; `WildUserIsReported` is two commits for which
  a user whom no chain joins to Linus is reported in the first stage.  The sets are the
  degrees of separation if and only if every such author did collaborate with Linus
  (`NaiveUsersAreDegreesIff`, `StageFindsItsDegreeIff`), as he does where all identifiers
  are in range, there being no such author (`DataInRangeIsTame`).  Trading deltas is as good as the
  naive computation in any case (`DeltasAreEnough`).
* `WordCount::reduce` counts rows of the nodes' tables and does not add up their counts.
  The number of different words, which is what the program prints, is right
  (`WordCount.ReducedTable`); the count kept for a word is the number of nodes that have
  it, which is its number of occurrences exactly if no node has it twice
  (`CountsAreOccurrencesIff`, `TwiceCountedOnce`).
* `make_columnar` is said to take the portion of a file up to `end`; its inner loop never
  looks at `end` (`Sorer.TakesThePortionExactlyIf`, `TakesRowsBehindTheEnd`), and its outer
  loop does not end when a blank line stands in front of `end` (`EndsExactlyIf`,
  `BlankLineNeverEnds`).

## What the code needs and does not check

Block size and node count above 0; strings and keys without NUL; a serializer with some
capacity before it is written to (`add_` doubles it); `Cache.put` of an absent key;
`Map.remove` of a present key; rows that the writer fills in completely; appending to a
column only behind full blocks, which `visit` of a new frame guarantees; .sor text in
which every '<' has its '>' on the same line, and which the scan does not run off.

## Model

| member | source | states |
|---|---|---|
| ClusterInvariant.PushAllElements | src/network/pseudo/pseudonetwork.h:53-57 | sending only adds to the backs of queues: each keeps what it had, and what is added behind it was sent to its node |
| ClusterInvariant.RepliesCount | src/store/kvstore.h:185-204 | answering turns each cached request of a node into exactly one reply to that node |
| ClusterRuns.AssertsNeverFail | src/store/kvstore.h:146-204 | in a reachable state no assertion of the store, the receiver or the network can fail, whatever step is taken, and the step keeps the invariant |
| ClusterRuns.RunKeepsInv | src/application/thread/receiverthread.h:33-114 | every state of every run on any number of nodes has the invariant: every blocked wait owns exactly one token, every message has an owner, shutdown bookkeeping adds up |
| ClusterRuns.ReplyIsTheOnlyToken | src/store/kvstore.h:159-175 | when a waiter wakes up there is one entry, a reply, and nothing else in any queue, cache or hand is about its wait |
| ClusterDelivery.AnswerRequestKeepsInv | src/application/thread/receiverthread.h:54-65 | a request answered at once becomes the one reply its sender is waiting for |
| ClusterDelivery.CacheRequestKeepsInv | src/application/thread/receiverthread.h:65-69 | a request that is cached stays the one token of its sender's wait |
| ClusterDelivery.SendTeardownKeepsInv | src/network/pseudo/pseudonetwork.h:83-87 | sending a Teardown keeps the invariant: exactly one per node, behind everything else |
| ClusterLiveness.StrandedIffRacy | src/application/thread/receiverthread.h:59-66 | a step leaves a waiter behind if and only if it caches a request for a key already stored whose storer is no longer going to answer it |
| ClusterLiveness.RunStrandsIffRacy | src/store/kvstore.h:64-67 | a run leaves no waiter behind in any state if and only if none of its steps is racy |
| ClusterLiveness.CarefulRun | src/application/thread/receiverthread.h:59-66 | if no application stores the key that its receiver has just looked up in vain, as when lookup and caching are one step, no waiter is ever left behind |
| ClusterLiveness.RaceStrandsAWaiter | src/application/thread/receiverthread.h:59-66 | a concrete run after which nothing is under way and a node waits for a key that is stored: its wait needs another put |
| ClusterProgress.RankNeverRises | src/store/kvstore.h:185-204 | no step of any thread takes a wait further from its answer, and every step of the thread holding its token brings it nearer |
| ClusterWaits.NeedsPutStep | src/store/kvstore.h:185-204 | a wait that needs another put of its key goes on needing it, whatever step is taken, until exactly a step that stores the key at its home |
| ClusterWaits.StrandedUntilStored | src/application/thread/receiverthread.h:59-66 | over runs: such a node stays blocked as long as the key is not stored again |
| ClusterWaits.LeftBehindNeedsPut | src/application/thread/receiverthread.h:59-66 | wherever a waiter was left behind, some node waits for a stored key and needs another put of it |
| ClusterWaits.WaitEnds | src/store/kvstore.h:159-168 | a wait that needs no put can be brought to its end by steps of receivers and answering threads alone |
| ClusterWaits.WaitEndsIff | src/store/kvstore.h:146-179 | those threads can end a wait if and only if it needs no put, or a PutMsg for its key is queued at the home |
| ClusterWaits.PutKeyWaitEnds | src/store/kvstore.h:91-109 | where no waiter is or is about to be left behind, every wait for a key that was put can end, whether the put has arrived or not |
| ClusterWaits.CarefulWaitEnds | src/application/thread/receiverthread.h:59-66 | in runs in which lookup and caching are not raced this holds of every state |
| ClusterSchedules.WaitIsBounded | src/store/kvstore.h:159-168 | whatever the schedule: the steps of the threads holding a wait's token, plus what is left to do, never exceed what was left to begin with plus the receiver actions that came before the reply when it was queued |
| ClusterSchedules.EnoughWorkEndsWait | src/store/kvstore.h:159-168 | so once they have taken that many steps the reply is there and the wait can end |
| ClusterSchedules.LeftAtFirst | src/store/kvstore.h:146-158 | to begin with, what is left is four stages and the actions for the messages queued at the key's home |
| ClusterSchedules.CarefulWaitGoesOn | src/application/thread/receiverthread.h:59-66 | in a careful run, while a node waits for a key that is stored, such a step can always be taken, or the node can take its reply |
| ClusterProgress.QuietMeansAbsent | src/store/kvstore.h:146-179 | when such a system comes to rest, who is still blocked waits for a key its home does not hold |
| ClusterReads.MayReturnStep | src/application/thread/receiverthread.h:54-69 | in each step of a wait, the values it may return afterwards are those it might before or what the home now holds |
| ClusterReads.ReturnedWasHeld | src/store/kvstore.h:91-109 | over runs: the value a wait returns is one that the key's home held at some moment between the call and the return, whoever puts and waits |
| ClusterHistory.OneValueIsReturned | src/store/kvstore.h:91-109 | a key whose puts all carried one value is read as that value by any wait, on any node |
| ClusterHistory.ReadsOwnLatestPut | src/store/kvstore.h:55-68 | a node that is the only writer of a key reads back its latest value, whether the key is local or remote |
| ClusterHistory.RunKeepsHistory | src/store/kvstore.h:55-68 | over whole runs no put is lost, and a key with one writer settles at that writer's last value |
| ClusterStores.RunOnMap | src/store/kvstore.h:91-109 | a run that puts every key with one value is a run of one map for all nodes: puts fill it, and a wait ends only when the map has its key, with the value it has there |
| ClusterStores.PartsHaveOwnKeys | src/dataframe/column/column.h:331-344 | frames under independent keys and all their blocks have different keys |
| ClusterStores.PartsHaveOneValue | src/dataframe/column/column.h:331-344 | so a program that puts only such frames and blocks, each with its bytes, puts every key with one value |
| ClusterStores.FramesAreReadBack | src/store/getImpls.h:11-33 | over runs that put such frames and blocks, every wait for one of them, on any node, returns its bytes |
| ClusterShutdown.TeardownIsLast | src/network/pseudo/pseudonetwork.h:64-87 | a Teardown exists only after all applications finished, one per node, and is the last message of its queue |
| ClusterShutdown.NothingBehindTeardown | src/application/thread/nodethread.h:41-49 | once a node's Teardown was sent, no step of anybody adds to its queue |
| ClusterShutdown.ShutdownLosesNothing | src/application/thread/nodethread.h:46-49 | when all receivers have stopped, queues and caches are empty, and every key put is at its home, with the last value of its writer if it had one writer |
| ClusterShutdown.QuietMeansNeverPut | src/store/kvstore.h:146-179 | who is blocked when a race-free system rests waits for a key that nobody has put |
| ClusterShutdown.ShutdownTerminates | src/application/thread/receiverthread.h:104-109 | when all applications have finished every step lowers a measure: the shutdown ends |
| ClusterShutdown.ShutdownGoesOn | src/application/thread/receiverthread.h:36-38 | until all receivers have stopped some receiver can go on |
| KVStore.PseudoNetwork.SendMsg | src/network/pseudo/pseudonetwork.h:53-57 | the shared queues change as the protocol's push says |
| KVStore.PseudoNetwork.ReceiveMsg | src/network/pseudo/messagequeue.h:42-52 | the head of the node's own queue is returned and removed, the other queues stay |
| KVStore.PseudoNetwork.SendTeardownMsgs | src/network/pseudo/pseudonetwork.h:83-87 | every queue gets exactly one Teardown |
| KVStore.PseudoNetwork.HandleDoneMsg | src/network/pseudo/pseudonetwork.h:65-77 | the sender is marked done; Teardowns go out if and only if all nodes are |
| KVStore.Store.AddToCache | src/store/kvstore.h:209-229 | the cache changes as the protocol says |
| KVStore.Store.TryToHandleCache | src/store/kvstore.h:185-204 | the entry leaves the cache and its requests are answered in order |
| KVStore.Store.Put | src/store/kvstore.h:55-68 | a put is the protocol's step, or for a local key its two steps, and keeps the invariant |
| KVStore.Store.SendRequest | src/store/kvstore.h:146-158 | asking for a remote key is the protocol's step |
| KVStore.Store.TakeReply | src/store/kvstore.h:168-178 | waking up is the protocol's step, the three assertions hold, and the value was put for the key |
| KVStore.BroadcastEffect | src/network/pseudo/pseudonetwork.h:83-87 | the broadcast, step by step, is one Teardown in each queue and keeps the invariant |
| KVStore.ReceiverThread.HandleWaitAndGet | src/application/thread/receiverthread.h:54-69 | handling a request is the protocol's pop and completion |
| KVStore.ReceiverThread.HandlePut | src/application/thread/receiverthread.h:76-84 | handling a put is the protocol's, and the key is at home |
| KVStore.ReceiverThread.HandleDone | src/application/thread/receiverthread.h:98-103 | handling a Done is the protocol's, broadcast included |
| KVStore.ReceiverThread.HandleNext | src/application/thread/receiverthread.h:36-113 | one turn of the loop is the protocol's, and the loop ends exactly when the protocol's receiver stops |
| KVStore.HandledStops | src/application/thread/receiverthread.h:104-109 | handling keeps the invariant, and only a Teardown stops a receiver |
| Collaborators.DeltasAreEnough | src/application/linus.h:96-123 | after any number of stages the sets found from deltas are those of the naive computation, and the delta is what the last round added, identifiers out of range included |
| Collaborators.NaiveUsersAreReached | src/linus/set.h:49-69 | for all data: the users found in n rounds are exactly those in range who are joined to Linus by at most n links, are wild, or are joined to a wild user by less than n |
| Collaborators.NaiveUsersAreDegreesIff | src/application/linus.h:50-56 | the users found in n rounds are those joined to Linus by a chain of at most n collaborations, for all n, if and only if every wild user did collaborate with Linus |
| Collaborators.StageFindsItsDegreeIff | src/application/linus.h:119-122 | the users that the n-th stage adds and counts are exactly those whose shortest chain to Linus has n links, for all n, under exactly the same condition |
| Collaborators.WildUserIsReported | src/linus/set.h:64-69 | two commits, one of them to a project out of range: its author is reported in the first stage and no chain of any length joins him to Linus |
| LinusCluster.ClusterStageIsStage | src/application/linus.h:96-164 | nodes that agree before a stage agree after it, on what one node alone computes |
| LinusCluster.NodeCountDoesNotMatter | src/application/linus.h:96-164 | for every node count, block size and commits table, after every stage every node has the sets of a one-node run |
| LinusCluster.ProjectsTaggedTogether | src/linus/projectstagger.h:28-39 | the projects all nodes tag in their own rows are together those one node would tag |
| LinusCluster.UsersTaggedTogether | src/linus/userstagger.h:23-34 | the same for users |
| LinusNode.Set.Add | src/linus/set.h:53-61 | the element joins the set if it is in range; the count stays the number of elements |
| LinusNode.Set.Contains | src/linus/set.h:64-69 | membership, and true for every index out of range |
| LinusNode.Set.Union | src/linus/set.h:78-83 | the set becomes the union |
| LinusNode.ProjectsTagger.Visit | src/linus/projectstagger.h:28-39 | a row adds its project to both sets if it is new and the author is known |
| LinusNode.ProjectsTagger.VisitAll | src/linus/projectstagger.h:28-39 | over all rows the new projects are exactly those the rows tag and that were not marked before |
| LinusNode.UsersTagger.Visit | src/linus/userstagger.h:23-34 | a row adds its author to both sets if it is new and the project is known |
| LinusNode.UsersTagger.VisitAll | src/linus/userstagger.h:23-34 | over all rows the new users are exactly those the rows tag and that were not marked before |
| LinusNode.SetWriter.Done | src/linus/setwriter.h:19-25 | skips absent elements only; true exactly at the end |
| LinusNode.WriteSet | src/linus/setwriter.h:19-27 | the rows written are the set's elements, each once, ascending, as many as the set's count |
| LinusNode.UpdateSet | src/linus/setupdater.h:20-24 | reading written rows back adds exactly the written set |
| LinusNode.Linus.LocalRows | src/dataframe/dataframe.h:292-318 | a node is shown the commits whose rows are homed on it, in order |
| LinusNode.Linus.MergeAtMaster | src/application/linus.h:131-150 | node 0 ends with, and publishes, the union of all nodes' sets |
| LinusNode.Linus.SendDelta | src/application/linus.h:153-156 | the rows another node sends list its own set |
| LinusNode.Linus.TakeMerged | src/application/linus.h:157-162 | when its wait ends another node adds the published union |
| LinusFrames.DeltaKeysIndependent | src/application/linus.h:137-157 | the frames of two nodes, two stages or of users and projects never touch each other: none has the key, or a block key, of another |
| LinusFrames.Exchange.Send | src/application/linus.h:155-156 | a frame stored for the rows can be fetched under its key, and all frames stored before stay as they were |
| LinusFrames.Exchange.Receive | src/application/linus.h:157-162 | who fetches the frame is shown exactly the rows that were written |
| LinusRun.TagAllProjects | src/application/linus.h:96-112 | on every node the new projects are those that its own rows and the fetched delta tag, and the rows it writes down list them |
| LinusRun.MergeAll | src/application/linus.h:131-163 | the other nodes' deltas and, under node 0's key, their union are stored under the keys of this name and stage and no other key changes; from these frames every node gets the union |
| LinusRun.StageProjects | src/application/linus.h:99-113 | the first half of a stage leaves the frame of new users as it was, and under "projects-s-i" the frames of the projects found |
| LinusRun.RunStage | src/application/linus.h:96-123 | a stage of N node objects over stored frames, in an order their waits allow: each ends with the sets of a stage on one node; under "projects-s-0" and "users-s+1-0" the new projects and the new users are stored, under the other nodes' keys what each tagged, and all other frames stay |
| LinusRun.Run | src/application/linus.h:51-56 | N node objects started from the frame with Linus alone: after any number of stages each has the sets that one node would have, and the stores hold, under its keys, what every stage found, and under "users-0-0" Linus |
| RowBlocks.LocalMap | src/dataframe/dataframe.h:292-318 | the loop, with its jump, ends and visits in increasing order exactly the rows homed on the node |
| RowBlocks.RowsOfMember | src/dataframe/dataframe.h:298-298 | a row is among a node's rows if and only if its block is dealt to that node |
| RowBlocks.EachRowHasOneVisitor | src/dataframe/dataframe.h:292-318 | over all nodes every row is visited exactly once |
| RowBlocks.HomesInTurn | src/dataframe/dataframe.h:298-298 | the rows of the first block are homed on node 0, and a row one block further on is homed on the next node, node 0 coming after the last |
| BlockKeys.DecimalRoundTrip | src/dataframe/column/column.h:331-344 | a printed number reads back |
| BlockKeys.DecimalDigitIs | src/dataframe/column/column.h:336-338 | the printed digits are the decimal digits of the number, with none missing and no zero in front |
| BlockKeys.KeysNeverCollide | src/dataframe/column/column.h:331-344 | equal block key strings come from the same base, column and block, even if bases contain dashes and digits |
| BlockKeys.BlocksInTurn | src/dataframe/column/column.h:341-341 | a column's block 0 is homed on node 0 and each next block on the next node, node 0 coming after the last |
| BlockKeys.ChunkIsSlice | src/dataframe/column/column.h:108-125 | block b holds the values from b * bs up to min((b + 1) * bs, n) |
| BlockKeys.ChunkAt | src/dataframe/column/column.h:291-292 | value i is in block i / bs at i % bs |
| BlockKeys.ChunkCount | src/dataframe/column/column.h:111-125 | there are exactly as many blocks as needed |
| BlockKeys.ChunksAppend | src/dataframe/column/column.h:101-128 | values appended behind full blocks start a new block and leave the others |
| Cache.Cache.Put | src/dataframe/column/cache.h:76-86 | the new key goes last; from a full cache exactly the oldest key leaves; the queue stays a duplicate-free listing of the map's keys, at most maxSize of them |
| Cache.Cache.RemoveFirstAdded | src/dataframe/column/cache.h:138-150 | the front key leaves queue and map, and an empty queue gives nothing |
| LinkedCache.LinkedCache.Put | src/dataframe/column/cache.h:76-86 | the same over the chained table and the linked queue as heap structures that share nothing |
| LinkedCache.LinkedCache.RemoveFirstAdded | src/dataframe/column/cache.h:138-150 | the same: the front key leaves the linked queue and the table, both staying sound and separate |
| Cache.HoldsTheLatestMisses | src/dataframe/column/cache.h:76-86 | over any sequence of reads the cache holds exactly the last maxSize fetched keys, in order |
| ColumnStore.BytesTellBlocksApart | src/dataframe/block/intblock.h:29-47 | two blocks of one type with the same bytes are equal |
| ColumnStore.DistributedArray.BlockFromStore | src/dataframe/column/distributedarray.h:239-262 | the block loaded is the one whose bytes are stored |
| ColumnStore.DistributedArray.CachedBlock | src/dataframe/column/distributedarray.h:136-145 | the block found through the cache is the one in the store, whatever was read before; the cache stays coherent and changes in first-in first-out order |
| ColumnStore.DistributedArray.GetInt | src/dataframe/column/distributedarray.h:134-151 | a cached read gives what decoding the stored block gives, or exits for an index out of range |
| ColumnStore.DistributedArray.GetString | src/dataframe/column/distributedarray.h:158-175 | the same for strings |
| ColumnStore.CellBlock.Add | src/dataframe/block/intblock.h:62-70 | a value is appended unless the block is full |
| ColumnStore.CellBlock.Serialize | src/dataframe/block/stringblock.h:33-39 | the bytes written are those of the block of its type |
| Columns.Column.AddBlock | src/dataframe/column/column.h:113-124 | at most a block of the next values is stored under one new key |
| Columns.Column.AddAll | src/dataframe/column/column.h:101-128 | a column whose blocks are full shows its old values followed by the new ones; nothing but the new blocks' keys changes in the stores; another type exits |
| Columns.Column.GetInt | src/dataframe/column/column.h:283-298 | the value at the index, whatever is cached; -1 for a column of another type |
| Columns.Column.GetString | src/dataframe/column/column.h:265-280 | the value at the index, whatever is cached; exit for a column of another type |
| DataFrame.OthersStillShow | src/dataframe/column/column.h:360-368 | storing blocks of one column changes nothing that another column of the frame shows |
| DataFrame.DataFrame.AddRowChunk | src/dataframe/dataframe.h:413-479 | the frame shows its rows followed by the first n of the chunk |
| DataFrame.DataFrame.Visit | src/dataframe/dataframe.h:230-262 | the frame shows its rows followed by exactly the writer's, in order |
| DataFrame.DataFrame.Map | src/dataframe/dataframe.h:271-289 | the reader is shown the rows of the range, in order, whatever is cached |
| DataFrame.DataFrame.LocalMapRows | src/dataframe/dataframe.h:292-318 | row k shown is the row at the k-th index homed on the node, with all its cells, and there are no others |
| DataFrame.ShownWhereItsBlocksAreHomed | src/dataframe/column/column.h:341-341 | a row is shown on one node only, once, and its blocks' keys are homed there |
| DataFrame.ShownWhereItIsStored | src/dataframe/dataframe.h:298-298 | the key that any column of a stored frame holds for the block of a row is homed on the node that is shown the row |
| DataFrame.StillShowsRows | src/dataframe/datatodf.h:171-179 | storing a frame under its own key does not overwrite one of its blocks |
| DataFrame.FromVisitor | src/dataframe/datatodf.h:44-50 | afterwards the stores hold, under the key, a frame that stands for the writer's rows, and nothing changed but that key and block keys based on it |
| DataFrame.WaitAndGetFrame | src/store/getImpls.h:11-33 | any node that fetches a stored frame gets one that stands for the same rows |
| DataFrame.FrameIsValid | src/dataframe/dataframe.h:153-168 | a frame that stands for rows can be serialized and deserialized, if its sizes fit 64 bits and its key has no NUL |
| DataFrame.BuildThenMap | src/application/wordcount.h:71-95 | a frame built on one node, stored as bytes, fetched by another and mapped shows exactly the writer's rows, for every block size and node count |
| DataFrame.BuildThenLocalMap | src/application/wordcount.h:35-62 | the same with local_map: row k shown to a node is the writer's row at the k-th index homed on it, whole, and there are no others |
| HashMap.Map.Find | src/utils/map.h:421-439 | the walk finds the entry of a key if and only if the map has the key, with its value |
| HashMap.Map.Get | src/utils/map.h:447-457 | the value the map has for the key, or nothing |
| HashMap.Map.ContainsKey | src/utils/map.h:549-559 | true if and only if the map has the key |
| HashMap.Map.Put | src/utils/map.h:364-417 | the map with the key set, the previous value returned; all buckets stay disjoint acyclic chains of distinct keys in their hash's bucket |
| HashMap.Map.Remove | src/utils/map.h:464-521 | the map without the key, its value returned, the structure kept |
| HashMap.Map.ViewHolds | src/utils/map.h:364-394 | every key stands once, with its value, in the bucket its hash selects, and nothing else does |
| HashMap.Map.GetEntries | src/utils/map.h:595-630 | every key of the map is listed once and nothing else, and at each index stands the value that the map has for the key there |
| HashMap.Map.BucketLength | src/utils/map.h:128-136 | the number of entries in the bucket |
| HashMap.Map.EntryAt | src/utils/map.h:142-172 | the entry at the given index of its bucket |
| HashMap.ListingIsComplete | src/utils/map.h:595-630 | a listing has every key of the map once, with its value, and as many entries as the map |
| WordCount.CopyOf | src/utils/map.h:805-817 | a map made from the listed keys and values is the map they were listed from |
| FifoQueue.Queue.NodesDistinct | src/utils/queue.h:102-115 | no node stands twice in the list |
| FifoQueue.Queue.Push | src/utils/queue.h:128-147 | the element is behind all others |
| FifoQueue.Queue.Pop | src/utils/queue.h:155-174 | the oldest element, or nothing from an empty queue; the rest stays in order |
| FifoQueue.Queue.Clear | src/utils/queue.h:177-183 | the queue is empty and usable |
| Codec.LittleEndianRoundTrip | src/serial/serial.h:88-91 | a word that fits reads back from its bytes |
| Codec.LittleEndianByte | src/serial/serial.h:88-91 | byte i of a word is its digit for 256 to the power of i |
| Codec.StringRoundTrip | src/utils/string.h:55-67 | a string without NUL reads back, cursor exactly behind it, whatever follows |
| Codec.KeyRoundTrip | src/store/key.h:51-62 | the same for keys |
| Codec.ValueRoundTrip | src/store/value.h:52-64 | the same for values of any bytes |
| Codec.IntBlockRoundTrip | src/dataframe/block/intblock.h:29-47 | the same for integer blocks |
| Codec.StringBlockRoundTrip | src/dataframe/block/stringblock.h:33-57 | the same for string blocks |
| Codec.MessageRoundTrip | src/network/message.h:98-114 | kind, sender, target, key and value come back |
| Codec.WireLayout | src/serial/serial.h:55-86 | a message on the wire begins with the digit of its kind and a NUL, twice, and the two nodes in eight bytes each |
| Codec.PayloadLayout | src/network/message.h:98-103 | then come the key's string with its length in front and a NUL behind, the key's home, and the value with its length in front |
| Codec.UnknownKind | src/serial/serial.h:223-264 | two bytes that no kind is written as read as GetData |
| Codec.WireRoundTrip | src/network/network.h:95-163 | the kind in front of a message selects the class that decodes it, and the message comes back |
| Codec.WireListRoundTrip | src/network/network.h:95-163 | messages written back to back decode to the same list |
| Serializer.Serializer.Grow | src/serial/serial.h:141-148 | twice the room, the written bytes kept |
| Serializer.Serializer.Add | src/serial/serial.h:131-139 | the bytes follow what was written, across any number of growths |
| Serializer.Serializer.Clear | src/serial/serial.h:289-296 | both cursors start again, the room stays |
| Serializer.Serializer.ReadMsgKind | src/serial/serial.h:223-264 | the kind at the cursor, unknown kinds reading as GetData |
| Serializer.Serializer.ReadString | src/serial/serial.h:150-159 | the bytes up to the first NUL, and the cursor behind it |
| Serializer.SerializeKey | src/store/key.h:51-55 | exactly the key's encoding is appended |
| Serializer.DeserializeKey | src/store/key.h:58-62 | the key whose encoding is at the cursor, which moves exactly behind it |
| Serializer.SerializeStringBlock | src/dataframe/block/stringblock.h:33-39 | exactly the block's encoding is appended |
| Serializer.DeserializeStringBlock | src/dataframe/block/stringblock.h:42-57 | the block whose encoding is at the cursor, which moves exactly behind it |
| Serializer.DeserializeIntBlock | src/dataframe/block/intblock.h:38-47 | the same for integer blocks |
| Serializer.DeserializeKeyArr | src/dataframe/column/keyarr.h:42-52 | the same for lists of keys |
| Serializer.DeserializeSchema | src/dataframe/schema.h:90-101 | the same for schemas |
| Serializer.DeserializeColumn | src/dataframe/column/column.h:87-98 | the same for columns |
| Serializer.SerializeColumnArray | src/dataframe/column/columnarray.h:42-51 | exactly the columns' encoding is appended |
| Serializer.DeserializeColumnArray | src/dataframe/column/columnarray.h:54-67 | the columns and key whose encoding is at the cursor, which moves exactly behind it |
| Serializer.SerializeFrame | src/dataframe/dataframe.h:153-158 | exactly the frame's encoding is appended |
| Serializer.DeserializeFrame | src/dataframe/dataframe.h:161-168 | the frame whose encoding is at the cursor, with any bytes behind it; the cursor moves exactly behind it |
| Network.SerializeMessage | src/network/message.h:307-312 | exactly the message's encoding is appended |
| Network.DeserializeMessage | src/network/message.h:314-323 | the message whose encoding is at the cursor |
| Network.Network.SendMsg | src/network/network.h:95-114 | the bytes sent are the message's wire form, whatever was sent or received before |
| Network.Network.ReceiveMsg | src/network/network.h:118-163 | from the bytes of one message that message comes back, whatever was sent or received before |
| WordCount.Summer.Next | src/filereader/summer.h:18-29 | the cursor moves past one entry, or from a bucket's end to the next entry without passing one |
| WordCount.Summer.Visit | src/filereader/summer.h:45-52 | before done the key is never null, and the row is the next entry of the listing |
| WordCount.Summer.Done | src/filereader/summer.h:54-56 | true exactly when all entries were shown |
| WordCount.SummedRows | src/filereader/summer.h:18-56 | the rows made from a table are all its entries, each once |
| WordCount.AdderVisit | src/filereader/adder.h:17-27 | the word's count goes up by one, from zero for a new word, and nothing else changes |
| WordCount.CountedIs | src/filereader/adder.h:17-27 | counting words one by one gives each its number of occurrences |
| WordCount.LocalCount | src/application/wordcount.h:56-68 | a node's frame has each distinct word of its own blocks once, with its number of occurrences there |
| WordCount.WordsAreShared | src/application/wordcount.h:62-62 | the nodes share the words out: none is lost or counted twice |
| WordCount.ReducedTable | src/application/wordcount.h:71-95 | for every node count and block size the final keys are exactly the input's words, and a word's count is the number of nodes that have it |
| WordCount.CountsAreOccurrencesIff | src/application/wordcount.h:90-95 | the final counts are occurrences if and only if no node has a word twice |
| WordCount.TwiceCountedOnce | src/application/wordcount.h:90-95 | one node and a word written twice: its final count is 1 |
| StoredFrames.StaysStored | src/dataframe/column/column.h:331-344 | storing a frame leaves every frame stored under an independent key readable, with its rows |
| WordCountFrames.PartIsNoBlockKey | src/application/wordcount.h:48-53 | the key of a node's counts is no block key of any frame |
| WordCountFrames.LocalCountOn | src/application/wordcount.h:56-68 | a node that fetches the words stores the tally of those homed on it, and the words and all earlier tallies stay readable |
| WordCountFrames.RunOnFrames | src/application/wordcount.h:35-95 | the whole program with words and counts stored as frames and fetched: it prints the number of different words, for every node count and block size, and the words and each node's tally of those homed on it stay stored under their keys |
| FieldArrays.FieldArray.PushBack | src/sorer/field_array.h:60-84 | the pair is behind all others, starts and ends staying in step across growths |
| FieldArrays.FieldArray.GetStart | src/sorer/field_array.h:100-105 | the start byte, or -1 past the end |
| Sorer.FindFieldEnd | src/sorer/sorer_helper.h:147-153 | the first '>' behind the '<' |
| Sorer.FieldsSpan | src/sorer/sorer_helper.h:142-162 | every field of a row goes from a '<' to the first '>' behind it, fields do not overlap, and every '<' in front of the row's end that is in no other field begins one |
| Sorer.ScanRowIff | src/sorer/sorer_helper.h:142-162 | the list of fields is fixed by this, and the scan fails only where there is no such list: a '<' without '>' on its line, or no end |
| Sorer.ParseRowSchema | src/sorer/sorer_helper.h:140-163 | one type per field of the row, of every field and in order; it stops at the row's end |
| Sorer.ParseRowFields | src/sorer/sorer_helper.h:232-254 | the positions of every field of the row, in order, and the same end as the schema parser finds |
| Sorer.ParseSchema | src/sorer/sorer_helper.h:174-219 | as wide as the widest of the rows scanned; a column is Str if and only if some row has Str there, Double if and only if none has Str and some Double, Integer if and only if none has these and some Integer, and else Boolean |
| Sorer.RowTypesIff | src/sorer/sorer_helper.h:183-214 | the rows scanned are the first ones of the text, each right behind the end of the one before, up to the limit or to EOF or NUL where a row would start |
| Sorer.JoinIsLeastUpperBound | src/sorer/sorer_helper.h:193-209 | the schema is as wide as the longest row, and each type is the maximum over the rows that have the column |
| Sorer.IsValidRow | src/sorer/sorer_helper.h:265-280 | true if and only if the width matches and every field can stand in its column: anything in Str, all but Str in Double, Boolean and Integer in Integer, only Boolean in Boolean |
| Sorer.ScannedRowsAreValid | src/sorer/sorer_helper.h:265-280 | of the rows the schema was inferred from exactly the full-width ones are valid |
| Sorer.LinesIff | src/sorer/sorer_helper.h:310-331 | the rows taken are all rows from start on, each right behind the end of the one before, up to an end character where a row would start |
| Sorer.ValidLinesAre | src/sorer/sorer_helper.h:316-326 | of the rows exactly those that fit the schema are kept, in their order |
| Sorer.MakeColumnar | src/sorer/sorer_helper.h:296-337 | if no row of the portion is blank, it ends with one list per column, and entry k of column c is field c of the k-th of the rows that fit the schema, none of which is left out |
| Sorer.EndsExactlyIf | src/sorer/sorer_helper.h:305-335 | the loop ends if and only if no row in front of end is a blank line or starts with EOF or NUL |
| Sorer.EndsIfNoBlankLine | src/sorer/sorer_helper.h:305-335 | for a portion without EOF and NUL: it ends if and only if there is no newline at its start and no two adjacent newlines in it |
| Sorer.BlankLineNeverEnds | src/sorer/sorer_helper.h:305-310 | a text on which the loop never ends |
| Sorer.ColumnarEntry | src/sorer/sorer_helper.h:316-323 | all columns are equally long, and entry k of a column is a field of the k-th valid row, of a type the schema allows |
| Sorer.TakesThePortionExactlyIf | src/sorer/sorer_helper.h:287-296 | the rows taken are those of the portion if and only if a blank line, EOF or NUL follows it |
| Sorer.TakesRowsBehindTheEnd | src/sorer/sorer_helper.h:287-296 | a text of which a row behind the end is taken |

## Left out

- Non-blocking gets (`GetData`): the path returns without unlocking and builds replies from null values.
- Sockets, accepting connections, registration, `Directory` and `NodeInfo`; of the network only the framing.
- A server other than node 0: the pseudo network asserts that Done messages arrive there.
- Mutex and condition variables: a blocked wait or pop is a guarded step; fairness of threads is not modelled, so progress is stated as enabled steps and as a bound on how many of them a wait can take.
- LinusRun.RunStage: the nodes' actions are taken in one order that their waits allow, and not interleaved; the commits table is a list of rows, over which `local_map` is the loop of `RowBlocks.LocalMap` (that a stored frame shows those rows is `DataFrame.BuildThenLocalMap`); the three frames read from files are not stored.
- LinusRun.Run: the same; set sizes and Linus fit 32 bits, as the integers of a column do.
- Cluster.AnswerCache: `tryToHandleCache_` looks the value up again for every cached request, and a local put of the key can come in between, so that its replies carry different values; here all requests are answered in one step, with one value.
- KVStore.MsgQueueArr: its queues are sequences; the linked list is `FifoQueue`.
- Cache.Cache.Put: the table and the queue are a map and a sequence here; `LinkedCache` is the cache over the linked structures.
- ColumnStore.Stores: the stores of all nodes as one map, in which a wait finds what was put; that the protocol's runs are like that, for keys put with one value and so for frames and blocks, is `ClusterStores.RunOnMap` and `FramesAreReadBack`, but the methods that build and read frames are not run as threads of the protocol.
- DataFrame.BuildThenMap: puts and waits go to that map and not through the protocol.
- DataFrame.BuildThenLocalMap: puts and waits go to that map and not through the protocol.
- WordCountFrames.RunOnFrames: puts and waits go to that map and not through the protocol; all nodes count before node 0 reduces, fewer than 2^31 words.
- Sorer.MakeColumnar: the columns are the pairs that field arrays hold, not the array objects; the type tag of a field array is not modelled; positions are cut to 32 bits as in the code.
- Doubles and booleans: their columns and blocks are copies of the integer ones; frames mix integers and strings.
- `Row` objects: a row is its values; a row the writer does not fill in completely exits the program and is not modelled.
- Collisions between one frame's key and another frame's block keys, and `addIndex` keys of frames made from arrays.
- Decoding of bytes that no serialize method wrote; byte orders other than little-endian; sizes beyond 64 bits.
- `strtoll` and `strtold`: the type of a field is an arbitrary function of its position.
- `FileReader`: its output is an arbitrary list of words.  Counts and sizes are unbounded.
- Capacity growth of `Schema`, `Array` and `StrBuff`, `Map.clear`, equality, hashing, printing, argument parsing and the demo applications.
- Ownership and deletion of pointers.
