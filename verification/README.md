# EqualInk: a verified model of its relay, its update log and its contribution counters

EqualInk relays opaque Yjs diffs between editors, logs them, compacts the log into a blob per document, and counts who
contributed what. This project models those three parts and proves what they keep over unbounded runs.
`dafny verify dfyconfig.toml` checks all of it.

**Relay.** `HubSpec` gives the three cases of the hub's select as functions of a hub state, `HubRun` the hub as a
class that mutates its map, its channels and its clients' Send buffers, each case proved equal to its function.
`System` puts the hub, its channels and every connection's ReadPump and WritePump into one transition system that
takes their steps in any order. `Queues` (the channels are queues), `Delivery` (no gaps), `Lifecycle` (channels closed
once) and `Teardown` (termination, nothing left behind) are about all its runs, and `AtRest` about what has happened
when a run has no work left. `Cluster` joins any number of processes by the pub/sub bus; `Merge` and `Convergence` say
which clients end up with the same document, and `Joining` puts the cluster, the log, one compactor and the blobs sent
to joiners into one system. `Sync` and `Pumps` are HandleUpdate, the subscriber and the two pumps as written;
`KeepAlive` is the heartbeat.

**Update log.** `UpdateLog` has inserts, the read steps, the commit and the abort of any number of compactors as separate
steps under READ COMMITTED; `Compaction` says when splitting the log into snapshots does not matter; `StoreRun` is the
store as a class over its tables.

**Counters.** `Analytics` has recording, map swap and save as interleaving steps; `TrackerRun` and `FlusherRun` are the
tracker and the flusher over real, mutable, possibly shared Activity objects; `Contributions` is the upsert; `Report` and
`ReportTotals` are MergeWithLive and its exchange sort; `LiveReport` puts history, RAM and report together.

## What the code does not do

The model follows the code, also where its comments or its intent say otherwise. What that means is proved:

- The Unregister case looks its client up by user only (hub/hub.go:77-79). When the user has reconnected in the meantime,
  it drops the new client and closes the old channel again. `Lifecycle.TabRefreshCrashes` is a tab refresh that kills the
  process, and `Teardown.DisplacementCrashes` says that it always does in the end, unless the user has no entry in the
  map at some point in between. `Lifecycle.RunSound` says that a run is sound if and only if no such stale Unregister is
  taken in it, and `Lifecycle.GuardedRunsAreSound` that the guard "the entry is this very client" makes every run sound.
- Register and Unregister are two channels (hub/hub.go:51-52), so an Unregister can be taken first.
  `Teardown.OvertakenStays` is the client that then stays in the map; teardown is claimed of the other order.
- HandleUpdate does not call Publish, although pubsub/redis.go:58-59 says it does. An update therefore carries a flag
  saying whether it was published. The cluster's results hold for both; `Cluster.UnpublishedStaysLocal` is what follows
  from the code as it is.
- LoadBlob does not include rows that are still pending (document/store.go:62-69), and the hub skips by user, not by
  connection (hub/hub.go:90). `Joining.JoinerMissesPendingRow` is a run in which a late joiner lacks a diff that nobody is
  going to send it; in `Joining.ReturningEditorMissesOwnDiff` a user who reconnected in time lacks their own. A client is
  complete if and only if it has the diffs it may not have been sent: those of which a copy was discarded on the way to
  its hub, those its hub had processed before its registration, and those of its own user, whichever connection sent them
  (`Convergence.CompleteIffCovered`). `Joining.CoveredExactly` says when the blob it was sent has them.
- The compactor is assumed to be alone (document/store.go:187-189). `UpdateLog.LogIsCompactedOnce` is for any number of
  them and holds if and only if no transaction commits over another's; `Compaction.TwoCompactorsLoseUpdates` is a run in
  which one does.
- Pending rows are ordered by `created_at`, which the server sets before the insert (document/store.go:51,104). A blob
  is made in log order if and only if each of its batches was read in log order (`Compaction.MergedInOrderIffBatchesAre`),
  which the database has to do if and only if the clock agrees with the order of the inserts of the pending rows
  (`Compaction.AnswersInOrderIff`);
  `Compaction.SkewedClockReorders` is a run in which one is not.
- SaveContribution binds the literals 0 and 0 (document/store.go:166). The table is modelled with both bindings, the one
  meant and the one shipped; `Contributions.ShippedHistoryIsRightOnlyIfEmpty` says when the latter is right.
- The flusher skips entries without edits (analytics/tracker.go:119-121), so a pure reader is never credited with
  any time (`Analytics.ReadersAreNeverCredited`). Nor is an editor for long: the upsert has no active_secs column, so a
  report's seconds are only those still buffered (`LiveReport.SecondsAreRightIff`).
- The Broadcast channel holds 512 messages (hub/hub.go:53), not the 256 of the comment at sync/handler.go:21.
  StartCompactor is defined twice; the one in document/store.go is modelled. ForceFlush is called (cmd/server.go:83) and
  not defined; it is taken to swap and save like the flusher.

## How to read the model

- Payloads are opaque byte strings. What merging a diff into a document does is a parameter `apply`; results need either
  nothing of it, or that it is conflict-free (any order, repetition harmless), which `Merge.JoinIsConflictFree` derives
  from a semilattice join.
- A connection is the index of its channel, so two connections of one user stay apart.
- A panic in any goroutine ends the process (`crashed`). A disabled event leaves the state as it is.
- A connection's pumps start together with the send of its Register. The real start of WritePump is later, and any delay
  is among the interleavings.
- The bus may delay, reorder and lose, which includes everything Redis pub/sub does.
- A row's id is its index, in the order in which inserts become visible. A compaction is two reads and an atomic commit.
- Fields that no step reads are history, kept to state properties: `tag`, `log`, `drained`, `since`, `unregistered`,
  `left`, `handled`, `drops`, `merged`, `base`, `source`, the `ids` of a join, `recorded`, `skipped`.
- The loops of `Pumps` run against a script of what happens to the socket and, for WritePump, of what the hub meanwhile
  does to the Send channel; `written` is what was passed to WriteMessage, whose errors WritePump ignores for data
  frames. The convergence results therefore ask for a live socket. A ReadPump may be handed frames after its socket died.
- Tasks are announced on the same channel as diffs. Clients are taken to merge diffs only.

## Model

| member | source | states |
|---|---|---|
| HubSpec.FanoutStep | hub/hub.go:89-107 | Whatever entries the broadcast loop has visited, visiting one more is exactly one more step of the fan-out, and panics exactly if that recipient's channel is closed; so Go's map order cannot show. |
| HubSpec.FanoutEnds | hub/hub.go:88-108 | A loop that met a closed recipient is a panic of the broadcast; a loop that visited the whole map without one has done the whole broadcast. |
| HubRun.Hub.constructor | hub/hub.go:48-55 | A new hub has an empty map and empty channels. |
| HubRun.Hub.Accept | api/ws_handler.go:77-79 | A new connection gets a fresh client object with an empty open Send, sent on Register behind what is there exactly if fewer than 64 are waiting; otherwise it waits with nothing sent. |
| HubRun.Hub.ServeRegister | hub/hub.go:65-73 | The mutating Register case is the function `HubSpec.Register`, panic included: the user's old channel is closed and the new client filed. |
| HubRun.Hub.ServeUnregister | hub/hub.go:76-81 | The mutating Unregister case is the function `HubSpec.Unregister`, panic included: the user's entry goes, and the channel of the client that asked is closed. |
| HubRun.Hub.ServeBroadcast | hub/hub.go:88-108 | The mutating Broadcast case takes one message and is the order-free function `HubSpec.Broadcast`. |
| HubRun.Hub.RangeClients | hub/hub.go:89-107 | The loop over the map, deleting as it goes and choosing entries in any order, refines the fan-out: panics exactly when a recipient's channel is closed, and otherwise ends in that one state. |
| HubRun.Hub.Offer | sync/handler.go:53-61 | A non-blocking send appends the message if fewer than 512 are waiting and otherwise changes nothing. |
| HubRun.Hub.Leave | ws/read_pump.go:44 | The deferred send on Unregister sends exactly if fewer than 64 are waiting, and otherwise waits with nothing sent. |
| System.PhasesAlways | hub/hub.go:65-81 | In every run each connection is either waiting in Register once or was registered; only registered clients are in the map; one that left after its registration never comes back; a finished ReadPump has sent its Unregister. |
| Queues.AcceptedExactly | api/ws_handler.go:77-95 | A step makes a connection exactly if it accepts one, the process lives and fewer than 64 wait; the connection starts with both pumps, a live socket and an empty open channel. |
| Queues.RegisterIsFifo | hub/hub.go:51-72 | In every run the registered connections are the oldest ones and the waiting ones follow in the order of their making; of two registered ones the older was registered first. |
| Queues.UnregisterIsFifo | ws/read_pump.go:42-47 | In every run the hub has taken, and will take, exactly the Unregisters of the ReadPumps that exited, in the order of their exits. |
| Queues.BroadcastQueueStep | sync/handler.go:53-61 | A step leaves what was processed and what is waiting as it was, plus the message offered, behind the others, exactly if the process lives and fewer than 512 wait. |
| Queues.BroadcastIsFifo | hub/hub.go:53-88 | In every run the hub has processed, and will process, exactly the accepted messages in the order in which they came. |
| Queues.ClientsGetProducersOrder | sync/handler.go:53-58 | So what a client was ever sent is a prefix of what the producers sent since its registration, for its document and by other users, in the producers' order: one connection's diffs reach it as typed. |
| Queues.FlagsMeanWhatTheySay | hub/hub.go:65-81 | In every run the flags by which teardown is stated hold exactly of the connections whose Unregister was taken, and was taken after the Register. |
| Delivery.DeliveryIsGapFree | hub/hub.go:65-107 | In every run of the code as it is, what a client was ever sent (written plus buffered) is, while it is in the map, exactly the broadcasts processed since its registration for its document from other users, in order; afterwards a prefix of them; before, nothing. |
| Delivery.RoutedConcat | hub/hub.go:89-101 | What a client is owed of two stretches of the log is what it is owed of the first and then of the second. |
| Delivery.RoutedOne | hub/hub.go:89-101 | Of one message it is owed the payload once, if the message is of its document and of another user, and nothing otherwise. |
| Delivery.GapFreeStep | hub/hub.go:88-107 | Every single step of hub and pumps keeps that. |
| Delivery.LeaverGotExactly | hub/hub.go:65-107 | What a client that left the map ever gets, however the run goes on, is exactly the broadcasts it was owed between its registration and its removal. |
| Delivery.EvictedExactlyWhenFull | hub/hub.go:97-106 | A broadcast drops a client from the map if and only if it is addressed to the client and 256 payloads are unwritten; its channel is then closed with those payloads still in it. |
| Lifecycle.StepSound | hub/hub.go:65-107 | A step keeps "closed exactly if registered once and no longer in the map, and no panic" if and only if it is not an Unregister that finds another connection of its user in the map. |
| Lifecycle.StaleBreaks | hub/hub.go:76-81 | Such an Unregister always breaks it, and panics if and only if the connection that asked had been registered; otherwise the dropped client's channel stays open. |
| Lifecycle.RunSound | hub/hub.go:60-109 | All states of a run are sound, so no Send is closed twice or written after closing, if and only if no Unregister of the run was stale. |
| Lifecycle.GuardSuffices | hub/hub.go:76-81 | Acting only if the entry is this very client never panics, keeps soundness, and differs from the code exactly on a stale Unregister. |
| Lifecycle.GuardedRunsAreSound | hub/hub.go:60-109 | With that guard every state of every run is sound, whoever reconnects. |
| Lifecycle.SingleConnectionsAreSound | api/ws_handler.go:77-79 | If no user connects twice, every run of the code as it is is sound. |
| Lifecycle.TabRefreshCrashes | hub/hub.go:66-81 | A user who reconnects before the old socket is torn down kills the process: the run, for any user and document. |
| Teardown.StepShrinks | hub/hub.go:60-109 | Every step the server takes by itself decreases a lexicographic measure: process alive, ReadPumps, queued messages, payloads and WritePumps left. |
| Teardown.Settles | ws/write_pump.go:19-34 | No infinite schedule consists of the server's own steps: without new input it runs out of work. |
| Teardown.FarewellsAlways | ws/read_pump.go:42-47 | In every run each connection sends no Unregister while its ReadPump runs and exactly one once it has exited, queued or taken. |
| Teardown.DeadConnectionsAreGone | ws/read_pump.go:41-82 | When a run has settled without a crash, a dead connection has no pump left and its Unregister was taken; if its Register was taken before, it is out of the map; and if no Unregister was stale, its Send is closed exactly if it is out of the map. |
| Teardown.GuardedSettles | hub/hub.go:60-109 | The server with the guard runs out of work likewise, since its steps decrease the same measure. |
| Teardown.GuardedDeadConnectionsAreGone | ws/read_pump.go:41-82 | When it has, with no premise about stale Unregisters or crashes: such a connection is also out of the map with its Send closed, whenever its Register was taken first. |
| Teardown.OvertakenStays | hub/hub.go:51-52 | A run in which a connection's Unregister is taken before its Register, and that comes to rest with the connection in the map, its socket dead and its pumps gone. |
| Teardown.LingererInRuns | hub/hub.go:65-107 | In every reachable state, a connection in the map whose Unregister was taken leaves the map in a step if and only if the step takes the Register of another connection of its user, evicts it at 256 unwritten payloads, or takes a stale Unregister of its user. |
| Teardown.DisplacedIsDoomed | hub/hub.go:65-73 | A Register that displaces a connection leaves it doomed, that is, with its Send closed and its Unregister not taken, and its user in the map. |
| Teardown.DisplacementCrashes | hub/hub.go:65-81 | Once a connection is doomed, every continuation of the run that comes to rest has crashed, unless at some point before the user had no entry in the map. |
| AtRest.RestIff | hub/hub.go:60-109 | A living server has no step of its own to take if and only if its channels are empty, every running WritePump has an empty open channel and a live socket, and every running ReadPump a live socket. |
| AtRest.DeliveredAtRest | ws/write_pump.go:19-27 | In every run that has come to rest without a crash, every accepted message was processed, and each live client in the map has written to its socket exactly the messages sent since its registration, for its document and by other users, in the order sent. |
| AtRest.NoHangUp | ws/write_pump.go:19-34 | In every run a connection whose channel is open and whose socket did not fail keeps both pumps and its socket. |
| AtRest.HealthyClientsStay | ws/read_pump.go:58-72 | In a run without stale Unregisters, so does every client in the map whose socket did not fail. |
| Cluster.AlwaysTracked | pubsub/redis.go:66-119 | In every run of any number of processes: delivery is gap-free at each, everything meant for a hub is a diff handled or a task announced, and a message none of whose copies for a hub was discarded is there. |
| Cluster.CopiesAreConserved | pubsub/redis.go:66-119 | In every run, of the one copy of a message meant for a hub, or two if the message is the hub's own and published, each was processed, waits, is on the bus, or was discarded: the counts add up exactly. |
| Cluster.DiscardedExactly | pubsub/redis.go:109-118 | A move discards a copy exactly if the bus loses it, its hub's Broadcast has 512 waiting, or it is of another process's message that is not published. |
| Cluster.RelayTakes | pubsub/redis.go:99-119 | A living process can take any message off its bus; the message is offered to its hub once, behind those waiting, and nothing else changes. |
| Cluster.BusMayLose | pubsub/redis.go:22-27 | The bus may lose any message, which changes nothing else. |
| Cluster.MadeAsAsked | sync/handler.go:48-143 | The messages of a run are those its updates and announcements asked for, in order, each with its producer's user and document and the payload given. |
| Cluster.RelayIsBounded | pubsub/redis.go:99-119 | No hub processes a message more than once, except the one it was made at, which does so at most twice. |
| Cluster.PayloadsAreHandled | sync/handler.go:48-143 | Every payload any client was ever sent is a diff handled by HandleUpdate or a task announced by AssignTask somewhere in the cluster, for the client's document and by another user. |
| Cluster.UnpublishedStaysLocal | sync/handler.go:48-65 | HandleUpdate as it is, without a call of Publish, leaves the bus empty, and no hub holds an update of another process. |
| Merge.JoinIsConflictFree | document/store.go:84-92 | Joining by a commutative, associative, idempotent join makes diffs applicable in any order and any number of times. |
| Merge.SameDiffsSameState | document/store.go:84-92 | With such a merge the state depends only on which diffs were applied. |
| Merge.ApplyBatches | document/store.go:115-118 | With any merge, applying a log in two batches is applying it at once. |
| Convergence.CompleteIffCovered | hub/hub.go:88-107 | In every state that a run of the cluster reaches, a client in the map with a live socket and empty queues behind it has every diff of its document if and only if it has those it may not have been sent: a copy was discarded on the way to its hub, the hub processed it before the client's registration, or it is of the client's own user, from any connection. |
| Convergence.SettledClientsAgree | sync/handler.go:48-83 | Such a client, if it was sent a blob of diffs of the document that covers those, holds exactly the merge of all diffs handled for the document, despite duplicates and reordering; so any two of them agree, returning editors and clients behind full queues included. |
| Joining.AlwaysWell | sync/handler.go:48-83 | In every run of processes, log, compactor and joins: each row is of one handled diff and no diff has two rows, and the blob a connection was sent is the merge of rows of its document that were compacted when it was read and still are. |
| Joining.JoinersAgree | sync/handler.go:67-83 | In every such run, a settled client that was sent its document's blob holds the merge of all diffs of the document, if that blob covers the diffs it may not have been sent. |
| AtRest.ConvergedAtRest | sync/handler.go:48-83 | Without a premise on queues: once the client's process is at rest and nothing is on the bus for it, a live client in the map with such a blob holds the merge of all diffs of the document. |
| Joining.JoinSendsCompacted | document/store.go:62-69 | In every run, a joiner is sent its document's blob as it is, which is made of exactly the rows compacted at that moment. |
| Joining.InsertOrFail | sync/handler.go:50 | Every handled diff starts one insert, which at any later time can fail, or be made if and only if its document exists. |
| Joining.CoveredExactly | document/store.go:55-69 | It does if each of those is of this very connection, had its row compacted when the blob was read, or was processed after the registration and is not of its user; and if the document's payloads are distinct, only then. |
| Joining.JoinerMissesPendingRow | document/store.go:62-69 | A run, for any two users, in which it does not: the row is pending, the hub has processed the update, and the joiner, settled, lacks the diff. |
| Joining.ReturningEditorMissesOwnDiff | hub/hub.go:90-92 | A run in which a user reconnects before the hub takes their update: nothing is discarded, the update is processed after the new registration, and the new connection, settled, lacks it. |
| UpdateLog.CommitConsistent | document/store.go:121-131 | A commit keeps "each row is pending or merged exactly once, and the blob is exactly the merge of the compacted rows" if and only if nothing was compacted behind the transaction's back. |
| UpdateLog.DbStep | document/store.go:93-133 | The same of any insert, read, commit or abort of any number of compactors, together with what the running transactions hold. |
| UpdateLog.LogIsCompactedOnce | document/store.go:46-133 | Over any interleaving, all states lose nothing and merge nothing twice if and only if no commit was stale. |
| UpdateLog.OneCompactorIsFresh | document/store.go:187-189 | One compactor never commits a stale transaction, whatever is inserted or aborted in between, so all its runs are consistent throughout. |
| Compaction.LateRowStaysPending | document/store.go:101-131 | Over any run of any number of compactors, whatever happens between a snapshot's read and its commit, the commit neither merges nor marks a row inserted after the read; with one compactor the row is then still pending. |
| Compaction.BatchingIsInvisible | document/store.go:101-131 | With a conflict-free merge, however the log was split and in whatever order rows were read, the blob is the one that a single snapshot in log order would have written. |
| Compaction.MergedInOrderIffBatchesAre | document/store.go:101-118 | In every run of one compactor a document's blob was made in log order if and only if each of its committed batches was read in log order. |
| Compaction.BatchingInOrderIsInvisible | document/store.go:101-118 | With any merge, concatenation included, if each batch was read in log order, the blob is the one that a single snapshot in log order would have written. |
| Compaction.BatchOrderShows | document/store.go:101-118 | The premise is exact: with a merge that lists the diffs and rows of distinct payloads, the blob is that one if and only if each batch was read in log order. |
| Compaction.ClockedBatchesAreInOrder | document/store.go:103-105 | Each batch is read in log order if created_at increases with the inserts into the document. |
| Compaction.AnswersInOrderIff | document/store.go:103-105 | Every answer the query may give is in log order if and only if created_at strictly increases with the id over the document's pending rows; a tie is enough for another. |
| Compaction.NeverStuck | document/store.go:93-132 | In every sane state an idle compactor can start on any document, a running one has an answer to its query or can commit, and it can fail at any point, which changes no table. |
| Compaction.SkewedClockReorders | document/store.go:103-105 | A run of one compactor, for any merge, in which two inserts have their timestamps the other way round and are merged in the other order. |
| Compaction.ConcatenatedBlob | document/store.go:92-118 | With concatenation, in every consistent state, the blob is the original one and the compacted payloads end to end in the order merged, and it is the one of a single snapshot if and only if that order and the log order spell the same bytes. |
| Compaction.ConcatenationMindsTheClock | document/store.go:92-118 | In the run of the two inserts, this is so if and only if the two diffs commute as byte strings. |
| Compaction.TwoCompactorsLoseUpdates | document/store.go:187-189 | A run of two compactors, for any merge, that marks a row as compacted and leaves it out of the blob. |
| StoreRun.SnapshotIsThreeSteps | document/store.go:93-133 | An undisturbed snapshot is the transaction's reads and commit one after another. |
| StoreRun.Store.AppendUpdate | document/store.go:46-53 | Adds one pending row at the end, or fails and changes nothing if the document does not exist; the tables stay consistent. |
| StoreRun.Store.LoadBlob | document/store.go:62-69 | Returns the merge of exactly the document's compacted rows, each once, and so of none that is pending; an error if the document is missing. |
| StoreRun.Store.FindPending | document/store.go:103-107 | Returns each pending row of the document once and nothing else, by increasing created_at. |
| StoreRun.Store.MergeUpdates | document/store.go:115-118 | The loop that extends newBlob applies the read payloads to the blob in the order read. |
| StoreRun.Store.SnapshotState | document/store.go:93-133 | Merges into the blob and marks exactly the document's pending rows; other documents and rows are unchanged; an error changes nothing; the tables stay consistent. |
| StoreRun.Store.CompactorPass | document/store.go:196-210 | A pass without concurrent inserts leaves no row of any existing document pending, only marks rows, and stays consistent; documents that fail do not stop it. |
| Analytics.FlushConserves | analytics/tracker.go:65-125 | Over any interleaving of recording, swaps (of the flusher or forced) and saves: recorded edits and bytes per document and user are saved plus in flight plus buffered, and recorded seconds are that plus exactly those of entries skipped for having no edits. |
| Analytics.RecordedIsCalled | analytics/tracker.go:65-94 | In every run what is conserved is what was called for: per document and user, one edit and its bytes for each Record, and the seconds of each RecordActiveTime. |
| Analytics.SavesAreVisits | analytics/tracker.go:117-124 | Every save is of an entry the save loop reached, under that loop's window end. |
| Analytics.SkipsAreAlwaysIdle | analytics/tracker.go:117-124 | An entry without edits never has bytes, so the flusher's skip loses neither. |
| Analytics.ReadersAreNeverCredited | analytics/tracker.go:117-124 | In every run without an edit of a user in a document, no save is made for them, and all their recorded seconds are buffered, in flight, or lost at the flusher's skip. |
| Analytics.ReadersTimeIsLost | analytics/tracker.go:119-121 | A run in which all of a reader's seconds are lost. |
| Analytics.ReportNeverOvercounts | api/rest_handler.go:150-158 | What was saved before the history is read plus what is buffered when the RAM is read falls short of what was recorded by exactly what was saved in between plus what is in flight, a nonnegative amount. |
| Analytics.ReadingRamFirstOvercounts | api/rest_handler.go:150-158 | The other order of the two reads can count one edit twice. |
| TrackerRun.Tracker.Record | analytics/tracker.go:65-79 | Credits one edit and the bytes to this document and user, to no other entry, with no two entries sharing an object. |
| TrackerRun.Tracker.RecordActiveTime | analytics/tracker.go:83-94 | Credits the seconds likewise. |
| TrackerRun.Tracker.Swap | analytics/tracker.go:109-112 | The flusher gets the old map with all its contents and objects; the buffer is empty and shares none of them. |
| TrackerRun.Tracker.GetSnapshot | analytics/tracker.go:132-146 | Returns fresh objects, one for each user, holding exactly the buffered counters of the document's users. |
| TrackerRun.SwapIsolates | analytics/tracker.go:107-115 | After a swap, any sequence of recording calls and further swaps leaves every swapped-out object as it was, and the new buffer holds exactly what was recorded since the last swap. |
| TrackerRun.CopyIsolates | analytics/tracker.go:140-145 | Objects returned by GetSnapshot are not changed by any later recording calls and swaps. |
| FlusherRun.Flush | analytics/tracker.go:117-125 | The nested loops, in any order, call the save function exactly once for every entry with edits, with its counters as they stand, and for nothing else. |
| FlusherRun.FlushAdds | analytics/tracker.go:117-125 | So a pass saves per document and user the swapped-out amount if it came with an edit, and nothing otherwise. |
| Contributions.ContributionTable.Add | document/store.go:159-166 | Finding the conflicting row and adding to it, or inserting, is the function `Upsert`. |
| Contributions.ContributionTable.SaveContribution | document/store.go:156-167 | The call as it is ignores the activity and upserts zeros. |
| Contributions.UpsertUnique | document/migrations/001_initial_schema.sql:57 | An upsert keeps one row per document, user and window end, and brings in no key but its own. |
| Contributions.TableAccumulates | document/store.go:153-166 | For any sequence of saves, keys repeated or not: a user's rows sum to the edits and bytes saved, with the values meant, and each window has one row. |
| Contributions.WindowsAccumulate | document/store.go:153-166 | And so for each window end: its row holds exactly what was saved under it. |
| Contributions.ShippedHistoryIsRightOnlyIfEmpty | document/store.go:166 | With the zeros bound today, a user's edits in the history are right if and only if nothing of theirs was ever saved, and their bytes if and only if nothing with bytes was. |
| Contributions.LiveReportNeverOvercounts | api/rest_handler.go:150-158 | Table history plus buffer never exceeds what was recorded, with either binding, and with the values meant it misses exactly what was saved in between and is in flight. |
| Report.BuildStats | analytics/report.go:38-70 | The two loops build, in any order of the live map, one entry per user of either source, counters added. |
| Report.TotalBytes | analytics/report.go:74-77 | The loop over the map adds up every user's bytes once, in any order. |
| Report.Rows | analytics/report.go:78-83 | One row per entry, with its share of the total. |
| Report.PlaceLargest | analytics/report.go:87-91 | The inner exchange loop moves a row with the most bytes of the rest to its place and permutes the rows. |
| Report.SortByBytes | analytics/report.go:85-92 | The nested exchange loops sort by bytes, non-increasing, and permute. |
| Report.MergeWithLive | analytics/report.go:36-95 | Returns exactly one row per user of history or live data, merged, each with its own share, bytes non-increasing. |
| Report.OrderShowsOnlyInTies | analytics/report.go:72-94 | Any two such reports of the same data have the same rows and the same bytes at each position, so map order shows only among equal bytes. |
| ReportTotals.ReportAddsUp | analytics/report.go:40-70 | With one history row per user, the report's edits, bytes and seconds each sum to history plus live. |
| ReportTotals.RowsAreSums | analytics/report.go:40-83 | Row by row: a user with history has the name of its last history row and its counters plus the live ones, a user without has no name and the live ones, and each has its bytes' share of the total. |
| ReportTotals.SharesAddUp | analytics/report.go:73-83 | Shares (over the reals) sum to exactly 100 if there are bytes and are all 0 if not, and lie between 0 and 100, for nonnegative counts. |
| LiveReport.EveryRowIsEarned | api/rest_handler.go:150-161 | End to end, no row of a report shows more edits or bytes than the user had made, whatever was swapped and saved before and between the reads, with either binding. |
| LiveReport.RowsMissOnlyTheUnread | api/rest_handler.go:150-161 | End to end with the values meant: what a row falls short by is exactly what was saved between the reads plus what is in flight. |
| LiveReport.SecondsAreRightIff | api/rest_handler.go:150-161 | A row's seconds are exactly the buffered ones, with either binding, and are right if and only if what was saved, is in flight and was skipped comes to zero seconds. |
| KeepAlive.DeadlineHolds | ws/read_pump.go:51-57 | Over any number of ticks the read deadline never fires if and only if no pong comes 6 seconds later, relative to its tick, than the one before (the first measured from the start). |
| KeepAlive.PromptPongsSuffice | ws/upgrader.go:10-12 | In particular if send delay and round trip together stay below PongWait - PingPeriod = 6 s, and for the first ping the start skew, which may be negative, too. |
| Sync.Handler.HandleUpdate | sync/handler.go:48-65 | Starts one insert, offers the message to the hub if there is room, and credits one edit of the payload's length whether or not there was. |
| Sync.Subscribe | pubsub/redis.go:99-119 | Messages that unmarshal are offered to the hub in order, those that do not fit are dropped, bad ones are skipped; nothing else changes, so nothing is published again. |
| Sync.DecodedOnce | pubsub/redis.go:99-116 | Each message that unmarshals is among those offered as often as the bus delivered it. |
| Sync.DecodedInOrder | pubsub/redis.go:99-116 | And in the order in which it did. |
| Pumps.Wakeup | ws/write_pump.go:20-33 | One turn of the select writes exactly the first payload waiting, a ping for a tick that gets through, or a close frame on finding the channel closed and drained; the last, and a failed ping, end the pump. |
| Pumps.WritePump | ws/write_pump.go:12-35 | Whatever the hub sends or closes meanwhile: payloads are written in the order sent and none is lost between channel and socket; each tick that gets through writes one ping; the pump closes the connection exactly on exit; without a failed ping it exits only once the channel is closed and drained, with a close frame last; on a closed channel, woken often enough, it does exit. |
| Pumps.BinariesOnce | ws/write_pump.go:27 | The payloads written are the binary frames, each as often as it was written. |
| Pumps.ArrivalsOnce | hub/hub.go:101 | The payloads the hub sends are each there as often as it sent them. |
| Pumps.DiffsOnce | ws/read_pump.go:75-79 | The diffs of a connection are the payloads of its binary frames, each as often as it was read. |
| Pumps.DiffsInOrder | ws/read_pump.go:58-79 | And in the order read. |
| Pumps.Dispatch | ws/read_pump.go:75-79 | Binary frames are handed to HandleUpdate, others change nothing. |
| Pumps.ReadFrames | ws/read_pump.go:58-80 | Exactly the binary frames before the first error are handled, once each and in order. |
| Pumps.HandledTogether | sync/handler.go:48-65 | Handling diffs one after another queues the messages that fit, in order, counts every diff and starts every insert. |
| Pumps.ReadPump | ws/read_pump.go:41-82 | However the reads end, those frames were handled, and then one Unregister is sent and the connection closed, or, while the Unregister channel is full, neither. |

## Left out

- HTTP and REST plumbing, JWT and OTP, HTML and PDF, configuration, the connection pool and signals: I/O and library wrappers.
- Redis, GORM, gorilla/websocket, JSON and base64: an abstract bus, tables with read steps and atomic commits, and scripted connections stand for them.
- Yjs encoding and state-vector diffs: not in the repository; payloads are opaque.
- The bodies of `sync/session.go` and `sync/validator.go`, GetContributions and ForceFlush: not in the repository and not part of this model; GetContributions is taken to answer with one row of table sums per user.
- OnJoin: the blob it reads and when is modelled (`Joining`); how it reaches the client is not in the repository.
- The task hook of document/model.go and access checks: single-branch.
- OnlineInDoc and TotalConnections: they read the map outside its goroutine and have no defined guarantee.
- Overflow of machine integers and rounding of float64: counters are unbounded and shares are real.
- Durability across a shutdown or a crash, and a save that fails in the database: a call of the save function counts as saved.
- An insert started by HandleUpdate that fails or never runs: the update log's runs contain the inserts that succeeded.
- Read and write limits and write deadlines of a connection, and the compactor's and flusher's tickers: their effects are the events Disconnect, PingFail and Swap and the method CompactorPass.
- Pumps.ReadPump: the other goroutines do nothing while it runs; all interleavings are in `System`.
- StoreRun.Store.CompactorPass: assumes nothing runs beside it, as its claim does; interleaving is in `UpdateLog`.
- Hub.Run's endless loop: its cases are methods and the choice among them is the order of events in `System`.
- A blob column that is NULL and documents created or deleted while the server runs: the set of documents is fixed.
