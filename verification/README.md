# yasdb: a verified model of the stream engine

yasdb is a Durable Streams engine: append-only logs with idempotent producers,
kept in a small atomic key-value store and served to catch-up and live readers.
This project models its hard core in Dafny and proves what the core promises,
over every input, run and interleaving of the model.

`dafny verify dfyconfig.toml` checks the whole project.

The modules, from the bottom up:

- `Bytes`, `Store`: byte order, fixed-width integers, the typed keyspace with its
  persisted key encoding, atomic batches and ordered scans.
- `Appends`: the reference semantics, one request at a time. Producer validation,
  precedence of refusals, the write batch of an accepted request.
- `Streamer`: a stream's writer. It validates a burst against a pending overlay
  and must agree with `Appends`.
- `CommitQueue`, `Jobs`, `CommitProtocol`, `Durability`: notifier-mode durability
  as a state machine, with one step per critical section. Any number of streams
  submit bursts, flushes fold them into commits, one poller publishes and answers
  what is durable, and the server may be closed at any point.
- `WalCodec`, `Watermark`, `WalStore`, `WalCrash`, `WalServer`, `WalReopen`: the
  sharded write-ahead-log store, its record format, its out-of-order watermark,
  crashes and recovery, and what a second replay finds behind a torn record.
- `Reads`, `LiveCache`, `Chunks`: limit-capped reads over stitched segments, the
  record cache, cursors and the bounded channel.
- `Forks`, `Lifecycle`, `ForkViews`, `LifecycleServer`: fork chains, create, fork
  and delete with reference counts, one step per durable commit with a crash
  possible after each.
- `Expiry`, `Sweeps`, `EarlyExpiry`, `SweepServer`: the sliding-TTL deadline
  index, and runs in which bursts, read refreshes, creates, forks, deletes, crashes
  and the sweeper interleave commit by commit. A burst is one commit there, as in
  sync mode.
- `Overtaking`: notifier mode, where a read's refresh can pass a queued burst.
- `Deleter`, `Resumption`: the resumable background deletion, and that a crash in
  any run, the deleter's own commits included, leaves a state it can resume from.
- `Waker`: coalesced wakeups of parked readers.
- `Offsets`: offset tokens.

Conventions. The storage engine is a map changed by atomic batches with
increasing commit numbers and a monotone durable watermark; in notifier mode it
is fail-stop, so that after one failed commit there are no more. Clocks, the
choice of when a write fails, the checksum, and what other goroutines do in
between are parameters or steps. Integers are unbounded except where the source's
width matters: deadlines wrap at 64 bits (`AddU64`), value lengths at 32
(`Int32`). Media types are equal or different, records are opaque bytes.

Some promises hold under a condition, and are stated with it:

- The documentation of the sliding TTL says a stream never expires before now+TTL;
  the sums wrap at 64 bits, and `SlideReachesTTL` says exactly when the promise
  holds. Where it does, no sync-mode run expires a stream early (`NoEarlyExpiry`);
  where it does not, one can (`WrappedTTLExpiresEarly`).
- In notifier mode a refresh may reach the store before a burst planned earlier,
  which then lands an older deadline. `OvertakingIndexExactly` and
  `FittingOvertakings` say exactly when the index survives that, and
  `OvertakenBurstExpiresEarly` gives a stream of TTL 5 that is expired 3 seconds
  after an accepted append.
- A slide whose padded sum is exactly 2^64 ends at 0, which reads as no deadline:
  `AppendIndexExactly` and `TouchIndexExactly` say, in terms of TTL, deadline and
  clock, exactly when an append and a read refresh leave a stray index entry, and
  `ImmenseTTLBreaksIndex` gives a stream that does.
- Reopening a shard does not cut off a torn record. Commits appended afterwards are
  replayed if the crash cut on a record boundary (`CleanCutKeepsLater`), and hidden,
  synced or not, if nothing reads at the torn record (`TornCutHidesLater`,
  `OneByteHidesLater`).
- Offset tokens read back exactly when both components have at most 16 digits
  (`TokenRoundTrip`).

## Model

| member | source | states |
|---|---|---|
| Bytes.DecodeU64 | internal/ds/server.go:379-385 | decoding eight bytes is reading a big-endian number |
| Bytes.BigEndianRoundTrip | internal/ds/keys.go:31-35 | a number that fits is read back from its fixed-width encoding |
| Bytes.BigEndianOrder | internal/ds/keys.go:31-35 | fixed-width encodings sort and compare as the numbers they encode |
| Bytes.PrefixEnd | internal/ds/keys.go:120-132 | the range from a prefix to its computed end holds exactly the byte strings with that prefix, also when the prefix is all 0xff |
| Store.EncodeInjective | internal/ds/keys.go:37-115 | two different keys never share a byte string |
| Store.HasRecordPrefix | internal/ds/keys.go:49-64 | the keys with a stream's record prefix are exactly that stream's record keys |
| Store.HasProducerPrefix | internal/ds/keys.go:66-80 | the keys with a stream's producer prefix are exactly that stream's producer keys |
| Store.RecordOrder | internal/ds/keys.go:49-55 | records of one stream are stored in sequence order |
| Store.ExpiryScanIsExact | internal/ds/keys.go:86-99 | the sweeper's range holds exactly the index entries with a deadline at or before now |
| Store.ApplyTwice | internal/ds/storage.go:83-100 | one commit of two folded batches has the effect of the two in turn |
| Store.Scan | internal/ds/storage.go:83-100 | a scan lists the keys of the range, all of them, in byte order |
| Store.RecordScanIsDense | internal/ds/keys.go:49-64 | scanning a stream from a stored record yields the run of consecutive records that starts there |
| Appends.Validate | internal/ds/producer.go:32-64 | a pair is accepted exactly when it starts a higher epoch at 0 or is the next of the current one; the other verdicts name the stale epoch, the bad start, the gap or the duplicate |
| Appends.MergedBatch | internal/ds/streamer.go:384-406 | the one batch of a burst does what the batches of its requests do in turn |
| Appends.AfterBatch | internal/ds/streamer.go:384-406 | what metadata, tail, producers and Stream-Seq read as after the batch has landed |
| Appends.GroupingIsInvisible | internal/ds/streamer.go:355-371 | two groups of requests processed in turn answer and store what one group of all of them does |
| Appends.RunExtendsLog | internal/ds/streamer.go:517-590 | any run extends the log by exactly the accepted records, in order, and changes no other record |
| Appends.AckIsOwnEnd | internal/ds/streamer.go:517-590 | an accepted append is answered with the tail right behind its own records, which is never beyond the tail the run reaches |
| Appends.AcceptedExactly | internal/ds/streamer.go:517-590 | accepted exactly when the stream is open, the type fits, the producer continues and Stream-Seq is newer; the answer echoes producer, status and closure |
| Appends.RefusedAnswers | internal/ds/streamer.go:517-604 | a refused request stores nothing and is answered by the first reason that applies: closed, type, stale epoch, bad start, gap, duplicate, Stream-Seq |
| Appends.StreamSeqIncreases | internal/ds/streamer.go:551-555 | over any run the accepted Stream-Seq tokens strictly increase in byte order |
| Appends.AcceptedPairsChain | internal/ds/producer.go:32-64 | over any run the accepted pairs of a producer follow one another, and its stored state is the last of them |
| Appends.ExactlyOnce | internal/ds/producer.go:32-64 | over any run the accepted pairs of a new producer strictly increase, are contiguous from 0 within each epoch and never repeat |
| Streamer.GroupCommitPreservesMeaning | internal/ds/streamer.go:355-451 | a burst of A and B gives the answers, the stored map and the writer view of a burst of A and then a burst of B |
| Streamer.RespawnIsInvisible | internal/ds/streamer.go:92-123 | if the store holds what a streamer reflects, the one spawned from it answers every later request alike and leaves the same metadata and stored keys |
| Streamer.LandingKeepsView | internal/ds/streamer.go:279-306 | a commit that lands later does not disturb what a streamer has cached |
| Streamer.PendingBurst.AssignRecords | internal/ds/streamer.go:557-563 | records get consecutive sequence numbers from the pending tail on |
| Streamer.PendingBurst.SlideTTL | internal/ds/streamer.go:607-622 | the pending deadline slides as the reference does |
| Streamer.FailAccepted | internal/ds/streamer.go:489-496 | exactly what would have been acknowledged is answered 500 |
| Streamer.Streamer.constructor | internal/ds/streamer.go:92-123 | a fresh streamer reflects the store it was spawned from, with reader and writer tails equal |
| Streamer.Streamer.LoadProducer | internal/ds/streamer.go:279-295 | the producer state of the reflected store, loaded at most once |
| Streamer.Streamer.LoadWriterSeq | internal/ds/streamer.go:297-306 | the Stream-Seq of the reflected store |
| Streamer.Streamer.EffProducer | internal/ds/streamer.go:499-506 | the producer state as if the pending effects had landed |
| Streamer.Streamer.EffWriterSeq | internal/ds/streamer.go:508-515 | the Stream-Seq as if the pending effects had landed |
| Streamer.Streamer.JudgeClosed | internal/ds/streamer.go:592-604 | a closed stream answers as the reference does |
| Streamer.Streamer.Judge | internal/ds/streamer.go:517-560 | the decision on a request within a burst is the reference decision on the overlaid state |
| Streamer.Streamer.PlanAppend | internal/ds/streamer.go:517-590 | planning one request is one reference step on the overlaid state |
| Streamer.Streamer.AssembleOps | internal/ds/streamer.go:384-406 | the assembled operations are the batch of the gathered effects, each key once |
| Streamer.Streamer.ProcessBurst | internal/ds/streamer.go:355-427 | the answers and the batch of a burst are those of its requests processed one at a time |
| Streamer.Streamer.ApplyWriter | internal/ds/streamer.go:438-451 | the writer view then reflects the state with the burst landed |
| Streamer.Streamer.Submit | internal/ds/commit.go:135-147 | a notifier-mode burst is planned and published to the writer view, and counted before it is queued |
| Streamer.Streamer.ApplyReader | internal/ds/streamer.go:457-473 | the reader tail is the burst's, and closure once seen stays |
| Streamer.Streamer.AppendSync | internal/ds/commit.go:39-48 | a sync-mode burst stores and answers what one-at-a-time processing does, or on a failed write changes nothing and fails what it would have acknowledged |
| Streamer.Streamer.TryRetire | internal/ds/streamer.go:176-186 | a streamer retires only when idle, and then its reader and writer views agree |
| Streamer.Streamer.RefreshTTLOnRead | internal/ds/streamer.go:240-276 | a read moves the deadline in index and metadata together, or not at all |
| CommitQueue.SharedCommitter.TakeBatch | internal/ds/commit.go:170-179 | the front of the queue is taken, up to the cap, and the rest stays in order |
| CommitQueue.SharedCommitter.Enqueue | internal/ds/commit.go:149-164 | refused when closed, queued while a flush runs, else the flush starts |
| CommitQueue.SharedCommitter.FinishRound | internal/ds/commit.go:219-226 | the next batch, or the flush ends |
| CommitQueue.SharedCommitter.Close | internal/ds/commit.go:230-235 | the queue is closed and what was in it handed back |
| CommitQueue.InsertKeepsOrder | internal/ds/durability.go:61-72 | insertion keeps waiters sorted by target, ties in order of arrival |
| CommitQueue.DurabilityNotifier.Search | internal/ds/durability.go:68 | binary search finds the first waiter with a larger target |
| CommitQueue.DurabilityNotifier.Subscribe | internal/ds/durability.go:61-77 | refused when closed, else inserted behind its equals |
| CommitQueue.DurabilityNotifier.Fire | internal/ds/durability.go:110-125 | exactly the waiters at or below the watermark are released, in order |
| CommitQueue.DurabilityNotifier.CloseAll | internal/ds/durability.go:127-140 | every waiter is handed back once |
| Jobs.StoreHoldsLog | internal/ds/commit.go:135-147 | after any number of submitted bursts the store holds exactly each stream's abstract log |
| Jobs.OwnRecords | internal/ds/streamer.go:557-588 | in a queued burst, the records right before the offset a request is answered with are its own |
| Jobs.OthersKeepAway | internal/ds/commit.go:188-199 | bursts of other streams leave a stream's keys alone |
| Jobs.FoldIsSequential | internal/ds/commit.go:188-199 | one physical commit of several bursts does what they do one after the other |
| CommitProtocol.SubmitKeepsInv | internal/ds/commit.go:135-165 | submitting a burst keeps the protocol invariant, whether it is refused, queued or starts a flush |
| CommitProtocol.FlushCommitKeepsInv | internal/ds/commit.go:188-217 | so does a physical commit of a folded batch |
| CommitProtocol.FlushFailKeepsInv | internal/ds/commit.go:199-203 | so does a failing one |
| CommitProtocol.SubscribeOneKeepsInv | internal/ds/commit.go:204-217 | so does subscribing a committed burst |
| CommitProtocol.SubscribeRefusedKeepsInv | internal/ds/durability.go:61-67 | so does a subscription refused by the closed notifier |
| CommitProtocol.FlushNextKeepsInv | internal/ds/commit.go:219-226 | so does going round for the next batch |
| CommitProtocol.CloseLockKeepsInv | internal/ds/commit.go:230-238 | so does closing the committer |
| CommitProtocol.FireKeepsInv | internal/ds/durability.go:95-125 | so does releasing waiters; what is released is durable |
| CommitProtocol.PublishKeepsInv | internal/ds/streamer.go:457-473 | so does publishing a released burst; it is the next in line |
| CommitProtocol.ReplyKeepsInv | internal/ds/commit.go:207-215 | so does answering it |
| CommitProtocol.CloseAllKeepsInv | internal/ds/durability.go:127-140 | so does cancelling all waiters |
| CommitProtocol.RetireKeepsInv | internal/ds/streamer.go:176-186 | so does retiring a streamer |
| CommitProtocol.RespawnKeepsInv | internal/ds/server.go:249-281 | so does spawning one from the store, and readers see no change |
| Durability.NextKeepsInv | internal/ds/commit.go:135-245 | every step of the protocol keeps the invariant |
| Durability.RunKeepsInv | internal/ds/commit.go:135-245 | every state of every run satisfies it |
| Durability.VisibleIsDurable | internal/ds/streamer.go:457-481 | a reader tail never passes what is durable, and everything below it survives a crash and is the abstract log |
| Durability.ReadAfterAck | internal/ds/durability.go:51-125 | in every run, once an append is acknowledged at N every reader sees at least N, every record below N would survive a crash, and the last of them are the append's own |
| Durability.StepIsMonotone | internal/ds/commit.go:135-228 | no step lowers a reader tail or the watermark or takes back an answer |
| Durability.RunIsMonotone | internal/ds/commit.go:135-228 | along a run reader tails never decrease and answers stand |
| Durability.AnswersOnlyUnresolved | internal/ds/commit.go:71-75 | a step answers only a job that has no answer yet and changes no other |
| Durability.AnsweredAtMostOnce | internal/ds/commit.go:71-245 | in a run no job is answered twice |
| Durability.AcksAreInOrder | internal/ds/commit.go:181-217 | successful answers come in submission order |
| Durability.AtRestAllAnswered | internal/ds/commit.go:230-245 | when nothing is in flight, before or after close, every job has been answered and no stream's pending count is left |
| Durability.QueueDiscipline | internal/ds/commit.go:135-179 | at most one flush runs, it never exceeds the cap, and pending is the number of a stream's unanswered jobs |
| Durability.RetiresInAgreement | internal/ds/streamer.go:176-186 | a retiring streamer's writer tail, the reader tail and the stored tail agree |
| Durability.RetireRespawnIsInvisible | internal/ds/server.go:249-355 | in any run, the streamer read back after a retirement answers whatever comes later as the retired one would have, and leaves the stream the same metadata, deadline included, and the same stored keys |
| WalCodec.EncodeRecord | internal/ds/pwalstore.go:175-205 | the bytes of a record, and for each put where its value lies in them |
| WalCodec.DecodeOp | internal/ds/pwalstore.go:258-294 | one operation is parsed, or refused when it overruns the payload |
| WalCodec.DecodeOps | internal/ds/pwalstore.go:252-298 | all operations of a record are parsed, or the record is refused |
| WalCodec.DecodeShard | internal/ds/pwalstore.go:230-303 | the loops compute the replay of a shard file, stopping at the first record that is torn or fails its checksum |
| WalCodec.ParseRecordInverts | internal/ds/pwalstore.go:175-303 | a whole record replays to its number and operations with offsets into this file |
| WalCodec.ParseRecordStops | internal/ds/pwalstore.go:233-248 | a torn record is not replayed |
| WalCodec.ReplayOfCutFile | internal/ds/pwalstore.go:223-303 | a file of encoded records cut at any byte replays to exactly the records wholly inside the cut |
| WalCodec.OffsetsPointAtValues | internal/ds/pwalstore.go:101-133 | a replayed offset and length cut out of the file exactly the value that was written |
| Watermark.WatermarkIsLargest | internal/ds/contigwatermark.go:5-15 | the watermark is the largest N with 1..N all marked |
| Watermark.ContigWatermark.Mark | internal/ds/contigwatermark.go:24-39 | after any marks, in any order and repeated, the value is the watermark of all that was marked |
| WalStore.SequenceBijection | internal/ds/pwalstore.go:101-106 | a sequence number determines its shard and local number, and the recovered counter is one past it |
| WalStore.SequenceIsOnto | internal/ds/pwalstore.go:352-356 | every sequence number belongs to one shard and local number |
| WalStore.WalShard.Stage | internal/ds/pwalstore.go:101-133 | the record is appended under the shard's next number, the reported locations are where replay will find the values, and a flush starts if none runs |
| WalStore.WalShard.CallSync | internal/ds/pwalstore.go:140-142 | an fsync covers what the file holds when it is called |
| WalStore.WalShard.SyncReturned | internal/ds/pwalstore.go:140-157 | a successful fsync makes its batch durable, and the loop goes on with what was staged meanwhile |
| WalStore.StageKeepsShard | internal/ds/pwalstore.go:101-133 | staging keeps the shard's file, numbers and pipeline consistent |
| WalStore.LastLocations | internal/ds/pwalstore.go:416-419 | the last reported location of each key |
| WalStore.IndexCommit | internal/ds/pwalstore.go:416-434 | after a commit the index is what the last operation on each key says, although the loop stores the last put's location for every put |
| WalStore.Get | internal/ds/pwalstore.go:387-407 | reading through index and files gives the value of the plain map |
| WalStore.CommitKeepsAgreement | internal/ds/pwalstore.go:409-437 | an index updated for a commit agrees with the plain map updated by it |
| WalCrash.NextKeepsInv | internal/ds/pwalstore.go:101-157 | commits and fsyncs of any shards, in any interleaving, keep the store consistent |
| WalCrash.RunKeepsInv | internal/ds/pwalstore.go:409-467 | in every reachable state index and files read as the plain map of all commits, and what is marked is fsynced |
| WalCrash.DurableSurvives | internal/ds/pwalstore.go:459-467 | a commit the watermark covers survives every crash |
| WalCrash.MergedIsSurvivors | internal/ds/pwalstore.go:339-351 | the replayed records of all shards, sorted, are the surviving commits in commit order |
| WalCrash.Reopen | internal/ds/pwalstore.go:309-371 | reopening decodes every shard, recovers the counters, sorts by number and rebuilds the index |
| WalCrash.CrashSafety | internal/ds/pwalstore.go:309-371 | after any run and any crash everything up to the watermark survives, and the rebuilt index reads as the surviving commits applied in commit order |
| WalCrash.NoReissue | internal/ds/pwalstore.go:341-346 | the recovered counter is past every recovered number of its shard |
| WalCrash.WatermarkSurvives | internal/ds/pwalstore.go:365-368 | the watermark seeded from what was recovered is never below the one reported before the crash |
| WalReopen.SecondReplay | internal/ds/pwalstore.go:320-337 | replay after commits behind a cut file yields what the cut had kept, then whatever reads from the torn record on |
| WalReopen.CleanCutKeepsLater | internal/ds/pwalstore.go:320-337 | after a cut on a record boundary everything later is replayed behind what was kept |
| WalReopen.TornCutHidesLater | internal/ds/pwalstore.go:320-337 | after a cut inside a record the replay is only what was kept if and only if no record parses there, as when the checksum fails |
| WalReopen.OneByteHidesLater | internal/ds/pwalstore.go:320-337 | with any checksum, one surviving byte of a short record hides a short commit behind it and all that follows |
| WalServer.PwalStore.constructor | internal/ds/pwalstore.go:309-337 | an empty store is an initial state |
| WalServer.PwalStore.CommitAsync | internal/ds/pwalstore.go:409-437 | commits go round-robin to the shards, and each is one commit step; a poisoned store refuses |
| WalServer.PwalStore.SyncReturned | internal/ds/pwalstore.go:140-157 | a returning fsync is one step: folded into the watermark, or poisoning the store |
| Reads.TakeRecord | internal/ds/read.go:120-139 | one record of a binary read: all that is left of it if there is room, else as much as fits |
| Reads.ReadSegmentsBinary | internal/ds/read.go:98-146 | the loop over stored segments is a binary read of the abstract log |
| Reads.TakeMessage | internal/ds/read.go:173-186 | one message of a JSON read: taken if first or within the limit |
| Reads.ReadSegmentsJSON | internal/ds/read.go:150-192 | the loop over stored segments is a JSON read of the abstract log |
| Reads.ReadIsSlice | internal/ds/read.go:98-146 | a binary read returns exactly the log's bytes between its two offsets |
| Reads.ReadAdvances | internal/ds/read.go:98-146 | with a positive limit a read below the tail strictly advances, and stops only at the tail or with the limit used up |
| Reads.MessagesAreRun | internal/ds/read.go:150-192 | a JSON read returns consecutive whole messages, at least one, within the limit unless it is only one, and stops only at the tail or when one more would pass the limit |
| Reads.BodyIsArray | internal/ds/json.go:64-80 | the body is `[`, the messages in order with a comma after each but the last, and `]`, at exactly these positions; `[]` for none |
| LiveCache.LiveCache.Append | internal/ds/livecache.go:64-87 | the new run joins the window or replaces it at a gap, and just as many old records go as the bounds require, never the last |
| LiveCache.LiveCache.Reset | internal/ds/livecache.go:93-100 | the window is empty |
| LiveCache.LiveCache.TryRead | internal/ds/livecache.go:109-160 | whatever is served equals the read of the log, and it is served exactly for whole records inside the window strictly under the limit |
| LiveCache.CacheAgreesWithLog | internal/ds/streamer.go:408-469 | after any bursts, with readers coming and going, every cached record is the log's |
| Chunks.ReadDelivers | internal/ds/read.go:79-192 | every read below the tail moves on and delivers what it passes |
| Chunks.ResumeContinues | yasdb/channel.go:9-16 | chunks read from where others ended continue them |
| Chunks.ChunksReassemble | internal/ds/public.go:237-251 | the bodies of chained binary reads concatenate to the log's bytes from first to last offset |
| Chunks.MessagesReassemble | internal/ds/public.go:237-251 | chained JSON reads carry the messages from first to last offset, each once |
| Chunks.Cursor.Next | internal/ds/public.go:237-251 | a cursor delivers from its offset and moves on, and says whether there is more |
| Chunks.Cursor.CatchUp | yasdb/channel.go:98-116 | catching up with a fixed tail ends and delivers everything up to it |
| Chunks.RunChunks | yasdb/channel.go:89-147 | what is sent is unbroken and bounded by the buffer; every round that finds something new sends one chunk from where it stood; it ends cancelled, deleted, overrun, or closed and drained, each only when the round shows it |
| Chunks.OverrunLosesNothing | yasdb/channel.go:9-16 | restarting from the last received offset after an overrun yields exactly the rest of a binary stream's bytes |
| Chunks.OverrunLosesNoMessage | yasdb/channel.go:9-16 | of a JSON stream it yields exactly the messages that are left, each in one chunk |
| Forks.ResolveTiles | internal/ds/fork.go:22-62 | for chains of any depth the segments are in order, without gap, and cover exactly the range |
| Forks.ResolveShowsView | internal/ds/fork.go:22-62 | each segment's records are those the fork's reader sees |
| Forks.ReadRange | internal/ds/read.go:79-94 | the stitched read of any stream is a read of the log its reader sees |
| Forks.RecordOf | internal/ds/fork.go:77-91 | one record is found wherever in the chain it lives |
| Lifecycle.CreateKeepsInv | internal/ds/handlers.go:233-270 | creating a stream keeps registry, sources and counts consistent |
| Lifecycle.ForkKeepsInv | internal/ds/fork.go:244-305 | so does forking, which counts its source up in the same commit |
| Lifecycle.ForkLifetime | internal/ds/fork.go:244-325 | a fork gets its own TTL, else its own expiry, else the source's TTL, else the source's expiry, else none, and the deadline that follows |
| Lifecycle.ForkRefusals | internal/ds/fork.go:122-240 | 409 for a path or source that is gone or a wrong type, 404 for a missing source, 400 for a bad offset |
| Lifecycle.DeletedHasNoForks | internal/ds/handlers.go:509-515 | nothing is hard-deleted that a fork still refers to |
| Lifecycle.HardDeleteKeepsInv | internal/ds/expiry.go:11-40 | so does the first commit of a hard delete |
| Lifecycle.HardDeleteFreesPath | internal/ds/expiry.go:11-28 | a hard delete leaves nothing of the stream but its marker, no tombstone included, so that the path can be created again |
| Lifecycle.DropKeepsInv | internal/ds/expiry.go:67-83 | so does counting the source down, and a cascade starts only at an unreferenced soft-deleted source |
| Lifecycle.RunKeepsInv | internal/ds/expiry.go:11-83 | over every run, with a crash after any commit, the invariant holds |
| Lifecycle.AncestorsSurvive | internal/ds/expiry.go:42-83 | a stored count is at least the number of existing forks, exactly that without crashes, and every fork's whole chain of ancestors exists with smaller ids |
| Lifecycle.ViewsAreStable | internal/ds/fork.go:18-62 | no step on any stream changes what a reader of an existing stream has below its tail |
| ForkViews.RunIsComplete | internal/ds/fork.go:244-293 | in every reachable state each existing stream has every record below its tail |
| ForkViews.EveryStreamReadable | internal/ds/fork.go:18-91 | so the stitched read of any existing stream applies, from 0 to its tail |
| ForkViews.ForkViewEquation | internal/ds/fork.go:195-293 | a new fork reads as its source below the divergence point, then the partial record it diverges inside, then its own records |
| ForkViews.ForkInheritsPrefix | internal/ds/fork.go:162-223 | a binary fork inherits exactly the source's bytes up to fork offset plus sub-offset, a JSON fork that many whole messages |
| LifecycleServer.MetaServer.CreateStream | internal/ds/handlers.go:180-273 | blocked, same, conflicting, malformed or created, each exactly when; only a creation changes anything, and it starts with the deadline its TTL or expiry gives |
| LifecycleServer.MetaServer.DecideFork | internal/ds/fork.go:126-242 | the checks in order give the fork decision |
| LifecycleServer.MetaServer.ForkPoint | internal/ds/fork.go:195-223 | the effective divergence point, or an overshooting sub-offset |
| LifecycleServer.MetaServer.CreateFork | internal/ds/fork.go:122-308 | the answer is the decision, and a fresh fork is one commit |
| LifecycleServer.MetaServer.DeleteStream | internal/ds/handlers.go:491-515 | 410, 404 or 204 exactly for a gone, missing or existing stream; the latter is soft-deleted while forks refer to it, else gone with its tombstone, and no other stream that is not soft-deleted changes |
| LifecycleServer.MetaServer.DeleteStreamLocked | internal/ds/expiry.go:11-40 | the stream goes, nothing comes, the cascade ends, and every commit on the way is a step of the lifecycle |
| LifecycleServer.MetaServer.DropForkRef | internal/ds/expiry.go:67-83 | the count drops and an unreferenced soft-deleted source goes too |
| Expiry.SlideReachesTTL | internal/ds/streamer.go:607-622 | the slid deadline is past now+TTL if and only if the sums fit 64 bits or the old one was already past it |
| Expiry.SlideIsRateLimited | internal/ds/streamer.go:607-622 | a deadline that has moved stays for a quarter of the TTL, between one second and ten minutes, and then moves again |
| Expiry.ImmenseTTLWraps | internal/ds/streamer.go:607-622 | a TTL near 2^64 leaves a deadline at second 599 |
| Expiry.AcceptedAppendSlides | internal/ds/streamer.go:517-622 | an accepted append leaves the stored deadline past now+TTL under exactly that condition |
| Expiry.SlideIsZero | internal/ds/streamer.go:607-622 | a slide ends at 0 exactly when now+TTL has reached the deadline and, padded, is exactly 2^64 |
| Expiry.AppendKeepsIndex | internal/ds/streamer.go:394-406 | a commit that does not move the deadline to 0 keeps one index entry per stream with a deadline, at that deadline |
| Expiry.AppendIndexExactly | internal/ds/streamer.go:394-622 | an accepted append leaves the index exact if and only if it does not slide an existing deadline to 0 |
| Expiry.TouchIndexExactly | internal/ds/streamer.go:240-276 | a read's refresh leaves the index exact if and only if it does not slide to 0 |
| Expiry.ImmenseTTLBreaksIndex | internal/ds/streamer.go:394-622 | a stream of TTL 2^64-602 created at second 1 breaks the index with an append at second 2 |
| Expiry.CreateKeepsIndex | internal/ds/handlers.go:233-270 | a stream is born with exactly its index entry |
| Expiry.ForkKeepsIndex | internal/ds/fork.go:244-305 | so is a fork |
| Expiry.HardDeleteKeepsIndex | internal/ds/expiry.go:11-28 | a hard delete takes exactly the stream's entry along |
| Sweeps.BurstSlides | internal/ds/streamer.go:355-451 | a group commit slides its stream's deadline once if anything in it was accepted, and changes no other metadata |
| Sweeps.StepKeepsGood | internal/ds/expiry.go:107-166 | create, fork, delete, burst in one commit, refresh, scan, expiry and crash each keep registry and index exact |
| Sweeps.RunKeepsIndex | internal/ds/expiry.go:107-166 | over every sync-mode run of these, with a crash after any commit, there is exactly one index entry for each stream with a deadline, as long as no slide has ended at 0 |
| Sweeps.ExpiryRemovesExactly | internal/ds/expiry.go:138-162 | whatever was committed since the scan, an expiry removes exactly the stream whose current entry is the due one |
| Sweeps.WaysToGo | internal/ds/expiry.go:11-162 | a stream goes by a DELETE, by a cascade when it is soft-deleted, or by an expiry of its current entry |
| Sweeps.NoEarlyExpiry | internal/ds/expiry.go:107-162 | over every sync-mode run in which deadlines fit 64 bits, a stream that is not soft-deleted is expired only when more than its TTL lies between its last accepted append, or its creation, and the sweep |
| EarlyExpiry.WrappedTTLExpiresEarly | internal/ds/expiry.go:107-162 | without the fit, a run of create, append, scan and expiry removes a stream of TTL 2^64-2 at second 599 |
| Overtaking.SubmitIsAppend | internal/ds/streamer.go:355-451 | the view a queued burst leaves its writer is that of the reference |
| Overtaking.OvertakingIndexExactly | internal/ds/streamer.go:266-276 | a refresh between a burst's plan and its landing leaves the index exact if and only if metadata, effects and clock are compatible |
| Overtaking.FittingOvertakings | internal/ds/streamer.go:240-276 | with deadlines that fit, that is: the refresh does not write, or the burst changes neither deadline nor closed flag |
| Overtaking.OvertakenBurstExpiresEarly | internal/ds/streamer.go:266-276 | a stream of TTL 5 with an append accepted at second 13 is expired by a sweep at second 16 |
| SweepServer.Sweeper.DueEntries | internal/ds/expiry.go:107-128 | the entries gathered are exactly the due ones |
| SweepServer.Sweeper.DeleteStreamLocked | internal/ds/expiry.go:11-40 | each commit is a step of the runs; besides the expired stream only soft-deleted ones go |
| SweepServer.Sweeper.DropForkRef | internal/ds/expiry.go:67-83 | each commit is a step; only soft-deleted streams go |
| SweepServer.Sweeper.ExpireIfDue | internal/ds/expiry.go:138-162 | from any state of a run its commits are steps: a current entry takes its stream with it, a stale one is dropped |
| SweepServer.Sweeper.SweepOnce | internal/ds/expiry.go:107-133 | with no other commit in between, of the streams not soft-deleted those past their deadline go and all others stay as they were |
| Deleter.BackgroundDeleter.CollectKeys | internal/ds/deleter.go:112-134 | the first keys of the range, up to the limit |
| Deleter.BackgroundDeleter.DeleteRecords | internal/ds/deleter.go:60-83 | chunk by chunk no record of the stream is left, and after every commit the deletion can be resumed |
| Deleter.BackgroundDeleter.BackgroundDelete | internal/ds/deleter.go:52-108 | it ends with no record, producer or marker key of the stream, touches no other key, makes only commits of the deleter's three kinds, and every state on the way is one it can resume from |
| Deleter.BackgroundDeleter.ResumeDeletions | internal/ds/deleter.go:19-38 | every interrupted deletion is finished, nothing else changes, and after every commit on the way all of them can be resumed again |
| Resumption.HardDeleteStaysResumable | internal/ds/expiry.go:11-28 | a hard delete leaves every marked stream, its own included, resumable |
| Resumption.StepKeepsPending | internal/ds/deleter.go:19-108 | no create, fork, burst, refresh or sweep disturbs a marked stream's cursor or records, and the deleter moves a cursor only past records it deletes |
| Resumption.DeleterStep | internal/ds/deleter.go:52-108 | every commit of a deletion is a step of the runs, whatever else the server is doing |
| Resumption.CrashIsResumable | internal/ds/deleter.go:19-38 | wherever a run stops in which dead streams' keys are reclaimed by the deleter's commits, slides to 0 included, the store meets what resuming the deletions requires |
| Waker.LiveWaker.Wake | internal/ds/livewaker.go:51-81 | a broadcast, a fold into the pending wake, or a timer that ends one window after the last wake |
| Waker.LiveWaker.Fire | internal/ds/livewaker.go:83-89 | the timer's lock section, which takes the pending wake: the step of the wake machine that `NoLostWakeup` reasons about |
| Waker.NextKeepsInv | internal/ds/livewaker.go:51-89 | every atomic step of publisher, timer and readers keeps the wake invariant |
| Waker.NoLostWakeup | internal/ds/public.go:291-327 | for every window and interleaving, a parked reader that is behind on an open channel is owed a wake |
| Waker.AtRestAllInformed | internal/ds/streamer.go:457-481 | once nothing is in flight, whoever is still parked has seen everything published |
| Offsets.AppendPad16 | internal/ds/offset.go:40-47 | sixteen zero-padded digits are appended |
| Offsets.AppendOffset | internal/ds/offset.go:33-37 | the token is appended |
| Offsets.ParseOffset | internal/ds/offset.go:67-88 | sentinels, tokens and malformed input are told apart |
| Offsets.TokenRoundTrip | internal/ds/offset.go:26-88 | a printed offset is read back exactly when both components have at most 16 digits |
| Offsets.TokenPrintsBack | internal/ds/offset.go:26-88 | printing what an accepted token parsed to gives that token |
| Offsets.TokenOrder | internal/ds/offset.go:8-15 | tokens sort byte-wise as (seq, byte) |

## Left out

- Creation and deletion in the durability protocol: its streams exist from the start, since creating one only adds a stream with an empty history.
- WalServer.PwalStore.CommitAsync: requires the record's lengths and sequence number to fit their fields; the source does not check them.
- LifecycleServer.MetaServer.DecideFork: offset sums are unbounded; 64-bit overflow of fork offset plus sub-offset is not modelled.
- The retry loop and locks of the streamer registry: retirement and respawn are steps of the durability protocol instead.
- Streamer.Streamer.RefreshTTLOnRead: requires a streamer with no burst in flight; the refresh that passes a queued burst is `Overtaking`.
- Sweeps.RunKeepsIndex: a burst plans and lands in one commit; for notifier mode only one burst overtaken by one refresh is stated, in `Overtaking`.
- Sweeps.NoEarlyExpiry: likewise, and false in notifier mode (`OvertakenBurstExpiresEarly`).
- Deleter.BackgroundDeleter.ResumeDeletions: runs the deletions one after the other, where the source starts them side by side; side by side they are steps of `CrashIsResumable`.
- Streamer.Streamer.LoadProducer: does not model read errors of the store, which the source treats as a missing producer.
- Streamer.Streamer.LoadWriterSeq: does not model read errors of the store, which the source treats as a missing Stream-Seq.
- Streamer.Streamer.ApplyReader: states the reader's tail and closed flag only; the record cache is `LiveCache` and the wake is `Waker`.
- CommitProtocol.RespawnKeepsInv: a stream is respawned only after all its bursts were acknowledged; respawning after a failed or cancelled burst is excluded.
- LifecycleServer.MetaServer.ForkPoint: offset sums are unbounded here too.
- SweepServer.Sweeper.SweepOnce: no commit comes between the scan and the deletes; runs in which others do are what `NoEarlyExpiry` is about.
- Crashes that lose a read's refresh, which is written without waiting for durability: in the runs every commit survives.
- WalStore.WalShard.Stage: write errors of a shard file, and a Commit waiting on an idle shard, are not modelled; a failed fsync is.
- WalCrash.CrashSafety: one crash of a store started empty. After a reopen the round-robin counter starts over and a torn record stays in the file; what a second replay of one shard then finds is `WalReopen`. Reopening with another shard count is not modelled.
- Wrap-around of 64-bit sequence numbers in the watermark, which 2^64 commits would need.
- Durability of duplicate acknowledgements: a burst with nothing to write is answered at once from the writer view.
- Appends still in flight while their stream is deleted: in the lifecycle a burst is one step on an existing stream.
- The sweeper in the reference-count model: expiry hard-deletes without consulting the count, so its runs do not promise that a fork's source is still there.
- Completeness at end of stream: readers load tail and closed flag separately, and nothing is claimed across the two loads.
- Stopping the waker when a streamer retires, and liveness: a wake is owed, and that the timer runs is the runtime's part.
- HTTP routing and headers, server-sent events, JSON flattening, media-type parsing, value codecs, creation times and privacy flags: wire formats with easy properties.
- SlateDB, metrics, bulk provisioning, the State Protocol materializer and the command-line tools: foreign calls, or easy folds.
