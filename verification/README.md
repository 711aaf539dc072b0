# ConnectForge, modelled and proved

A Dafny model of the parts of ConnectForge that carry its guarantees: the durable segmented log, the
in-memory store it must agree with, the connector runtimes with their delivery guarantees, and the
circuit breaker, rate limiter and retry loop beside them.

`dafny verify dfyconfig.toml` checks the whole project.

## How the model is built

- **Bytes to records** (`Bytes`, `Utf8`, `Unicode`, `Codec`, `Layout`, `Scanning`, `Filtering`). The length-prefixed
  framing, with the lossy conversion of keys on reading, both held against definitions of their own: `Layout` places
  every field byte by byte, `Unicode` follows the standard's table of well-formed sequences. `Scan`, a linear decode of
  a whole file, specifies everything a segment does.
- **The durable log** (`Disks`, `Segments`, `Parts`, `Recovery`, `FilePartitions`). A directory is a map from
  base offset to bytes with a journal of operations. The classes `Segment` and `PartitionState` follow
  `segment.rs` and `filestore.rs` loop by loop. `Parts` specifies a partition as a history and the segments
  that hold its retained end; a store call is a plan of roll, write and drop steps. A crash keeps any number of
  those steps and any number of bytes of the write it tears. `Recovery` proves what recovery finds over whole
  runs of calls, crashes and recoveries that may themselves die.
- **The abstract log** (`Logs`, `Paging`, `Retention`, `MemPartitions`, `Agreement`). Both stores implement
  `(history, start)`; their fetches, offsets and starts are compared for every sequence of calls.
- **The whole store** (`Stores`). Topics, partitions and totals, over the heap of all open partitions.
- **The sink** (`SinkMachine`, `Guarantees`, `Status`, `InMemory`). `run_once` as a step machine cut at every await
  point, where the log may move, a port may fail (a failed save may still have persisted), or the process may die.
  Whether the checkpoint and the dead-letter queue outlive the process is part of the configuration. The machine's
  crash keeps the log: statements with crashes are about the file store, except those of `InMemory`, where the log
  dies with the process and its offsets start at 0 again.
- **The runtimes** (`LogPorts`, `Ports`, `Rounds`, `SinkRuntimes`, `Draining`, `Connectors`, `Pipelines`). `SinkRuntime` and
  `SourceRuntime` as classes over either store and an environment given by an arbitrary script. `RunOnce` is
  proved to be a run of the step machine, so what holds of all runs holds of the class, and to do exactly what the
  script's answers to its own port calls say (`Rounds.Follows`): it gives up when one of them fails, and only then.
- **One system** (`Systems`). The durable log and the sink together, with a crash that hits both.
- **Resilience** (`Breaker`, `Limiter`, `Retry`). Lazily updated machines, proved equal to functions of the
  whole history.

`Prelude` and `Multiples` hold shared datatypes and arithmetic.

## Where the code and its documentation differ

The model follows the code.

- The delivery table promises that at-least-once loses no record (`README.md:133`,
  `crates/connectforge-types/src/connector.rs:96`). Three things break it.
  - Retention does not wait for the sink (`Guarantees.RetentionLosesRecords`).
  - The only dead-letter queue the repository ships lives in memory (`crates/connectforge-infra/src/dlq.rs:9`), while
    checkpoints can be on disk: a dead-lettered record is gone after a crash, with the checkpoint past it
    (`Guarantees.VolatileQueueLosesRecords`).
  - Over the in-memory log a checkpoint on disk outlives the records it counts. After a crash the new log fills the
    same offsets again, and nobody is ever given what lies below the old checkpoint
    (`InMemory.StaleNeverHanded`, `InMemory.AccountsIff`).

  Over the file store, `Guarantees.LostIff` says exactly which records a run loses, `Systems.LosesNothingIff` exactly
  which configurations lose none.
- At-most-once promises that nothing is redelivered (`crates/connectforge-types/src/connector.rs:100`). Over the file
  store this needs a checkpoint that outlives the process, and holds in every run exactly then
  (`Systems.HandsOnceIff`); both compositions in the repository build a `MemoryCheckpointStore`
  (`crates/connectforge-node/src/main.rs:130`, `crates/connectforge-node/src/main.rs:209`).
- `max_records` is documented as "at most this many records" (`crates/connectforge-types/src/topic.rs:17`). The
  file store prunes whole segments and always keeps one, so after a returned call this holds exactly when a
  segment is no larger (`Retention.AtMostMaxIff`). It prunes after writing: a crash in between recovers to a log
  above the bound whatever the sizes are (`Retention.CrashExceedsMax`), until the next call prunes it.
  `Retention.RetainedAtMost` bounds what any state of any run retains.
- HalfOpen is documented as a single trial call (`crates/connectforge-resilience/src/breaker.rs:21`). It admits
  every call (`Breaker.TwoTrials`); `Breaker.TrialsAreNotCounted` says exactly when a call is admitted.
- A dead letter's `attempts` is documented as the number of attempts made
  (`crates/connectforge-types/src/connector.rs:144`). It is the configured bound: exact when all but the last
  attempt had to be retried (`Retry.UsesAllAttemptsIff`, `SinkRuntimes.SinkRuntime.HandleRecord`), and wrong for
  every dead letter of the demo (`Pipelines.DemoLettersOverstate`).
- The in-memory store mirrors the file store (`crates/connectforge-infra/src/memstore.rs:3`) up to where
  retention leaves the start (`Agreement.StoresAgree`, `Agreement.FetchesDiffer`), and up to its segment figure,
  which counts segments ever rolled: the figures agree exactly when nothing was pruned (`Agreement.SegmentFiguresAgreeIff`,
  `Agreement.SegmentFiguresDiffer`).
- A segment's index is described as the byte position of each record, rebuilt from the file. Keys that are not
  UTF-8 are replaced on reading, so decoded records need not encode to the bytes they came from
  (`Codec.MalformedKeyGrows`, `Scanning.IndexIsPrefixSumsIff`). No key the store itself writes is affected.
- `status` looks like a query, but resolves and caches the checkpoint. A write that comes late, wherever `run_once`
  then is, can move the cursor back. At-least-once accounts for as much as before (`Status.LateWriteLosesNothing`),
  but a record can be handed over twice under at-most-once (`Status.LateWriteRepeats`; `Status.LateWriteOnceIff` says
  exactly when), and the durable checkpoint can go back (`Status.LateWriteKeepsCheckpointIff` says exactly when).
- The demo delivers or dead-letters every sourced record only when retention keeps them all
  (`Pipelines.Demo`).

## Model

| member | source | states |
|---|---|---|
| `Codec.DecodeInContext` | crates/connectforge-infra/src/segment.rs:22-72 | inside any surrounding bytes, decoding where a record was encoded gives that record and the position after it; `Layout` says which bytes those are |
| `Codec.RoundTripIff` | crates/connectforge-infra/src/segment.rs:22-72 | the round trip holds exactly for records whose key and payload lengths survive the cast to `u32` |
| `Codec.TornRecordIsEof` | crates/connectforge-infra/src/segment.rs:41-72 | no strict prefix of an encoding decodes: a truncated tail reads as end of file |
| `Codec.DecodeSpan` | crates/connectforge-infra/src/segment.rs:41-72 | a decode depends on nothing but the bytes it consumes, wherever they lie |
| `Codec.Decode` | crates/connectforge-infra/src/segment.rs:41-72 | a successful decode consumes at least 21 bytes and stays inside the data; `Layout.DecodeLayout` says what it reads |
| `Codec.DecodeLength` | crates/connectforge-infra/src/segment.rs:41-72 | on any bytes, a decoded record encodes to the bytes it was decoded from and to those its key grew by when malformed UTF-8 in it was replaced |
| `Codec.MalformedKeyGrows` | crates/connectforge-infra/src/segment.rs:54 | a key of the one byte 0xFF is read as three bytes: the record encodes two bytes longer than it was |
| `Layout.EncodeLayout` | crates/connectforge-infra/src/segment.rs:22-37 | every record is written as: offset, timestamp in two's complement, key flag 1 or 0, key length and key, payload length and payload, each integer byte by byte, least significant first |
| `Layout.DecodeLayout` | crates/connectforge-infra/src/segment.rs:41-72 | on any bytes at any position, what is read and exactly when nothing is: every field at its place, any flag but 1 as "no key", an instant outside the calendar's range as end of file |
| `Layout.KnownBytes` | crates/connectforge-infra/src/segment.rs:22-72 | one literal record of 328 bytes, with a negative timestamp, a key and a two-byte payload length, encodes and decodes to itself |
| `Utf8.LossyIffValid` | crates/connectforge-infra/src/segment.rs:54 | the lossy conversion changes nothing exactly when every character is well formed |
| `Utf8.LossyLength` | crates/connectforge-infra/src/segment.rs:54 | the conversion never shortens: each malformed stretch of one or two bytes grows to three |
| `Unicode.ValidIff` | crates/connectforge-infra/src/segment.rs:54 | the texts of the model are exactly the concatenations of the well-formed byte sequences of Unicode scalar values |
| `Unicode.FirstIsCharIff` | crates/connectforge-infra/src/segment.rs:54 | a character is recognised exactly when the bytes start with some scalar value's byte sequence, and with its length |
| `Unicode.BadIsMaximal` | crates/connectforge-infra/src/segment.rs:54 | what is taken as malformed is a maximal part: bytes that could have become a character until the next one came, or one byte that could not |
| `Unicode.LossyStep` | crates/connectforge-infra/src/segment.rs:54 | the lossy conversion keeps every scalar value's byte sequence, whatever follows, and puts U+FFFD for exactly one maximal part where there is none |
| `Scanning.TornTailRepair` | crates/connectforge-infra/src/segment.rs:118-146 | encodings followed by a strict prefix of another: the scan finds exactly the whole records, and cutting at its end leaves exactly their bytes |
| `Scanning.UniqueParse` | crates/connectforge-infra/src/segment.rs:22-72 | a concatenation of encodings can be split into records in one way only |
| `Scanning.TruncateKeepsScan` | crates/connectforge-infra/src/segment.rs:118-146 | opening is idempotent on arbitrary bytes: what it truncates to scans the same and has no torn tail |
| `Scanning.ScanAppendAll` | crates/connectforge-infra/src/segment.rs:118-178 | open, append any records, open again: the decoded prefix followed by those records |
| `Scanning.IndexIsPrefixSums` | crates/connectforge-infra/src/segment.rs:79-82 | in a file made of encodings, `index[i]` is the total length of the first `i`, and the end that of all |
| `Scanning.IndexIsPrefixSumsIff` | crates/connectforge-infra/src/segment.rs:125-131 | on any bytes, `index[i]` is the total encoded length of the first `i` decoded records exactly when none of their keys grew by being read as text |
| `Scanning.DecodeAfterSeek` | crates/connectforge-infra/src/segment.rs:198-215 | a reader that seeks to an indexed position meets exactly the records a scan of the whole file finds from there on |
| `Segments.Segment.Open` | crates/connectforge-infra/src/segment.rs:118-146 | rebuilds an index equal to a full scan's, truncates exactly the torn tail, and fails exactly when the file is missing |
| `Segments.BuildIndex` | crates/connectforge-infra/src/segment.rs:125-131 | the decoding loop finds every record's position and stops where a full scan ends |
| `Segments.Segment.Append` | crates/connectforge-infra/src/segment.rs:170-178 | adds one record to the contents, keeps index and write position equal to what a scan would rebuild, and writes one encoding |
| `Segments.Segment.ReadFrom` | crates/connectforge-infra/src/segment.rs:185-217 | adds to `out` exactly the segment's records from position `from - base` on, at most `remaining` of them; where offsets are consecutive, that is a full decode filtered by offset |
| `Filtering.SeekIsFilter` | crates/connectforge-infra/src/segment.rs:185-217 | reading by position through the index is filtering a full linear decode by offset and taking `remaining` |
| `FilePartitions.PartitionState.AppendRecords` | crates/connectforge-infra/src/filestore.rs:49-67 | performs the specified roll-and-write steps, on the state and, in the same order, on the directory |
| `FilePartitions.PartitionState.ApplyRetention` | crates/connectforge-infra/src/filestore.rs:71-86 | drops whole head segments exactly as the specification's plan says, file deletions in the same order, and reports the new start exactly when something was pruned |
| `FilePartitions.PartitionState.Append` | crates/connectforge-infra/src/filestore.rs:174-186 | consecutive offsets from `next_offset`; history, segments and directory move exactly as one completed call of the run model, and the journal holds its operations in order; the truncation point is reported exactly when the start moved |
| `FilePartitions.PartitionState.Fetch` | crates/connectforge-infra/src/filestore.rs:88-114 | across segments, the slice of the abstract log from `max(from, start)` of length at most `max`, with its next offset and the high-watermark |
| `FilePartitions.PartitionState.Recover` | crates/connectforge-infra/src/filestore.rs:261-288 | opening every file of an image of a partition, torn tail or not, gives a valid state standing for exactly that partition, as the run model's recovery |
| `FilePartitions.PartialRecovery` | crates/connectforge-infra/src/filestore.rs:276-279 | a recovery that dies part way has repaired some of the files and left the others alone |
| `Parts.StepKeeps` | crates/connectforge-infra/src/filestore.rs:49-86 | every roll, write or drop keeps the segments tiling the retained history and every file equal to its slice of it |
| `Recovery.CrashLeavesImage` | crates/connectforge-infra/src/filestore.rs:49-86 | a crash after any number of steps and any number of bytes of a write leaves a directory that is an image of the steps that took effect |
| `Recovery.PartialCall` | crates/connectforge-infra/src/filestore.rs:49-86 | any part of a call leaves the old history plus a prefix of the batch; pruning starts only after the whole batch is down and goes no further than the call would have |
| `Recovery.CompleteCall` | crates/connectforge-infra/src/filestore.rs:49-86 | a completed call adds the whole batch, keeps the directory in agreement, and never moves the start back |
| `Recovery.RepairKeepsImage` | crates/connectforge-infra/src/filestore.rs:261-288 | recovering all or some of the files loses no record and leaves the repaired ones without torn tails |
| `Recovery.NextSound` | crates/connectforge-infra/src/filestore.rs:49-86 | each call, crash, failed or completed recovery keeps the directory recoverable, the history a prefix of what follows, and the start monotone |
| `Recovery.RunSound` | crates/connectforge-infra/src/filestore.rs:261-288 | over every run of calls, crashes and recoveries the directory recovers to one contiguous log that extends every earlier one: no offset is reused |
| `Recovery.AcknowledgedForever` | crates/connectforge-infra/src/filestore.rs:156-187 | every record of a call that returned is at its offset ever after, through any crashes and recoveries |
| `Retention.CallClosedForm` | crates/connectforge-infra/src/filestore.rs:71-86 | after any non-empty call the start is a function of the next offset, `max_records` and the segment size, however the records were batched |
| `Retention.RunRetention` | crates/connectforge-infra/src/filestore.rs:71-86 | over whole runs with crashes, the start never passes the closed form's boundary and every non-empty call puts it exactly there |
| `Retention.RetainedBounds` | crates/connectforge-infra/src/filestore.rs:71-86 | at most `max(max_records, segment size)` records are retained, and more than the difference of the two once the bound is passed |
| `Retention.AtMostMaxIff` | crates/connectforge-types/src/topic.rs:17-18 | "retain at most this many records" holds after every returned non-empty call of every run exactly when a segment is no larger than that |
| `Retention.RetainedAtMost` | crates/connectforge-infra/src/filestore.rs:71-86 | in any state of any run, recovered ones included, at most `max(max_records, segment size)` records are retained, and those of the calls that crashed since the last one returned |
| `Retention.CrashExceedsMax` | crates/connectforge-infra/src/filestore.rs:180-181 | whatever the bound and the segment size, a crash between writing and pruning recovers to a log above the bound |
| `Retention.OneMoreEvent` | crates/connectforge-infra/src/filestore.rs:49-86 | a call, returned or crashed, adds at most its batch to what is retained, and no recovery adds anything |
| `Paging.PagingIsOneRead` | crates/connectforge-infra/src/filestore.rs:88-114 | following `next_offset` through pages of any sizes reads what one fetch of their total reads, and ends where it ends |
| `Paging.PagesCoverTheLog` | crates/connectforge-infra/src/filestore.rs:88-114 | enough positive pages yield the retained log from the reader's position once, in order, whatever the sizes |
| `Logs.FetchNextOffset` | crates/connectforge-infra/src/filestore.rs:106-108 | the next offset of a fetch is one past its last record, or the clamped start when it is empty |
| `Logs.FetchMeans` | crates/connectforge-infra/src/filestore.rs:88-114 | record by record: from the offset asked for or the first retained one, all up to the limit or the log's end, with one past the last offset as the high-watermark |
| `MemPartitions.Partition.Append` | crates/connectforge-infra/src/memstore.rs:29-54 | adds the batch to the history; at most `max_records` stay when that is positive, exactly that many when something was pruned; reports the new start exactly when it moved |
| `MemPartitions.Partition.FetchIsLogFetch` | crates/connectforge-infra/src/memstore.rs:56-73 | filtering and taking is the abstract log's fetch |
| `MemPartitions.Partition.SegmentsEverRolled` | crates/connectforge-infra/src/memstore.rs:36-39 | the segment counter is the next offset divided by the segment size, rounded up: pruning never lowers it |
| `Agreement.SameHistory` | crates/connectforge-infra/src/memstore.rs:29-54 | driven by the same calls, both stores give every record the same offset, and each store's start is its own function of the length alone |
| `Agreement.StoresAgree` | crates/connectforge-infra/src/memstore.rs:56-73 | after the same calls the two stores answer a fetch alike exactly when their starts coincide or the reader asks at or past both; always without retention |
| `Agreement.FetchesDiffer` | crates/connectforge-infra/src/memstore.rs:47-52 | one call of two records, segments of two, retention of one: a fetch from 0 finds two records in the file store and one in the memory store |
| `Agreement.FileSegments` | crates/connectforge-infra/src/filestore.rs:217 | the segments a file partition holds cover its log from its start to the next segment boundary |
| `Agreement.SegmentFiguresAgreeIff` | crates/connectforge-infra/src/memstore.rs:200 | after the same calls the two stores' segment figures agree exactly when nothing has been pruned |
| `Agreement.SegmentFiguresDiffer` | crates/connectforge-infra/src/memstore.rs:200 | the same call of two records to both stores, with segments of one and retention of one: one segment held, two counted |
| `Agreement.FetchAgrees` | crates/connectforge-infra/src/memstore.rs:56-73 | two logs with one history answer a fetch alike exactly when their starts coincide or the reader asks at or past both |
| `Stores.Store.CreateTopic` | crates/connectforge-infra/src/filestore.rs:130-154 | creates empty partitions with a directory each, or returns false and changes nothing when the topic exists |
| `Stores.Store.Append` | crates/connectforge-infra/src/filestore.rs:156-187 | changes the named partition by one specified call and no other partition at all; an unknown topic or partition is NotFound and changes nothing |
| `Stores.Store.Fetch` | crates/connectforge-infra/src/filestore.rs:189-207 | the partition's abstract fetch, counted in `fetched_total`; an unknown topic or partition is NotFound |
| `Stores.Store.GetStats` | crates/connectforge-infra/src/filestore.rs:209-228 | the figures count, one by one, the topics, partitions, segments, retained records and records ever appended; what was produced is what is retained plus what was pruned |
| `Stores.Store.ProducedIsConserved` | crates/connectforge-infra/src/filestore.rs:182 | at any time `produced_total` is the sum of what partitions retain and what they have pruned |
| `Stores.Conservation` | crates/connectforge-infra/src/filestore.rs:45-47 | summed over any store, next offsets are retained records plus pruned records |
| `Stores.CallCounted` | crates/connectforge-infra/src/filestore.rs:180-182 | one call raises the sum of all next offsets by exactly the batch's length |
| `Stores.SumIsCount` | crates/connectforge-infra/src/filestore.rs:209-228 | a sum over all topics and partitions is the number of things it counts, each named by topic, partition and number |
| `SinkMachine.StepInv` | crates/connectforge-core/src/connector.rs:178-295 | every step, port error or crash keeps the positions ordered and what each guarantee promises, and only a crash that a checkpoint does not survive moves it back |
| `SinkMachine.RunInv` | crates/connectforge-core/src/connector.rs:178-295 | the same over every run |
| `SinkMachine.AtLeastOnceRuns` | crates/connectforge-core/src/connector.rs:178-240 | in every run, each offset below the stored checkpoint was delivered, was written to the dead-letter queue, or had been pruned when the batch after it was fetched; the letter is still in the queue unless a crash empties the queue and keeps the checkpoint |
| `SinkMachine.AtMostOnceRuns` | crates/connectforge-core/src/connector.rs:197-226 | with a durable checkpoint, in every run, the offsets handed to `deliver_one` strictly increase, through errors, half-acknowledged saves and restarts |
| `SinkMachine.CheckpointRuns` | crates/connectforge-core/src/connector.rs:271-295 | the stored checkpoint never passes the high-watermark, nor the cursor it; between any two points of any run a durable one does not decrease |
| `Guarantees.LostIff` | README.md:133 | over a log that survives crashes, "no record is lost" fails for an offset below the checkpoint exactly when some fetch found it pruned before anyone had received it, or when it was never delivered and every dead letter for it went with a queue that a crash emptied |
| `Guarantees.MissedIffPassedOver` | crates/connectforge-core/src/connector.rs:180-240 | an offset below an at-least-once checkpoint reached nobody exactly when some fetch passed over it |
| `Guarantees.InQueueIff` | crates/connectforge-infra/src/dlq.rs:41-46 | what the dead-letter queue holds is what was written to it and no crash has emptied since |
| `Guarantees.VolatileQueueLosesRecords` | crates/connectforge-infra/src/dlq.rs:9-11 | with the in-memory queue: dead-lettered, checkpoint saved, crash; the record is undelivered, in no queue, and was never pruned |
| `Guarantees.GoneForever` | crates/connectforge-core/src/connector.rs:180-195 | once pruned and out of the batch in hand, an offset is never delivered or dead-lettered later |
| `Guarantees.RunInside` | crates/connectforge-core/src/connector.rs:204-226 | in every run, everything handed over, delivered or dead-lettered is below the high-watermark |
| `Guarantees.RetentionLosesRecords` | crates/connectforge-types/src/connector.rs:96-99 | a run in which retention overtakes an at-least-once sink and the checkpoint passes a record nobody received |
| `Guarantees.AtLeastOnceMayRepeat` | crates/connectforge-types/src/connector.rs:96-97 | a run in which a crash before the save delivers a record twice |
| `Guarantees.AtMostOnceMayDrop` | crates/connectforge-types/src/connector.rs:100-101 | a run in which a crash after the save drops a record that was never pruned |
| `Ports.FetchIsBatch` | crates/connectforge-core/src/connector.rs:180-195 | a fetch from any store's log is the batch the step machine reads off the log's two ends |
| `LogPorts.LogPort.Append` | crates/connectforge-core/src/connector.rs:353-355 | behind the port, either store extends one history; the memory store prunes to its bound, the file store makes one call of the run model |
| `LogPorts.LogPort.Fetch` | crates/connectforge-core/src/connector.rs:180-183 | behind the port, either store answers with the abstract log's fetch |
| `Ports.PortSet.DeliverOne` | crates/connectforge-core/src/connector.rs:244-254 | succeeds exactly when some call within the attempt bound succeeds after only unavailable or transient errors; how many calls that took, one if the first answer is "not found" or permanent, and how long the sleeps between them last |
| `Ports.PortSet.DeadLetter` | crates/connectforge-core/src/connector.rs:256-269 | the letter is queued exactly unless the write failed, also when the call reports an error after writing |
| `Retry.UsesAllAttemptsIff` | crates/connectforge-types/src/connector.rs:144-145 | the documented "attempts made" equals the bound that is reported exactly when all but the last of the attempts had to be retried |
| `Retry.LastCallIsMade` | crates/connectforge-resilience/src/retry.rs:64-76 | every call but the last fails retryably, and the last succeeds, cannot be retried, or uses up the attempts |
| `Pipelines.DemoLettersOverstate` | crates/connectforge-node/src/main.rs:211-221 | every dead letter of the demo reports the bound where one call was made |
| `Ports.PortSet.SaveCheckpoint` | crates/connectforge-core/src/connector.rs:56-57 | a save may fail with or without having persisted; nothing else changes |
| `SinkRuntimes.SinkRuntime.constructor` | crates/connectforge-core/src/connector.rs:122-145 | a new runtime is the step machine's fresh state |
| `SinkRuntimes.SinkRuntime.Restart` | crates/connectforge-core/src/connector.rs:122-145 | over the file store, a runtime built after a crash on the recovered log is the step machine's crash: cursor and counters gone, the checkpoint and the queue each kept exactly when it outlives the process |
| `SinkRuntimes.SinkRuntime.RestartInMemory` | crates/connectforge-core/src/connector.rs:122-145 | over the in-memory store, a runtime built after a crash starts over an empty log with whatever checkpoint outlived the process |
| `SinkRuntimes.SinkRuntime.ResolveCheckpoint` | crates/connectforge-core/src/connector.rs:271-282 | the cached cursor, else the durable checkpoint, else 0, cached; a failed load changes nothing: one step of the machine |
| `SinkRuntimes.SinkRuntime.CommitCheckpoint` | crates/connectforge-core/src/connector.rs:284-295 | a run of the machine that saves; the cursor moves only when the save reports success |
| `SinkRuntimes.SinkRuntime.HandleRecord` | crates/connectforge-core/src/connector.rs:204-226 | one turn of the loop is a run of the machine; the record is delivered exactly when its retries succeed, otherwise its letter is queued as the queue answers, and the turn fails exactly when that is not acknowledged; the letter's `attempts` is the number of calls exactly when all but the last had to be retried |
| `SinkRuntimes.SinkRuntime.DeadLetter` | crates/connectforge-core/src/connector.rs:256-269 | one dead-letter call, a run of the machine: the letter carries the configured bound, is queued unless the call failed without effect, and is counted exactly when acknowledged |
| `SinkRuntimes.SinkRuntime.ReadBatch` | crates/connectforge-core/src/connector.rs:179-195 | the resolve and fetch of a round are a run of the machine that fails exactly when one of the two calls does, and the batch is the log's next `batch_size` records |
| `SinkRuntimes.SinkRuntime.DeliverAll` | crates/connectforge-core/src/connector.rs:202-226 | the loop is a run of the machine; it stops exactly at the first record whose letter is not acknowledged, and up to there sink and queue hold what the script's answers split the batch into |
| `SinkRuntimes.SinkRuntime.HandleBatch` | crates/connectforge-core/src/connector.rs:197-232 | saving, delivering and saving around a batch is a run of the machine; it gives up exactly when one of its own port calls fails, and sink, queue, counters, cursor and checkpoint are then what those calls made them |
| `SinkRuntimes.SinkRuntime.RunOnce` | crates/connectforge-core/src/connector.rs:178-240 | under every environment, over either store, whatever others append meanwhile, one round is a crash-free run of the step machine; it is an error exactly when a port call it makes fails, and leaves sink, queue, counters, cursor and checkpoint as the answers to those calls say; a report's figures are the batch's |
| `Rounds.WorkingRound` | crates/connectforge-core/src/connector.rs:178-240 | with working ports a round succeeds whatever the sink answers and others append; every record read was delivered or dead-lettered and counted, and the batch's end is stored and cached |
| `Rounds.ReachedMeans` | crates/connectforge-core/src/connector.rs:204-226 | the loop handles every record before the first whose letter is not acknowledged, and none after |
| `Rounds.SteadyBatch` | crates/connectforge-core/src/connector.rs:204-226 | with working ports and a sink whose answers do not change, a batch is split into what the sink takes, in order, and letters for the rest |
| `Draining.Drain` | crates/connectforge-core/src/connector.rs:172-174 | with no port failing and a fixed log, the loop ends after exactly ceil(left / batch_size) non-empty, adjacent rounds, each record delivered or dead-lettered once, checkpoint at the high-watermark |
| `Draining.OneMoreRound` | crates/connectforge-core/src/connector.rs:178-240 | an undisturbed round is empty exactly when the reader is caught up, and otherwise extends what was read by the next batch |
| `Connectors.FailingSink.Deliver` | crates/connectforge-infra/src/connectors.rs:79-90 | refuses a batch whole and permanently exactly when it holds a multiple of `fail_every`, else keeps it all |
| `Connectors.GeneratorSource.Poll` | crates/connectforge-infra/src/connectors.rs:121-133 | hands out the generator's stream in order, the smaller of what remains and the batch size, and no more than the total |
| `Pipelines.SourceRuntime.RunOnce` | crates/connectforge-core/src/connector.rs:347-363 | a round's records are in the log, in order, and counted, or nothing was appended; a failed append loses what was polled, and only that |
| `Pipelines.Fill` | crates/connectforge-node/src/main.rs:198-205 | polling until idle puts the whole stream into the log, in order, and counts it |
| `Pipelines.Demo` | crates/connectforge-node/src/main.rs:198-235 | over any empty store: of what retention kept, exactly the multiples of `fail_every` are dead-lettered and the others delivered, in order; checkpoint at the end; with nothing pruned, ceil(N / k) dead letters and N - ceil(N / k) deliveries |
| `Pipelines.DemoInMemory` | crates/connectforge-node/src/main.rs:46-49 | the demo over the in-memory store, which keeps the last `max_records` |
| `Pipelines.DemoOnDisk` | crates/connectforge-node/src/main.rs:40-45 | the demo over the file store, which keeps whole segments |
| `Connectors.AnswerToOne` | crates/connectforge-infra/src/connectors.rs:79-90 | given one record, the failing sink refuses exactly a multiple of `fail_every` |
| `Pipelines.PickedExactly` | crates/connectforge-infra/src/connectors.rs:80-87 | the delivered (or refused) offsets are exactly those not divisible (divisible) by `fail_every`, each once, increasing |
| `Pipelines.PickedCount` | crates/connectforge-infra/src/connectors.rs:80-87 | below `n` there are `n / k` rounded up multiples of `k`, none refused when `k` is 0 |
| `Systems.SinkRun` | crates/connectforge-core/src/connector.rs:178-295 | over the durable log, with one crash hitting log and sink together, every run is to the sink a run of the step machine over the log's ends |
| `Systems.StoreRun` | crates/connectforge-infra/src/filestore.rs:261-288 | every run of the system is to the store a run of calls, crashes and recoveries |
| `Systems.NothingGoesBack` | crates/connectforge-core/src/connector.rs:284-295 | between any two points of any run of the system the history is extended, and neither the start nor a durable checkpoint moves back |
| `Systems.CheckpointIsOnDisk` | crates/connectforge-core/src/connector.rs:284-295 | after any crash, the surviving checkpoint does not point past the surviving log, nor does anything handed over |
| `Systems.AcknowledgedIsHandled` | crates/connectforge-core/src/connector.rs:178-240 | a record that a returned append acknowledged keeps offset and content, and once the checkpoint is past it was delivered, written to the dead-letter queue or pruned before its batch was fetched |
| `Systems.NoRecordTwice` | crates/connectforge-core/src/connector.rs:197-226 | at most once over the durable log, with a durable checkpoint: handed offsets strictly increase through crashes, and an offset names the same record ever after |
| `Systems.UnboundedMissesNothing` | README.md:133 | without a retention bound, everything below an at-least-once checkpoint was delivered or dead-lettered, and is still held by someone unless the checkpoint outlives the process and the queue does not |
| `Systems.LosesNothingIff` | README.md:133 | over the durable log, "no record is lost" holds in every run exactly when retention is unbounded and the dead-letter queue outlives the process if the checkpoint does |
| `Systems.BoundedLoses` | crates/connectforge-types/src/connector.rs:96-99 | for every bound and segment size some run makes retention overtake an at-least-once sink |
| `Systems.VolatileLoses` | crates/connectforge-infra/src/dlq.rs:9-11 | whatever retention does, a queue that dies with the process under a checkpoint that does not loses a record in some run |
| `Systems.HandsOnceIff` | crates/connectforge-types/src/connector.rs:100-101 | over the durable log, "never redelivers" holds of an at-most-once sink in every run exactly when its checkpoint outlives the process |
| `Systems.KeepsCheckpointIff` | crates/connectforge-infra/src/checkpoint.rs:1-2 | over the durable log, the checkpoint goes back in no run exactly when it outlives the process |
| `InMemory.StaleNeverHanded` | crates/connectforge-node/src/main.rs:45-48 | after the in-memory log has died, a new record at an offset below the checkpoint that is left is never handed over, dead-lettered or passed over by a fetch, whatever the process does |
| `InMemory.StaleCheckpointIff` | README.md:133 | the records of the new log below the checkpoint are accounted for, in every run of the process, exactly when no checkpoint is left |
| `InMemory.AccountsIff` | README.md:133 | at least once over the in-memory log: what lies below the checkpoint is accounted for, however often the process is restarted, exactly when the checkpoint dies with it |
| `InMemory.CheckpointInsideIff` | crates/connectforge-core/src/connector.rs:284-295 | over any restarts, the checkpoint stays within the in-memory log exactly when it dies with it |
| `InMemory.HandsOnceInEveryLife` | crates/connectforge-types/src/connector.rs:100-101 | at most once over the in-memory log: no process hands an offset of its log over twice, whatever checkpoint it finds |
| `Status.LateWriteOnceIff` | crates/connectforge-core/src/connector.rs:271-282 | when `status`, at any point of an at-most-once `run_once`, writes back a checkpoint it loaded earlier, no record is handed over twice, whatever happens next, exactly when all that was handed over and the batch being handed over lie before the first offset read from there |
| `Status.LateWriteKeepsCheckpointIff` | crates/connectforge-core/src/connector.rs:160-170 | after such a write at any point, under either guarantee, the durable checkpoint never goes back, whatever happens next, exactly when one batch from the loaded offset reaches the checkpoint and the batch in hand, and a batch about to be fetched starts no later |
| `Status.LateWriteLosesNothing` | crates/connectforge-core/src/connector.rs:271-282 | after such a write, what lies below an at-least-once checkpoint is still delivered, dead-lettered or pruned before its fetch, in every run |
| `Status.LateWriteRepeats` | crates/connectforge-core/src/connector.rs:271-282 | at most once with such a late write: a record is handed over twice |
| `Breaker.AcquireIsHistory` | crates/connectforge-resilience/src/breaker.rs:62-95 | a call is rejected exactly when at least `failure_threshold` failures lie behind the last success and one of them is less than the cooldown ago |
| `Breaker.TrailingMeans` | crates/connectforge-resilience/src/breaker.rs:98-114 | the failure count is the number of failures with no success after them |
| `Breaker.CircuitBreaker.constructor` | crates/connectforge-resilience/src/breaker.rs:62-73 | a new breaker has an empty history, and a threshold of 0 counts as 1 |
| `Breaker.ReplayMeaning` | crates/connectforge-resilience/src/breaker.rs:76-114 | the breaker's fields are functions of the history of calls |
| `Breaker.LooksDoNotMatter` | crates/connectforge-resilience/src/breaker.rs:76-84 | a breaker whose state was polled in between admits exactly the calls that one that was not polled does |
| `Breaker.TrialsAreNotCounted` | crates/connectforge-resilience/src/breaker.rs:21-22 | after any calls at any times since the last recorded result, the next is admitted exactly when the failures since the last success are below the threshold or the cooldown since each is over: not a single trial |
| `Breaker.TwoTrials` | crates/connectforge-resilience/src/breaker.rs:21-22 | a breaker that opened at 0 with a cooldown of 5 is HalfOpen and admits at 5, and again at 6 |
| `Breaker.CircuitBreaker.State` | crates/connectforge-resilience/src/breaker.rs:76-84 | the state is open exactly when the history rejects, closed exactly when the failures are below the threshold |
| `Breaker.CircuitBreaker.Acquire` | crates/connectforge-resilience/src/breaker.rs:90-95 | rejects exactly when the history does |
| `Breaker.CircuitBreaker.OnSuccess` | crates/connectforge-resilience/src/breaker.rs:98-102 | the fields stay those of the history with one more success |
| `Breaker.CircuitBreaker.OnFailure` | crates/connectforge-resilience/src/breaker.rs:105-114 | the fields stay those of the history with one more failure |
| `Limiter.WindowBound` | crates/connectforge-resilience/src/limiter.rs:52-82 | in any window of any run no more is granted than the capacity plus `refill_per_sec` times the window's length |
| `Limiter.GrantedIff` | crates/connectforge-resilience/src/limiter.rs:52-82 | `n` is granted exactly when it is at most the capacity and at most the tokens plus `refill_per_sec` times the time since the last refill |
| `Limiter.WaitingIsEnough` | crates/connectforge-resilience/src/limiter.rs:52-82 | after any run, waiting `(n - tokens) / refill_per_sec` gets any request up to the capacity granted, and waiting less does not; `n / refill_per_sec` always suffices |
| `Limiter.Conserved` | crates/connectforge-resilience/src/limiter.rs:52-82 | over any run, what was granted, what is left and what spilled over the brim is what was there plus `refill_per_sec` times the time |
| `Limiter.RateLimiter.constructor` | crates/connectforge-resilience/src/limiter.rs:39-50 | the bucket starts full; a capacity below 1 counts as 1, a negative rate as 0 |
| `Limiter.GrantedBound` | crates/connectforge-resilience/src/limiter.rs:52-82 | what a run grants and what is left come from what was there and what was refilled |
| `Limiter.StaysInRangeIff` | crates/connectforge-resilience/src/limiter.rs:73-82 | tokens stay within the bucket from every state exactly when the request is not negative |
| `Limiter.RefillTwice` | crates/connectforge-resilience/src/limiter.rs:52-59 | refilling at an intermediate time changes nothing |
| `Limiter.TouchesDoNotMatter` | crates/connectforge-resilience/src/limiter.rs:52-82 | refilling at any extra times, anywhere in a run, changes no decision |
| `Limiter.RateLimiter.TryAcquireN` | crates/connectforge-resilience/src/limiter.rs:73-82 | grants exactly when capacity, tokens and the refill since the last time allow it, updates as the specified bucket does, and stays within range for requests that are not negative |
| `Retry.RetryIf` | crates/connectforge-resilience/src/retry.rs:54-77 | succeeds exactly when some call within the bound does after only unavailable or transient errors; one call when the first answer is "not found" or permanent; the sleeps are the backoffs, one after each call but the last, and at least half of their caps |
| `Retry.SucceedsIff` | crates/connectforge-resilience/src/retry.rs:54-77 | succeeds exactly when some call within the bound succeeds and every earlier one was unavailable or transient |
| `Retry.FailsIff` | crates/connectforge-resilience/src/retry.rs:54-77 | fails exactly when the bound runs out on unavailable or transient errors, or a "not found" or permanent error comes first |
| `Retry.BackoffBounds` | crates/connectforge-resilience/src/retry.rs:32-46 | each backoff lies between half the capped exponential and all of it, whatever the clock's nanoseconds |
| `Retry.BackoffReaches` | crates/connectforge-resilience/src/retry.rs:36-45 | the clock's nanoseconds choose the jitter: every value from 0 to half the delay, in turn |
| `Retry.CappedDoubles` | crates/connectforge-resilience/src/retry.rs:33-34 | the capped delay starts at the base delay and doubles with every attempt until it meets the cap; after sixteen doublings it stays |
| `Retry.CappedGrows` | crates/connectforge-resilience/src/retry.rs:33-34 | the capped delay never shrinks from one attempt to the next |

## Left out

- Timestamps are whole milliseconds within the calendar's range; the file format keeps no more, and the clock
  that supplies them is a parameter.
- Keys are the bytes of Rust strings: well-formed UTF-8, by their type.
- Codec.DecodeInContext: assumes lengths below 2^32; `Codec.RoundTripIff` shows that the code does too.
- Offsets stay below 2^64: calls that would pass it are not modelled.
- I/O errors the process survives (a failed write that leaves uncounted bytes, a failed delete that leaves the
  start behind), and buffers the operating system loses on power failure. A write is either whole, or torn by a
  crash of the process.
- Directory scanning: `FilePartitions.PartitionState.Recover` takes the sorted list of bases as given.
  `topic.json`, serde and JSON are not modelled, so the store is proved from an empty root; `produced_total`
  of a reopened store restarts at 0 in the code.
- Stores.Store.Append: the conservation law is stated from a fresh store, for calls that do not fail with an
  I/O error.
- Retention.CallClosedForm: is about non-empty calls; an empty call prunes too, and after a crash may prune what
  the crashed call had not (`Retention.RunRetention` bounds it).
- SinkMachine.AtMostOnceRuns: assumes one driver per runtime (two concurrent `run_once` calls could hand the same
  batch over twice), a checkpoint that outlives the process (`Systems.HandsOnceIff` shows that this is needed), and
  no late `status` write (`Status.LateWriteOnceIff` is about those).
- SinkMachine.CheckpointRuns: makes the same assumptions for its last clause (`Systems.KeepsCheckpointIff`,
  `Status.LateWriteKeepsCheckpointIff`), and is about a log that survives crashes (`InMemory.CheckpointInsideIff`).
- Status.LateWriteOnceIff: is about one late write under a durable checkpoint; without one, a crash alone repeats
  records.
- Status.LateWriteKeepsCheckpointIff: the same; without a durable checkpoint, a crash alone moves it back.
- Guarantees.LostIff: is about a log that survives crashes; `InMemory` is about the other.
- LogPorts.LogPort.Append: other tasks' batches that a file could not hold (lengths of 2^32 and more) are not
  appended.
- Draining.Drain: needs `batch_size >= 1`; with 0 the code reports "caught up" without reading.
- Checkpoints are one cell per connector, topic and partition; the key string, whose separator is not
  injective, is not modelled. A save is atomic, as the temporary file and rename make it.
- The reason and time of a dead letter, connector names, status snapshots and metrics.
- `RecordGenerator`: any stream of records takes its place.
- Limiter.WindowBound: tokens and seconds are exact reals; floating-point rounding is not modelled.
- Breaker.CircuitBreaker.OnFailure: assumes fewer than 2^32 failures in a row; the `u32` counter would overflow.
- Retry.BackoffBounds: assumes the jitter's `u64` increment does not overflow, which holds for delays a
  connector can configure (`Ports.ShortDelaysFit`). The clock's nanoseconds are an arbitrary input.
- Interleaving inside one store call: a mutex makes each call atomic. Between the steps of a sink, other tasks
  may append at will.
- `LogEngine`, the event bus, GraphQL, the registry, the CLI, telemetry, timeouts and bulkheads: routing and
  plumbing whose properties are one body long.
