# Verified model of the GCS benchmark client

This project models the schedulers, allocators and codecs of the gRPC benchmark client for Google Cloud
Storage, of its sample client, its dummy server and its trace analysis, and proves what holds of them over
whole runs. Check it with `dafny verify dfyconfig.toml`.

## What is modelled

| files | subject |
|---|---|
| `BalancedPool`, `RoundRobin`, `ScoringPool`, `ScoringPoolRuns`, `ScoringPoolLaws`, `ScoringPoolQuorum` (on `Channels`, `Arithmetic`, `Sums`) | the channel pools "bpool", "pool" and "spool" |
| `ChannelManager`, `ChannelManagerLaws` | the sample client's lazy channel manager |
| `WorkQueue`, `Runner`, `RunnerRetries`, `RunnerWatcher` | the work-stealing queue, the worker threads as a step system, the workers drawing from the bpool, and the watcher |
| `Crc32c`, `Crc32cWords`, `Upload` | CRC32C (section 12.1 and appendix B.4 of RFC 3720) and the chunked upload |
| `Json`, `CleanJson`, `JsonRoundTrip`, `Trace`, `TraceText`, `TextMode`, `TraceFile` | the trace printer, the comma clean-up, a JSON reader (sections 2 to 7 of RFC 8259), reading as text, and the round trip |
| `PeerReport` | the aggregation by peer and second |
| `Decimal`, `ObjectName`, `ObjectCollision`, `ObjectSize` | object names, how jobs get theirs, and the sizes the dummy server reads off them |
| `ReadReactor` | the dummy server's read reactor |
| `ChannelPoller` | the connectivity poller and its shutdown handshake |

An object whose methods update its fields is a class here, with the same fields; its methods are tied to
step predicates over a value that also holds a history (the handles that are out, the slots served, the
reports since a reset), and the properties over runs are lemmas about those steps. A step is one critical
section. A channel is a fresh number: a caller's stub keeps its channel alive until the report, so an
outstanding handle is never reused.

## What the proofs brought to light

* `ChannelManager::OnRpcDone` compares where its comment says it replaces (channel_manager.cc:81-82).
  Both forms are modelled. With the replacement the manager balances as intended. As written, a count is
  the gets minus the ordinary reports since the last call on the channel that ended with CANCELLED or
  DEADLINE_EXCEEDED, modulo 2^64 (`CountsAreNet`). The counts stay right exactly on the runs where every
  such call was alone on its channel (`AsWrittenCountsIff`). The pool grows beyond its maximum exactly
  when a handle is got while it is full and that difference is -1 on every channel (`ExceedsMaximumIff`);
  two calls on a pool of one are enough (`AsWrittenExceedsMaximum`).
* The spool keeps scores for the channels of the last reset only. Once errors have taken so many of them
  out of the pool that fewer than half have samples, are in the pool or have a handle out, it never
  evaluates its channels again (`EvaluationPossibleIff`, `TwoFailuresEndEvaluation`).
* `DoWrite` refuses a positive object_stop only, while any object_stop but 0 makes the names cycle: with
  a negative one, more than |stop - start| runs write some object twice (`ObjectCollision.NamesDistinctIff`).
* Digits alone between the two placeholders of an object format do not keep names apart
  (`UnambiguousIff`); for which numbers of threads and runs they still do is in
  `ObjectCollision.NamesDistinctIff`.
* A chunk_size of 0 is used as it is: the upload sends empty requests, each with the object's name, until
  a write fails (`EmptyChunksNeverEnd`). And the offset may overflow behind the last chunk, as with
  2^63 - 1 bytes in chunks of 2^62 + 1 (`HugeChunksAreNotPossible`).
* The trace is read as text, so a carriage return in a tag, a peer or an object name comes back as a line
  feed (`FileRoundTrip`).
* The comment at gcs_util.cc:56 takes 100KB as an example, but KB is not a unit there: the size is -1
  (`HundredKBHasNoSize`).
* The poller's destructor can wait for ever exactly when its channel has another owner
  (`AlwaysReturnsIff`).
* The analysis fails when a peer has OK operations but no chunk (`Transform`).

## Model

| member | source | states |
|---|---|---|
| `BalancedPool.CountsExactAndBounded` | e2e-examples/gcs/benchmark/channel_policy.cc:148-196 | on every run of gets and reports with at most `bound` handles out, evictions and late reports included: every in-use count is the number of unreported handles on the slot's current channel, and no channel, current or replaced, carries more than ceil(bound / size) |
| `BalancedPool.GetKeepsValid` | e2e-examples/gcs/benchmark/channel_policy.cc:148-165 | a get keeps the counts exact, and adds exactly its handle to the unreported ones |
| `BalancedPool.GetKeepsBalance` | e2e-examples/gcs/benchmark/channel_policy.cc:148-165 | a get from the least used slot cannot exceed the bound while fewer than `bound` handles are out |
| `BalancedPool.GetTakesFirstLeastLoaded` | e2e-examples/gcs/benchmark/channel_policy.cc:151-164 | a get returns the first of the channels with the fewest unreported handles, and changes no channel |
| `BalancedPool.ReportKeepsValid` | e2e-examples/gcs/benchmark/channel_policy.cc:167-196 | a report of an unreported handle keeps the counts exact, whether it is normal, evicts, or comes late on a replaced channel |
| `BalancedPool.FailedChannelLeaves` | e2e-examples/gcs/benchmark/channel_policy.cc:181-195 | after a report with CANCELLED or DEADLINE_EXCEEDED the channel is in no slot; if it was in one, exactly that slot holds a new channel with a count of zero |
| `BalancedPool.OtherReportsKeepChannels` | e2e-examples/gcs/benchmark/channel_policy.cc:172-184 | a report with any other status leaves every slot its channel |
| `BalancedPool.FailedChannelIsNotHandedOut` | e2e-examples/gcs/benchmark/channel_policy.cc:148-196 | on every run: no get after such a report returns the failed channel, and none before it the channel that took its place |
| `BalancedPool.RoundRobinPlusChannelPool.GetStorageStub` | e2e-examples/gcs/benchmark/channel_policy.cc:148-165 | the first slot with the smallest count is chosen and counts one more |
| `BalancedPool.RoundRobinPlusChannelPool.ReportResult` | e2e-examples/gcs/benchmark/channel_policy.cc:167-196 | the handle's slot counts one less, or is replaced and reset after a hopeless error; no other slot changes |
| `RoundRobin.FairWindow` | e2e-examples/gcs/benchmark/channel_policy.cc:101 | a cursor that advances by one visits every slot floor(k/n) or ceil(k/n) times in any k consecutive visits |
| `RoundRobinPool.FairOverAnyWindow` | e2e-examples/gcs/benchmark/channel_policy.cc:99-123 | any window of handouts on any run, evictions between them included, is fair to every slot |
| `RoundRobinPool.HandlesComeInTurn` | e2e-examples/gcs/benchmark/channel_policy.cc:99-106 | on every run: handout number k returns the channel that slot (k + 1) % size holds at that time |
| `RoundRobinPool.FairToChannels` | e2e-examples/gcs/benchmark/channel_policy.cc:99-106 | over any part of a run without replacements, k handouts return every channel of the pool floor(k/n) or ceil(k/n) times |
| `RoundRobinPool.FailedChannelLeaves` | e2e-examples/gcs/benchmark/channel_policy.cc:108-123 | after a report with CANCELLED or DEADLINE_EXCEEDED a new channel is in the place of the failed one, and every other channel is kept |
| `RoundRobinPool.OtherReportsKeepChannels` | e2e-examples/gcs/benchmark/channel_policy.cc:108-123 | a report with any other status changes no slot |
| `RoundRobinPool.FailedChannelIsNotHandedOut` | e2e-examples/gcs/benchmark/channel_policy.cc:99-123 | on every run: no handout after such a report returns the failed channel |
| `RoundRobinPool.RoundRobinChannelPool.ReportResult` | e2e-examples/gcs/benchmark/channel_policy.cc:108-123 | a hopeless error replaces the first slot with that channel in place; any other report changes nothing |
| `ScoringPool.SmartRoundRobinChannelPool.Scan` | e2e-examples/gcs/benchmark/channel_policy.cc:272-292 | whatever the order of the walk: the number of sampled channels, the true least score with a channel that has it, and the true best score |
| `ScoringPool.ScanOrderIsIrrelevant` | e2e-examples/gcs/benchmark/channel_policy.cc:272-292 | any two scans of the same map agree on count, least and best score, and on whether there is a least channel |
| `ScoringPool.SmartRoundRobinChannelPool.ReportResult` | e2e-examples/gcs/benchmark/channel_policy.cc:235-317 | errors evict at once or are ignored; an OK report is recorded and, when due, evaluated; the only demand is that a due evaluation does not divide by zero milliseconds |
| `ScoringPool.SmartRoundRobinChannelPool.Evaluate` | e2e-examples/gcs/benchmark/channel_policy.cc:271-316 | nothing when not due or without a quorum, else a reset, after an eviction if the least score is below a third of the best |
| `ScoringPoolRuns.ScoresAccountForReports` | e2e-examples/gcs/benchmark/channel_policy.cc:235-326 | on every run, whatever the reports: the map's keys are the channels of the last reset, each entry is the sum of that channel's OK reports since then, and the counts add up to at most score_count, even after error evictions |
| `ScoringPoolRuns.FairOverAnyWindow` | e2e-examples/gcs/benchmark/channel_policy.cc:226-233 | any window of handouts is fair to every slot, evictions included |
| `ScoringPoolLaws.HandlesComeInTurn` | e2e-examples/gcs/benchmark/channel_policy.cc:226-233 | on every run: handout number k returns the channel that slot (k + 1) % size holds at that time |
| `ScoringPoolLaws.FairToChannels` | e2e-examples/gcs/benchmark/channel_policy.cc:226-233 | over any part of a run without replacements, k handouts return every channel of the pool floor(k/n) or ceil(k/n) times |
| `ScoringPoolLaws.FailedChannelLeaves` | e2e-examples/gcs/benchmark/channel_policy.cc:235-257 | after a report with CANCELLED or DEADLINE_EXCEEDED a new channel is in the place of the failed one; every other channel and all scores are kept |
| `ScoringPoolLaws.OtherErrorsKeepChannels` | e2e-examples/gcs/benchmark/channel_policy.cc:235-257 | any other error changes no channel and no score |
| `ScoringPoolLaws.FailedChannelIsNotHandedOut` | e2e-examples/gcs/benchmark/channel_policy.cc:226-257 | on every run: no handout after such a report returns the failed channel |
| `ScoringPoolRuns.OnlyALaggardIsEvicted` | e2e-examples/gcs/benchmark/channel_policy.cc:268-315 | a slot changed by an evaluation held a least scorer, strictly below a third of the best, with at least floor(n/2) channels sampled; every other slot is kept |
| `ScoringPoolLaws.TallyIsSums` | e2e-examples/gcs/benchmark/channel_policy.cc:259-266 | an entry of the score map holds the number, the summed bytes and the summed time of the reports on its channel |
| `ScoringPoolLaws.ScoresAreRates` | e2e-examples/gcs/benchmark/channel_policy.cc:272-292 | the sampled channels are those with reports since the reset, and the score of each is its summed bytes divided by the whole milliseconds of its summed time |
| `ScoringPoolLaws.EvaluationReplacesLaggard` | e2e-examples/gcs/benchmark/channel_policy.cc:268-316 | said of the reports alone, in every case: without floor(n/2) reporting channels nothing changes; with them the scores start afresh, and a channel of least bytes per millisecond, if that is below a third of another's, is replaced if it is still in the pool, and otherwise no channel is |
| `ScoringPoolLaws.LaggardIsThreeTimesSlower` | e2e-examples/gcs/benchmark/channel_policy.cc:282-311 | such a channel moved fewer than a third of the bytes that another one moved in the same time |
| `ScoringPoolRuns.ThreeSamplesEach` | e2e-examples/gcs/benchmark/channel_policy.cc:226-271 | 3n reports of consecutive handouts give every channel at least three samples |
| `ScoringPoolRuns.FullQuorumResets` | e2e-examples/gcs/benchmark/channel_policy.cc:294-315 | a due evaluation of fully sampled channels resets the scores and replaces at most one slot |
| `ScoringPoolRuns.EvaluatesPeriodically` | e2e-examples/gcs/benchmark/channel_policy.cc:226-316 | one client alternating gets and OK reports: evaluation on exactly every (3n+1)-th report, at least three samples each, at most one slot replaced |
| `ScoringPoolQuorum.OutOfQuorumForever` | e2e-examples/gcs/benchmark/channel_policy.cc:268-301 | when fewer than floor(n/2) scored channels have samples, are in the pool or have a handle out, no future of clients that report every handle at most once, early or late, has an evaluation that resets the scores |
| `ScoringPoolQuorum.QuorumReached` | e2e-examples/gcs/benchmark/channel_policy.cc:226-315 | handouts and OK reports of what is missing lead to an evaluation with a quorum |
| `ScoringPoolQuorum.EvaluationPossibleIff` | e2e-examples/gcs/benchmark/channel_policy.cc:240-315 | some such future has an evaluation that resets the scores exactly when at least floor(n/2) scored channels have samples, are in the pool or have a handle out |
| `ScoringPoolQuorum.TwoFailuresEndEvaluation` | e2e-examples/gcs/benchmark/channel_policy.cc:240-257 | a pool of two whose first two calls end hopelessly comes to a state from which no future has such an evaluation |
| `ChannelManager.ReplacementBalances` | e2e-examples/gcs/sample/channel_manager.cc:47-93 | with the announced replacement, on every run: at most max channels, no sharing below max, at most ceil(bound / max) calls on any channel, exact counts, and channel_handle_count_ is the number of live handles |
| `ChannelManager.GetKeepsBalance` | e2e-examples/gcs/sample/channel_manager.cc:47-72 | a get keeps the pool within its maximum and the calls balanced |
| `ChannelManagerLaws.GetIsLazy` | e2e-examples/gcs/sample/channel_manager.cc:50-71 | a get adds a channel exactly when every channel in the pool has a call in flight and there is room for one more; otherwise it takes the first of those with the fewest calls |
| `ChannelManagerLaws.PoolIsNoLargerThanPeak` | e2e-examples/gcs/sample/channel_manager.cc:60-67 | the pool never has more channels than calls were ever in flight at one time: with the announced replacement on every run, and as written when hopeless calls are alone on their channels |
| `ChannelManagerLaws.FailedChannelLeaves` | e2e-examples/gcs/sample/channel_manager.cc:78-84 | with the announced replacement, after a report with CANCELLED or DEADLINE_EXCEEDED the channel is in no slot, and its slot holds a new one without calls |
| `ChannelManagerLaws.FailedChannelStays` | e2e-examples/gcs/sample/channel_manager.cc:78-84 | as written, it stays in its slot with a count of zero, whatever calls it has |
| `ChannelManagerLaws.OtherReportsKeepChannels` | e2e-examples/gcs/sample/channel_manager.cc:74-88 | a report with any other status keeps every slot's channel |
| `ChannelManagerLaws.FailedChannelIsNotHandedOut` | e2e-examples/gcs/sample/channel_manager.cc:47-88 | with the announced replacement, on every run: no get after such a report returns the failed channel |
| `ChannelManager.DoneKeepsCounted` | e2e-examples/gcs/sample/channel_manager.cc:74-88 | a report keeps the counts exact always with the announced replacement, and as written exactly when a hopeless call was alone on its channel |
| `ChannelManager.AsWrittenCountsIff` | e2e-examples/gcs/sample/channel_manager.cc:74-88 | as written, the counts stay exact over a run exactly when every call that ends hopelessly is alone on its channel; then the calls are balanced |
| `ChannelManager.CountsAreNet` | e2e-examples/gcs/sample/channel_manager.cc:47-88 | as written, on every run: a slot's count is the gets minus the ordinary reports on its channel since the last hopeless report on it, modulo 2^64 |
| `ChannelManager.GetGrowsFullPoolIff` | e2e-examples/gcs/sample/channel_manager.cc:50-67 | as written, a get makes a full pool larger exactly when that difference is -1 on every channel |
| `ChannelManager.ExceedsMaximumIff` | e2e-examples/gcs/sample/channel_manager.cc:47-88 | as written, a run takes the pool beyond its maximum exactly when it has a get at such a time |
| `ChannelManager.AsWrittenExceedsMaximum` | e2e-examples/gcs/sample/channel_manager.cc:50-87 | as written, two calls on a pool of one channel wrap its count and make the pool exceed its maximum |
| `ChannelManager.Manager.FindCandidate` | e2e-examples/gcs/sample/channel_manager.cc:50-58 | the first channel with the least count below SIZE_MAX, or none |
| `ChannelManager.Manager.GetHandle` | e2e-examples/gcs/sample/channel_manager.cc:47-72 | a channel is created only when there is no usable one or no idle one below the maximum; the chosen one counts one more |
| `ChannelManager.Manager.OnRpcDone` | e2e-examples/gcs/sample/channel_manager.cc:74-88 | the code as written: the count goes down, or to zero with the failed channel left in place |
| `WorkQueue.PopDispensesOnce` | e2e-examples/gcs/benchmark/work_queue.cc:25-52 | a pop yields a job that was never dispensed, dispenses exactly it, and leaves one less; or it yields none and changes nothing |
| `WorkQueue.NoJobMeansDone` | e2e-examples/gcs/benchmark/work_queue.cc:32-51 | a thread told (0, 0) has used up its own jobs, and with stealing the whole queue is empty |
| `WorkQueue.OwnJobsFirst` | e2e-examples/gcs/benchmark/work_queue.cc:25-52 | on any history of pops: a thread's jobs are returned in order; a call returns another thread's job only by stealing, after all jobs of its own thread and of every thread before that one; and no job only when the caller is none of the threads, or has used up its own and cannot steal |
| `WorkQueue.PoppedJobsAreDistinct` | e2e-examples/gcs/benchmark/work_queue.cc:25-52 | on any history of pops: the jobs returned are pairwise distinct and are exactly those the counters say |
| `WorkQueue.AllJobsDispensed` | e2e-examples/gcs/benchmark/work_queue.cc:25-52 | once every thread has seen (0, 0), each of the T*W jobs was returned exactly once, stealing or not |
| `WorkQueue.PopIsPossible` | e2e-examples/gcs/benchmark/work_queue.cc:25-52 | a pop always has an outcome |
| `WorkQueue.WorkQueue.Pop` | e2e-examples/gcs/benchmark/work_queue.cc:25-52 | the caller's next job, else with stealing the next job of the first thread that has one, else (0, 0) |
| `Runner.OneOkRecordPerJob` | e2e-examples/gcs/benchmark/grpc_runner.cc:200-292 | on every interleaving, with any failures: no job has two OK records, and when all threads have returned true each pair of [1..T] x [1..W] has exactly one |
| `Runner.RecordsAreOfJobs` | e2e-examples/gcs/benchmark/grpc_runner.cc:202-278 | every record, OK or not, is of one of the T*W jobs |
| `Runner.StepMovesJobs` | e2e-examples/gcs/benchmark/grpc_runner.cc:202-288 | only a pop brings a job into the system; every other step of a thread conserves it |
| `RunnerRetries.FailedCallsEndThreads` | e2e-examples/gcs/benchmark/grpc_runner.cc:272-287 | without keep_trying, on every interleaving: a job has a failed call on record exactly when a thread has ended over it |
| `RunnerRetries.FailedJobsAreLost` | e2e-examples/gcs/benchmark/grpc_runner.cc:272-287 | and then no OK record is ever of that job |
| `RunnerRetries.RetryingCompletesAllJobs` | e2e-examples/gcs/benchmark/grpc_runner.cc:209-291 | with keep_trying, once no thread has anything left to do and no resumable upload failed to start, every job has exactly one OK record, however many calls of it failed |
| `Runner.RunsAreBounded` | e2e-examples/gcs/benchmark/grpc_runner.cc:202-289 | a run has at most four steps a job, one a thread and three a failed call |
| `Runner.NeverStuck` | e2e-examples/gcs/benchmark/grpc_runner.cc:202-289 | a thread that has not returned can always make a step |
| `RunnerWatcher.RunnerWatcher.NotifyCompleted` | e2e-examples/gcs/benchmark/runner_watcher.cc:32-58 | the operation is appended with all its fields |
| `RunnerWatcher.RunnerWatcher.GetNonWarmupsOperations` | e2e-examples/gcs/benchmark/runner_watcher.cc:73-81 | the operations without the first warmups ones, element by element |
| `RunnerOnBalancedPool.ThreadsShareChannelsEvenly` | e2e-examples/gcs/benchmark/grpc_runner.cc:209-288 | the worker threads drawing from the bpool meet its protocol: every count is the number of threads holding that channel and at most ceil(threads / size) |
| `Crc32c.ExtendIsCrcOfConcat` | e2e-examples/gcs/benchmark/grpc_runner.cc:103-106 | extending the checksum of a by b is the checksum of a + b |
| `Crc32c.ConcatIsCrcOfConcat` | e2e-examples/gcs/benchmark/grpc_runner.cc:483-485 | the checksum of a + b from those of a and b and the length of b |
| `Crc32c.CrcIsDivision` | e2e-examples/gcs/benchmark/grpc_runner.cc:102-108 | the bitwise register computes the remainder of the polynomial division that defines CRC32C |
| `Crc32cWords.CrcIsFast` | e2e-examples/gcs/benchmark/grpc_runner.cc:102-108 | the checksum is what a 32-bit register computes that is shifted to the right with 0x82F63B78 |
| `Crc32cWords.CheckValue` | e2e-examples/gcs/benchmark/grpc_runner.cc:102-108 | the checksum of 123456789 is 0xE3069283 |
| `Crc32cWords.ZeroesCheckValue` | e2e-examples/gcs/benchmark/grpc_runner.cc:102-108 | that of 32 bytes of zeroes is 0x8A9136AA (appendix B.4 of RFC 3720) |
| `Crc32cWords.OnesCheckValue` | e2e-examples/gcs/benchmark/grpc_runner.cc:102-108 | that of 32 bytes of ones is 0x62A8AB43 |
| `Crc32cWords.AscendingCheckValue` | e2e-examples/gcs/benchmark/grpc_runner.cc:102-108 | that of the bytes from 0 to 31 is 0x46DD794E |
| `Crc32cWords.CrcParity` | e2e-examples/gcs/benchmark/grpc_runner.cc:102-108 | a message and its checksum have the same parity |
| `Crc32cWords.OddErrorsAreDetected` | e2e-examples/gcs/benchmark/grpc_runner.cc:481-485 | messages of one length that differ in an odd number of bits have different checksums |
| `Crc32c.ComputeCrc32c` | e2e-examples/gcs/benchmark/grpc_runner.cc:102-108 | the checksum of a cord is that of its bytes, however it is fragmented |
| `Upload.GetRandomData` | e2e-examples/gcs/benchmark/random_data.cc:34-43 | exactly `size` bytes, repeating the pregenerated data from its start |
| `Upload.NextRequest` | e2e-examples/gcs/benchmark/grpc_runner.cc:460-495 | the request carries exactly its chunk at its offset, repeating the pregenerated data, the target if the offset is 0, the finish flag and the whole checksum if it reaches the end; a chunk size of 0 included |
| `Upload.WriteObject` | e2e-examples/gcs/benchmark/grpc_runner.cc:401-502 | for every write_size up to 2^63 - 1 and every chunk_size: the requests tile the object up to the end, the first failed write or the overflow of the offset; the end is reached exactly when chunk_size is not 0, ceil(write_size / chunk_size) * chunk_size fits int64, and no write fails; chunks and total_bytes count exactly the successful writes |
| `Upload.CompleteUpload` | e2e-examples/gcs/benchmark/grpc_runner.cc:459-502 | a complete tiling is contiguous, every request but the last carries exactly maxChunk bytes, each its own checksum; exactly its first request has the target, exactly its last finishes, with the checksum of everything sent |
| `Upload.UploadIsWhole` | e2e-examples/gcs/benchmark/grpc_runner.cc:455-502 | what WriteObject has done when no write fails, and the end is possible, is such a complete tiling in ceil(write_size / chunk_size) requests |
| `Upload.CompleteInChunks` | e2e-examples/gcs/benchmark/grpc_runner.cc:401-502 | an upload that comes to its end is whole in ceil(write_size / c) requests, where c is chunk_size if that is positive and 2097152 if it is negative |
| `Upload.EmptyChunksNeverEnd` | e2e-examples/gcs/benchmark/grpc_runner.cc:459-502 | with a chunk_size of 0 there is one request more than successful writes, however many: all empty, none finishing, each naming the target |
| `Upload.HugeChunksAreNotPossible` | e2e-examples/gcs/benchmark/grpc_runner.cc:459-461 | 2^63 - 1 bytes in chunks of 2^62 + 1 are an upload whose offset overflows |
| `Upload.LargestObject` | e2e-examples/gcs/benchmark/grpc_runner.cc:459-461 | 2^63 - 1 bytes can be sent in one chunk, and not in chunks of two: the offset behind the last one is one too large |
| `Upload.ChunkStartsBeforeEnd` | e2e-examples/gcs/benchmark/grpc_runner.cc:459-463 | offset k * c is before the end exactly for the first ceil(write_size / c) chunks |
| `CleanJson.CleanIsIdentityIff` | e2e-examples/gcs/benchmark_analysis/analyze_peer.py:25-28 | cleaning leaves a text alone exactly when no comma, white space and closing bracket follow each other in it |
| `CleanJson.CommaRunIsCleaned` | e2e-examples/gcs/benchmark_analysis/analyze_peer.py:25-28 | a comma, one or more of blank, tab, return and line feed, and a closing bracket become the bracket |
| `CleanJson.SubConcat` | e2e-examples/gcs/benchmark_analysis/analyze_peer.py:25-28 | a substitution works piece by piece when the first piece does not end in a comma and white space |
| `CleanJson.CleanShow` | e2e-examples/gcs/benchmark_analysis/analyze_peer.py:25-28 | cleaning a value written with trailing commas gives the same value written without |
| `JsonRoundTrip.ReadValue` | e2e-examples/gcs/benchmark_analysis/analyze_peer.py:58-59 | the JSON reader on a written value: the same value, and an error exactly when a trailing comma was left |
| `JsonRoundTrip.WrittenTextReads` | e2e-examples/gcs/benchmark_analysis/analyze_peer.py:58-59 | after cleaning, a written text is grammatical JSON for exactly the value written; before it, exactly when there is no trailing comma |
| `TextMode.TranslateShow` | e2e-examples/gcs/benchmark_analysis/analyze_peer.py:58-59 | reading a file as text, which makes line feeds of carriage returns, reads a written value as the text of the value with its strings so translated |
| `TextMode.LineEndsAreRead` | e2e-examples/gcs/benchmark_analysis/analyze_peer.py:57-58 | a text whose lines end in a line feed, a return, or both is read as the same text |
| `Trace.WriteData` | e2e-examples/gcs/benchmark/print_result.cc:288-331 | the whole text is the trace value in the trailing-comma style |
| `TraceText.TraceShown` | e2e-examples/gcs/benchmark/print_result.cc:288-331 | that text is the one written out line by line, with its keys, tabs, quotes and commas |
| `Trace.TraceRoundTrip` | e2e-examples/gcs/benchmark/print_result.cc:288-331 | cleaned and parsed, the written characters yield exactly the same trace, operation by operation and chunk by chunk |
| `TraceFile.FileRoundTrip` | e2e-examples/gcs/benchmark_analysis/analyze_peer.py:57-59 | the file, read as text, yields the trace with the carriage returns in its strings translated; so exactly the same trace if and only if no string has one |
| `Trace.RawTextIsJsonIff` | e2e-examples/gcs/benchmark/print_result.cc:299-331 | without the cleaning, the text is JSON exactly when there is no operation |
| `PeerReport.GridIsTotal` | e2e-examples/gcs/benchmark_analysis/analyze_peer.py:70-85 | cells for every peer and rows for every second add up to the total over all OK operations: bytes, and (operation, distinct second) pairs |
| `PeerReport.PeerData.ApplyChunks` | e2e-examples/gcs/benchmark_analysis/analyze_peer.py:44-54 | each second gets the bytes of its chunks and one read if it has any |
| `PeerReport.PeerData.AddBytes` | e2e-examples/gcs/benchmark_analysis/analyze_peer.py:45-51 | the bytes loop: exactly the chunks' seconds are added |
| `PeerReport.PeerData.AddCounts` | e2e-examples/gcs/benchmark_analysis/analyze_peer.py:52-54 | the count loop: one read for every distinct second |
| `PeerReport.AddOperation` | e2e-examples/gcs/benchmark_analysis/analyze_peer.py:60-66 | operations that are not OK are skipped |
| `PeerReport.Collect` | e2e-examples/gcs/benchmark_analysis/analyze_peer.py:57-66 | the peers with OK operations in order of their first one, and exactly their seconds |
| `PeerReport.Bounds` | e2e-examples/gcs/benchmark_analysis/analyze_peer.py:68-69 | the smallest and the largest second of a peer |
| `PeerReport.Span` | e2e-examples/gcs/benchmark_analysis/analyze_peer.py:68-69 | the overall span; none exactly when a minimum of nothing would be taken |
| `PeerReport.ReportableIff` | e2e-examples/gcs/benchmark_analysis/analyze_peer.py:68-69 | that is exactly when no operation is OK, or a peer with OK operations has no chunk |
| `PeerReport.RowAt` | e2e-examples/gcs/benchmark_analysis/analyze_peer.py:72-83 | a row's cells and sums are those of its second |
| `PeerReport.RowsFrom` | e2e-examples/gcs/benchmark_analysis/analyze_peer.py:70-85 | one row for every second of the span |
| `PeerReport.Transform` | e2e-examples/gcs/benchmark_analysis/analyze_peer.py:56-85 | the report exists exactly when there is an OK operation and every peer with one has a chunk; then its rows are the seconds from first to last, each once, with every peer's counts and bytes, and t_all and c_all add up to all OK bytes and all (operation, second) pairs |
| `ObjectName.PiecesReplaced` | e2e-examples/gcs/benchmark/object_resolver.cc:35-36 | replacing placeholders works piece by piece when none lies across the cut |
| `ObjectName.PlaceholdersAreFilled` | e2e-examples/gcs/benchmark/object_resolver.cc:35-36 | in A{t}S{o}B the two numbers are put in and nothing else changes |
| `ObjectName.ResolvedName` | e2e-examples/gcs/benchmark/object_resolver.cc:27-37 | an empty format gives the fixed name; in any other each {t} becomes the thread, each {o} the object number, in any order and number, and the texts between stay |
| `ObjectName.UnambiguousIff` | e2e-examples/gcs/benchmark/object_resolver.cc:27-37 | names tell thread and object number apart exactly when S has a non-digit |
| `ObjectName.NumbersCycle` | e2e-examples/gcs/benchmark/object_resolver.cc:32-34 | object numbers cycle through |stop - start| values; without a stop they are distinct |
| `ObjectName.NumbersCountUp` | e2e-examples/gcs/benchmark/object_resolver.cc:32-34 | the numbers begin at start and go up by one, and with a stop begin again after |stop - start| of them |
| `ObjectName.SuccessfulCallsNameDistinctObjects` | e2e-examples/gcs/benchmark/grpc_runner.cc:413-423 | on every run of the worker threads with such names, no two successful calls are about the same object |
| `ObjectName.SeparatedNamesDistinctIff` | e2e-examples/gcs/benchmark/object_resolver.cc:27-37 | with a non-digit in S, all jobs of T threads with W runs name distinct objects exactly when object_stop is 0 or W is at most |stop - start| |
| `ObjectCollision.NamesDistinctIff` | e2e-examples/gcs/benchmark/object_resolver.cc:27-37 | for every S: they do exactly when moreover S has a non-digit, or T and the object numbers leave no room to shift digits from one number to the other across S |
| `ObjectCollision.CollisionHasRoom` | e2e-examples/gcs/benchmark/object_resolver.cc:32-36 | two threads whose names agree across digits have such room |
| `ObjectCollision.CollisionExists` | e2e-examples/gcs/benchmark/object_resolver.cc:32-36 | and where there is room, two jobs have the same name |
| `ObjectSize.GetBasenameWithoutExt` | e2e-examples/gcs/dummy_server/gcs_util.cc:25-37 | the name between directory and extension |
| `ObjectSize.BaseNameOfSplit` | e2e-examples/gcs/dummy_server/gcs_util.cc:25-37 | a path splits into directory, name and extension in one way only |
| `ObjectSize.UnitsArePowers` | e2e-examples/gcs/dummy_server/gcs_util.cc:39-48 | the accepted units are exactly nothing, or k, m, g, t in any letter case, alone or with ib, each worth its power of 1024 |
| `ObjectSize.UnitValues` | e2e-examples/gcs/dummy_server/gcs_util.cc:39-48 | k and KiB are 1024, M and MiB 1048576, g and GiB 1073741824, T and TiB 1099511627776 |
| `ObjectSize.SizeOfName` | e2e-examples/gcs/dummy_server/gcs_util.cc:52-70 | digits and letters give the size they stand for, whatever the directory and the extension |
| `ObjectSize.SizeOfPrintedName` | e2e-examples/gcs/dummy_server/gcs_util.cc:52-70 | the size of dir/<n><unit>.ext is n times the power of 1024 exactly when that fits int64 |
| `ObjectSize.SizeIsModulo` | e2e-examples/gcs/dummy_server/gcs_util.cc:66-69 | a number and an accepted unit give their product modulo 2^64 as a signed number |
| `ObjectSize.NoSizeIff` | e2e-examples/gcs/dummy_server/gcs_util.cc:52-70 | the size is -1 exactly when the base name is not a number within int64 followed by an accepted unit |
| `ObjectSize.HundredKBHasNoSize` | e2e-examples/gcs/dummy_server/gcs_util.cc:56-68 | 100KB has no size |
| `ObjectSize.ResolvedNamesHaveOneSize` | e2e-examples/gcs/dummy_server/gcs_util.cc:52-70 | a format ending in /<n><unit>.{o} gives the same size for every thread and object id |
| `ReadReactor.RunSendsChunks` | e2e-examples/gcs/dummy_server/main.cc:78-116 | every run of a found object sends the chunks in order, and finishes after the last one or after the first failed write |
| `ReadReactor.RunsAreOrderly` | e2e-examples/gcs/dummy_server/main.cc:78-116 | at most one write in flight, at most one Finish, no write after it |
| `ReadReactor.FinishedRunSendsAll` | e2e-examples/gcs/dummy_server/main.cc:78-116 | a finished run finished with OK exactly when the object was found and no write failed; then it sent the whole object, or read_limit bytes if that is positive and less, in ceil(total / C) writes, all full but the last; and otherwise as many of those bytes as fit into the writes made |
| `ReadReactor.ReadingPrintedName` | e2e-examples/gcs/dummy_server/main.cc:78-116 | reading dir/<n><unit>.ext yields n times the unit's power of 1024 bytes, up to the limit and up to a failed write |
| `ChannelPoller.OneWatchAtATime` | e2e-examples/gcs/benchmark/channel_poller.cc:19-65 | in every interleaving: at most one watch outstanding, exactly one while the channel is held; when the thread leaves, every watch was delivered and the queue is empty |
| `ChannelPoller.NoWatchAfterSwap` | e2e-examples/gcs/benchmark/channel_poller.cc:26-65 | no watch is registered after the destructor took the channel, and so none after shutdown_ |
| `ChannelPoller.ShutdownIsShort` | e2e-examples/gcs/benchmark/channel_poller.cc:26-65 | once the destructor has begun, at most nine more steps follow |
| `ChannelPoller.StalledIff` | e2e-examples/gcs/benchmark/channel_poller.cc:26-65 | once it has begun, nothing is bound to happen any more exactly when it has returned, or the thread waits for a watch on a channel that others keep alive |
| `ChannelPoller.CanBlockIff` | e2e-examples/gcs/benchmark/channel_poller.cc:26-65 | before it is called: it can come to that wait exactly when the poller has a channel and the channel another owner |
| `ChannelPoller.AlwaysReturnsIff` | e2e-examples/gcs/benchmark/channel_poller.cc:26-65 | before it is called: it always returns exactly when the poller has no channel, or one without other owners |
| `ChannelPoller.ReturnsWithinSevenSteps` | e2e-examples/gcs/benchmark/channel_poller.cc:26-65 | without other owners, at most seven steps follow the taking of the channel, and when none is bound to follow it has returned |

## Left out

- RoundRobinPool.RoundRobinChannelPool.ReportResult: modelled as one atomic step, though the source takes no lock there (channel_policy.cc:108-123); races on the vector are not modelled.
- ScoringPool.SmartRoundRobinChannelPool.ReportResult: excludes an evaluation that would divide by zero whole milliseconds (channel_policy.cc:282-283); bytes are non-negative, durations are whole quarter nanoseconds, and counters and byte sums are unbounded integers.
- BalancedPool.RoundRobinPlusChannelPool.GetStorageStub: requires a pool with a slot, as `GrpcRunner::Run` does by refusing a size that is not positive; the same for the other pools; in-use counts are unbounded integers.
- BalancedPool.CountsExactAndBounded: the client reports every handle at most once; `DoRandomRead` does not keep to that with its one report a run.
- ScoringPoolQuorum.EvaluationPossibleIff: starts from a state whose sampled channels have spent at least a millisecond each, as they have when every OK call lasts that long; a handle is reported at most once.
- ChannelManager.ReplacementBalances: fewer than 2^64 - 1 calls are in flight at a time; a handle's call is reported once, before the handle is destroyed; the same for the results on the code as written.
- ChannelManager.Handle.Destroy: a handle is destroyed once; what a moved-from handle's destructor would do to the handle count is not modelled.
- Runner.OneOkRecordPerJob: `DoRead` and `DoWrite` are a step system rather than loops, because their threads interleave; a record keeps its job and status there, and all its fields in `RunnerWatcher`; `exit` on the first failed thread without wait_threads is left out.
- Upload.WriteObject: takes a positive write_size, which `DoWrite` checks before; when writes fail is a parameter; where the source's offset overflows, which C++ leaves undefined, the attempt ends.
- Upload.GetRandomData: the pregenerated random data is a parameter.
- Trace.TraceRoundTrip: strings without quote, backslash, or comma, white space and closing bracket in a row; times and durations are tokens the printer is given; the text is characters, without an encoding; the reader lets control characters in strings through, as the analysis asks with strict=False, and what reading as text makes of carriage returns is in `TraceFile`.
- Trace.WriteData: the nested loops are split into one method a level.
- JsonRoundTrip.ReadValue: the reader gives up on a backslash in a string, since the printer never writes one; numbers stay texts until a field asks for an integer.
- PeerReport.Transform: the second of a chunk's time is a parameter (`Clock`), since parsing dates is left out; so is the CSV output.
- ObjectName.NumbersCycle: object numbers are unbounded integers; the source's int would overflow; a stop equal to a non-zero start divides by zero in the source and is excluded.
- ObjectSize.SizeOfPrintedName: a product that does not fit wraps around here, where C++ leaves it undefined; the contract only says that the size is then not the product, and `SizeIsModulo` which number it is.
- ReadReactor.FinishedRunSendsAll: the chunk constant is the length of the data the reactor is given and must be positive; as in the source, read_offset has no influence on what is sent.
- ChannelPoller.AlwaysReturnsIff: how the library fires watches is an assumption: at any time, and certainly when nobody owns the channel any more; owners may leave, and no new ones come.
- gRPC channels, stubs, credentials, deadlines, metadata and protocol buffers: library calls; a call returns an arbitrary status.
- `GcscppRunner`: the same chunk arithmetic behind a client library that cannot be seen.
- `DoRandomRead`, `DoRead`'s checksum comparison, throughput and percentile output, `GetNonWarmupsDuration`, console output, flags and `main` functions: I/O, floating point, or easy.
- `ConstChannelPool`, `CreateNewChannelStubProvider`, `GetChannelId`, the server's `GetObject` and `WriteObject`, `GetObjectDataChunk`: straight-line, or random data.
- Memory-model races: every critical section is one step.
