# Verified core of the agents and the mobile session cache

A Dafny model of the parts of the agents where correctness spans many calls, with proofs over all inputs and all runs:

- **Ansible executor** (`agents/ansible-executor`): tasks are stored once, published to a work queue, redelivered on nak
  or timeout, claimed under an expiring lease, kept alive by heartbeats, and committed by an update fenced by the owner
  id; callbacks follow with their own retry queue and dead letters. `TaskTable` is the task store, `LeaseProtocol` the
  transition system over store rows, queue messages, worker phases, retry messages, a clock, crashes and restarts,
  `LeaseSafety` what holds in every run of it, `LeaseResults` what is stored and passed on of results, `LeaseFate`,
  `LeaseSettling` and `LeaseQueues` what becomes of submissions, messages and queued callbacks, `LeaseTiming` what the
  timing of leases and heartbeats adds. `IsoTime` shows that the store may compare timestamps as text. `Redaction` and
  `Compaction` are what is stored and what is sent back, the latter measured in bytes of JSON by `JsonSize`, `JsonText`
  and `CompactionSize`, `Inventory` the host lines read back by Ansible's tokenizer.
- **NATS executor** (`agents/nats-executor`): `OutputCapture`, `Utf8Truncation` and `Utf8` bound the output of two
  interleaved streams, `LineFraming` splits streams into lines whatever the chunks (with the Python collector beside it),
  `ShellQuoting`, `ScpCommand` and `LegacyRewrite` build SCP commands, `TransferBudget` keeps nested timeouts to one
  deadline.
- **Stargazer** (`agents/stargazer`): `CallbackContext` is the stored context of a remote host collection with its sweeper
  and publish retries, `CredentialCache` and `CredentialSelection` choose credentials under success and cooldown
  records, with the Redis key scans in `RedisGlob` and `CredentialScan`.
- **Mobile client** (`mobile`): `ConversationCache` is the session cache.

Code that updates state in place is a class whose methods are proved equal to functions on values; the theorems are about
those functions and about runs of them. Some properties one might expect are false of the code. Each has a lemma with the
failing case and, for all inputs, the exact condition:

- a finished execution can be overwritten by a sweep (`CallbackContext.StaleSightOverwrites`; safe by
  `FinishedStaysExactlyWhen`), and a context can be timed out before its own deadline (`AcceptanceIsOverruled`;
  on time by `OnTimeExactlyWhen`);
- a queue message can end neither acknowledged nor dead-lettered (`LeaseFate.StrandingIsReachable`;
  `LeaseSettling.SettlesExactlyWhen`, `LeaseFate.StrandsExactlyWhen`);
- a stored task need not ever run (`LeaseQueues.LossIsReachable`; `ReachesQueueExactlyWhen`), nor a queued callback be
  settled (`RetrySettlesExactlyWhen`);
- compaction need not meet its limit (`CompactionSize.TooManyHosts`; `BuiltFitsExactlyWhen`, `HostListNeverFits`);
- a success need not clear a host's cooldowns, or may clear those of other hosts (`CredentialScan.StillCooledAfterSuccess`,
  `StarClearsEveryHost`; `ScanIsExactExactlyWhen`);
- a session can be lost as it is opened, or eleven idle ones stay (`ConversationCache.LossIsReachable`,
  `ElevenIdleSessions`; `InitLosesExactlyWhen`, `InitSizeAfterClearing`, `ClearKeepsOrderedExactlyWhen`);
- the rewritten SCP command need not be the legacy command (`LegacyRewrite.MarkedPathIsNotRewritten`;
  `RewriteIsLegacyBuild`).

Assumptions: `TaskStore` methods contain no `await` and are single steps; owner ids are fresh; a worker that fails outside
its own handler is free again, the retry loop that does so stops until a restart; every Stargazer helper's
load, edit and save is one atomic step, and a credential selection sees one state of the cache; no time passes between
computing a transfer budget and using it, and each stage honours the timeout it is given. `dafny verify dfyconfig.toml`
checks everything.

## Model

| member | source | states |
|---|---|---|
| `IsoTime.IsoOrderIsTimeOrder` | agents/ansible-executor/service/task_store.py:175 | string comparison of two UTC `isoformat()` texts agrees with time order, and equality with equality, for all instants with four-digit years, whole seconds without a fraction included |
| `IsoTime.IsoReads` | agents/ansible-executor/service/nats_service.py:90-92 | the stored text has the fixed ISO 8601 layout, every field reads back from its digits, and a fraction is there exactly if it is not zero |
| `Redaction.Sanitize` | agents/ansible-executor/service/task_store.py:21-56 | the loop over host credentials computes the sanitized payload |
| `Redaction.SanitizedHasNoSecrets` | agents/ansible-executor/service/task_store.py:10-56 | no sensitive key remains; exactly the sensitive top-level fields go and every other is unchanged; the host credentials are the dictionaries of the list in order, each with exactly its sensitive fields gone and the marker set |
| `Redaction.SecretsByName` | agents/ansible-executor/service/task_store.py:10-56 | the same by name: the seven secret keys are gone at the top level and from every host credential, whose other fields stay |
| `Redaction.SanitizingIsIdempotent` | agents/ansible-executor/service/nats_service.py:449-475 | sanitizing twice is sanitizing once, so a dead-letter copy is the stored payload |
| `TaskTable.TaskStore.CreateIfAbsent` | agents/ansible-executor/service/task_store.py:104-150 | inserts once, with the redacted and the full payload and every other column empty: an existing row and all other rows are unchanged |
| `TaskTable.TaskStore.ClaimTask` | agents/ansible-executor/service/task_store.py:152-219 | grants the lease and counts the attempt unless the task is missing, finished or leased to another; says which; touches no other row and no other column |
| `TaskTable.TaskStore.RenewLease` | agents/ansible-executor/service/task_store.py:221-231 | extends the lease only for the running task's owner |
| `TaskTable.TaskStore.UpdateExecutionResult` | agents/ansible-executor/service/task_store.py:233-268 | writes the outcome and the result only under the owner's lease and releases it; reports whether it did; touches nothing else |
| `TaskTable.TaskStore.UpdateCallbackStatus` | agents/ansible-executor/service/task_store.py:270-304 | records the callback and derives the status from the preserved outcome |
| `TaskTable.TaskStore.LoadExecutionPayload` | agents/ansible-executor/service/nats_service.py:442-446 | the stored payload if it is there and not empty, else the queued copy |
| `LeaseResults.FinishedRowTellsOutcome` | agents/ansible-executor/service/task_store.py:233-268 | in every reachable state a finished row holds a result of its own task that says how it ended |
| `LeaseResults.FinishCommits` | agents/ansible-executor/service/nats_service.py:558-564 | finishing with a result commits exactly that one, or, with the lease lost, changes no row and raises |
| `LeaseResults.CommittedResultStands` | agents/ansible-executor/service/nats_service.py:518-578 | over every run: from its commit until a retried callback of the task is delivered, the stored result is exactly the one the worker finished with, plus the error once its callback has failed |
| `LeaseResults.CallbackIsRecorded` | agents/ansible-executor/service/nats_service.py:566-578 | a callback's outcome is written to the row; a failed one adds its error to the result and leaves the worker to queue a retry |
| `LeaseResults.FailedCallbackIsQueued` | agents/ansible-executor/service/nats_service.py:571-576 | a worker that owes a retry reaches its acknowledgement only by queueing a new message of that task and outcome |
| `LeaseResults.RetryIsRecorded` | agents/ansible-executor/service/nats_service.py:657-688 | delivering a retried callback marks it as sent, restores the status to the outcome and stores what was sent |
| `LeaseResults.MessagesCarryCallbacks` | agents/ansible-executor/service/nats_service.py:714-741 | in every reachable state a queued message carries the callback its task was submitted with |
| `LeaseFate.WorkerRunsFirstSubmission` | agents/ansible-executor/service/nats_service.py:442-446 | in every state after a task's first submission the payload a worker loads, the redacted queue copy standing in for an empty stored one, is exactly the payload submitted first |
| `LeaseFate.SubmissionStands` | agents/ansible-executor/service/task_store.py:104-304 | no later state of a run has other payloads or another callback for a task |
| `LeaseFate.EveryTaskWasSubmitted` | agents/ansible-executor/service/nats_service.py:714-741 | every row of every state was filled by a submission earlier in the run |
| `LeaseQueues.ReachesQueueExactlyWhen` | agents/ansible-executor/service/nats_service.py:714-741 | in every reachable state a stored task without a queue message can still get one if and only if the request that stored it has yet to publish it; if not, its row stays as it is in every continuation, submissions of it and restarts included |
| `LeaseQueues.LossIsReachable` | agents/ansible-executor/service/nats_service.py:714-741 | for every task a run that stores it, fails to publish it, and takes the second submission as a duplicate |
| `LeaseSafety.RunKeeps` | agents/ansible-executor/service/nats_service.py:518-741 | every state of every run (submit, publish, deliver, handle, heartbeat, finish, callback, ack, nak, crash, restart, retry loop) satisfies the protocol invariant |
| `LeaseSafety.AtMostOneCommit` | agents/ansible-executor/service/task_store.py:152-268 | at most one result commit per task in any run, by the latest claimant; a task is finished exactly when it was committed, with that outcome |
| `LeaseSafety.OutcomeIsFinal` | agents/ansible-executor/service/task_store.py:233-268 | a terminal execution status never changes in any later state |
| `LeaseSafety.StaleOwnerIsFenced` | agents/ansible-executor/service/nats_service.py:518-578 | a worker's commit takes effect exactly if it is the latest claimant and the task still runs; otherwise it changes nothing and raises |
| `LeaseSafety.AckSafety` | agents/ansible-executor/service/nats_service.py:591-655 | every acknowledgement has its reason earlier in the log: a commit of its task or a dead letter for that message (for a retry: its delivery or its dead letter) |
| `LeaseSafety.NoMessageLost` | agents/ansible-executor/service/nats_service.py:591-655 | an acknowledged work message belongs to a finished task or was dead-lettered |
| `LeaseSafety.StatusTellsOutcome` | agents/ansible-executor/service/task_store.py:270-304 | in every reachable state the status is `callback_failed` exactly for a success whose callback failed, else the execution status |
| `LeaseSafety.RetryTellsOutcome` | agents/ansible-executor/service/nats_service.py:657-688 | every queued callback retry carries its task's id and the stored outcome |
| `LeaseSafety.LifeIsBounded` | agents/ansible-executor/service/nats_service.py:591-655 | in every life of the consumer at most `js_max_deliver` claims of a task are granted |
| `LeaseSafety.AttemptsBounded` | agents/ansible-executor/service/nats_service.py:714-741 | at most one message is published per task, `execution_attempt` is the number of granted claims, at most `js_max_deliver` of them fall in each life of the consumer, and so at most that many times the number of lives in all |
| `LeaseFate.StrandsExactlyWhen` | agents/ansible-executor/service/nats_service.py:612-655 | a message becomes stranded (unacknowledged, no delivery left, held by nobody) exactly when its only holder drops its last delivery: dies, naks, or skips it as leased or unknown |
| `LeaseFate.LifeKeepsStranded` | agents/ansible-executor/service/nats_service.py:591-655 | a stranded message stays so, with no new dead letter, in every continuation until the consumer is created anew |
| `LeaseFate.ReachesWorkerExactlyWhen` | agents/ansible-executor/service/nats_service.py:580-590 | an unacknowledged message can still reach a worker in this life of the consumer exactly if it is not stranded |
| `LeaseFate.StrandingIsReachable` | agents/ansible-executor/service/nats_service.py:591-655 | not every message ends acknowledged or dead-lettered: for every delivery limit a run strands one with its task unfinished |
| `LeaseFate.RestartRevives` | agents/ansible-executor/service/nats_service.py:319-390 | after the consumers are created anew every unacknowledged message, a stranded one too, reaches a worker again, every unacknowledged callback can be fetched, and no row is lost |
| `LeaseSettling.DoomedForLife` | agents/ansible-executor/service/nats_service.py:591-655 | a doomed message (no delivery left, every holder failed early, lost its lease early or cannot decode it) is neither acknowledged nor dead-lettered until the consumer is created anew |
| `LeaseSettling.SettlesExactlyWhen` | agents/ansible-executor/service/nats_service.py:591-655 | in every reachable state an unsettled message can still be acknowledged or dead-lettered in this life of the consumer if and only if it is not doomed |
| `LeaseSettling.StrandedIsDoomed` | agents/ansible-executor/service/nats_service.py:591-655 | a stranded message without a dead letter is doomed |
| `LeaseQueues.RetrySettlesExactlyWhen` | agents/ansible-executor/service/nats_service.py:657-688 | in every reachable state a queued callback can still be delivered or dead-lettered in this life of the executor if and only if the retry loop has not stopped |
| `LeaseTiming.LeaseRefuses` | agents/ansible-executor/service/nats_service.py:196-202 | a claim by a new owner is refused while the holder is late by less than window minus interval |
| `LeaseTiming.RunIsExclusive` | agents/ansible-executor/service/nats_service.py:204-232 | with such heartbeats, every state of a run has each executing worker holding its own current lease, alone on its task |
| `LeaseTiming.TimedMutualExclusion` | agents/ansible-executor/service/nats_service.py:191-232 | no second worker executes or can claim the task, and the holder's renewal and commit are accepted |
| `LeaseTiming.OneSecondIsEnough` | agents/ansible-executor/service/nats_service.py:191-202 | for every configured ack deadline, heartbeats less than a second late give exclusion |
| `LeaseTiming.TakeoverIffExpired` | agents/ansible-executor/service/task_store.py:152-219 | in any table, a running task can be taken over by another owner exactly when its recorded expiry is not after now |
| `LeaseTiming.HeartbeatsPrecedeRedelivery` | agents/ansible-executor/service/nats_service.py:191-202 | for every configuration: one to thirty seconds between heartbeats, exactly forty percent of the redelivery deadline in that range, so two heartbeats before the queue redelivers from two seconds on; the lease lasts one and a half deadlines and at least a second more than the interval |
| `LeaseTiming.HeartbeatExtends` | agents/ansible-executor/service/nats_service.py:204-232 | in a run whose heartbeats are in time, a heartbeat refuses the task to every other owner for exactly one lease window from now |
| `LeaseTiming.ClaimLasts` | agents/ansible-executor/service/nats_service.py:600-607 | a granted claim refuses the task to every other owner for exactly one lease window from when its expiry was computed |
| `Compaction.CompactCallbackPayload` | agents/ansible-executor/service/nats_service.py:107-160 | the staged edits compute the first stage that fits, else the last |
| `Compaction.EditItems` | agents/ansible-executor/service/nats_service.py:122-146 | the loops over hosts and text fields truncate, or empty, exactly the three texts of each host dictionary |
| `Compaction.TrimStates` | agents/ansible-executor/service/nats_service.py:113-118 | field by field: the first stage takes `stdout_combined` out of the summary, marks it, and changes nothing else |
| `Compaction.TruncatedItemStates` | agents/ansible-executor/service/nats_service.py:99-130 | field by field: a host's three texts are cut to 8192 characters and the notice, missing ones become empty, the other fields stay |
| `Compaction.TruncateStates` | agents/ansible-executor/service/nats_service.py:99-132 | the second stage cuts every entry, a textual result and the error that way, and leaves all other fields |
| `Compaction.DropStates` | agents/ansible-executor/service/nats_service.py:134-160 | field by field: the last stage marks the payload, keeps exactly six fields of the summary, and empties the texts |
| `Compaction.CutsNoMoreThanNeeded` | agents/ansible-executor/service/nats_service.py:107-132 | a payload that fits is untouched, and each stage is taken only if the one before is too long |
| `Compaction.OutcomeKept` | agents/ansible-executor/service/nats_service.py:107-160 | task id, status, `success` and every other untouched field are kept; hosts keep order, number and every field but their texts, each of which is whole, cut or empty |
| `Compaction.FitsOrBare` | agents/ansible-executor/service/nats_service.py:107-160 | the result fits, or all host texts are empty and `stdout_combined` is gone |
| `Compaction.LastStageIsSkeleton` | agents/ansible-executor/service/nats_service.py:107-160 | the last stage leaves exactly the skeleton of the input, read off it field by field: all fields, host texts emptied, error bounded, summary cut to its counters; all stages share it |
| `Compaction.FitsUpToSlack` | agents/ansible-executor/service/nats_service.py:107-160 | under any size, the result fits if the input's skeleton does, and only if the skeleton fits up to what it exceeds the stages of this payload by |
| `CompactionSize.SkeletonBytes` | agents/ansible-executor/service/nats_service.py:94-97 | for every payload as the executor builds it, the request with its skeleton lacks the bytes of its texts and is otherwise longer by two flags and one mark at most, 100 bytes |
| `JsonText.TextHasBytes` | agents/ansible-executor/service/nats_service.py:94-97 | every JSON text of a value, its fields in any order, has as many UTF-8 bytes as computed from the value |
| `CompactionSize.SizeIsRequestLength` | agents/ansible-executor/service/nats_service.py:94-97 | the measured size is the UTF-8 length of every JSON text of the request around the payload, and there is one |
| `CompactionSize.BuiltFitsExactlyWhen` | agents/ansible-executor/service/nats_service.py:94-160 | under the code's own size, the bytes of the JSON request: a built payload meets the limit if its skeleton does, only if its skeleton does up to 100 bytes, and exactly if its skeleton does once its texts hold 100 characters |
| `CompactionSize.SlackIsNeeded` | agents/ansible-executor/service/nats_service.py:147-160 | without any text the skeleton does not decide: a payload that fits just at its own size has a longer skeleton |
| `CompactionSize.HostListNeverFits` | agents/ansible-executor/service/nats_service.py:135-160 | the limit is not always met: every host's entry survives all stages and takes 105 bytes at least, so `limit / 105` hosts never fit |
| `CompactionSize.TooManyHosts` | agents/ansible-executor/service/nats_service.py:162-165 | under the default limit, ten thousand hosts with the parsers' fields and no output at all do not fit |
| `Compaction.CompactionIsIdempotent` | agents/ansible-executor/service/nats_service.py:107-160 | compacting a compacted payload changes nothing, whatever the size function |
| `Inventory.ValueReads` | agents/ansible-executor/service/ansible_runner.py:384-393 | inside a token, a quoted value of any characters reads back as itself |
| `Inventory.LineRoundTrip` | agents/ansible-executor/service/ansible_runner.py:384-393 | a line of any assignments after a plain host tokenises to the host and each `key=value` |
| `Inventory.CredentialRoundTrip` | agents/ansible-executor/service/ansible_runner.py:621-668 | a credential's line tokenises to its host and, per variable, exactly the value that variable is meant to have or nothing, with no further token |
| `Inventory.LineSays` | agents/ansible-executor/service/ansible_runner.py:621-668 | read back by Ansible's names, user, port, connection, password and passphrase are each those of their own field, or absent |
| `Inventory.LineSaysWinrm` | agents/ansible-executor/service/ansible_runner.py:637-649 | the WinRM variables are read back exactly for a connection that is `winrm` after stripping and lowering |
| `Inventory.LineSaysSsh` | agents/ansible-executor/service/ansible_runner.py:651-662 | SSH arguments are read back exactly with a password over `ssh`, explicit ones first; key content wins over a key file |
| `Inventory.StripTrims` | agents/ansible-executor/service/ansible_runner.py:624 | stripping drops exactly the white space at both ends |
| `Inventory.InventoryRoundTrip` | agents/ansible-executor/service/ansible_runner.py:621-674 | the whole file, split as `str.splitlines` does and tokenised, recovers every credential in order, for values without line breaks of any kind |
| `Inventory.KeysAreKept` | agents/ansible-executor/service/ansible_runner.py:656-662 | key files do not overwrite each other: each is at the path its own line names, and exists exactly if content was given |
| `Inventory.OnlyKeysAreWritten` | agents/ansible-executor/service/ansible_runner.py:656-662 | no file is written but the key files of credentials with content |
| `Inventory.BuildHostCredentialsInventory` | agents/ansible-executor/service/ansible_runner.py:621-674 | the loop writes exactly that text and those key files |
| `OutputCapture.WriteExtendsLog` | agents/nats-executor/utils/shared_output_capture.go:81-118 | one write moves the capture of a log to the capture of the extended log |
| `OutputCapture.SharedOutputCapture.Write` | agents/nats-executor/utils/shared_output_capture.go:81-118 | after any write the counters and buffers are those of the whole interleaved log |
| `OutputCapture.CaptureAll` | agents/nats-executor/utils/shared_output_capture.go:41-118 | any writes into a new capture retain the per-stream projections of the first `limit` bytes of the interleaved log |
| `OutputCapture.CaptureConserves` | agents/nats-executor/utils/shared_output_capture.go:81-118 | `used` stays within the limit, written is retained plus dropped on each stream, `truncated` exactly if something was dropped |
| `OutputCapture.ChunkingIsIrrelevant` | agents/nats-executor/utils/shared_output_capture.go:81-118 | splitting any write, with others before and after it, leaves the log and the capture unchanged |
| `Utf8Truncation.TruncateToByteLimit` | agents/nats-executor/utils/shared_output_capture.go:144-160 | the value itself if it fits, else its longest prefix within the limit that is well-formed by section 4 of RFC 3629 |
| `Utf8.WellFormedExactlyWhen` | agents/nats-executor/utils/shared_output_capture.go:144-160 | the bytes taken as well-formed are exactly the encodings of texts, by section 3 of RFC 3629 |
| `Utf8Truncation.TruncationLosesLittle` | agents/nats-executor/utils/shared_output_capture.go:144-160 | well-formed input loses at most three bytes below the limit |
| `Utf8Truncation.NoticeFits` | agents/nats-executor/utils/shared_output_capture.go:131-142 | output with the notice stays within the limit, is whole when both fit, ends in the notice when that fits, and stays well-formed |
| `Utf8Truncation.FormattedOutputFits` | agents/nats-executor/utils/shared_output_capture.go:122-142 | truncated formatted output never exceeds the limit and keeps all but three bytes of the room |
| `Utf8Truncation.CaptureAndFormat` | agents/nats-executor/utils/shared_output_capture.go:41-142 | from any writes to the reported text: complete if within the limit, else bounded, ending in the notice, well-formed for well-formed streams and then at most three bytes short of the limit |
| `LineFraming.FrameRoundTrip` | agents/ansible-executor/service/ansible_runner.py:971-990 | the split of a stream loses nothing and no line contains a newline |
| `LineFraming.LinesRoundTrip` | agents/ansible-executor/service/ansible_runner.py:971-990 | the lines of a whole stream rejoin to it, a last line without newline counting and an empty one not |
| `LineFraming.StripLineEndIsExact` | agents/ansible-executor/service/ansible_runner.py:992-994 | of a line exactly the trailing CR and LF characters go |
| `LineFraming.FrameContinues` | agents/ansible-executor/service/ansible_runner.py:971-983 | only the unfinished line matters for what follows |
| `LineFraming.LineEventStreamer.Feed` | agents/ansible-executor/service/ansible_runner.py:971-983 | returns exactly the lines the chunk completes and keeps the unfinished one |
| `LineFraming.LineEventStreamer.Flush` | agents/ansible-executor/service/ansible_runner.py:985-990 | yields the unfinished line, if any |
| `LineFraming.StreamLines` | agents/ansible-executor/service/ansible_runner.py:959-994 | for every chunking, feed then flush yields the line split of the whole stream |
| `LineFraming.CollectOutput` | agents/ansible-executor/service/ansible_runner.py:1040-1074 | keeps the first `max` bytes, counts all, flags a loss exactly when there is one, and streams the lines of the whole output |
| `LineFraming.StreamLogWriter.Write` | agents/nats-executor/local/executor.go:85-108 | publishes what the write completes and holds back the unfinished line |
| `LineFraming.StreamLogWriter.Flush` | agents/nats-executor/ssh/executor.go:172-178 | publishes the unfinished line and empties the buffer |
| `LineFraming.PublishAll` | agents/nats-executor/local/executor.go:85-121 | for every chunking, exactly the non-empty trimmed lines of that same split are published, in order |
| `LineFraming.TrimRightIsExact` | agents/nats-executor/local/executor.go:95-104 | trimming drops exactly the trailing CR and LF bytes |
| `LineFraming.PublishableStates` | agents/nats-executor/local/executor.go:95-121 | a line is published after those before it and without its trailing CR and LF bytes; one of nothing else is not |
| `ShellQuoting.QuoteRoundTrip` | agents/nats-executor/ssh/executor.go:215-221 | every string quotes to one shell word, itself (sections 2.2.2 and 2.2.3 of POSIX XCU) |
| `ShellQuoting.LineRoundTrip` | agents/nats-executor/ssh/executor.go:215-225 | a line of plain, quoted and prefixed words reads back as their meanings |
| `ScpCommand.CommandReadsAsIntended` | agents/nats-executor/ssh/executor.go:458-516 | for every user, host, path, key file, known-hosts path and port the command tokenises to the intended argument vector |
| `ScpCommand.BuiltCommandReads` | agents/nats-executor/ssh/executor.go:463-515 | there is a command exactly if a key or a password is given, a key wins, and the command reads as that way's arguments |
| `ScpCommand.CommandCopiesInDirection` | agents/nats-executor/ssh/executor.go:487-506 | written out: the last words are port, `-r`, and source then `user@host:target` for an upload, the reverse for a download |
| `ScpCommand.CommandBeginsAsIntended` | agents/nats-executor/ssh/executor.go:458-516 | written out: first the program with key file or `sshpass`, then the host-key options for the known-hosts path, then the legacy options for that profile |
| `LegacyRewrite.RewriteIsLegacyBuild` | agents/nats-executor/ssh/executor.go:643-659 | rewriting the modern command gives the legacy build if and only if key and known-hosts paths lack ` -P ` and the command lacks the marker |
| `LegacyRewrite.RewriteAddsOptions` | agents/nats-executor/ssh/executor.go:643-659 | the rewritten command then means the modern arguments with the legacy options added |
| `LegacyRewrite.MarkedPathIsNotRewritten` | agents/nats-executor/ssh/executor.go:643-648 | a source or target path that holds the marker leaves the command without the legacy options, for every user, host and key |
| `LegacyRewrite.OtherCommands` | agents/nats-executor/ssh/executor.go:643-659 | a command that is not scp is left alone; without a port flag the options go at the end |
| `TransferBudget.ScpEndsInTime` | agents/nats-executor/ssh/executor.go:518-556 | copying ends within its timeout, or less than a second later when retried; no command starts without time |
| `TransferBudget.FetchAndCopyEndsInTime` | agents/nats-executor/ssh/executor.go:300-359 | fetching and copying end less than two seconds after the deadline |
| `TransferBudget.TransferEndsInTime` | agents/nats-executor/ssh/executor.go:260-359 | the whole transfer, probe and legacy retry included, ends less than two seconds after the deadline despite rounding up twice |
| `TransferBudget.BoundIsTight` | agents/nats-executor/ssh/executor.go:785-803 | for every timeout some stages that honour theirs end two nanoseconds short of that bound |
| `TransferBudget.CopyStages` | agents/nats-executor/ssh/executor.go:518-556 | a second copy command runs exactly if the first failed with the legacy hint, the rewrite changed the command and time was left; each with the time left, rounded up |
| `TransferBudget.FetchStages` | agents/nats-executor/ssh/executor.go:300-359 | only the fetch runs if it fails or takes all the time, else the copy follows with what is left |
| `TransferBudget.TransferStages` | agents/nats-executor/ssh/executor.go:260-290 | nothing runs for a timeout that is not positive or after a failed probe; else fetch and copy against the one deadline |
| `CallbackContext.RunIsConsistent` | agents/stargazer/core/host_remote_callback.py:291-431 | in every reachable state payload and received time are there together, a finished execution has its payload, a waiting one has none, retries are within the backoffs |
| `CallbackContext.FirstPayloadWins` | agents/stargazer/core/host_remote_callback.py:291-313 | a recorded payload and its time are never replaced while the context lives |
| `CallbackContext.PayloadComesWhole` | agents/stargazer/core/host_remote_callback.py:291-313 | a payload appears only by recording it, together with its time and `execution_finished` |
| `CallbackContext.TimeoutOnlyPastLimit` | agents/stargazer/core/host_remote_runtime.py:38-68 | a context times out only by a sweeper that itself saw it waiting past its limit by the time it had listed; unless stored or accepted anew since that sight, its own limit has passed |
| `CallbackContext.AcceptanceIsOverruled` | agents/stargazer/core/host_remote_runtime.py:50-68 | a run in which an acceptance falls between listing and mark, and the context is timed out with its own deadline still ahead |
| `CallbackContext.OnTimeExactlyWhen` | agents/stargazer/core/host_remote_runtime.py:50-68 | in every state, a context not yet timed out is timed out only past its own limit, in all continuations that do not store or accept it anew, if and only if no sweep in flight holds a sight of it that is or becomes due before that limit |
| `CallbackContext.SweepActsOnlyWhenDue` | agents/stargazer/core/host_remote_runtime.py:38-94 | a sweeper changes a context only as due by its own sight: it times out one that waited past its limit, or queues one whose retry time had come or whose processing was stale |
| `CallbackContext.SweepActsWheneverDue` | agents/stargazer/core/host_remote_runtime.py:38-94 | over every run: a context still present is timed out with its reason if the sight waited past its limit, else marked processing with the job and the time if its retry time had come or its processing was stale, else left alone |
| `CallbackContext.SweepTouchesOne` | agents/stargazer/core/host_remote_runtime.py:38-94 | no other context changes in that step |
| `CallbackContext.SubmissionStates` | agents/stargazer/core/host_remote_callback.py:214-259 | a stored context waits with nothing done; acceptance sets its deadline |
| `CallbackContext.ProcessingStates` | agents/stargazer/core/host_remote_callback.py:316-373 | queueing, starting, publishing and failing set the delivery status with its times; the last three end a scheduled retry |
| `CallbackContext.FinishedStaysExactlyWhen` | agents/stargazer/core/host_remote_runtime.py:50-68 | in every reachable state a finished execution stays finished in all continuations if and only if no sweep in flight holds a sight of its context, taken while it waited, that is due or can become due |
| `CallbackContext.StaleSightOverwrites` | agents/stargazer/core/host_remote_callback.py:418-431 | a run in which the callback arrives between listing and mark, and the finished status is overwritten |
| `CallbackContext.AttemptsAreCounted` | agents/stargazer/core/host_remote_callback.py:376-415 | `publish_attempts` grows by exactly the scheduled retries of the context's life |
| `CallbackContext.RetriesRunOut` | agents/stargazer/core/host_remote_callback.py:376-415 | from any point at most `len(backoffs) - publish_attempts` more retries are scheduled; every further call fails the delivery |
| `CallbackContext.ScheduleDecreases` | agents/stargazer/core/host_remote_callback.py:376-415 | each scheduled retry lowers the measure by one and is due the next backoff later; at zero the call ends in `delivery_failed` |
| `CallbackContext.ContextStore.Update` | agents/stargazer/core/host_remote_callback.py:274-288 | edits the stored context, and nothing if there is none |
| `CallbackContext.ContextStore.RecordPayload` | agents/stargazer/core/host_remote_callback.py:291-313 | records the first payload only |
| `CallbackContext.ContextStore.ScheduleRetry` | agents/stargazer/core/host_remote_callback.py:376-415 | schedules or fails, and reports which |
| `CallbackContext.ContextStore.Sweep` | agents/stargazer/core/host_remote_runtime.py:38-94 | the loop over listed contexts applies the sweeper's decision to each in turn, each mark at its own time |
| `CallbackContext.ParseBackoffs` | agents/stargazer/core/host_remote_callback.py:119-132 | the positive numbers configured, in order, else the default; never empty, all positive |
| `CallbackContext.PositiveConcat` | agents/stargazer/core/host_remote_callback.py:119-132 | parts are read one by one, in order |
| `CallbackContext.PositiveOne` | agents/stargazer/core/host_remote_callback.py:119-132 | a part is kept exactly if it reads as a number above zero |
| `RedisGlob.StarPattern` | agents/stargazer/core/credential_state_cache.py:130-138 | a literal pattern with one `*` matches, as Redis globs do, exactly by prefix and suffix |
| `CredentialCache.PatternIsExact` | agents/stargazer/core/credential_state_cache.py:140-150 | for a task and host without glob characters the scan pattern matches exactly their failure keys, also for hosts with colons |
| `CredentialScan.ScanIsExactExactlyWhen` | agents/stargazer/core/credential_state_cache.py:44-53 | the scan finds a host's failure keys and no others if and only if the host has no glob characters |
| `CredentialScan.UnstarredMissesItself` | agents/stargazer/core/credential_state_cache.py:149-150 | a host with a class or an escape and no `*`, such as a bracketed IPv6 address, makes a pattern that misses its own keys |
| `CredentialScan.StillCooledAfterSuccess` | agents/stargazer/core/credential_state_cache.py:44-53 | on such a host a failed credential is still cooled after a success |
| `CredentialScan.StarClearsEveryHost` | agents/stargazer/core/credential_state_cache.py:44-53 | a success on the host `*` clears the failures of every host of the task |
| `CredentialCache.FailureKeyTells` | agents/stargazer/core/credential_state_cache.py:144-146 | equal failure keys have equal task, host and credential |
| `CredentialCache.SuccessKeyTells` | agents/stargazer/core/credential_state_cache.py:140-142 | equal success keys have equal task and host |
| `CredentialCache.CredentialStateCache.Success` | agents/stargazer/core/credential_state_cache.py:44-53 | sets the success record and the scan loop removes every key that the glob pattern matches |
| `CredentialCache.CredentialStateCache.Failure` | agents/stargazer/core/credential_state_cache.py:55-81 | sets the failure record for the cooldown of its level |
| `CredentialCache.CooldownHours` | agents/stargazer/core/credential_state_cache.py:190-197 | one hour, four hours, and a day for every other level |
| `CredentialCache.ClearForgets` | agents/stargazer/core/credential_state_cache.py:83-89 | clearing forgets what worked on that host and nothing else |
| `CredentialCache.CooldownLasts` | agents/stargazer/core/credential_state_cache.py:55-81 | through any other operations, successes on hosts without glob characters among them, a failed credential is cooled exactly until its cooldown ends |
| `CredentialCache.CooldownEnds` | agents/stargazer/core/credential_state_cache.py:44-53 | after a success on a host without glob characters none of its credentials is cooled until it fails again |
| `CredentialCache.SuccessLasts` | agents/stargazer/core/credential_state_cache.py:15-53 | what worked is remembered for exactly seven days, through operations on other hosts and tasks and failures |
| `CredentialSelection.BuildCandidates` | agents/stargazer/api/collect.py:150-171 | one group per host, in the order of first mention, each with a candidate per pool entry |
| `CredentialSelection.MentionsAreFirst` | agents/stargazer/api/collect.py:150-171 | the hosts are those mentioned, each at its first mention, in that order |
| `CredentialSelection.CandidatesAre` | agents/stargazer/api/collect.py:150-171 | without a pool the request itself, else one candidate per entry in order with its credential id, or the request's own |
| `CredentialSelection.SelectForHost` | agents/stargazer/api/collect.py:181-209 | the loops compute the pick of a host, the error for a candidate without an id included |
| `CredentialSelection.SelectCandidates` | agents/stargazer/api/collect.py:214-251 | the loop over hosts collects the picks |
| `CredentialSelection.SelectionKeepsOrder` | agents/stargazer/api/collect.py:214-251 | what is chosen comes in the order of the hosts |
| `CredentialSelection.UnnamedIsTaken` | agents/stargazer/api/collect.py:183-187 | a first candidate without an id is taken, whatever the cache holds |
| `CredentialSelection.NothingLookedUp` | agents/stargazer/api/collect.py:281-286 | without a task id or host the first candidate is taken |
| `CredentialSelection.RaisesExactlyWhen` | agents/stargazer/api/collect.py:189-209 | selection raises exactly if something else worked last and the first candidate that is not cooled has no id |
| `CredentialSelection.ChoiceIsNotCooled` | agents/stargazer/api/collect.py:189-209 | a chosen credential is never cooled, and none is chosen exactly when all are |
| `CredentialSelection.SuccessIsPreferred` | agents/stargazer/api/collect.py:189-199 | the pooled credential that last worked is chosen exactly if it is not cooled |
| `CredentialSelection.OrderDecides` | agents/stargazer/api/collect.py:201-207 | otherwise every candidate before the chosen one is cooled |
| `CredentialSelection.OneTaskPerHost` | agents/stargazer/api/collect.py:174-211 | each host gets exactly one task, or none exactly when all its credentials are cooled |
| `CredentialSelection.ChosenAfterSuccess` | agents/stargazer/core/credential_state_cache.py:44-53 | after `mark_success` the selection picks that credential if pooled, for seven days, through unrelated operations |
| `CredentialSelection.NotChosenAfterFailure` | agents/stargazer/core/credential_state_cache.py:55-81 | after `mark_failure` the credential is not picked before its cooldown ends, through unrelated operations |
| `ConversationCache.RunIsCoherent` | mobile/src/context/conversation.tsx:128-143 | in every run, clearing included, the running-id list equals the running sessions of the map in its order |
| `ConversationCache.RunIsOrdered` | mobile/src/context/conversation.tsx:56-186 | in every run without `clearSession` the access order lists exactly the cached ids, each once |
| `ConversationCache.InitSize` | mobile/src/context/conversation.tsx:70-108 | the exact size after a new session: one more while there is room, else the larger of ten and running plus one |
| `ConversationCache.InitEvicts` | mobile/src/context/conversation.tsx:70-108 | evicted sessions were idle and less recent than every kept idle one but the new; kept ones are unchanged |
| `ConversationCache.AccessOrderIsRecency` | mobile/src/context/conversation.tsx:56-64 | in every run, clearing included, the access order is the order of last use |
| `ConversationCache.EvictsLeastRecentlyUsed` | mobile/src/context/conversation.tsx:70-108 | in every run without clearing, an evicted session was idle and used longer ago than every kept idle one |
| `ConversationCache.ClearKeepsOrderedExactlyWhen` | mobile/src/context/conversation.tsx:308-313 | clearing leaves the access order exact if and only if the session was not cached |
| `ConversationCache.InitLosesExactlyWhen` | mobile/src/context/conversation.tsx:167-186 | opening a cleared session again loses it exactly when fewer idle entries precede its stale place than must be evicted |
| `ConversationCache.LossIsReachable` | mobile/src/context/conversation.tsx:167-186 | for any eleven ids a run of twelve openings and one clearing loses the session just opened |
| `ConversationCache.InitSizeAfterClearing` | mobile/src/context/conversation.tsx:70-108 | the exact size after a new session in any run, clearing included: each victim that was cleared before frees nothing |
| `ConversationCache.ElevenIdleSessions` | mobile/src/context/conversation.tsx:70-108 | a run with one clearing that leaves eleven sessions cached and none running |
| `ConversationCache.ConversationManager.TouchSession` | mobile/src/context/conversation.tsx:56-64 | moves the id to the end of the access order |
| `ConversationCache.ConversationManager.FindVictims` | mobile/src/context/conversation.tsx:76-98 | the loop finds the oldest idle ids in excess of the maximum |
| `ConversationCache.ConversationManager.CleanupSessions` | mobile/src/context/conversation.tsx:70-108 | removes exactly those from the map and the order |
| `ConversationCache.ConversationManager.InitSession` | mobile/src/context/conversation.tsx:167-186 | adds a missing session, evicts, touches, and returns what is then cached |
| `ConversationCache.ConversationManager.GetSessionState` | mobile/src/context/conversation.tsx:155-162 | returns a cached session and touches it |
| `ConversationCache.ConversationManager.UpdateRunningIds` | mobile/src/context/conversation.tsx:131-143 | the cached list becomes the running sessions in map order |
| `ConversationCache.ConversationManager.UpdateSession` | mobile/src/context/conversation.tsx:208-216 | replaces a cached session's state, stamps it and refreshes the running list |
| `ConversationCache.ConversationManager.ClearSession` | mobile/src/context/conversation.tsx:308-313 | forgets the session but not its place in the access order |

## Left out

- NATS, JetStream, Redis, SQLite, SSH and subprocess mechanics: only deliver, ack, nak, keyed get and set with expiry, and row updates appear.
- Floating-point numbers in JSON. Ansible's evaluation of values after tokenising.
- CompactionSize.BuiltFitsExactlyWhen: for a payload with fewer than 100 characters of text, the skeleton decides only up to 100 bytes.
- LeaseSettling.SettlesExactlyWhen: asks for a worker, and that the calendar has an instant one lease window after some past one; ShortLeasesFit shows that it has for every lease shorter than a day.
- `parse_ansible_output_per_host` and the other output parsers built on regular expressions.
- LeaseResults.CommittedResultStands: ends at a retried callback, which overwrites the stored result with the compacted payload (nats_service.py:676); after it the id and the outcome still stand.
- Delivery of every callback: it is lost when publishing the retry fails or the process dies after the commit; no claim is made that callbacks arrive.
- LeaseSafety.AttemptsBounded: recreating the consumer resets delivery counts (nats_service.py:319-324), so claims are bounded per consumer lifetime, and in all only in proportion to the number of lifetimes.
- LeaseTiming.TimedMutualExclusion: the 0.4 and 1.5 factors are exact in the model; rounding of floating point is not modelled.
- LineFraming.StreamLines: decoding of a line's bytes with replacement characters is a parameter.
- ScpCommand.CommandReadsAsIntended: the reader is a POSIX shell; expansions particular to one shell are not modelled. The temporary key file's name is a parameter.
- TransferBudget.TransferEndsInTime: whether an error text asks for the legacy retry (compatibility.go:19-37) is an arbitrary answer of the stage. A fetch given no time is taken not to start; the code calls it and it fails at once.
- Inventory.CredentialRoundTrip: values are given by their text; falsy values other than the empty text count as missing. Host names with characters the tokenizer treats specially are outside the claim, as the code does not quote them.
- CallbackContext.ParseBackoffs: splitting the setting and Python's `int` are parameters.
- CallbackContext.TimeoutOnlyPastLimit: says nothing of the context's own limit when it was accepted or stored anew between the sight and the mark, where it is false (OnTimeExactlyWhen says from which states it holds); expiry of stored contexts is a removal at any time.
- CredentialCache.PatternIsExact: task ids are free of colons, hosts of the text `:credential`; glob characters are covered by CredentialScan for hosts, not for task ids.
- CredentialSelection.BuildCandidates: a pool entry whose credential id is present but null is taken as having none; other task parameters are not carried.
- CredentialSelection.OneTaskPerHost: stated for pools in which every credential has an id, as selection can raise otherwise.
- Messages, thinking texts, markdown and stream controllers of a mobile session: opaque to the cache; listeners are not modelled.
- Races between awaits inside a Stargazer helper, `task_queue.py` and `worker.py` dedupe markers, the credential result push cursor, `api_proxy.rs`, SSE loops, configuration loading, allowlists, React components: not part of this model.
