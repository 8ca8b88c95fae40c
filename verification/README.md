# Collector core: a verified model

The Loza collector accepts events over HTTP, redacts and deduplicates them,
keeps them in an encrypted write-ahead spool, delivers them with one worker and
checkpoints what was delivered. Around it stand an external LQL compiler, a
bridge to Cortex, a staging worker for a file queue and a credential store.
This project models those parts and proves what they promise, over every input
and every run. Where a promise does not hold, the exact condition is proved
instead.

Parts that change state in the source are classes and methods here, each proved
equal to a function on values; the lemmas are about those functions and the runs
built from them. Clocks, randomness, failures of the operating system and the
outcomes of code outside the model are parameters.

| file | models |
|---|---|
| `ByteStrings.dfy`, `Strings.dfy`, `JsonTree.dfy` | octets, ASCII strings, decoded JSON with places and paths |
| `Base64.dfy`, `BlobCipher.dfy` | the encrypted record format |
| `Framing.dfy` | records in the spool file and the replay scanner |
| `SpoolDisk.dfy`, `SpoolLog.dfy` | append, checkpoint and restart, as functions and as the methods of a class |
| `SpoolRuns.dfy`, `SpoolTheorems.dfy`, `SpoolDeadlock.dfy` | runs of producer, bounded queue, worker and crashes, what holds of them, and where they stop |
| `DeliveryQueue.dfy` | the byte budget at the grain of its atomic operations |
| `Dedupe.dfy` | the two first-in-window dedupe stores |
| `Redaction.dfy`, `PayloadHeap.dfy`, `PayloadLimits.dfy` | redaction on trees and in place, the PII auditor, payload limits |
| `LqlSupervisor.dfy` | the supervisor of the LQL compiler process |
| `Stager.dfy` | the staging worker over the file queue |
| `CortexBridge.dfy` | the batching bridge to Cortex |
| `Ingest.dfy`, `IngestRetries.dfy`, `IngestCapacity.dfy` | the per-event loop of the ingest handler and its status; the loop with the dedupe map behind it; the in-flight counters |
| `Credentials.dfy`, `CredentialPromises.dfy`, `KeyCache.dfy` | credential validation and the key store, what the two promise together, the key cache |

Seven places where the code does less than one might expect, each with its exact
condition:

- Replay gives back what append wrote if and only if every record is valid JSON,
  fits the scanner's buffer and, without encryption, is one trimmed line
  (`RecoverableIffReplayable`). Encryption lengthens a record, so an event
  within `max_event_bytes` can cut the replay short (`LargestEventStopsReplay`).
- A request waits for the delivery queue while holding the lock that the worker
  needs for its checkpoint. Pending work stops exactly when the channel or the
  byte budget refuses that request's record while the worker has a record to
  checkpoint (`StuckIff`), and every channel size and budget can get there
  (`StuckIsReachable`). The wait is cancelled only by a shutdown that first
  waits for the same lock.
- A crash between truncating the drained file and saving offset 0 costs the next
  record unless the saved offset was 0 (`TornCompaction`).
- The in-flight limits are checked and then counted in separate steps. Racing
  requests exceed the limit on requests by up to the number of other requests in
  the race, and the limit on events by up to the events of the others
  (`OvershootBounded`, `OvershootReached`). A limit holds in all runs exactly if
  nothing races (`LimitHoldsIff`).
- The dedupe map marks a value before its event is stored. A later event that is
  answered as accepted is in the spool if and only if no earlier call with its
  value in the window failed after marking (`AcceptedIsStoredIff`,
  `RetryIsAcceptedUnstored`).
- A batch of which nothing was accepted is answered 202 when some events were
  invalid, others quarantined and none rejected (`AnsweredAccepted`,
  `NothingAcceptedYet202`).
- Redaction can push an event over the string limit: exactly when the limit is
  below the ten octets of the replacement text and something was replaced
  (`RedactionKeepsLimits`).

## Model

| member | source | states |
|---|---|---|
| Base64.RoundTrip | collector/cmd/loza-collector/crypto_helpers.go:30-39 | decoding the standard base64 text of any octets gives them back, line-break skipping and padding included |
| Base64.EncodesByAlphabet | collector/cmd/loza-collector/crypto_helpers.go:30-31 | the digits are A-Z, a-z, 0-9, plus and slash in that order, padding the equals sign |
| Base64.Vectors | collector/cmd/loza-collector/crypto_helpers.go:30-31 | the texts of one, two and three octets from section 10 of RFC 4648 |
| BlobCipher.EncryptedIsSpaceFree | collector/cmd/loza-collector/crypto_helpers.go:20-32 | an encrypted record contains no white space, hence no newline or carriage return, and has a known length |
| BlobCipher.DecryptInvertsEncrypt | collector/cmd/loza-collector/crypto_helpers.go:20-53 | with any cipher whose open inverts its seal, decrypting an encrypted record gives the payload, for every payload, key and nonce |
| BlobCipher.OpenDecides | collector/cmd/loza-collector/crypto_helpers.go:34-53 | a prefixed record opens to exactly what the cipher makes of its nonce and sealed octets, its refusals included |
| BlobCipher.FormatIsSound | collector/cmd/loza-collector/crypto_helpers.go:20-53 | so the record format has all that the spool theorems ask of it: records open again, are free of white space and of known length |
| BlobCipher.EncryptionEnabledIff | collector/cmd/loza-collector/crypto_helpers.go:16-18 | encryption is on exactly if some octet of the key is not white space |
| BlobCipher.PlainIsKept | collector/cmd/loza-collector/crypto_helpers.go:34-38 | text without the prefix is handed back as it is |
| BlobCipher.ShortIsRefused | collector/cmd/loza-collector/crypto_helpers.go:47-49 | a prefixed record too short for a nonce is refused |
| Framing.ReplayInvertsAppend | collector/cmd/loza-collector/spool.go:191-249 | for any records from any boundary, replay rebuilds exactly the payloads and ranges that append returned if and only if every record is replayable |
| Framing.RecoverableIffReplayable | collector/cmd/loza-collector/spool.go:475-543 | a payload's record is replayable exactly under a test on the payload, key and size limit that can be made before appending |
| Framing.UndecryptableIsKept | collector/cmd/loza-collector/spool.go:518-528 | with encryption on, a line that does not decrypt is replayed as it stands if it is JSON, and set aside otherwise |
| Framing.EncryptedIsOneLine | collector/cmd/loza-collector/spool.go:196-204 | with encryption on and a sound record format, every stored record is one line of the file |
| Framing.LargestEventStopsReplay | collector/cmd/loza-collector/spool.go:490-496 | an event of exactly max_event_bytes, and everything behind it, is not replayed |
| Framing.ReplayOfLines | collector/cmd/loza-collector/spool.go:497-541 | replay of one-line records yields one delivery per record with its true range, up to the first over-long line and complete if there is none |
| Framing.ReplayAligned | collector/cmd/loza-collector/spool.go:497-506 | for any file contents, replayed ranges are the true line ranges if and only if no scanned line has a carriage return before its newline |
| Framing.ReplayPartitions | collector/cmd/loza-collector/spool.go:497-541 | then a complete replay cuts the unread bytes into consecutive non-empty ranges, final newline or not |
| SpoolLog.RebuildDelivery | collector/cmd/loza-collector/spool.go:508-541 | one scanned line becomes its decoded payload, or a skip mark if blank or not JSON |
| SpoolLog.ScanRecords | collector/cmd/loza-collector/spool.go:489-546 | the scanner loop computes the replay of the unread tail |
| SpoolLog.Spool.AppendSpoolLocked | collector/cmd/loza-collector/spool.go:191-249 | a stored record is the last bytes of the file at the returned range; a refused, failed, short or unsynced write leaves the spool as it was |
| SpoolLog.Spool.MarkSpoolDelivered | collector/cmd/loza-collector/spool.go:389-444 | the checkpoint moves over exactly the given record or nothing changes; what is left unprocessed is what followed the record |
| SpoolLog.Spool.Restart | collector/cmd/loza-collector/spool.go:58-69 | after a stop the gauge is reset, a fully processed file is emptied and the rest is replayed |
| SpoolRuns.MarkOutcome | collector/cmd/loza-collector/spool.go:389-444 | in every reachable state the start offset equals the checkpoint for exactly one record, the bounds check never fires, the file is emptied only when nothing else is in flight, and without failures there is no gap |
| SpoolRuns.RestartFinds | collector/cmd/loza-collector/spool.go:446-555 | a restart finds the records from the checkpoint on, in order, with their own ranges |
| SpoolRuns.StepKeepsInv | collector/cmd/loza-collector/spool.go:173-189 | append, enqueue, cancelled enqueue, receive, processing, failure, checkpoint and crash each keep the invariant that ties file, offset, channel, worker and history together |
| SpoolRuns.RunKeepsInv | collector/cmd/loza-collector/spool.go:328-371 | the invariant holds after every run |
| SpoolTheorems.NoDurableRecordLost | collector/cmd/loza-collector/spool.go:389-444 | in every run each stored record was processed without error, or could not be rebuilt and was set aside, or is whole in the file at or above the checkpoint; all below the checkpoint are of the first two kinds |
| SpoolTheorems.EncryptedJsonIsFaithful | collector/cmd/loza-collector/spool.go:191-249 | with encryption on, a JSON payload is stored as one line that decodes to it |
| SpoolTheorems.EveryEventDeliveredOrKept | collector/cmd/loza-collector/spool.go:340-371 | with encryption on, every JSON event ever stored was processed as it was written or is still in the file |
| SpoolTheorems.AcknowledgedIsLogged | collector/cmd/loza-collector/spool.go:173-189 | a successful append stays in the log whatever happens next |
| SpoolTheorems.InOrderOncePerStart | collector/cmd/loza-collector/spool.go:328-338 | in every run, of two receives with no restart between them the later one gets the later record: each start delivers in log order, none twice |
| SpoolTheorems.SpoolBytesExact | collector/cmd/loza-collector/spool.go:243-244 | after every stored append and every moving checkpoint the gauge is file size minus checkpoint |
| SpoolTheorems.AppendStoresIff | collector/cmd/loza-collector/spool.go:173-249 | in every run an append stores its record exactly if the event passes the size check, the write succeeds and the framed records above the checkpoint leave room for its line in max_spool_bytes, or that is off; otherwise nothing changes |
| SpoolTheorems.CapacityRespected | collector/cmd/loza-collector/spool.go:210-222 | over every run without a lost position file the unprocessed bytes stay within max_spool_bytes |
| SpoolTheorems.DrainedSpoolIsEmpty | collector/cmd/loza-collector/spool.go:422-443 | with nothing in flight and no failure since the last start the file is empty, offset and gauge zero |
| SpoolDeadlock.RunKeepsDurable | collector/cmd/loza-collector/spool.go:281-287 | in every run each job in flight has a non-empty range of the file, so an empty queue admits it whatever its size |
| SpoolDeadlock.StuckIff | collector/cmd/loza-collector/spool.go:267-308 | in every run pending work cannot move exactly when a request holding the lock is refused by the channel or the byte budget while the worker has a record to checkpoint; then only cancellation or the end of the process is left |
| SpoolDeadlock.StuckIsReachable | collector/cmd/loza-collector/spool.go:389-395 | for every channel size, byte budget and record that passes the up-front check, with spool room for two records more than the queue holds, a run gets there with exactly as many records queued as fit |
| SpoolTheorems.TornCompaction | collector/cmd/loza-collector/spool.go:431-443 | after a crash between truncation and position save, the next stored record survives a restart if and only if the saved offset was 0 |
| DeliveryQueue.StepKeepsInv | collector/cmd/loza-collector/spool.go:267-326 | every atomic step of enqueuer and worker keeps the byte count exact, within the budget, and every waiter informed |
| DeliveryQueue.ByteAccounting | collector/cmd/loza-collector/spool.go:267-326 | in every run queueBytes is the sum of what is reserved and not released, and above the limit only while a single non-empty item is outstanding |
| DeliveryQueue.NoLostWakeup | collector/cmd/loza-collector/spool.go:281-299 | if the counter dropped since a waiter looked, a token is there or the worker is about to leave one |
| DeliveryQueue.WaiterNotStranded | collector/cmd/loza-collector/spool.go:294-326 | a waiter that would be admitted now is being woken, and nobody waits with nothing outstanding |
| DeliveryQueue.WaitsOnlyWhenFull | collector/cmd/loza-collector/spool.go:281-299 | in every run an enqueuer waits only with the limiter on, when the counter it saw left no room for its item and it was not a durable item met by an empty queue |
| DeliveryQueue.RefusedIff | collector/cmd/loza-collector/spool.go:251-265 | refused up front are exactly the items without a place in the file that exceed the whole budget |
| DeliveryQueue.TokenStep | collector/cmd/loza-collector/spool.go:294-326 | a signal leaves the one token, a wake-up takes it, nothing else touches it |
| Dedupe.DedupeWindow.IsDuplicate | collector/cmd/loza-collector/state.go:118-142 | the evicting loop leaves exactly the entries within the window, adds the value if it is new, and answers accordingly |
| Dedupe.DedupeRefinesHistory | collector/cmd/loza-collector/state.go:118-142 | with a clock that does not go back, a call is a duplicate exactly when the latest accepted call of its value is at most one window old |
| Dedupe.MapIsTheFreshValues | collector/cmd/loza-collector/state.go:129-140 | after each call the map holds exactly the values accepted within the window, with their times |
| Dedupe.EvictionUnobservable | collector/cmd/loza-collector/state.go:131-135 | a map that never evicts gives the same answers |
| Dedupe.LocalDedupeStore.MarkSeen | spec/services/dedupe_store.py:24-35 | marks a key unless a live entry is there, and leaves every other key alone |
| Dedupe.LocalDedupeStore.IsSeen | spec/services/dedupe_store.py:37-49 | answers whether a live entry is there and drops only that key's expired entry |
| Dedupe.StoresAgree | spec/services/dedupe_store.py:24-49 | on every trace of non-blank keys with equal window and ttl, mark_seen is the negation of isDuplicate and is_seen equals it, with any is_seen calls in between |
| Dedupe.BlankKeysDisagree | collector/cmd/loza-collector/state.go:119-121 | a repeated blank key is a duplicate for the local store and never for the collector |
| Redaction.NormalizeIdempotent | collector/cmd/loza-collector/event_governance.go:192-197 | a normal form is its own normal form |
| Redaction.NormalizedAlikeIff | collector/cmd/loza-collector/event_governance.go:192-197 | two keys are blocked alike exactly if, outer white space aside, they differ only in letter case and in which of dash, dot and underscore they use |
| Redaction.NormalizedIff | collector/cmd/loza-collector/event_governance.go:192-197 | exactly the trimmed keys without capitals, dashes and dots are their own normal form |
| PayloadHeap.RedactObject | collector/cmd/loza-collector/event_governance.go:161-190 | changing the maps where they stand, in any iteration order, leaves them spelling the redacted tree, touches no other map, and reports exactly whether something was replaced |
| PayloadHeap.RedactMap | collector/cmd/loza-collector/event_governance.go:163-181 | the loop over one map redacts every entry whatever the order of keys |
| PayloadHeap.RedactEntry | collector/cmd/loza-collector/event_governance.go:164-180 | one entry is replaced if its key is blocked or its text secret, otherwise redacted below; no other entry changes |
| PayloadHeap.RedactSlice | collector/cmd/loza-collector/event_governance.go:182-187 | the loop over a slice redacts every item below and reports whether any changed |
| PayloadHeap.RedactedSpells | collector/cmd/loza-collector/event_governance.go:161-190 | the layout after redaction in place spells the redacted tree |
| Redaction.Audit.WalkPII | collector/cmd/loza-collector/schema_audit_handlers.go:232-253 | every finding of the tree is counted once on top of the earlier counts |
| Redaction.CountsOccurrences | collector/cmd/loza-collector/schema_audit_handlers.go:232-253 | each counter grows by the number of times its finding occurs, and no other key appears |
| Redaction.RedactionAgreesWithAudit | collector/cmd/loza-collector/schema_audit_handlers.go:232-253 | redaction reports a change exactly when the auditor records a finding: any with secret scanning on, a blocked key with it off |
| Redaction.FindingsIff | collector/cmd/loza-collector/schema_audit_handlers.go:232-253 | the auditor records a finding exactly if some member of the tree, at the place of that path, has a blocked key or a secret text |
| Redaction.RedactedObjectIs | collector/cmd/loza-collector/event_governance.go:164-180 | every object anywhere in the redacted tree has the members that stood there, each value the replacement text if its key is blocked, or if scanning is on and its text was secret, and otherwise what stood there redacted below |
| Redaction.BlockedIsRedacted | collector/cmd/loza-collector/event_governance.go:166-170 | with or without secret scanning no blocked key anywhere keeps its value |
| Redaction.NothingConfidentialLeft | collector/cmd/loza-collector/event_governance.go:171-176 | after redaction the auditor finds no secret text |
| Redaction.RedactIdempotent | collector/cmd/loza-collector/event_governance.go:161-190 | redacting twice is redacting once |
| Redaction.UnshieldedUnchanged | collector/cmd/loza-collector/event_governance.go:161-190 | a place that no blocked or secret member covers keeps its leaf, kind and size |
| Redaction.ShieldedIsReplaced | collector/cmd/loza-collector/event_governance.go:165-176 | the outermost blocked or secret member above a place holds the replacement text |
| Redaction.UnmodifiedIsUntouched | collector/cmd/loza-collector/event_governance.go:161-190 | no reported change means the same tree |
| Redaction.KeysUnchanged | collector/cmd/loza-collector/event_governance.go:164-176 | redaction keeps every key in its position |
| PayloadLimits.DepthBoundsPlaces | collector/cmd/loza-collector/event_governance.go:227-248 | maxDepth bounds the depth of every place of the tree |
| PayloadLimits.DeepestPlace | collector/cmd/loza-collector/event_governance.go:227-248 | and some place reaches it |
| PayloadLimits.RedactionShrinks | collector/cmd/loza-collector/event_governance.go:208-248 | redaction never increases the field count or the depth |
| PayloadLimits.CountFieldsIsMembers | collector/cmd/loza-collector/event_governance.go:208-225 | countFields is the number of members anywhere in the tree, each place once |
| PayloadLimits.VerdictIff | collector/cmd/loza-collector/event_governance.go:69-98 | which limit an event is refused for: too many members first, then a place too deep, then a text too long, each only if that limit is positive |
| PayloadLimits.LongestStringCheck | collector/cmd/loza-collector/event_governance.go:250-278 | the string check reports a hit exactly when some text exceeds the limit, with the path and length of such a text |
| PayloadLimits.RedactionKeepsLimits | collector/cmd/loza-collector/event_governance.go:69-98 | an event within the limits stays within them after redaction unless the string limit is below the replacement text and something was replaced |
| LqlSupervisor.LqlRestartBackoff | collector/cmd/loza-collector/lql_adapter.go:237-246 | the doubling loop gives min(100 ms doubled once per failure after the first, 5 s), and no intermediate value reaches 10 s |
| LqlSupervisor.BackoffMonotone | collector/cmd/loza-collector/lql_adapter.go:237-246 | more failures never shorten the delay, which lies between 100 ms and 5 s |
| LqlSupervisor.BackoffTable | collector/cmd/loza-collector/lql_adapter.go:237-246 | 100, 200, 400, 800, 1600, 3200 and then 5000 milliseconds |
| LqlSupervisor.RepliesMatchRequests | collector/cmd/loza-collector/lql_adapter.go:115-194 | over every run of calls, failures, kills and restarts each decoded reply answers the request just written, though ids are never compared |
| LqlSupervisor.KillIsNeeded | collector/cmd/loza-collector/lql_adapter.go:145-151 | were a timed-out process not killed, the next decoded reply would be the one to the earlier request |
| LqlSupervisor.CompilesAreGated | collector/cmd/loza-collector/lql_adapter.go:75-113 | every compile request goes to a process whose handshake matched protocol, language and, if set, compiler |
| LqlSupervisor.RestartsAreSpaced | collector/cmd/loza-collector/lql_adapter.go:215-235 | after the k-th failed start in a row the next begins no earlier than the k-th backoff later |
| LqlSupervisor.PlanAnswersTheCall | collector/cmd/loza-collector/lql_adapter.go:115-194 | a plan handed to the caller comes from the reply to that call's own request |
| LqlSupervisor.AnswerWhenRunning | collector/cmd/loza-collector/lql_adapter.go:115-194 | with a running child: which reply gives a plan, which a compile error with the child kept, and that everything else kills the child and clears the backoff |
| LqlSupervisor.AnswerWhenStopped | collector/cmd/loza-collector/lql_adapter.go:215-235 | without a child: no start inside the backoff, otherwise one start, which succeeds exactly if the handshake carries the expected versions; a failed one counts and sets the next backoff |
| LqlSupervisor.CloseStops | collector/cmd/loza-collector/lql_adapter.go:196-200 | closing stops the child and changes nothing else |
| LqlSupervisor.NewLqlStdioCompiler | collector/cmd/loza-collector/lql_adapter.go:34-67 | a compiler is handed out exactly if the binary is named, at most one concurrent request is asked for and the first start succeeds; it starts in the state of that run, with the default protocol and language |
| LqlSupervisor.LqlStdioCompiler.StartLocked | collector/cmd/loza-collector/lql_adapter.go:75-113 | start and handshake: a child that passed the version check, or none |
| LqlSupervisor.LqlStdioCompiler.RequestLocked | collector/cmd/loza-collector/lql_adapter.go:257-288 | one request: which id it used, what it sent, and which pending line its reply was |
| LqlSupervisor.LqlStdioCompiler.EnsureStartedLocked | collector/cmd/loza-collector/lql_adapter.go:215-235 | no start inside the backoff; a failed start lengthens it |
| LqlSupervisor.LqlStdioCompiler.CompileQueryText | collector/cmd/loza-collector/lql_adapter.go:115-194 | one call, with every way it can fail and which of them kill the child |
| LqlSupervisor.LqlStdioCompiler.KillLocked | collector/cmd/loza-collector/lql_adapter.go:202-213 | the child is gone, the rest is kept |
| LqlSupervisor.LqlStdioCompiler.CloseCompiler | collector/cmd/loza-collector/lql_adapter.go:196-200 | closing kills the child and keeps the backoff |
| Stager.ComputeBackoff | spec/services/kafka_adapter.py:21-29 | the delay never exceeds max_delay, jitter included, and is not negative for a non-negative policy |
| Stager.DelayDoubles | spec/services/kafka_adapter.py:26-27 | without jitter the delay starts at base_delay and doubles with each attempt until max_delay stops it |
| Stager.BackoffBetween | spec/services/kafka_adapter.py:26-29 | jitter lengthens the delay by at most its share and never beyond max_delay |
| Stager.SafeName | spec/services/stager.py:67-69 | a safe name has 1 to 200 characters, all of them safe |
| Stager.SafeNameKeepsSafe | spec/services/stager.py:67-69 | a name stays as it is exactly when it has 1 to 200 characters, all safe |
| Stager.DashedRun | spec/services/stager.py:67-69 | each maximal run of unsafe characters becomes one dash and the text on both sides is treated on its own |
| Stager.SafeNameIsPrefix | spec/services/stager.py:67-69 | the safe name is the dashed text cut at 200 characters, or the word event if that is empty |
| Stager.CandidatesDiffer | spec/services/stager.py:82-94 | no two candidate names of one message are equal |
| Stager.BuildTarget | spec/services/stager.py:82-94 | the search ends at the first candidate that is not taken |
| Stager.TargetNamed | spec/services/stager.py:82-94 | the target lies in the partition, under the stem and extension, and is the plain name if that is free |
| Stager.StagingDir.StagePayload | spec/services/stager.py:115-120 | staging adds one file under a free name with the original payload and changes no other |
| Stager.LocalQueue.AckFile | spec/services/queue_prototype.py:54-58 | an acknowledgement removes that file or, failing silently, nothing |
| Stager.LocalQueue.SendToDlq | spec/services/queue_prototype.py:60-68 | a dead letter is added with payload, attempts and source, or the write fails and nothing changes |
| Stager.StageOne | spec/services/stager.py:135-172 | the retry loop for one message against the recursive account of it |
| Stager.StageEvents | spec/services/stager.py:123-173 | the batch loop against the account message by message |
| Stager.OneMessage | spec/services/stager.py:135-172 | a message is staged exactly when one of its attempts up to max_attempts succeeds, otherwise dead-lettered after the last exactly if that write works, otherwise left; it leaves the queue exactly if it is staged or dead-lettered and the acknowledgement works, and no other message does |
| Stager.SleepBounded | spec/services/stager.py:170 | total sleep is at most (attempts made - 1) times max_delay |
| Stager.SleepsBetweenAttempts | spec/services/stager.py:135-170 | there is one sleep of the computed length after each attempt made but the last, and no other |
| Stager.StagedUnder | spec/services/stager.py:82-94 | a message is staged in the partition of its attempt, under its event id if that is a safe free name, and without one under the name of its queue file |
| Stager.BatchExtends | spec/services/stager.py:123-173 | for every failure pattern a batch loses no message, changes no staged file, and its result is the number of files added |
| Stager.QueuedAfterIff | spec/services/stager.py:123-173 | after a batch a message is still queued exactly if it was and is not a listed readable one that was staged or dead-lettered and acknowledged |
| Stager.SecondBatchIsIdle | spec/services/stager.py:123-173 | once every readable message of a listing has settled so, a further batch over that listing, however it goes, stages nothing and changes nothing |
| Stager.NothingIsLost | spec/services/queue_prototype.py:34-68 | over every run of produced messages and batches each message is queued, or staged with its payload, or dead-lettered with it |
| CortexBridge.FifoConserving | collector/cmd/loza-collector/cortex_bridge.go:92-170 | in every run batches handed on, then the current batch, then the queue, are exactly what was enqueued in order; each batch has 1 to batchSize events; counted events are those of the successful batches |
| CortexBridge.CloseDrains | collector/cmd/loza-collector/cortex_bridge.go:76-90 | once the loop has stopped, everything enqueued has been handed on |
| CortexBridge.OfferIff | collector/cmd/loza-collector/cortex_bridge.go:99-112 | an event is enqueued exactly if the channel, 4096 events unless set, has room; otherwise an error is counted |
| CortexBridge.ReceiveIff | collector/cmd/loza-collector/cortex_bridge.go:146-158 | an arriving event joins the batch, which is handed on exactly if it then has the batch size, 128 unless set |
| CortexBridge.TickIff | collector/cmd/loza-collector/cortex_bridge.go:127-144 | a tick hands on whatever is batched and counts success or failure |
| CortexBridge.CortexBridgeClient.Deliver | collector/cmd/loza-collector/cortex_bridge.go:92-114 | the events that fit the channel go in, in order; the first that does not is refused and counted, and the rest are not tried |
| CortexBridge.CortexBridgeClient.FlushBatch | collector/cmd/loza-collector/cortex_bridge.go:128-144 | a non-empty batch is handed on once and emptied whether or not sending succeeds |
| CortexBridge.CortexBridgeClient.ReceiveOne | collector/cmd/loza-collector/cortex_bridge.go:146-158 | an arriving event joins the batch, which is flushed at batchSize |
| CortexBridge.CortexBridgeClient.OnTick | collector/cmd/loza-collector/cortex_bridge.go:159-168 | the ticker flushes what is there |
| CortexBridge.CortexBridgeClient.CloseAndWait | collector/cmd/loza-collector/cortex_bridge.go:76-90 | closing drains queue and batch |
| Ingest.HandleEvents | collector/cmd/loza-collector/handlers.go:177-309 | the accepted and invalid metrics grow by the number of events whose stage outcomes say so, the three metrics together by the number of events, and what goes to Cortex is, in order, the rewritten form of the delivered ones |
| Ingest.VerdictIff | collector/cmd/loza-collector/handlers.go:177-309 | which events are delivered, repeated, quarantined, invalid or rejected, from the outcome of each stage and mode; a delivered event is its stamped form if the request is scoped |
| Ingest.CountedIsCount | collector/internal/ingest/response.go:46-88 | every counter grows by the number of events with the outcomes it stands for, the rejected ones being the rest |
| Ingest.ForwardedIsDelivered | collector/cmd/loza-collector/handlers.go:303-309 | the forwarded list is that of the delivered events in order |
| Ingest.CountedIsTally | collector/internal/ingest/response.go:46-88 | every counter is the number of events with its verdicts |
| Ingest.EachEventCountedOnce | collector/cmd/loza-collector/handlers.go:177-309 | each event is counted as exactly one of accepted, invalid and rejected; forwarded and duplicate events add up to the accepted ones |
| Ingest.ForwardedInOrder | collector/cmd/loza-collector/handlers.go:303-309 | what goes to Cortex is, in order, the rewritten form of exactly the accepted non-duplicate events |
| Ingest.AnsweredAccepted | collector/cmd/loza-collector/handlers.go:311-323 | a non-empty batch is answered 202 exactly when all events were accepted, or none was and some were invalid, others quarantined, none rejected |
| Ingest.StatusIff | collector/cmd/loza-collector/handlers.go:311-323 | every status of a non-empty batch from the stage outcomes: 400 if all are invalid, 422 if all are quarantined, 503 if none is accepted and some rejected, 207 if some are accepted and some not, 202 otherwise |
| Ingest.NothingAcceptedYet202 | collector/cmd/loza-collector/handlers.go:311-323 | in direct mode, one invalid and one quarantined event are answered 202 with none accepted |
| IngestRetries.AcceptedIsStoredIff | collector/cmd/loza-collector/handlers.go:213-245 | over every trace with a clock that does not go back, an event with a dedupe value that is answered as accepted is in the spool, stored with this value within the window, if and only if no earlier call with the value in the window failed after marking it |
| IngestRetries.AcceptedIsStored | collector/cmd/loza-collector/handlers.go:213-245 | where no earlier append failed, accepted means stored |
| IngestRetries.RetryIsAcceptedUnstored | collector/cmd/loza-collector/handlers.go:213-245 | any event sent again within the window after its append failed is answered as an accepted duplicate and is stored nowhere |
| IngestRetries.LastIsLatestMark | collector/cmd/loza-collector/state.go:118-142 | the history specification's latest acceptance is the latest mark, and earlier marks of the value are more than a window older |
| IngestCapacity.CountersAreTotals | collector/cmd/loza-collector/pipeline_runtime.go:44-77 | in every interleaving of any number of requests both in-flight counters are the totals over the requests that hold a share |
| IngestCapacity.AllReturned | collector/cmd/loza-collector/pipeline_runtime.go:71-76 | when every handler has returned both counters are zero |
| IngestCapacity.LetInIff | collector/cmd/loza-collector/pipeline_runtime.go:49-69 | a request whose checks nobody interrupts is let in exactly if it fits the limits on requests, events and queue bytes, those that are on |
| IngestCapacity.LimitsHoldOneAtATime | collector/cmd/loza-collector/pipeline_runtime.go:49-72 | in-flight requests and events stay within their limits in every run in which requests enter one at a time |
| IngestCapacity.OvershootBounded | collector/cmd/loza-collector/pipeline_runtime.go:49-72 | in every run the limit on requests is exceeded by at most the other requests that race next to one, and the limit on events by at most their events |
| IngestCapacity.OvershootReached | collector/cmd/loza-collector/pipeline_runtime.go:49-72 | for either limit, every value of it, every amount of racing and whatever the other limits are, some run exceeds it by exactly that amount |
| IngestCapacity.LimitHoldsIff | collector/cmd/loza-collector/pipeline_runtime.go:49-72 | either limit holds in all runs with at most w racing next to a request exactly if w is zero |
| Credentials.ResolveList | collector/cmd/loza-collector/config.go:821-843 | a list of permissions, environments or roles is accepted exactly when it is non-empty, every trimmed value is allowed and none occurs twice |
| Credentials.TrimStringsKeeps | collector/cmd/loza-collector/config.go:882-890 | an allow-list keeps exactly the trimmed forms of its values that are not blank |
| Credentials.ResolveKeys | collector/cmd/loza-collector/config.go:530-624 | keys are accepted exactly when each is well formed and no two share an id; accepted ids are distinct |
| Credentials.ResolveTokens | collector/cmd/loza-collector/config.go:626-694 | tokens are accepted exactly when each is well formed and no two name the same variable |
| Credentials.ResolveCollectors | collector/cmd/loza-collector/config.go:696-717 | collectors are accepted exactly when the slugs are valid and distinct and the default is one of them |
| Credentials.ResolveGrants | collector/cmd/loza-collector/config.go:719-799 | grants are accepted exactly when each is well formed and their credential ids are distinct |
| Credentials.IdsUnique | collector/cmd/loza-collector/config.go:1016-1032 | the uniqueness block accepts exactly when all ids of keys, grants and tokens are distinct |
| Credentials.ValidateAuth | collector/cmd/loza-collector/config.go:965-1032 | the credential part of validation accepts exactly the acceptable configurations and resolves them |
| Credentials.MemoryKeyStore.FromConfig | collector/cmd/loza-collector/server.go:627-745 | the constructor's loops store one record per credential, later ones over earlier ones, then the legacy key if its id is free |
| Credentials.MemoryKeyStore.Store | collector/cmd/loza-collector/server.go:630-650 | one record is stored under its id and no other changes |
| Credentials.MemoryKeyStore.FindByKeyId | collector/cmd/loza-collector/server.go:592-602 | the record stored under the id, or none |
| Credentials.StoredLosslessly | collector/cmd/loza-collector/server.go:627-745 | the store keeps as many records as were configured, each under its own id, exactly when no two ids clash |
| Credentials.StoreIsLossless | collector/cmd/loza-collector/server.go:627-745 | with distinct ids each configured id finds its own record, and there is at most one record more |
| CredentialPromises.AcceptedIsLossless | collector/cmd/loza-collector/config.go:965-1032 | for an accepted file, looking up the id of each entry finds a record with that entry's own name, secret hash, kind, mode, roles, limits and grants, all stated from the file; one record per entry plus at most the legacy key |
| CredentialPromises.LegacyIff | collector/cmd/loza-collector/server.go:722-745 | the legacy key is stored exactly if it parses and its id is no entry's, with the one role of ingest servers and no grants |
| CredentialPromises.AcceptedIsSafe | collector/cmd/loza-collector/config.go:530-799 | accepted keys have ids without underscore, secrets and, if public, an allowed origin; public tokens only the client role; every collector exists |
| CredentialPromises.KeyOkIff | collector/cmd/loza-collector/config.go:530-624 | a key entry is let through exactly if it keeps the rules spelled out for id, secret, kind, mode, roles, origins, collector, permissions and environments |
| CredentialPromises.TokenOkIff | collector/cmd/loza-collector/config.go:626-694 | a token entry is let through exactly if it keeps its rules |
| CredentialPromises.GrantOkIff | collector/cmd/loza-collector/config.go:719-799 | a grant entry is let through exactly if it keeps its rules, for a public access id or for a user |
| KeyCache.MemoryKeyCache.Get | collector/internal/auth/cache.go:42-57 | a live entry's record, otherwise nothing |
| KeyCache.MemoryKeyCache.SetRecord | collector/internal/auth/cache.go:60-71 | the record replaces what was there for its ttl, or for the default if that is not positive |
| KeyCache.MemoryKeyCache.SetMissing | collector/internal/auth/cache.go:74-82 | a negative entry replaces what was there |
| KeyCache.MemoryKeyCache.Drop | collector/internal/auth/cache.go:85-90 | the key's entry is gone, others stay |
| KeyCache.MemoryKeyCache.Sweep | collector/internal/auth/cache.go:112-122 | the loop removes exactly the expired entries |
| KeyCache.SweepsUnobservable | collector/internal/auth/cache.go:42-122 | with a clock that does not go back, Get answers from the latest write of the key while that is alive, however many sweeps happened |

## Left out

- SpoolTheorems.NoDurableRecordLost: torn writes, a spool without fsync, and failing Truncate or position saves are not events of the runs; each critical section under spoolMu is one step. TornCompaction shows the one window where this matters; a lost position file is an event.
- SpoolTheorems.CapacityRespected: excludes a lost position file, after which already processed bytes count again until they are delivered again.
- SpoolRuns.RestartFinds: replay reads the suffix once and no append comes before replay ends; the file cursor shared with the checkpoint's Seek is not modelled.
- BlobCipher.DecryptInvertsEncrypt: AES-GCM with its SHA-256 key is any cipher whose open inverts its seal and whose seal adds sixteen octets; the nonce is a parameter; secrecy and forgery are not modelled.
- DeliveryQueue.NoLostWakeup: one enqueuer at a time, as spoolMu and the replay loop ensure for durable items.
- Framing.RecoverableIffReplayable: JSON validity is a parameter; white space is the ASCII set, so multi-byte Unicode spaces at the ends of a line are not trimmed.
- Redaction.NothingConfidentialLeft: the secret pattern is a parameter that is false on the replacement text; like the source, bare strings inside arrays are not scanned.
- Redaction.NormalizeIdempotent: ASCII letters only; Go lower-cases all of Unicode.
- PayloadHeap.RedactObject: the maps form a tree, as after decoding; aliased maps are excluded.
- LqlSupervisor.NewLqlStdioCompiler: the start-up and compile timeouts appear only as requests that time out.
- LqlSupervisor.RepliesMatchRequests: the reader uses the pipe handle current when it was spawned, and the child answers each line with one line in order; the semaphore, context waiting and request contents are left out.
- Stager.NothingIsLost: one stager at a time; the partition directory is an input; gzip, JSON text and the temporary file are left out.
- CortexBridge.FifoConserving: asynchronous mode only; sendBatch is an outcome; Close is not called twice.
- IngestRetries.AcceptedIsStoredIff: concerns the spool and hybrid modes with the collector's own dedupe map; blank values are never marked as duplicates and are stored or rejected on their own. A hand-over cancelled by shutdown after the write counts as not stored.
- Ingest.HandleEvents: governance, contract checks, dedupe, spool, processor and Cortex appear as outcomes per event; acknowledgement lists, the body's status word and log lines are left out.
- Credentials.ValidateAuth: of validation only the credential part; error texts and the server secret's own look-up are left out; hash, key parser and environment variables are parameters.
- KeyCache.SweepsUnobservable: the ticker and the lock are left out.
- The spool file is a sequence of octets and sizes are unbounded integers: int64 overflow, a negative saved offset and the spoolHealthy flag are not modelled.
- Dead-letter writes of the collector, quarantine of bad spool lines and the replay counter.
- SpoolDeadlock.StuckIff: in the spool runs admission to the byte budget and the hand-over to the channel are one step; the queue only shrinks between the two, so what was admitted stays admitted. The compare-and-swap loop, the token and its wake-ups are in DeliveryQueue.
- CreateKey and RevokeKey of the key store, key rotation, and the start-up condition that builds a store only if keys, tokens or a legacy key are configured.
- Alias normalisation and identity stamping, and the look-up of enabled processors.
- The Kafka queue and the Redis store, HTTP plumbing, middleware, rate limits, SQL queries, the command line, clients and code generation.
