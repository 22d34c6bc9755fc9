# Pages to Audio: a verified model of its core

This Dafny project models the stateful core of Pages to Audio, a server that photographs exam pages through
a camera gateway, processes them, and shows the answers as colour sequences on a device. It proves what the
protocols keep in every run, whatever is retried, interrupted or cancelled.

`dafny verify dfyconfig.toml` checks everything.

## What is modelled

| files | system |
|---|---|
| `AnswerPolicy`, `RgbCodec`, `RgbJson`, `RgbJsonReader` | the rule for publishable answers, payload schema, override resolution, 13-byte packing, compact JSON and a client that reads it |
| `ResultChannel`, `ResultChannelInvariant`, `ResultChannelTheorems`, `ResultChannelOutcomes`, `ResultChannelRuns`, `ResultService` | the RGB result channel: immutable revisions, one visible delivery record per session, polls, downloads, device events, cancellation |
| `SessionStates` | the session state machine and its audit trail |
| `Text`, `Blocks`, `ChunkPlan`, `ChunkPlanning`, `Chunker` | the structural chunker: line scanner, the plan of where chunks end and what they repeat, and the budget filler |
| `StorageKeys`, `ObjectStore`, `FrameIngest`, `FrameIngestTheorems`, `FrameIngestOutcomes`, `FrameService` | frame upload over a database that rolls back and an object store that does not, with the orphan reconciler |
| `DeviceCommands`, `DeviceOutcomes`, `DeviceService` | manual RGB commands of a device: status as the fold of an event log, one test at a time |
| `GatewayCommands` | the persistent command log of a gateway |
| `Outbox`, `OutboxService` | the transactional outbox and its dispatcher |
| `RankFusion` | reciprocal rank fusion |
| `PlanControl`, `PlanController` | the gate controller of the production plan |
| `Wrappers`, `Decimal` | options, results, and decimal printing and parsing |

A request is one atomic step: it commits, or it raises and its transaction is rolled back. Objects written to
storage, recorded orphans and started workflows survive a rollback. Each operation has a specification function
on the database state. Where the source works step by step, a class method or a loop is proved equal to it, and
the theorems are about the specification over all runs. SHA-256 is any function from bytes to lowercase digests,
the clock is an integer input in milliseconds, scores are exact numbers, and failures of storage, database and
workflow service are inputs of a step.

## What the proofs found

- A session put into CANCELLED by a retry (apps/api/routers/admin_sessions.py:400-417 accepts CANCELLED as a
  stage) keeps showing its result: the delivery record is not touched, and a later cancellation answers success
  without writing. The cancellation fences the result exactly if the session was not CANCELLED before or its
  record already showed RESULT_CANCELLED (`CancellationFence`, `CancelAfterRetry`); the next mark or publication
  withdraws it (`NextMarkWithdraws`).
- The cursor does not move by one per visible change: an enabled publication over RESULT_CANCELLED passes through
  RESULT_PROCESSING and moves it by two, whether the record then shows a sequence, a new reason or the same reason
  again, and a first record made by an enabled publication starts at 2. These are all the exceptions (`CursorMoves`,
  `CursorCountsChanges`).
- src/pages_to_audio/capture/frame_upload.py:338-339 and 361-378 say that an object already stored with the same
  digest is relinked. A refused overwrite is not a StorageError (src/pages_to_audio/common/errors.py:172-182),
  so this code is never reached: the retry fails, and the address is blocked for good unless an open orphan
  names the object (`StoredObjectFate`, `BlockedByFailure`).
- Orphans whose capture row was rolled back stay open and use up the reconciler's limit; a reliable pass is idle
  exactly when it selects only such orphans, and one failed first upload is enough for that (`StuckOrphansStarve`,
  `FailedUploadStarves`).
- Creating a device test looks for a busy command in the database before the expiries it has just made are
  flushed (src/pages_to_audio/db/engine.py:38-43 switches autoflush off). An overdue command therefore still
  blocks a new test, and the refusal rolls the expiry back; only a read, a stop or a repeated report writes it
  down (`CreateOutcome`, `OverdueNeedsRead`, `OverdueRun`).
- A stopped device command never expires and keeps its device busy until OFF is reported under a new key while the
  device is enabled (`CancelledHoldsDevice`, `OffFreesDevice`).
- src/pages_to_audio/capture/commands.py:6-7 and apps/api/routers/gateway.py:535-536 promise that repeating a
  GET returns the same command. That holds exactly for numbers issued or beyond the last; a number that was
  jumped over appends a new command each time (`RepeatedRequest`, `JumpedOver`). The next number after 2^53-1 is
  refused by the response model.
- src/pages_to_audio/workflows/starter.py:4 relies on workflow ids being started once. The service deduplicates
  only while a run is open, so the guarantee needs that no workflow closes before its row is on record
  (`StartedAtMostOnce`, `EarlyCloseRestarts`, `EarlyCloseStartsTwice`).
- end_signal answers locked for any session that is not terminal, and writes an intent unless it was LOCKED
  before, although it locks only open ones: a CREATED session gets an intent and stays CREATED (`SignalEnd`).
- The audit event of an invalid transition is written before the error that rolls it back; the model keeps it in
  the trail, as transition_session does on its own.

## Model

| member | source | states |
|---|---|---|
| AnswerPolicy.ValidateCompleteAnswerSet | src/pages_to_audio/rgb/policy.py:53-85 | the loops and early returns compute a function of the multiset of candidates, so neither the answers nor the reason of a refusal depends on the order in which candidates are read |
| AnswerPolicy.IndexByNumber | src/pages_to_audio/rgb/policy.py:64-68 | the dictionary is built exactly when no number is repeated, and then maps every number present to its only candidate |
| AnswerPolicy.CollectLetters | src/pages_to_audio/rgb/policy.py:74-85 | the second loop yields the letters of 1..n, or the defect of the lowest-numbered candidate that has one |
| AnswerPolicy.LettersMeaning | src/pages_to_audio/rgb/policy.py:74-83 | letters exist exactly when every candidate is publishable; position i is the answer to question i + 1; an error is the defect of the first candidate that has one |
| AnswerPolicy.AcceptedExactly | src/pages_to_audio/rgb/policy.py:59-85 | a string is returned if and only if the count is in range, the candidates are one per number 1..n, none is FAILED, all are validated and all are A to E |
| AnswerPolicy.VerdictMeaning | src/pages_to_audio/rgb/policy.py:59-85 | when each reason is given: count outside 1 to min(1000, limit), a repeated number, numbers other than 1..n, and acceptance exactly for validated answers A to E that did not fail |
| AnswerPolicy.AcceptedLetters | src/pages_to_audio/rgb/policy.py:74-85 | the accepted string has one letter per expected question, and a candidate's letter stands at its own number |
| AnswerPolicy.AcceptedForm | src/pages_to_audio/rgb/policy.py:81-85 | an accepted string satisfies the payload schema's bounds on answers |
| AnswerPolicy.RefusalReason | src/pages_to_audio/rgb/policy.py:74-83 | in a complete set the reason is the defect of the lowest-numbered bad candidate, FAILED before not validated before invalid letter |
| RgbCodec.ResolvedItems | src/pages_to_audio/rgb/canonical.py:31-65 | overwriting list entries override by override gives the pointwise meaning: palette and defaults, then the one override that names the index |
| RgbCodec.PayloadMeaning | src/pages_to_audio/rgb/schemas.py:103-140 | a payload is valid exactly if its parts are, its count is that of its answers and its overrides name different items |
| RgbCodec.TextMeaning | src/pages_to_audio/rgb/schemas.py:110-118 | lengths and alphabets of ids, answers and digests, by code points |
| RgbCodec.RangeMeaning | src/pages_to_audio/rgb/schemas.py:63-100 | the bounds of colours, brightness and times in defaults, palettes and overrides |
| RgbCodec.ItemMeaning | src/pages_to_audio/rgb/canonical.py:31-65 | each item shows the letter of its position, with colour, brightness and times of the override that names it where that gives them, else of palette and defaults |
| RgbCodec.OverrideOrderIrrelevant | src/pages_to_audio/rgb/canonical.py:49-64 | two payloads that list the same overrides in any order resolve to the same items, because indices are distinct |
| RgbCodec.Resolved | src/pages_to_audio/rgb/canonical.py:31-65 | every resolved item is within the ranges that the packed format can hold |
| RgbCodec.UnpackPackedItems | src/pages_to_audio/rgb/canonical.py:68-83 | packing is 13 bytes per item, and a little-endian reader recovers every item |
| RgbCodec.PackUnpacked | src/pages_to_audio/rgb/canonical.py:68-83 | bytes that a reader decodes to valid items are the packing of those items |
| RgbCodec.CanonicalRoundTrip | src/pages_to_audio/rgb/canonical.py:68-83 | the canonical bytes of a valid payload are 13 times its item count and decode to exactly its resolved items |
| RgbCodec.CanonicalInjective | src/pages_to_audio/rgb/canonical.py:68-83 | two payloads have equal canonical bytes if and only if they show equal items |
| RgbCodec.BuiltPayload | src/pages_to_audio/rgb/canonical.py:110-134 | a built payload is valid, has exactly the requested fields, and passes its own digest check |
| RgbCodec.DigestMeaning | src/pages_to_audio/rgb/canonical.py:86-134 | a built payload carries the digest of the one byte string that a reader decodes to its items |
| RgbCodec.ShaIgnoresIdentity | src/pages_to_audio/rgb/canonical.py:86-89 | the digest does not depend on the session, the sequence id or the revision |
| RgbJson.PrintedSize | src/pages_to_audio/rgb/canonical.py:100-107 | the UTF-8 length of the compact print of any JSON value is given by a size function on the value |
| RgbJson.CompactJsonFits | src/pages_to_audio/rgb/canonical.py:100-107 | the compact JSON of every schema-valid payload whose revision fits the 32-bit column is strictly under 262144 bytes, whatever has to be escaped or encoded in the session id |
| RgbJsonReader.DecodeBack | src/pages_to_audio/rgb/canonical.py:100-107 | decoding the UTF-8 bytes of any text gives the text |
| RgbJsonReader.ReadBack | src/pages_to_audio/rgb/canonical.py:100-107 | a JSON reader gets every value back from its compact print |
| RgbJsonReader.EscapeMeaning | src/pages_to_audio/rgb/canonical.py:100-107 | which characters of a string are escaped, and how |
| RgbJsonReader.CompactJsonRoundTrip | src/pages_to_audio/rgb/canonical.py:92-107 | a client that decodes the bytes of a download and reads the fields by name gets back the payload, overrides included, whatever its session id has to have escaped |
| SessionStates.ClosedForever | src/pages_to_audio/domain/state_machine.py:20-183 | no chain of allowed transitions leads from a session that has left capture back to CREATED, CAPTURING, CAPTURE_END_CANDIDATE or CAPTURE_LOCKING |
| SessionStates.TerminalForever | src/pages_to_audio/domain/state_machine.py:179-183 | nothing is reachable from a terminal state but itself |
| SessionStates.TableBothWays | src/pages_to_audio/domain/state_machine.py:20-183 | the table read by targets: from which statuses each status can be entered |
| SessionStates.SessionRow.TransitionSession | src/pages_to_audio/domain/state_machine.py:186-257 | the status changes exactly when the table allows it, one audit event is appended either way, and a closed session stays closed |
| SessionStates.ReplayIsReachable | src/pages_to_audio/domain/state_machine.py:216-254 | an audit trail that could have been written leads to a status reachable in the table |
| SessionStates.TrailMeaning | src/pages_to_audio/domain/state_machine.py:216-254 | an audit event can follow a trail exactly if it starts from its status and tells rightly whether the table allows it |
| SessionStates.TrailNeverReopens | src/pages_to_audio/domain/state_machine.py:186-257 | whatever transitions are attempted after a session closed, its audit trail keeps it closed |
| ResultChannelInvariant.AdvanceKeeps | src/pages_to_audio/rgb/delivery.py:153-244 | on a consistent record get_or_create_delivery never raises and leaves a consistent session |
| ResultChannelOutcomes.AdvanceOutcome | src/pages_to_audio/rgb/delivery.py:153-244 | a record of another device or gateway is a conflict; else the record shows exactly what was asked for, with cursor 1 if it is new and the next cursor exactly if it changed |
| ResultChannelInvariant.MarkKeeps | src/pages_to_audio/rgb/delivery.py:247-276 | marking never raises, touches no row and keeps the session consistent |
| ResultChannelInvariant.CancelKeeps | apps/api/routers/admin_sessions.py:336-362 | cancelling keeps the session consistent and its rows as they were |
| ResultChannelInvariant.EndSignalKeeps | apps/api/routers/gateway.py:629-705 | the end signal keeps the session consistent and its rows as they were |
| ResultChannelOutcomes.MarkOutcome | src/pages_to_audio/rgb/delivery.py:247-276 | marking leaves a shown result or withdrawal alone, withdraws a CANCELLED session, and shows RESULT_PROCESSING in every other case |
| ResultChannelOutcomes.CancelOutcome | apps/api/routers/admin_sessions.py:336-362 | cancelling succeeds exactly from the seven statuses that allow it, and withdraws the result of a session that was not CANCELLED |
| ResultChannelOutcomes.EndSignalOutcome | apps/api/routers/gateway.py:629-705 | the end signal locks exactly the sessions still capturing, and shows RESULT_PROCESSING unless the session ended or shows a result or withdrawal |
| ResultChannelInvariant.FreshRow | src/pages_to_audio/rgb/publisher.py:259-296 | the row stored for a fresh revision rehydrates to the built payload and carries the digest under which the probe was looked up |
| ResultChannelInvariant.AppendedRowsKeep | src/pages_to_audio/rgb/publisher.py:276-298 | superseding the latest row and appending one keeps revisions 1..n, at most the highest live, and ids and deliverable digests distinct |
| ResultChannelInvariant.InsertKeeps | src/pages_to_audio/rgb/publisher.py:259-299 | inserting a revision keeps every session invariant |
| ResultChannelInvariant.PublishKeeps | src/pages_to_audio/rgb/publisher.py:116-328 | a publication that returns keeps every session invariant |
| ResultChannelInvariant.PublishExtends | src/pages_to_audio/rgb/publisher.py:237-322 | a publication adds at most one READY row, supersedes at most a live one, and changes nothing else of the history |
| ResultChannelInvariant.AcceptedExtendsLog | src/pages_to_audio/rgb/delivery.py:487-543 | an accepted event extends a legal event log legally, and the new status and progress are the fold of the longer log |
| ResultChannelInvariant.CompletedIsRecorded | src/pages_to_audio/rgb/delivery.py:475-501 | a completed sequence has its COMPLETED event on record, so a second one is always found as a duplicate |
| ResultChannelInvariant.AcceptKeeps | src/pages_to_audio/rgb/delivery.py:521-551 | accepting an event keeps every log explained and every session consistent |
| ResultChannelInvariant.ReachableInv | migrations/versions/0003_rgb_result_delivery.py:75-89 | every database state reached from the empty one by any requests satisfies the invariant, so the constraints of the tables are never violated |
| ResultChannelTheorems.SnapshotShowsRecord | src/pages_to_audio/rgb/delivery.py:305-333 | in every reachable state a delivered snapshot shows the recorded command and cursor: the fallback to RESULT_CANCELLED is never taken |
| ResultChannelOutcomes.VirtualPoll | src/pages_to_audio/rgb/delivery.py:95-112 | without a record for its own device and gateway only cursor 0 is answered, with cursor 0 and the command that belongs to the status of the session |
| ResultChannelOutcomes.AnsweredPoll | src/pages_to_audio/rgb/delivery.py:279-303 | in every run, with a record a poll is answered if and only if its cursor is behind |
| ResultChannelTheorems.AnnouncedIsDownloadable | src/pages_to_audio/rgb/delivery.py:279-397 | in every reachable state, whenever a poll announces RGB_SEQUENCE_READY the announced payload is valid and has the announced id, revision, item count and digest, and the download returns it if and only if its JSON is within the limit in force then; every payload is below 262144 bytes |
| ResultChannelOutcomes.DownloadOutcome | src/pages_to_audio/rgb/delivery.py:336-397 | in every run, an unknown id is not found, an INVALID or SUPERSEDED one is gone, and every other one downloads its own valid content if that is within the limit |
| ResultChannelOutcomes.DamagedRecord | src/pages_to_audio/rgb/delivery.py:314-358 | a record that names a missing, INVALID or SUPERSEDED revision polls as RESULT_CANCELLED, and content that is not valid or lacks its digest is not served |
| ResultChannelTheorems.RevisionHistory | migrations/versions/0003_rgb_result_delivery.py:210-216 | revisions of a session are exactly 1..n and only the highest can be READY, RECEIVED or PLAYING; the stored size is 13 bytes per item |
| ResultChannelTheorems.RepublishReuses | src/pages_to_audio/rgb/publisher.py:117-328 | while a revision is announced, a publication reuses it and leaves the session, cursor included, untouched if and only if the session is not CANCELLED, results are enabled and the requested payload has its digest |
| ResultChannelTheorems.PublicationShowsAnswers | src/pages_to_audio/rgb/publisher.py:193-322 | a publication with accepted answers announces a deliverable revision whose digest is that of exactly the requested answers and settings |
| ResultChannelOutcomes.WithdrawingPublication | src/pages_to_audio/rgb/publisher.py:127-222 | a publication announces nothing if and only if the session is CANCELLED, results are disabled or the answers are refused; it then always succeeds, keeps every revision, shows RESULT_CANCELLED with no active sequence even if a result was announced before, and gives the first cause as its reason code |
| ResultChannelOutcomes.WithdrawnNextPoll | src/pages_to_audio/rgb/publisher.py:127-222 | in every run, after such a publication the next full poll shows RESULT_CANCELLED and no sequence |
| ResultChannelOutcomes.PublishedNextPoll | src/pages_to_audio/rgb/publisher.py:312-328 | in every run, after a publication that announces a revision the next full poll shows RGB_SEQUENCE_READY with id, revision, item count and digest of that revision, whose digest is that of the requested payload |
| ResultChannelOutcomes.PaletteMeaning | src/pages_to_audio/rgb/publisher.py:86-100 | every letter is shown in the snapshot's colour if all five of its colours can be used, and else in the shipped colour of the session type |
| ResultChannelOutcomes.RequestedMeaning | src/pages_to_audio/rgb/publisher.py:225-237 | the requested payload has the accepted answers, the snapshot's numbers where it has them, else the deployment's, and no overrides |
| ResultChannelOutcomes.RequestedIff | src/pages_to_audio/rgb/publisher.py:225-237 | a payload can be built if and only if the answers are accepted, the snapshot's numbers can be read, and session id and numbers are in range |
| ResultChannelOutcomes.PublicationError | src/pages_to_audio/rgb/publisher.py:225-299 | which error a publication of accepted answers raises: unreadable settings, a rejected payload, a JSON over the limit or a database constraint, each under its exact condition; a revision that can be reused never raises |
| ResultChannelTheorems.DeliverableReused | src/pages_to_audio/rgb/publisher.py:237-328 | a request for a payload whose revision is neither INVALID nor SUPERSEDED always succeeds and announces that revision, even if something else is shown at the moment |
| ResultChannelTheorems.RepublishLater | src/pages_to_audio/rgb/publisher.py:237-328 | publishing the same payload again in any later state that left its revision deliverable and the session not CANCELLED announces the same revision, and writes nothing if it was still the one announced |
| ResultChannelRuns.PublicationSucceeds | src/pages_to_audio/rgb/publisher.py:116-328 | with a fresh id and the default JSON limit a publication raises if and only if the answers are accepted and the settings are unreadable or out of range |
| ResultChannelTheorems.NewEventAccepted | src/pages_to_audio/rgb/delivery.py:475-543 | a request that is not a duplicate is accepted only for a sequence that has not completed |
| ResultChannelTheorems.ApplyLater | src/pages_to_audio/rgb/delivery.py:153-244 | no request changes a written-once column, lowers a cursor, moves a binding or leaves CANCELLED |
| ResultChannelTheorems.CancellationFence | apps/api/routers/admin_sessions.py:336-362 | after the admin's cancellation every poll in every later run shows RESULT_CANCELLED if and only if, before it, the session was not CANCELLED, or had no delivery record, or its record showed RESULT_CANCELLED |
| ResultChannelTheorems.WithdrawnRun | src/pages_to_audio/rgb/delivery.py:247-276 | a CANCELLED session whose record, if any, shows RESULT_CANCELLED stays so whatever publications, marks, events, end signals and transitions follow |
| ResultChannelRuns.CancelAfterRetry | apps/api/routers/admin_sessions.py:374-417 | the failing run: a result announced, the audio stages failed, a retry from stage CANCELLED; the cancellation then succeeds, writes nothing, and polls go on showing RGB_SEQUENCE_READY |
| ResultChannelTheorems.NextMarkWithdraws | src/pages_to_audio/rgb/delivery.py:247-276 | the next mark or publication of a CANCELLED session withdraws its result for good, whatever its record showed |
| ResultChannelTheorems.EventLogs | src/pages_to_audio/rgb/delivery.py:411-573 | in every reachable state the events of a sequence form RECEIVED? (STARTED or RESUMED)* (COMPLETED or INVALID)? with nondecreasing next_index; a status other than SUPERSEDED is READY, RECEIVED, PLAYING, COMPLETED or INVALID if and only if the log is empty or ends with the event of that meaning, and last_next_index is that of the last event |
| ResultChannelOutcomes.NewEventOutcome | src/pages_to_audio/rgb/delivery.py:503-551 | in every run, an event that matches nothing recorded is accepted if and only if the sequence is READY, RECEIVED or PLAYING, it does not move backwards, RECEIVED comes first and COMPLETED at the end; an accepted one leaves RECEIVED, PLAYING, COMPLETED or INVALID, its index and one log entry, INVALID withdraws the result, and a refused one is refused for the first reason |
| ResultChannelOutcomes.UnaddressedEvent | src/pages_to_audio/rgb/delivery.py:424-452 | in every run, an event for another session, an unknown revision or an impossible progress is refused as such |
| ResultChannelTheorems.ResendIsDuplicate | src/pages_to_audio/rgb/delivery.py:454-485 | sending an accepted event again at any later time changes nothing and reports a duplicate |
| ResultChannelOutcomes.ResendChanged | src/pages_to_audio/rgb/delivery.py:462-485 | an accepted event sent again at any later time with another payload is refused |
| ResultChannelTheorems.PollingClient | src/pages_to_audio/rgb/delivery.py:279-303 | a client that feeds back its cursor sees strictly increasing cursors, and "no update" means its last snapshot equals what a full poll would show now |
| ResultChannelTheorems.CursorMoves | src/pages_to_audio/rgb/delivery.py:209-221 | where every request leaves the cursor: a publication that raises changes nothing; an enabled publication over RESULT_CANCELLED moves it by two; everything else moves it by one exactly when (command, active sequence, reason) changes; a first record starts at 2 if an enabled publication makes it, else at 1 |
| ResultChannelTheorems.CursorCountsChanges | src/pages_to_audio/rgb/delivery.py:209-221 | one move per change of (command, active sequence, reason) and none otherwise holds for a request on an existing record if and only if it is not an enabled publication over RESULT_CANCELLED that commits |
| ResultChannelRuns.ReenabledMovesByTwo | src/pages_to_audio/rgb/publisher.py:167-322 | the run: results switched off and on again; the record changes once, to RGB_SEQUENCE_READY, and the cursor moves by two |
| ResultChannelRuns.RefusedTwiceMovesByTwo | src/pages_to_audio/rgb/publisher.py:167-225 | the run: a publication refused twice for one reason; the record stays the same and the cursor moves by two |
| ResultService.ResultStore.GetOrCreateDelivery | src/pages_to_audio/rgb/delivery.py:153-244 | succeeds exactly when the record names the session's device and gateway; then the record shows what was asked for, its cursor never falls and stands still exactly when the record does, and nothing else changes |
| ResultService.ResultStore.MarkResultProcessing | src/pages_to_audio/rgb/delivery.py:247-276 | the new state is that of the marking step, and the invariant is kept |
| ResultService.ResultStore.CancelSession | apps/api/routers/admin_sessions.py:336-362 | the new state is that of the cancelling step, refused exactly when the table forbids it; a session already CANCELLED, by whatever way, is left as it is |
| ResultService.ResultStore.PublishRgbForSession | src/pages_to_audio/rgb/publisher.py:116-328 | the new state is that of the publishing step; any raised error rolls everything back, the unique index included |
| ResultService.ResultStore.InsertSequence | src/pages_to_audio/rgb/publisher.py:259-299 | limit, uniqueness and supersede rule in the order of the code give the specified insertion |
| ResultService.ResultStore.AnnounceAnswers | src/pages_to_audio/rgb/publisher.py:225-328 | a config number that int() refuses raises; else probe, lookup and reuse or insertion give the specified publication |
| ResultService.ResultStore.RecordRgbEvent | src/pages_to_audio/rgb/delivery.py:411-573 | the ordered checks and writes give the specified event step, duplicate flag and errors included |
| Text.SpaceMeaning | src/pages_to_audio/rag/chunking.py:71-72 | the code points of whitespace and of line ends |
| Text.WordsConcat | src/pages_to_audio/rag/chunking.py:283 | splitting at whitespace distributes over a concatenation with whitespace at the seam |
| Text.WordsStrip | src/pages_to_audio/rag/chunking.py:71 | stripping keeps the words |
| Text.SplitLinesWords | src/pages_to_audio/rag/chunking.py:72 | cutting a text into lines that keep their ends keeps its words, in order |
| Text.LinesMeaning | src/pages_to_audio/rag/chunking.py:72 | the lines of a text make it up again, each is one line, and none is cut before its end, not even inside a carriage return and newline |
| Text.WordsOfParagraphs | src/pages_to_audio/rag/chunking.py:211 | joining the parts that are not blank keeps the words of all parts |
| Text.WordsOfJoin | src/pages_to_audio/rag/chunking.py:289 | joining words with spaces and splitting again is the identity |
| Text.JoinSpaceConcat | src/pages_to_audio/rag/chunking.py:289 | joining words puts one space between two lists of words |
| Text.JoinParagraphsConcat | src/pages_to_audio/rag/chunking.py:211 | joining parts puts an empty line between two lists of parts, unless one has no text |
| Text.WordsOfSuffix | src/pages_to_audio/rag/chunking.py:302 | cutting characters off the front of a text leaves its last words, with at most the first of them cut |
| Text.WordsHalf | src/pages_to_audio/rag/chunking.py:302 | n characters hold at most (n + 1) / 2 words |
| Blocks.HeadingDepth | src/pages_to_audio/rag/chunking.py:101 | a heading line starts with # and has text behind its one to six marks |
| Blocks.NeverSwallowed | src/pages_to_audio/rag/chunking.py:129-157 | no table or list run ever takes a page marker or a heading |
| Blocks.MarkerLine | src/pages_to_audio/rag/chunking.py:56-93 | a page marker is ---page-, digits and ---, with or without a newline, and gives the number of its digits |
| Blocks.HeadingLine | src/pages_to_audio/rag/chunking.py:101 | a heading of depth d is d times #, one to six of them, whitespace and a title |
| Blocks.HeadingLevels | src/pages_to_audio/rag/chunking.py:106-113 | headings are H1, H2, and H3 from depth 3 on |
| Blocks.TitleStack | src/pages_to_audio/rag/chunking.py:115-117 | a title replaces those of its depth and below |
| Blocks.ListLine | src/pages_to_audio/rag/chunking.py:147 | a list starts with whitespace, which may be missing, a bullet or a number with a dot, and whitespace |
| Blocks.ContinuationLines | src/pages_to_audio/rag/chunking.py:129-157 | which lines start a table, and which go on with a table or a list |
| Blocks.Flush | src/pages_to_audio/rag/chunking.py:76-87 | the buffered lines become one trimmed paragraph, or nothing when they are blank |
| Blocks.PopAndPush | src/pages_to_audio/rag/chunking.py:115-117 | popping the stack to the depth and pushing replaces exactly the titles of that depth and below |
| Blocks.ScanTable | src/pages_to_audio/rag/chunking.py:132-135 | the inner loop takes the longest run of table and blank lines, and changes neither page nor section |
| Blocks.ScanList | src/pages_to_audio/rag/chunking.py:150-157 | the inner loop takes the longest run of items and indented lines, and changes neither page nor section |
| Blocks.ExtractBlocks | src/pages_to_audio/rag/chunking.py:64-178 | the scanner terminates, and its blocks tile the lines in order: each is the longest run of its kind, with the text, page and section path it must have, and only markers and blank lines lie between; a text of markers only becomes one paragraph |
| Blocks.ExtractedWords | src/pages_to_audio/rag/chunking.py:64-178 | the blocks hold, in order, exactly the words of the text that are not page markers (all of them when there is nothing else), and no block is blank |
| Blocks.LinePlaced | src/pages_to_audio/rag/chunking.py:100-144 | every heading line is a block of its own with its text, and every table row lies in a table block |
| Chunker.SentencesKeep | src/pages_to_audio/rag/chunking.py:271 | sentences keep the words of their block, and none of them is blank |
| ChunkPlan.SentenceCuts | src/pages_to_audio/rag/chunking.py:57 | every sentence but the last ends with its mark, and none could be cut further |
| Chunker.Emit | src/pages_to_audio/rag/chunking.py:209-223 | a chunk is appended exactly when some part is not blank, numbered by its position and carrying its own token estimate |
| Chunker.CountTokens | src/pages_to_audio/rag/chunking.py:292 | the generator sum is the sum of the words' estimates |
| Chunker.SplitWords | src/pages_to_audio/rag/chunking.py:283-297 | an oversized sentence goes out word by word; what was emitted and what is left over are its words in order behind a copy of the last words emitted, within the budget or a single word |
| Chunker.SplitBlock | src/pages_to_audio/rag/chunking.py:271-311 | an oversized block goes out sentence by sentence; emitted and left-over text are exactly its words, in order, behind bounded copies |
| Chunker.TailOfText | src/pages_to_audio/rag/chunking.py:302 | the copied characters hold the last words of the emitted text, at most 2 x overlap of them |
| Chunker.PackOverflowing | src/pages_to_audio/rag/chunking.py:256-311 | the waiting parts are emitted, and the block waits behind the copy of their last words or is split; nothing is lost, doubled or reordered |
| Chunker.FlushParts | src/pages_to_audio/rag/chunking.py:257-262 | emitting the waiting parts leaves at most overlap words, the last of the emitted chunk |
| Chunker.ChunkText | src/pages_to_audio/rag/chunking.py:187-316 | for every text, budget and overlap: the chunks are those of the plan, unit by unit: blocks that fit, sentences of blocks that do not, words of sentences that do not; a chunk goes on as long as the next unit fits its token counter and ends around H1, H2, tables and before what is split; it begins with exactly the copy that is due of the last text of the chunk before, and the end of a split block with the copy of what waited before the block. Also: own words are the words of the source in order, indices are 0..n-1, page and section are the last up to the chunk's last block, and own text stays within the budget except for a single word or an uncuttable block |
| ChunkPlan.BlockOverlap | src/pages_to_audio/rag/chunking.py:256-268 | where blocks overflow a chunk, the next chunk is exactly the last min(overlap, n) of the n words of the last text before, and then its blocks |
| ChunkPlan.WordOverlap | src/pages_to_audio/rag/chunking.py:287-294 | where the words of a long sentence overflow a chunk, the next one begins with exactly the last min(overlap, n) words of it |
| ChunkPlan.SentenceOverlap | src/pages_to_audio/rag/chunking.py:300-304 | where the sentences of a long block overflow a chunk, the next one begins with exactly the last 4 x overlap characters of the last text, if there are as many |
| ChunkPlanning.BreakBlock | src/pages_to_audio/rag/chunking.py:256-268 | emitting the waiting parts before a block that fits keeps the plan |
| ChunkPlanning.BreakWord | src/pages_to_audio/rag/chunking.py:286-294 | emitting the gathered words of a long sentence keeps the plan |
| ChunkPlanning.BreakSentence | src/pages_to_audio/rag/chunking.py:300-304 | emitting the gathered sentences of a long block keeps the plan |
| ChunkPlanning.SplitChunk | src/pages_to_audio/rag/chunking.py:270-311 | what a split block leaves over waits behind the copy of what waited before it, as planned |
| Chunker.LastPageMeaning | src/pages_to_audio/rag/chunking.py:225-228 | the page of a chunk is that of the last block up to its end that has one other than 0 |
| Chunker.LastSectionMeaning | src/pages_to_audio/rag/chunking.py:180-183 | the section of a chunk is that of the last block up to its end whose last two titles, joined, are not empty |
| Chunker.NoOverlapPartitions | src/pages_to_audio/rag/chunking.py:187-316 | with overlap 0 the chunks partition the words of the source |
| StorageKeys.ParseOfFrameKey | src/pages_to_audio/capture/orphans.py:20-28 | the parser recovers session, capture and index from a printed key if and only if neither id contains a slash |
| StorageKeys.FrameKeyInjective | src/pages_to_audio/storage/keys.py:6-7 | for ids without slashes, equal keys mean equal addresses |
| StorageKeys.FrameKeyCollides | src/pages_to_audio/storage/keys.py:6-7 | with slashes in the ids two different frames share a key |
| Decimal.ParsePrinted | src/pages_to_audio/capture/orphans.py:26 | int() of a printed integer is that integer |
| ObjectStore.FakeStorage.PutObject | src/pages_to_audio/storage/fake_storage.py:18-46 | an object is written with its metadata unless a failure is simulated or an original would be overwritten; then nothing changes |
| ObjectStore.FakeStorage.GetObject | src/pages_to_audio/storage/fake_storage.py:51-57 | an object is returned exactly when it is stored |
| ObjectStore.FakeStorage.DeleteObject | src/pages_to_audio/storage/fake_storage.py:62-64 | object and metadata disappear together and nothing else does |
| FrameIngestTheorems.UploadKeeps | src/pages_to_audio/capture/frame_upload.py:200-451 | an upload, failing anywhere, keeps the invariant and only ever adds rows and objects |
| FrameIngestTheorems.StoreFrameKeeps | src/pages_to_audio/capture/frame_upload.py:337-437 | put, insert and orphan record keep the invariant under a failure before the put, after it, at the flush or later |
| FrameIngestOutcomes.UploadAccepted | src/pages_to_audio/capture/frame_upload.py:151-437 | an upload that nothing disturbs succeeds if and only if capture id, index, content and size are right, the declared SHA-256 is that of the bytes up to case, the session is known, and either the address holds a frame of that digest or the session is open and the address has neither row nor object |
| FrameIngestOutcomes.AcceptedIsProper | src/pages_to_audio/capture/frame_upload.py:151-200 | whatever goes wrong, no upload with a wrong digest, form or size is ever accepted |
| FrameIngestOutcomes.UploadRefused | src/pages_to_audio/capture/frame_upload.py:151-315 | which check refuses an upload: form, size, digest, session, conflicting duplicate or closed session, each under its exact condition and without a write |
| FrameIngestOutcomes.HeldAgain | src/pages_to_audio/capture/frame_upload.py:260-300 | a frame that is already there is answered as a duplicate, whatever the fault, and nothing is written |
| FrameIngestOutcomes.StoreOutcome | src/pages_to_audio/capture/frame_upload.py:337-437 | what a new frame writes under every fault: all of object, row and counter, the object alone, the object and an open orphan, or nothing; an object that is there is never overwritten |
| FrameIngestOutcomes.OpenOutcome | apps/api/routers/gateway.py:971-1003 | a capture is opened empty if and only if its session is known, its id has the form and it is new |
| FrameIngestOutcomes.CountIndices | apps/api/routers/gateway.py:1156-1176 | the rows counted for a capture are its different frame indices |
| FrameIngestOutcomes.CompleteOutcome | apps/api/routers/gateway.py:1156-1176 | completing a capture reports the number of its different frame indices, which its counter already had |
| FrameIngestTheorems.RecordedOrphan | src/pages_to_audio/capture/frame_upload.py:418-436 | a recorded orphan names an object that is there, parses back to its frame, and is the only one of its key |
| FrameIngestTheorems.ReconcileOneKeeps | src/pages_to_audio/capture/orphans.py:67-139 | settling one orphan keeps the invariant and adds at most one row, for the orphan's own key |
| FrameIngestTheorems.ReconcileKeeps | src/pages_to_audio/capture/orphans.py:47-141 | a pass keeps the invariant although it sees only rows committed before it: the unique constraint never stops it |
| FrameIngestOutcomes.SelectsOldest | src/pages_to_audio/capture/orphans.py:55-66 | a pass leaves an open orphan out only if older ones use up the limit |
| FrameIngestOutcomes.ReconcileOneOutcome | src/pages_to_audio/capture/orphans.py:67-139 | what a pass makes of an open orphan: it stays without session or capture, is settled as linked by a frame that is there, and else becomes the frame of its address |
| FrameIngestOutcomes.UnreadableOrphan | src/pages_to_audio/capture/orphans.py:67-139 | a store that does not answer leaves an orphan open unless a frame that is there settles it |
| FrameIngestOutcomes.DamagedOrphan | src/pages_to_audio/capture/orphans.py:67-139 | an orphan whose object is gone, whose key cannot be parsed, whose frame has another digest or whose bytes do is settled under that name, and nothing else changes |
| FrameIngestTheorems.CaptureKeeps | apps/api/routers/gateway.py:971-1176 | opening and completing captures keep every counter equal to its rows |
| FrameIngestTheorems.ReachableInv | src/pages_to_audio/capture/frame_upload.py:151-468 | in every run each committed frame's key holds exactly the bytes its digest names, no (capture, index) has two frames, and received_frames equals the number of frame rows |
| FrameIngestTheorems.ClosedFence | src/pages_to_audio/capture/frame_upload.py:236-313 | once a session has left capture, no later upload to it writes anything to the database or the object store |
| FrameIngestTheorems.ResendIsDuplicate | src/pages_to_audio/capture/frame_upload.py:274-301 | sending an accepted frame again, after anything that happened since, returns the same frame id and key as a duplicate and writes nothing |
| FrameIngestTheorems.StuckOrphansStarve | src/pages_to_audio/capture/orphans.py:55-66 | a pass over a reliable store does nothing if and only if all of the first limit open orphans lack a session or a capture row; then no pass does anything, so the orphans behind them are never reached |
| FrameIngestTheorems.FailedUploadStarves | src/pages_to_audio/capture/frame_upload.py:379-437 | the run: one failed flush of the first upload into a new capture leaves an orphan that every pass selects and none settles |
| FrameIngestTheorems.ReconcileTwice | src/pages_to_audio/capture/orphans.py:47-141 | with reliable reads and a limit that covers the open orphans, a second pass changes nothing |
| FrameIngestTheorems.WedgedForever | src/pages_to_audio/capture/frame_upload.py:339-378 | an address whose object is stored without a row or an open orphan never gets a row in any run |
| FrameIngestTheorems.StoredObjectFate | src/pages_to_audio/capture/frame_upload.py:339-378 | the stored object of an address without a row can still get one in some run if and only if an open orphan names it |
| FrameIngestTheorems.BlockedByFailure | src/pages_to_audio/capture/frame_upload.py:339-451 | an upload that fails after the write and records no orphan blocks its address for good |
| FrameIngestTheorems.WaitingIsLinked | src/pages_to_audio/capture/orphans.py:67-139 | an open orphan gets its row by opening its capture and one reliable pass |
| FrameService.FrameStore.PutOriginal | src/pages_to_audio/capture/frame_upload.py:339-366 | the write of an original, with a refused overwrite as an outcome of its own that propagates |
| FrameService.FrameStore.StoreNew | src/pages_to_audio/capture/frame_upload.py:337-437 | object, row and counter; a failure rolls back all but the object and a recorded orphan |
| FrameService.FrameStore.UploadFrame | src/pages_to_audio/capture/frame_upload.py:151-468 | the ordered checks give the specified upload step and result |
| FrameService.FrameStore.CreateCapture | apps/api/routers/gateway.py:971-1003 | an existing capture keeps its count |
| FrameService.FrameStore.CaptureComplete | apps/api/routers/gateway.py:1156-1176 | the authoritative count is that of the rows, which the counter already had |
| FrameService.FrameStore.ReconcileOrphan | src/pages_to_audio/capture/orphans.py:67-139 | the branches on one orphan give the specified step, and the one statistic counted is that of its resolution |
| FrameService.FrameStore.Reconcile | src/pages_to_audio/capture/orphans.py:47-141 | the pass gives the specified state; linked, recreated and discarded are the orphans newly resolved so, the statistics add up to the orphans selected, and recreated counts the new rows |
| DeviceCommands.AppendKeeps | src/pages_to_audio/rgb/device_commands.py:309-326 | an event allowed by the table keeps the log legal and the status its fold |
| DeviceCommands.NextStays | src/pages_to_audio/rgb/device_commands.py:309-326 | no event leaves FAILED or EXPIRED, OFF and CANCELLED lead only to OFF or themselves, and no event makes a finished command busy again |
| DeviceOutcomes.TableBothWays | src/pages_to_audio/rgb/device_commands.py:309-326 | the table read by statuses: which events each status allows, and that an event leads to the status of its name |
| DeviceOutcomes.Neighbours | src/pages_to_audio/rgb/device_commands.py:309-326 | in every run, which event or beginning can stand before each kind of event in a log |
| DeviceCommands.CreateOutcome | src/pages_to_audio/rgb/device_commands.py:148-223 | a test is created if and only if the device is enabled, no command of it is stored with a locking status, no sequence is active, the session link holds and the id is fresh; then exactly one QUEUED command is added |
| DeviceCommands.ReadOutcome | src/pages_to_audio/rgb/device_commands.py:226-241 | reading a command writes the expiries down if and only if no overdue command has spent its timeout key |
| DeviceOutcomes.GetOutcome | src/pages_to_audio/rgb/device_commands.py:226-241 | reading a command gives up exactly the late running commands, each with its timeout entry, unless one has spent its timeout key |
| DeviceOutcomes.CreateExpiry | src/pages_to_audio/rgb/device_commands.py:148-223 | a new test is QUEUED and expires after its repetitions and half a minute; a refusal names the first cause |
| DeviceOutcomes.StopOutcome | src/pages_to_audio/rgb/device_commands.py:244-276 | stopping a running command that is not late cancels it with its stop entry, unless that key is spent; stopping any other one is reading it |
| DeviceCommands.OverdueNeedsRead | src/pages_to_audio/rgb/device_commands.py:105-169 | while the busy command is merely overdue a new test is refused at any time and nothing is written; after a read has written the expiry down it is accepted |
| DeviceCommands.OverdueRun | src/pages_to_audio/rgb/device_commands.py:148-169 | the run: a test of 30.2 seconds, and after 40 seconds the next one is refused without a write, but accepted after a read |
| DeviceCommands.OutcomeKeeps | src/pages_to_audio/rgb/device_commands.py:148-413 | every request keeps the device invariant and only ever appends events |
| DeviceCommands.ReachableOk | src/pages_to_audio/rgb/device_commands.py:20-22 | in every run status is the last event of the log (QUEUED if empty), the log is a legal path with system EXPIRED and CANCELLED entries included, attempt_count counts FORWARDED, APPLIED lies before the expiry, and no device has two commands that keep it busy |
| DeviceCommands.FinalForever | src/pages_to_audio/rgb/device_commands.py:309-326 | OFF, FAILED and EXPIRED are never left and no command loses an event |
| DeviceCommands.CancelledHoldsDevice | src/pages_to_audio/rgb/device_commands.py:20-21 | a stopped command never expires: it blocks new tests in every run without an OFF report for it |
| DeviceOutcomes.ReportOutcome | src/pages_to_audio/rgb/device_commands.py:347-413 | a report under a new key is accepted if and only if the command is not late, its status allows the event, APPLIED comes before the expiry and other expiries can be written; it adds one entry, and one attempt for FORWARDED |
| DeviceOutcomes.KnownKeyOutcome | src/pages_to_audio/rgb/device_commands.py:347-360 | a report under a key of the log is a read if it says the same, and refused otherwise |
| DeviceOutcomes.UnaddressedReport | src/pages_to_audio/rgb/device_commands.py:329-346 | a report without a key, for a disabled device or an unknown command is refused as such |
| DeviceOutcomes.WholeLife | src/pages_to_audio/rgb/device_commands.py:148-413 | the run of a test from QUEUED through FORWARDED, RECEIVED and APPLIED to OFF, every report accepted |
| DeviceCommands.OffFreesDevice | src/pages_to_audio/rgb/device_commands.py:347-413 | a report of OFF for a stopped command frees its device if and only if the device is enabled and the report has a key that the log does not hold yet |
| DeviceCommands.ResendIsRead | src/pages_to_audio/rgb/device_commands.py:347-360 | sending an accepted event again, after anything that happened since, does exactly what reading the command does |
| DeviceService.CommandDesk.ExpireOverdue | src/pages_to_audio/rgb/device_commands.py:105-145 | the loop gives up exactly the overdue active commands, each with its own event |
| DeviceService.CommandDesk.CreateManualCommand | src/pages_to_audio/rgb/device_commands.py:148-223 | the statements give the specified creation or error |
| DeviceService.CommandDesk.GetCommand | src/pages_to_audio/rgb/device_commands.py:226-241 | the statements give the specified read |
| DeviceService.CommandDesk.StopCommand | src/pages_to_audio/rgb/device_commands.py:244-276 | the statements give the specified stop |
| DeviceService.CommandDesk.RecordEvent | src/pages_to_audio/rgb/device_commands.py:329-413 | the ordered checks and writes give the specified report, duplicate flag and errors included |
| GatewayCommands.ReachableOk | src/pages_to_audio/capture/commands.py:116-141 | in every run cursors strictly increase within 1..2^53-1 and a capture's id is made from its own cursor |
| GatewayCommands.DesiredMeaning | src/pages_to_audio/capture/commands.py:28-65 | for which statuses and phases each of the six commands is wanted |
| GatewayCommands.DesiredShots | src/pages_to_audio/capture/commands.py:43-65 | the shots of each kind of capture, with the defaults of missing, zero or empty settings |
| GatewayCommands.NewCommand | src/pages_to_audio/capture/commands.py:116-141 | a new row carries the wanted command and, for a capture, its id and shots |
| GatewayCommands.RefusedRequest | src/pages_to_audio/capture/commands.py:82-141 | a request is refused if and only if its number, or the one it would be given, is beyond 2^53-1 |
| GatewayCommands.CaptureIdMeaning | src/pages_to_audio/capture/commands.py:144-151 | a capture id is its cursor in at least three digits between cap- and its kind |
| GatewayCommands.CaptureIdInjective | src/pages_to_audio/capture/commands.py:144-151 | a capture id determines its kind and cursor |
| GatewayCommands.CapturesDistinct | src/pages_to_audio/capture/commands.py:144-151 | no two captures of a session share an id |
| GatewayCommands.NumberedNext | src/pages_to_audio/capture/commands.py:116-141 | on a log numbered 1..n a request below n returns the stored command and writes nothing, and a request at n appends n + 1 within 2^53-1 |
| GatewayCommands.DisciplinedNumbered | src/pages_to_audio/capture/commands.py:116-141 | if clients send only 0 or a cursor already issued, the log is exactly 1..n |
| GatewayCommands.RepeatedRequest | src/pages_to_audio/capture/commands.py:116-141 | repeating a request at once returns the same command without a write if and only if the number asked for was issued or lies beyond the last; otherwise every repetition appends |
| GatewayCommands.JumpedNext | src/pages_to_audio/capture/commands.py:116-141 | a request for a number that was jumped over appends the next command, and the number stays jumped over |
| GatewayCommands.JumpedOver | src/pages_to_audio/capture/commands.py:116-141 | the run: a first request from 4 makes command 5; then requests from 0 make 6, 7 and so on |
| GatewayCommands.AckTwice | src/pages_to_audio/capture/commands.py:154-168 | confirming twice is confirming once |
| GatewayCommands.CommandLog.NextPersistentCommand | src/pages_to_audio/capture/commands.py:82-141 | the statements give the specified answer, and issued rows keep cursor, command and payload |
| GatewayCommands.CommandLog.AckCommand | src/pages_to_audio/capture/commands.py:154-168 | a row is confirmed exactly when its cursor was issued |
| Outbox.ArgumentOfId | src/pages_to_audio/workflows/starter.py:46-53 | removing the first prefix from a workflow id gives back the session id, for every session id; ids of different sessions differ |
| Outbox.EnqueueKeeps | src/pages_to_audio/capture/dispatcher.py:21-37 | an end signal that is not ignored leaves a row for the session and keeps the invariant |
| Outbox.AllKeeps | src/pages_to_audio/capture/dispatcher.py:61-79 | a pass keeps the invariant, never un-dispatches a row and leaves unselected rows alone |
| Outbox.StartOutcome | src/pages_to_audio/workflows/starter.py:46-73 | a start that takes effect leaves one open run of the id, with the session as argument, and is a success exactly if it works |
| Outbox.SelectsOldest | src/pages_to_audio/capture/dispatcher.py:46-60 | a pass leaves an unsent row out only if another transaction holds it or older rows use up the limit |
| Outbox.PassRows | src/pages_to_audio/capture/dispatcher.py:61-79 | each selected row is sent exactly if its start works, and else FAILED with one attempt more |
| Outbox.EndSignalOutcome | apps/api/routers/gateway.py:629-733 | an end signal that is heeded locks an open session and adds one PENDING row with the workflow id, if there is none |
| Outbox.CommitKeeps | src/pages_to_audio/capture/dispatcher.py:40-80 | a transaction that starts workflows and is then lost leaves a consistent state |
| Outbox.ReachableOk | apps/api/routers/gateway.py:661-722 | in every run a locked session has a row, no session has two, DISPATCHED means started, and every start carries the session of its id as argument |
| Outbox.DispatchedForever | src/pages_to_audio/capture/dispatcher.py:61-70 | DISPATCHED is never left |
| Outbox.LockedHasOneRow | apps/api/routers/gateway.py:707-722 | after a committed end signal the session has exactly one row in every later state |
| Outbox.StartedAtMostOnce | src/pages_to_audio/capture/dispatcher.py:61-80 | however often passes fail or crash between a start and the commit, no session's workflow is started twice as long as none closes before its row is on record |
| Outbox.StartCondition | src/pages_to_audio/workflows/starter.py:54-73 | some pass starts a session's workflow if and only if its row is not on record as sent and no run of it is open |
| Outbox.StartableUnlessSettled | src/pages_to_audio/capture/dispatcher.py:40-80 | some continuation starts a session's workflow, for the first time or once more, if and only if its row is not on record as sent and the session has not ended without a row |
| Outbox.EarlyCloseRestarts | src/pages_to_audio/workflows/starter.py:54-73 | in every run, once a started workflow has closed before its row is on record, one further pass starts it again |
| Outbox.EarlyCloseStartsTwice | src/pages_to_audio/workflows/starter.py:1-5 | a workflow that closes before its row is on record is started a second time |
| Outbox.WorkingPassSends | src/pages_to_audio/capture/dispatcher.py:61-70 | a pass whose starts all work sends every row it selects |
| OutboxService.WorkflowServer.StartProcessExam | src/pages_to_audio/workflows/starter.py:46-73 | a start of a running id is a success without a second run; success means that the id is running; no other id's runs change and none is forgotten |
| OutboxService.OutboxStore.EnqueueWorkflowIntent | src/pages_to_audio/capture/dispatcher.py:21-37 | the session has its row afterwards, an existing one unchanged |
| OutboxService.OutboxStore.SignalEnd | apps/api/routers/gateway.py:629-733 | the walk to LOCKED and the intent give the specified step; locked is answered for every session that is not terminal |
| OutboxService.OutboxStore.DispatchPending | src/pages_to_audio/capture/dispatcher.py:40-80 | the loop gives the specified state, committed or not, and every selected row is counted once |
| Outbox.EndSignalDispatchOutcome | apps/api/routers/handwritten.py:464-552 | the handwritten end signal does nothing for a session that ended or is LOCKED, and else also the work of a pass of twenty rows |
| RankFusion.ReciprocalRankFusion | src/pages_to_audio/rag/retrieval.py:79-97 | the dictionary loops and the sort give the fused list, and fail exactly when some rank cancels the constant |
| RankFusion.FusedMeaning | src/pages_to_audio/rag/retrieval.py:91-97 | the result is the union of the ids, each once, with the sum of 1/(k+rank) over all its occurrences, in descending order |
| RankFusion.RankMeaning | src/pages_to_audio/rag/retrieval.py:92-95 | in a list without repetitions the id of rank r scores exactly 1 / (k + r) |
| RankFusion.SortKeeps | src/pages_to_audio/rag/retrieval.py:97 | sorting yields a descending permutation |
| RankFusion.SortStable | src/pages_to_audio/rag/retrieval.py:97 | items of equal score stay in order of first appearance |
| RankFusion.TiesByAppearance | src/pages_to_audio/rag/retrieval.py:91-97 | ids of equal score stand in the order of their first appearance, reading the lists one after the other |
| RankFusion.ScoreOrderIrrelevant | src/pages_to_audio/rag/retrieval.py:92-95 | scores depend only on the lists as a collection, not on their order |
| RankFusion.Dominance | src/pages_to_audio/rag/retrieval.py:79-97 | for k >= 0 and lists without repetitions: if a outranks b in every list that has b, a precedes b |
| PlanControl.ShippedDefinitions | scripts/plan_control.py:43-68 | the fourteen shipped gates have different ids and targets that no gate reaches before completion |
| PlanControl.FreshPlan | scripts/plan_control.py:93-118 | a fresh plan of any length satisfies the invariant with no gate complete |
| PlanControl.FreshOutcome | scripts/plan_control.py:93-118 | in a fresh plan every gate is PENDENTE, depends on the one before it, and has nothing recorded |
| PlanControl.ActiveGate | scripts/plan_control.py:158-163 | the active gate is the first incomplete one, a command is in order exactly for it, and the dependency check never stops it |
| PlanControl.OrderOutcome | scripts/plan_control.py:385-393 | on any plan a command is out of order for every gate but the first incomplete one, and that one is refused exactly if a dependency is unknown or incomplete |
| PlanControl.SaveComplete | scripts/plan_control.py:421-435 | completing the active gate makes the next one active |
| PlanControl.CompleteKeeps | scripts/plan_control.py:421-435 | a completion that succeeds lengthens the completed prefix by one |
| PlanControl.StartOutcome | scripts/plan_control.py:396-405 | starting moves exactly the active pending gate to EM_EXECUCAO, is refused while blocked, and out of order for any other gate |
| PlanControl.EvidenceOutcome | scripts/plan_control.py:408-418 | evidence of eight characters is taken for the active gate in execution |
| PlanControl.CompleteOutcome | scripts/plan_control.py:421-436 | the active gate is completed if and only if it is not blocked, no required kind of evidence is missing and the summary has twelve characters |
| PlanControl.BlockOutcome | scripts/plan_control.py:439-449 | the active gate is blocked by a reason of twelve characters and counts as started |
| PlanControl.UnblockOutcome | scripts/plan_control.py:452-464 | a blocked gate returns to EM_EXECUCAO with every open blocker resolved now |
| PlanControl.NothingToResolve | scripts/plan_control.py:452-464 | a blocked gate cannot be unblocked exactly if no blocker is open |
| PlanControl.BlockedIsActive | scripts/plan_control.py:439-448 | only the active gate can be blocked |
| PlanControl.RunProgress | scripts/plan_control.py:396-464 | in every run of commands the completed gates are a prefix, the gates behind the active one are untouched, and each gate keeps its definition |
| PlanControl.RunGates | scripts/plan_control.py:396-464 | in every run a gate has an unresolved blocker exactly when it is BLOQUEADO, and a complete gate has all required evidence and only complete gates before it |
| PlanControl.FinalCheckIff | scripts/plan_control.py:467-483 | in every run the final check passes if and only if the plan file is there and no gate is active |
| PlanController.Controller.ActiveGateId | scripts/plan_control.py:158-163 | the loop finds the first incomplete gate |
| PlanController.Controller.EnsureActiveGate | scripts/plan_control.py:385-393 | order is checked before dependencies |
| PlanController.Controller.CmdStart | scripts/plan_control.py:396-405 | the command gives the specified plan or fails without saving |
| PlanController.Controller.CmdEvidence | scripts/plan_control.py:408-418 | the command gives the specified plan or fails without saving |
| PlanController.Controller.CmdComplete | scripts/plan_control.py:421-436 | the command gives the specified plan or fails without saving |
| PlanController.Controller.CmdBlock | scripts/plan_control.py:439-449 | the command gives the specified plan or fails without saving |
| PlanController.Controller.CmdUnblock | scripts/plan_control.py:452-464 | the loop resolves exactly the open blockers |
| PlanController.Controller.CmdFinal | scripts/plan_control.py:467-483 | no issue is counted if and only if the plan file is there and no gate is active |

## Left out

- HTTP routing, authentication, settings and providers: only the effect of a request on the stored rows is a step.
- Clocks, uuids and database sequences: fresh ids, oracles and clock readings are inputs; a row's position stands for its key.
- Concurrency inside a request: the row locks of the source serialize requests, so a step is atomic; a reconciler racing an upload appears as a failing flush or commit.
- Audit events of the result channel, the device commands and the outbox: they are appended and never read back.
- The OCR derivative of an upload: it appears only as a failure after the flush; the reply's derived key and the telemetry columns of frames and captures are not modelled.
- MIME, magic-byte, decoding and page-number checks of an upload: one accept-or-reject input.
- The second duplicate lookup of an upload (src/pages_to_audio/capture/frame_upload.py:315-335): it asks for a row that the first one ruled out.
- `lock_session` of src/pages_to_audio/capture/lock.py: sessions are locked only by end signals here.
- The workflow start of an admin retry: it happens under an id of its own, past the outbox. The retry's change of status is a transition of the model.
- Sessions with a slash in their id: an id is one segment of a route.
- Statement order inside one flush: a superseded row is written before its successor, so the partial unique index is judged on the state after both.
- Event identities are tuples, not strings joined with colons.
- Long polling of gateway commands: only the command chosen at the end matters.
- Listing device commands for a gateway: it only reads.
- Rounding of floating-point scores: scores are exact, so ties of the source that come from rounding do not appear.
- int() on page numbers of more than 4300 digits, which the interpreter refuses.
- Decimal.ParsePrinted: int() also accepts surrounding whitespace, underscores and other scripts' digits, which no key printed by the system contains.
- Blocks.ExtractBlocks: the decimal digits beyond ASCII are a parameter of the scanner, because their table is the interpreter's.
- `cmd_sync_plan`, rendering and file persistence of the gate controller.
- Camera diagnostics, the OCR circuit breaker, validation reports, audio plans and the workflow script.
