# A verified model of the proof-recording service

The service asks a pull request's author to record an explanation, stores the recording encrypted,
has it transcribed and judged, lets a maintainer decide, and deletes the evidence on time. This
project models the parts of it where order, chunking, crashes and redelivery matter, and proves what
they promise. `dafny verify dfyconfig.toml` checks all of it.

| file | component |
|---|---|
| `Bytes.dfy`, `Text.dfy`, `OrderedRows.dfy` | bytes and big-endian integers; JavaScript strings and their order; `ORDER BY ... LIMIT` over tables |
| `RecordingReader.dfy` | the streaming recording reader: part hashes and framed records in one pass over chunks |
| `AttemptLifecycle.dfy` | every writer that settles an attempt: two-phase abort and expiry, media failure, pipeline transitions, maintainer decisions, replacements |
| `ProviderPipeline.dfy` | transcript, frames, evaluation and policy stages with at-least-once jobs, crashes and the recovery sweep |
| `EvidenceRetention.dfy` | frame reservation before upload, repair, and the deletion job with its two-way deadline |
| `Projection.dfy` | the compatibility projection: the producer, the independently written checker, and what both mean |
| `RequestRateLimit.dfy`, `OAuthStartRateLimit.dfy` | the two sliding-window limiters over pruned tables |
| `StableJson.dfy` | canonical JSON and the equality it decides |
| `Jpeg.dfy`, `QuestionClips.dfy` | the JPEG marker scanner (ITU-T T.81, annex B.1.1) and the RIFF/WAVE clip writer |
| `WebhookDelivery.dfy` | retry and deferral of pull-request deliveries |

**How the state machines are built.** A database transaction is one atomic step, because the code
takes row or advisory locks; a crash is the absence of the remaining steps, a redelivery their
repetition. Each transaction is a function on a value (an attempt with the rows that reference it, a
pipeline, a delivery), the theorems are about these functions and about all sequences of them, and a
class whose methods update fields statement by statement is proved equal to the functions. Tables
that are only inserted into and pruned are sets of rows with ids; ghost fields keep the full history.

**What the proofs found.** Where the code does less than one would expect, the code is kept and a
concrete input is given. Where the failing inputs can be told beforehand, the condition is proved exact.

* A manifest with a part of length zero gets no object through, not even the one it describes; the
  manifest schema excludes such parts (`EmptyPartIsNeverAccepted`; exact: `CutPartsDecidesLayout`).
* If retention marks an upload deleted while its attempt is still uploading, no new abort or expiry
  gets past its reservation, and in every run in which flows reserve first only an invalidation
  settles the attempt; a flow already past its reservation still finishes
  (`DeletedUploadStrandsAttempt`, `ReservedFlowStillFinishes`; exact: `EitherFlowFinishes`).
* Wrapping materials can stay live after a settlement. A media failure destroys only the material of
  its own upload, and a handoff exchange that checked the attempt before an abort or expiry inserts
  its material after it (`MediaFailureLeavesOtherMaterial`, `LateExchangeSurvivesAbort`,
  `LateExchangeSurvivesExpiry`; exact: `SettlementLeavesNone`, over runs: `SettledMaterials`).
* The OAuth limiter's hint is too short by the boundary instant when the start it looks at is a whole
  number of seconds from leaving the window (`HintCanFail`; exact: `WaitingAdmitsExactly`).
* Canonical JSON prints NaN and the infinities as null (`NonFiniteCollides`; exact: `JsonEqualIsBlurredEquality`).
* The authoritative evaluation schema alone admits more than five anchors in one question, which the
  producer could not project; the judge's validation refuses such answers, and everything it lets
  through, the fallback included, is produced and accepted (`SixAnchorsCannotBeProjected`; exact:
  `ProjectionFitsExactly`; positive: `AnswerIsAccepted`).
* The projection checker counts findings, so it relies on the unique finding ids the schema demands:
  with them it decides representation, and a repeated id can fool it (`CheckerDecidesRepresentation`,
  `RepeatedFindingFoolsChecker`).
* An execution that fails without a hint replaces a longer deferral set by another one
  (`DeferralCanBeShortened`; exact for one step: `DeferralShortensExactly`, over runs: `DeferralDecides`).
* Each of the three assumptions behind the no-orphan claim is needed: without any one of them a short
  run ends with an object no row names (`TwoWorkersOrphan`, `LateUploadOrphans`, `UndecidedUploadOrphans`).

**Assumptions.** Transactions are atomic under their locks. Transition keys are specific to the
operation that makes them, and a client key to its attempt. Database clock readings inside one
statement are one value. For the request limiter a clock reading is at most five minutes behind any
earlier cleanup; for evidence and deliveries the clock does not run backwards. SHA-256, AES-GCM and
derived UUIDs are arbitrary functions; whether a callback, a storage call or a provider succeeds is a
parameter. Whether evaluation is multimodal is deployment configuration and is fixed for an attempt
here: the two persist paths take different advisory locks, so a mixed deployment is not covered. A
recording, its artifacts and its frame rows share the attempt's evidence deadline. The identifiers of
wrapping materials are never reused, and every rolled-back exchange leaves nothing behind.

## Model

| member | source | states |
|---|---|---|
| RecordingReader.BuiltRecordParses | packages/media/src/records.ts:77-95 | every record that passes field validation parses back to exactly its fields |
| RecordingReader.ParsedRecordIsBuilt | packages/media/src/records.ts:97-170 | only built records parse, and each has one encoding |
| RecordingReader.DecodesExactlyRecorded | packages/media/src/crypto.ts:288-338 | an object decodes exactly when it is the manifest's records written end to end under their indices and nonces: the reader inverts the writer |
| RecordingReader.DecodesByBytes | packages/media/src/crypto.ts:288-338 | the same in bytes: an object decodes exactly when it is a run of records of which the k-th has the manifest's prefix and big-endian k as its nonce, the sizes and index of its descriptor in its header, its hash, and authentic content |
| RecordingReader.NoncesDiffer | packages/media/src/nonce.ts:8-38 | no two records of one accepted object carry the same nonce |
| RecordingReader.RecordFrame | apps/worker/src/recording-reader.ts:139-153 | a buffer without a complete record is shorter than one maximal record; a complete one lies inside the buffer |
| RecordingReader.RecordFormatIsStreamable | apps/worker/src/recording-reader.ts:139-171 | the framing decision does not change when bytes are appended, and a decodable record frames as itself |
| RecordingReader.DecodeManifestRecord | apps/worker/src/recording-reader.ts:155-179 | one record of the inner loop yields the plaintext the record-level specification gives, or fails with it |
| RecordingReader.CutPartsAppend | apps/worker/src/recording-reader.ts:116-132 | the part cursor after more bytes is the cursor continued: chunk boundaries leave no trace |
| RecordingReader.CutPartsDecidesLayout | apps/worker/src/recording-reader.ts:116-132 | the part cursor reaches the end cleanly exactly on objects that are the manifest's parts end to end with their hashes, if no part is empty, and on no object otherwise |
| RecordingReader.EmptyPartIsNeverAccepted | apps/worker/src/recording-reader.ts:116-132 | a concrete manifest with an empty part whose own object is refused |
| RecordingReader.DrainAppend | apps/worker/src/recording-reader.ts:134-187 | parsing more bytes continues from the carry-over buffer: chunk boundaries leave no trace |
| RecordingReader.CarryOverIsShortTail | apps/worker/src/recording-reader.ts:134-153 | after draining, the buffer is the unread tail and shorter than one maximal record |
| RecordingReader.DrainDecidesRecords | apps/worker/src/recording-reader.ts:139-198 | the incremental parser ends clean after all records exactly on objects made of the manifest's records, if the sink takes all |
| RecordingReader.DecodingIsUnique | apps/worker/src/recording-reader.ts:157-187 | an object has at most one decoding, the run of its leading records |
| RecordingReader.HashIncoming | apps/worker/src/recording-reader.ts:116-132 | the first inner loop moves the part cursor exactly as the specification cuts the bytes, or fails with it |
| RecordingReader.DeliverRecord | apps/worker/src/recording-reader.ts:155-187 | the complete record at the head of the buffer is checked, decrypted and handed to the sink, or ends the run, as in the incremental parser |
| RecordingReader.TakeRecord | apps/worker/src/recording-reader.ts:139-187 | one round takes, checks and delivers exactly the record the incremental parser takes, or stops as it does |
| RecordingReader.DrainPending | apps/worker/src/recording-reader.ts:139-187 | the second inner loop delivers, keeps and fails exactly as the incremental parser |
| RecordingReader.StreamDecryptedRecording | apps/worker/src/recording-reader.ts:95-204 | for every chunking: success exactly when the bytes are the manifest's nonempty parts and its records, of its total length, and the sink takes all; what was delivered is determined in failing runs too |
| RecordingReader.DeliveredIsPrefix | apps/worker/src/recording-reader.ts:139-187 | in every run what reached the sink is a prefix of the whole-object decoding |
| RecordingReader.StopIsUnique | apps/worker/src/recording-reader.ts:111-188 | where a run stops, and so what it delivered, is fixed by the chunking |
| RecordingReader.SplitIndependent | apps/worker/src/recording-reader.ts:110-198 | of two splits of one object, failing or not, what one delivers is a prefix of what the other delivers, and when the object is accepted both deliver the same plaintexts |
| OrderedRows.First | apps/web/lib/request-rate-limit.ts:262-294 | the bounded ordered query returns the least rows, as many as there are up to the limit |
| OrderedRows.FirstComeFirst | apps/web/lib/request-rate-limit.ts:262-294 | a row left out by the limit comes after every picked row in the order, and is left out only if the limit is used up |
| RequestRateLimit.AdmissionKeepsQuotas | apps/web/lib/request-rate-limit.ts:301-310 | an admitted request keeps the per-subject and global quota in every window, wherever it starts |
| RequestRateLimit.PrunedTableDecidesAlike | apps/web/lib/request-rate-limit.ts:262-300 | the pruned table has the same recent rows as the whole history |
| RequestRateLimit.RetryHintNeedsNoClamp | apps/web/lib/request-rate-limit.ts:311-328 | with a clock that has not run backwards the computed wait is 1..window, so the clamp changes nothing |
| RequestRateLimit.WaitingAdmits | apps/web/lib/request-rate-limit.ts:311-351 | waiting as long as the hint says, with no other admission of that action, guarantees admission, also when both quotas were full |
| RequestRateLimit.HintIsLeast | apps/web/lib/request-rate-limit.ts:311-328 | one second less than the hint and the request is still refused |
| RequestRateLimit.ResponseCarriesHint | apps/web/lib/request-rate-limit.ts:106-125 | the response header always carries the limiter's hint, never its own fallback |
| RequestRateLimit.QuotaRoom | apps/web/lib/request-rate-limit.ts:277-326 | a limited subquery tells exactly whether the quota is full and when its oldest row leaves the window |
| RequestRateLimit.Answer | apps/web/lib/request-rate-limit.ts:294-351 | admission exactly below both quotas, else the clamped wait for both; the out-of-range error never happens |
| RequestRateLimit.Decide | apps/web/lib/request-rate-limit.ts:272-351 | the decision and the hint are those the whole history gives |
| RequestRateLimit.Limiter.Cleanup | apps/web/lib/request-rate-limit.ts:262-271 | removes at most 500 rows, only expired ones, those that expired first, and a full batch if expired rows remain |
| RequestRateLimit.Limiter.Insert | apps/web/lib/request-rate-limit.ts:301-309 | an admission adds its one row to table and history and keeps every quota |
| RequestRateLimit.Limiter.Reserve | apps/web/lib/request-rate-limit.ts:247-352 | admits exactly when the full history would, recording it, and otherwise answers the full history's hint |
| RequestRateLimit.Quota | apps/web/lib/request-rate-limit.ts:44-58 | every policy has a positive quota no larger than the global one and a window of at most ten minutes |
| RequestRateLimit.PoliciesInNumbers | apps/web/lib/request-rate-limit.ts:44-58 | the policy table value by value; a request is admitted exactly if its subject and all subjects are below their counts in the last windowSeconds seconds, and once the quotas hold no span of that length exceeds them |
| RequestRateLimit.RowOutlivesWindow | apps/web/lib/request-rate-limit.ts:277-310 | an admission's row carries its request, its instant and an expiry five minutes after its window |
| OAuthStartRateLimit.AdmissionKeepsQuotas | apps/web/lib/oauth-start-protection.ts:140-147 | an admitted start keeps both quotas in every closed five-minute window |
| OAuthStartRateLimit.LimitsInNumbers | apps/web/lib/oauth-start-protection.ts:105-147 | four starts of a client and six hundred of all in five minutes, both ends counted, decide admission and bound every such span; rows are kept for ten minutes |
| OAuthStartRateLimit.PrunedTableDecidesAlike | apps/web/lib/oauth-start-protection.ts:105-139 | pruning is invisible while the clock is less than five minutes behind an earlier cleanup |
| OAuthStartRateLimit.WaitingAdmitsExactly | apps/web/lib/oauth-start-protection.ts:165-183 | with no start in between, obeying the hint leads to admission if and only if the start it looks at leaves the window now or not a whole number of seconds from now; the other quota never spoils it |
| OAuthStartRateLimit.WaitingPastBothAdmits | apps/web/lib/oauth-start-protection.ts:121-147 | a millisecond past both oldest starts always admits |
| OAuthStartRateLimit.HintCanFail | apps/web/lib/oauth-start-protection.ts:125-183 | a concrete client whose obeyed hint is refused |
| OAuthStartRateLimit.Limiter.Cleanup | apps/web/lib/oauth-start-protection.ts:105-114 | removes at most 500 rows, only expired ones, those that expired first, and a full batch if expired rows remain |
| OAuthStartRateLimit.Decide | apps/web/lib/oauth-start-protection.ts:115-183 | the decision and the hint are those of the whole history |
| OAuthStartRateLimit.Limiter.Consume | apps/web/lib/oauth-start-protection.ts:76-199 | admits exactly when the full history would, recording it, and otherwise answers its hint |
| Text.SortDecidesContents | apps/worker/src/multimodal-evaluation-repository.ts:812-819 | sorted anchor lists are equal exactly when the lists hold the same anchors equally often |
| Text.FirstDifferenceDecides | apps/worker/src/generation-context-repository.ts:234-235 | the string order: the first different code unit decides, and a proper prefix comes first |
| StableJson.UnitIsWritten | apps/worker/src/generation-context-repository.ts:227-230 | inside quotes each unit is copied, except quotes, backslashes, control characters and unpaired surrogates, which are escaped |
| StableJson.EscapeIsWritten | apps/worker/src/generation-context-repository.ts:227-230 | the seven two-character escapes, and the four-digit escape of every other such unit |
| StableJson.WordIsWritten | apps/worker/src/generation-context-repository.ts:227-237 | the words for null, undefined and the booleans, and the empty array and object |
| StableJson.EntriesAreWritten | apps/worker/src/generation-context-repository.ts:234-237 | braces, colon and comma around two properties, the lesser key first whatever the insertion order |
| StableJson.ItemsAreWritten | apps/worker/src/generation-context-repository.ts:231-233 | brackets and a comma around two items in their order |
| StableJson.QuoteDelimits | apps/worker/src/generation-context-repository.ts:227-238 | a quoted string determines itself and what follows it, escapes and surrogate pairs included |
| StableJson.PrintDelimits | apps/worker/src/generation-context-repository.ts:227-238 | a printed value determines itself before any separator or closing bracket |
| StableJson.SortIsStrict | apps/worker/src/generation-context-repository.ts:234-235 | sorting an object's entries yields strictly increasing keys |
| StableJson.JsonEqualIsBlurredEquality | apps/worker/src/generation-context-repository.ts:223-238 | on all values, equal strings mean equal values up to key order, non-finite numbers counting as null, and conversely |
| StableJson.JsonEqualDecidesEquality | apps/worker/src/generation-context-repository.ts:223-238 | on values JSON can write, jsonEqual decides equality up to key order |
| StableJson.NonFiniteCollides | apps/worker/src/generation-context-repository.ts:227-230 | NaN and null print alike |
| Projection.CheckRubric | apps/worker/src/provider-pipeline.ts:266-294 | accepts exactly results that name each rubric criterion once and nothing else |
| Projection.ProjectQuestions | apps/worker/src/provider-pipeline.ts:251-345 | succeeds exactly when each stored question is covered once with its exact rubric, and then projects each question |
| Projection.Produce | apps/worker/src/provider-pipeline.ts:230-392 | succeeds exactly for a bound, covering evaluation whose projection fits the schema |
| Projection.ProducedReports | apps/worker/src/provider-pipeline.ts:296-337 | the projection names the attempt, revision and head and recommends review; question by question, in order, it has one finding per evaluable criterion with its verdict and matching reason, or the sentinel alone, their outcome, and the anchors of the judged criteria, each once |
| Projection.JudgedArePlaces | apps/worker/src/provider-pipeline.ts:298-309 | the reported criteria are exactly the evaluable ones in the order of the question |
| Projection.ProjectionFitsExactly | packages/providers/src/contracts.ts:306-312 | of an evaluation that meets its own schema, the projection meets the projected schema exactly when no question names more than five different anchors |
| Projection.SchemasInNumbers | packages/providers/src/contracts.ts:306-312 | the sizes the projected and the input schema allow, and that ids and anchors may not repeat |
| Projection.SixAnchorsCannotBeProjected | packages/providers/src/contracts.ts:457-475 | a concrete evaluation that meets its schema, could not be projected, and is refused by the judge's validation whatever was asked |
| Projection.AnchorCheckMeansSameSet | apps/worker/src/multimodal-evaluation-repository.ts:812-828 | the sorted, printed anchor comparison accepts exactly the same set of anchors, each named once |
| Projection.KnownAreEvaluable | apps/worker/src/multimodal-evaluation-repository.ts:820-837 | with distinct ids, counting matching findings makes them exactly the evaluable criteria with their verdicts |
| Projection.CheckerDecidesRepresentation | apps/worker/src/multimodal-evaluation-repository.ts:788-852 | with distinct ids a question is accepted exactly when it represents the authoritative one |
| Projection.AcceptedFindingsAreEvaluable | apps/worker/src/multimodal-evaluation-repository.ts:754-853 | in an accepted projection the known findings are exactly the evaluable criteria, and no unjudged criterion appears |
| Projection.CheckerAcceptsExactly | apps/worker/src/multimodal-evaluation-repository.ts:754-853 | acceptance in one statement: review recommended twice, same attempt, revision and head, same labels, and each authoritative question represented |
| Projection.RepeatedFindingFoolsChecker | apps/worker/src/multimodal-evaluation-repository.ts:820-843 | if finding ids could repeat, a projection naming one criterion twice would pass |
| Projection.ProjectionRepresents | apps/worker/src/provider-pipeline.ts:296-337 | a question's projection represents it exactly when unjudged criteria add no anchor and the sentinel id is no criterion |
| Projection.ProducedIsAccepted | apps/worker/src/multimodal-evaluation-repository.ts:754-853 | everything the producer builds passes the checker, exactly when every question is projectable |
| Projection.AnchorlessUnjudgedIsAccepted | packages/providers/src/contracts.ts:529-541 | evaluations whose unjudged criteria carry no anchors, with fresh sentinel ids, are always accepted |
| Projection.CheckResults | packages/providers/src/hetzner-multimodal.ts:757-808 | the inner validation loop collects exactly the issues a question's results have, each by its own condition, and none exactly when each criterion is answered once, with anchors of the question exactly where judged |
| Projection.ValidateCandidate | packages/providers/src/hetzner-multimodal.ts:731-881 | lets exactly those answers through that answer every stored question and criterion once, no other, and only with the question's own anchors |
| Projection.FallbackAnswers | packages/providers/src/hetzner-multimodal.ts:883-911 | the manual-review fallback passes that validation |
| Projection.AnswerIsAccepted | apps/worker/src/provider-pipeline.ts:1096-1140 | every validated answer covers the stored questions, is projected within the schema, and its projection is accepted when sentinel ids are free |
| Projection.JudgeAndProject | apps/worker/src/multimodal-judge-service.ts:45-206 | whatever the provider answers or fails to, judging and projecting a well-formed input succeeds and the pair is accepted |
| Jpeg.ScanOfWritten | apps/worker/src/inline-frame-normalization.ts:374-402 | skipped items written with fill bytes and standalone markers, then a frame header, scan to that frame's size |
| Jpeg.WrittenOfScan | apps/worker/src/inline-frame-normalization.ts:374-402 | whenever a size comes out, the bytes were written by the grammar with a frame of that size |
| Jpeg.ItemInBytes | apps/worker/src/inline-frame-normalization.ts:379-399 | the grammar's items byte by byte: fill, marker, big-endian length counting itself, payload; height and width after the precision |
| Jpeg.MarkersInNumbers | apps/worker/src/inline-frame-normalization.ts:384-412 | which of the 256 markers are frame headers and which stand alone |
| Jpeg.NextItem | apps/worker/src/inline-frame-normalization.ts:379-399 | one round of the scanner, every index in range, reads the item the grammar has there |
| Jpeg.JpegDimensions | apps/worker/src/inline-frame-normalization.ts:374-402 | terminates, stays in range on bounded input, and returns a size exactly for written images, the size written |
| Jpeg.CheckNormalizedJpeg | apps/worker/src/inline-frame-normalization.ts:199-208 | a frame is accepted exactly when it has 12 bytes to half a MiB, the start and end markers at its ends, and holds a 320 by 180 frame; which of the two refusals it gets otherwise |
| QuestionClips.CheckTimeline | apps/worker/src/audio-transcription.ts:80-110 | the adjacent-only check accepts exactly timelines: complete, in order, inside the recording, any two intervals apart |
| QuestionClips.ClipIsSlice | apps/worker/src/audio-transcription.ts:681-707 | a clip exists exactly when the interval is well formed, its recording at most eight minutes, and the audio reaches past the start and to within 250 ms of the end; it is then a whole-sample slice cut by at most 250 ms |
| QuestionClips.ClipsAreDisjoint | apps/worker/src/audio-transcription.ts:80-102 | all clips of an accepted source are pairwise disjoint slices |
| QuestionClips.WavRoundTrip | apps/worker/src/audio-transcription.ts:708-728 | a written file parses back to consistent sizes, 16 kHz mono 16-bit PCM and exactly its samples |
| QuestionClips.WavInBytes | apps/worker/src/audio-transcription.ts:708-728 | the 44 header bytes as RIFF/WAVE fixes them, sizes little-endian, then the samples |
| QuestionClips.ClipFileRoundTrip | apps/worker/src/audio-transcription.ts:681-729 | an accepted interval's file reads back to exactly the interval's slice |
| QuestionClips.WriteFile | apps/worker/src/audio-transcription.ts:708-728 | the writes into the buffer leave exactly the RIFF file of the samples |
| QuestionClips.QuestionWavFromPcm | apps/worker/src/audio-transcription.ts:681-729 | fails exactly when the clip does not exist and otherwise returns the file of its slice |
| AttemptLifecycle.SettleIsSound | apps/web/lib/attempt-lifecycle.ts:200-238 | settling a live attempt under a new key adds exactly its one row and its one check |
| AttemptLifecycle.ReserveAbortMoves | apps/web/lib/attempt-lifecycle.ts:413-486 | the abort reservation keeps the attempt sound and settles nothing |
| AttemptLifecycle.CommitAbortMoves | apps/web/lib/attempt-lifecycle.ts:142-251 | the aborting transaction keeps the attempt sound, from any state |
| AttemptLifecycle.ReserveExpiryMoves | apps/worker/src/attempt-expiry.ts:171-234 | the expiry reservation keeps the attempt sound and settles nothing |
| AttemptLifecycle.CommitExpiryMoves | apps/worker/src/attempt-expiry.ts:56-132 | the expiring transaction keeps the attempt sound, from any state of a live attempt's current revision |
| AttemptLifecycle.FailMediaMoves | apps/worker/src/media-finalize.ts:498-568 | the media failure writer settles only a processing attempt, destroys only its upload's material, and keeps every attempt sound, in whatever state |
| AttemptLifecycle.RequireReviewMoves | apps/worker/src/provider-pipeline-repository.ts:1075-1209 | the move to review_required is sound and happens once per key |
| AttemptLifecycle.RequireRetryMoves | apps/worker/src/provider-pipeline-repository.ts:1211-1301 | the pipeline's technical retry is sound and happens once per key |
| AttemptLifecycle.DecideReviewMoves | apps/web/lib/maintainer-review.ts:574-731 | a maintainer decision is sound: one decision, one row, one check, one status |
| AttemptLifecycle.OccurMoves | packages/auth/src/handoff.ts:112-216 | handoff exchanges in their two steps, the author's progress, invalidation by push or close and retention keep the attempt sound |
| AttemptLifecycle.ApplyKeepsInv | packages/db/src/schema.ts:1015-1019 | every transaction keeps every attempt sound and at most one live attempt per revision and author |
| AttemptLifecycle.EveryCallMoves | packages/db/migrations/0001_invariants.sql:88-126 | every status change is one the database trigger allows, so the trigger never fires |
| AttemptLifecycle.CallExactly | apps/web/lib/attempt-lifecycle.ts:91-251 | what each transaction does to its attempt, column by column: status, the row with its key and actor, check, decision, upload and materials |
| AttemptLifecycle.AnswersExactly | apps/web/lib/attempt-lifecycle.ts:142-198 | what each transaction but the decision answers, by the state it finds |
| AttemptLifecycle.CallTouchesOnly | apps/web/lib/attempt-lifecycle.ts:142-251 | an attempt is changed only by its own transactions, or invalidated while live by a push to or a close of its revision |
| AttemptLifecycle.CallCreatesOnly | packages/db/src/schema.ts:1015-1019 | only a preparation or a replacement creates an attempt, under a new id; a preparation exactly on a current revision where the author has none live; only a push changes which revisions are current |
| AttemptLifecycle.AllowedMovesForward | packages/db/migrations/0001_invariants.sql:88-126 | the status table: one stage forward, from review to passed or retry, or from any live stage to technical retry, expired or invalidated |
| AttemptLifecycle.RunKeepsInv | apps/web/lib/attempt-lifecycle.ts:91-251 | over every run: soundness, final settled statuses, and rows that are never taken back |
| AttemptLifecycle.EveryDatabaseIsSound | apps/web/lib/attempt-lifecycle.ts:91-251 | every database reachable from no attempts at all is sound: one settlement row and check where settled, at most one decision |
| AttemptLifecycle.SettledMaterials | packages/auth/src/handoff.ts:164-212 | over every run from a settled attempt: it ever has a live material if and only if its settlement left one or an exchange that had passed its check inserts one |
| AttemptLifecycle.SettlementLeavesNone | apps/web/lib/attempt-lifecycle.ts:528-546 | which materials abort, expiry and media failure destroy, and that none is ever live again in any run exactly when no exchange is on its way and, for the media failure, no other material was live |
| AttemptLifecycle.MediaFailureLeavesOtherMaterial | apps/worker/src/media-finalize.ts:544-552 | a concrete reachable database in which a media failure leaves another exchange's material live |
| AttemptLifecycle.LateExchangeSurvivesAbort | packages/auth/src/handoff.ts:145-210 | a concrete reachable database in which an aborted attempt has a live material |
| AttemptLifecycle.LateExchangeSurvivesExpiry | packages/auth/src/handoff.ts:145-210 | the same for an expired attempt |
| AttemptLifecycle.AbortOrExpirySettlesOnce | apps/worker/src/attempt-expiry.ts:87-124 | of abort and expiry at most one settles an attempt, with one row, one check, and its upload gone |
| AttemptLifecycle.EitherFlowFinishes | apps/worker/src/attempt-expiry.ts:207-227 | from any crash state either flow gets through exactly when the upload can still be reserved, and then settles |
| AttemptLifecycle.AbortWritesOneRow | apps/web/lib/attempt-lifecycle.ts:200-238 | what the abort writes and destroys; at every later point of every run the attempt is still so settled, each phase of both flows replays or declines, and a material is ever live again exactly if a late exchange inserts one |
| AttemptLifecycle.ExpiryWritesOneRow | apps/worker/src/attempt-expiry.ts:87-124 | the same for expiry |
| AttemptLifecycle.DeletedUploadStrandsAttempt | apps/worker/src/retention.ts:504-513 | over every run in which no flow commits before a reservation that answered to proceed, an uploading attempt whose upload retention deleted stays uploading or is invalidated |
| AttemptLifecycle.ReservedFlowStillFinishes | apps/worker/src/attempt-expiry.ts:56-132 | a flow past its reservation when the upload is deleted still settles the attempt |
| AttemptLifecycle.ReplacementNeverRevives | apps/web/lib/attempt-lifecycle.ts:279-362 | a replacement changes no existing attempt and creates one only under a new id where none is live |
| AttemptLifecycle.ReplacementCreatesExactly | apps/web/lib/attempt-lifecycle.ts:279-404 | exactly when a replacement creates an attempt, the attempt (same author and revision, ready, eight hours to its expiry, no upload, material or decision, its one check), and when it answers an existing one or a conflict instead |
| AttemptLifecycle.ReplacementReplays | apps/web/lib/attempt-lifecycle.ts:290-315 | repeating a replacement answers with the attempt already there |
| AttemptLifecycle.PlanReviewDecision | apps/web/lib/maintainer-review.ts:163-193 | every action's plan ends in a settled status; which one, with which verdict and check, is DecisionMeansItsAction |
| AttemptLifecycle.DecisionFollowsOnePlan | apps/web/lib/maintainer-review.ts:163-193 | at most one decision, and status, row and check conclusion all follow the plan of one action |
| AttemptLifecycle.DecisionMeansItsAction | apps/web/lib/maintainer-review.ts:163-193 | at every later point of every run, an approval stands as passed, verdict pass and a successful check; a rejection as retry required and a manual retry as technical retry, both with verdict retry and action required |
| AttemptLifecycle.PassedMeansApproved | apps/web/lib/maintainer-review.ts:163-193 | in every reachable database an attempt has passed exactly with an approving decision and exactly with a successful check, and requires a retry exactly with a rejection |
| AttemptLifecycle.DecisionReplays | apps/web/lib/maintainer-review.ts:599-650 | at every later point of every run after a decision, the same key and input replays without change and any other second decision conflicts without change |
| AttemptLifecycle.LockedAttempt.CommitTechnicalAbort | apps/web/lib/attempt-lifecycle.ts:142-251 | the statements of the aborting transaction compute its transition function |
| AttemptLifecycle.LockedAttempt.CommitExpiringAttempt | apps/worker/src/attempt-expiry.ts:56-132 | the statements of the expiring transaction compute its transition function |
| AttemptLifecycle.LockedAttempt.RecordMediaFailure | apps/worker/src/media-finalize.ts:515-561 | the statements of the failure writer, which name one material by its id, compute its transition function |
| AttemptLifecycle.LockedAttempt.DecideMaintainerReview | apps/web/lib/maintainer-review.ts:593-731 | the statements of the decision compute its transition function |
| AttemptLifecycle.AttemptTable.Transact | apps/web/lib/attempt-lifecycle.ts:142-251 | each of the eight transactions, run statement by statement on the locked rows and written back, is its step on the whole table |
| AttemptLifecycle.AttemptTable.AbortAttempt | apps/web/lib/attempt-lifecycle.ts:91-251 | reserve, abort in storage, settle, with anything committed in between: the flow is a run that reserves first, and when it reports success the attempt is settled with its row and no evidence |
| AttemptLifecycle.AttemptTable.ExpireAttempt | apps/worker/src/attempt-expiry.ts:40-132 | the same for expiry |
| AttemptLifecycle.AttemptTable.CreateReplacementAttempt | apps/web/lib/attempt-lifecycle.ts:279-404 | the statements of the replacement compute its function on the table |
| ProviderPipeline.StepKeepsInv | apps/worker/src/multimodal-evaluation-repository.ts:248-395 | every transaction, job event and crash keeps the artifact counts, the pairing with the sidecar and the names in jobs; artifacts are stored once and for all and processing is never re-entered |
| ProviderPipeline.RunKeepsInv | apps/worker/src/provider-pipeline-repository.ts:371-887 | under any redelivery, loss or crash: at most one transcript and evaluation, an evaluation exactly with its sidecar, and every job names what is stored |
| ProviderPipeline.StepDoesExactly | apps/worker/src/multimodal-evaluation-repository.ts:209-395 | what each step does: which artifact it stores and when, how it moves the status, and for every job whether it is queued, about to be enqueued and held |
| ProviderPipeline.PersistIsIdempotent | apps/worker/src/provider-pipeline-repository.ts:413-456 | a second worker is answered with the stored artifact, whatever it computed |
| ProviderPipeline.PairIsExact | apps/worker/src/multimodal-evaluation-repository.ts:260-299 | a pair replays exactly when it is the stored pair and is available, and is otherwise refused without change |
| ProviderPipeline.FirstPairIsStored | apps/worker/src/multimodal-evaluation-repository.ts:300-395 | in an eligible attempt with its transcript and no evaluation the lookup finds nothing, and storing leaves exactly this evaluation, its sidecar and the policy job |
| ProviderPipeline.StoredPairIsReplayed | apps/worker/src/multimodal-evaluation-repository.ts:209-299 | every later handler of the transcript finds the stored pair, the same worker's second store replays it, and the policy job is queued again while processing |
| ProviderPipeline.RefusalsChangeNothing | apps/worker/src/multimodal-evaluation-repository.ts:209-299 | an attempt that cannot proceed, ambiguous artifacts, an evaluation without its sidecar and an unusable pair are refused as unavailable or inconsistent, without change |
| ProviderPipeline.DeliveryAdvances | apps/worker/src/provider-pipeline.ts:719-1362 | a delivery of a queued job runs its handler's transactions, with harmless steps of others before and among them, and ends in review or with a job of strictly lower rank queued |
| ProviderPipeline.ChainReachesReview | apps/worker/src/provider-pipeline.ts:719-1362 | deliveries that follow one another reach review_required within the rank of the first job, whatever others do before and inside each of them |
| ProviderPipeline.SweepRecovers | apps/worker/src/provider-pipeline-repository.ts:889-1016 | from every reachable eligible state, all jobs lost, one sweep and at most four deliveries, three with a transcript and one with an evaluation stored, reach review_required, whatever other workers, redeliveries and sweeps do before and inside each |
| ProviderPipeline.InterferenceKeepsJobs | apps/worker/src/provider-pipeline-repository.ts:467-523 | no other worker, redelivery or sweep takes a queued job or its artifact away |
| ProviderPipeline.EarlyCandidateIsPicked | apps/worker/src/provider-pipeline-repository.ts:936-955 | a candidate with fewer than `limit` candidates before it is always swept |
| ProviderPipeline.RebuildJob | apps/worker/src/provider-pipeline-repository.ts:957-1007 | the rebuilt job is the frontier job of the committed rows, and two active artifacts of a kind are an error |
| ProviderPipeline.PipelineTable.SweepPendingProviderStages | apps/worker/src/provider-pipeline-repository.ts:895-1016 | exactly the oldest unlocked candidates get exactly their frontier job, or an error leaves everything as it was |
| ProviderPipeline.FirstAreOldest | apps/worker/src/provider-pipeline-repository.ts:936-955 | what the sweep picks: only processing, open and retained attempts nobody has locked, and one is left out only if the limit is used up by older ones, equal times by id |
| ProviderPipeline.LockedPipe.PersistEvaluationPair | apps/worker/src/multimodal-evaluation-repository.ts:248-395 | the statements compute the pair transaction, its next job in the same commit |
| ProviderPipeline.LockedPipe.RunExtraction | apps/worker/src/provider-pipeline.ts:719-912 | with anything happening after its load, the handler answers and leaves: its own transcript created with frames to follow, the stored one replayed or scheduled, or nothing done when the attempt cannot proceed |
| ProviderPipeline.LockedPipe.RunJudgeEvaluation | apps/worker/src/provider-pipeline.ts:1057-1270 | the same for the evaluation handler without a sidecar and the policy job |
| ProviderPipeline.LockedPipe.RunMultimodalEvaluation | apps/worker/src/provider-pipeline.ts:1001-1170 | with anything happening between its transactions: its own pair created with the policy job queued, the stored pair scheduled or replayed, another pair or transcript refused as inconsistent, unavailable otherwise; the worker enqueues the policy job itself once processing is over |
| ProviderPipeline.LockedPipe.RunDelivery | apps/worker/src/provider-pipeline.ts:719-1362 | one delivery, whichever job it is: the statements of the handlers do what the chain of deliveries is made of, and the attempt ends in review or has the job that follows queued |
| EvidenceRetention.StepKeepsInv | apps/worker/src/frame-selection.ts:123-146 | every step, crash points included, keeps each stored frame named by an undeleted row, under the three assumptions |
| EvidenceRetention.StepDoesExactly | apps/worker/src/retention.ts:254-587 | what each step does to rows, objects, uploads, plans and the job, column by column: a sweep past the deadline leaves a job, an acceleration resets a failed one to pending and due, a completed one stays completed |
| EvidenceRetention.ClaimKeepsInv | apps/worker/src/retention.ts:352-432 | at a claim no row can be added any more, so the plan names everything stored |
| EvidenceRetention.CompleteKeepsInv | apps/worker/src/retention.ts:434-552 | completion leaves no stored frame, no live row and one audit row |
| EvidenceRetention.NothingLeftAfterDeletion | apps/worker/src/retention.ts:190-245 | in every run from finalization: no orphan at any point, nothing stored after completion, at most one evidence.deleted audit row |
| EvidenceRetention.DueStaysDue | apps/worker/src/retention.ts:262-309 | a due job stays due under sweeps and maintainer passes, and completed is final with its audit count |
| EvidenceRetention.DueStaysDueInRuns | apps/web/lib/maintainer-review.ts:58-71 | the same over any run |
| EvidenceRetention.StaleDueJobIsSwept | apps/worker/src/retention.ts:293-324 | a due, uncompleted job is handed out by the sweep that picks it once its lease is stale |
| EvidenceRetention.TwoWorkersOrphan | apps/worker/src/frame-selection.ts:241-290 | with two workers a repair can orphan an upload in flight |
| EvidenceRetention.LateUploadOrphans | apps/worker/src/frame-selection.ts:128-142 | an upload landing after its margin can outlive the deletion |
| EvidenceRetention.UndecidedUploadOrphans | apps/web/lib/maintainer-review.ts:58-71 | an upload landing after an accelerating decision can outlive the deletion |
| EvidenceRetention.EvidenceStore.ReserveFrameObject | apps/worker/src/frame-selection.ts:294-371 | reserves a new row or accepts exactly the same one, inside the margin |
| EvidenceRetention.LookUpMeans | apps/worker/src/frame-selection.ts:241-290 | what the lookup loop leaves behind and when it succeeds, for every list of frames, clock readings and lookup failures |
| EvidenceRetention.EvidenceStore.LoadExistingFrames | apps/worker/src/frame-selection.ts:182-292 | every frame is looked up in order and repaired at its own clock reading; it succeeds exactly when storage answers for all and the last repair keeps its margin, and then returns exactly the rows that remain; only rows of missing objects ever go |
| EvidenceRetention.EvidenceStore.EnqueueDueDeletion | apps/worker/src/retention.ts:254-350 | a sweep's effect on the job; only due jobs are queued |
| EvidenceRetention.EvidenceStore.DecideAttempt | apps/web/lib/maintainer-review.ts:49-84 | an accelerating decision makes the job due at once and leaves a completed one completed |
| EvidenceRetention.EvidenceStore.ClaimDeletion | apps/worker/src/retention.ts:352-432 | claims exactly due, uncompleted jobs with all live keys |
| EvidenceRetention.EvidenceStore.CompleteEvidenceDeletion | apps/worker/src/retention.ts:434-552 | marks every row and completes the job once |
| EvidenceRetention.EvidenceStore.FailEvidenceDeletion | apps/worker/src/retention.ts:554-587 | never reopens a completed job |
| EvidenceRetention.EvidenceStore.DeleteObjects | apps/worker/src/retention.ts:218-224 | deletes every target unless one deletion fails, and nothing but targets whose deletion succeeds |
| EvidenceRetention.EvidenceStore.DeleteEvidence | apps/worker/src/retention.ts:190-245 | finishes exactly when the job is claimable and every deletion succeeds, and then nothing is stored, also if an upload was in flight before |
| WebhookDelivery.DelayIsBackoff | apps/github-control/src/control.ts:198-211 | delays lie between a second and a week, never shrink with the attempt, and honour a hint in range |
| WebhookDelivery.DelayInNumbers | apps/github-control/src/control.ts:198-211 | 2, 4, 8, ... 256 seconds and then five minutes without a hint; a hint cut to a second and a week |
| WebhookDelivery.StepKeepsInv | apps/github-control/src/control.ts:106-269 | each step keeps the due time within a week, final statuses final, and raises the retry count exactly on a scheduled retry |
| WebhookDelivery.RunKeepsInv | apps/github-control/src/control.ts:106-269 | the same over every run |
| WebhookDelivery.EveryDeliveryIsSound | apps/github-control/src/control.ts:106-269 | from reservation on, at most one failure audit row, one on a permanent failure, and every queued delivery due within a week |
| WebhookDelivery.StepDoesExactly | apps/github-control/src/control.ts:106-280 | what intake, sweep, failure and execution do to the row, column by column |
| WebhookDelivery.PermanentFailureExactly | apps/github-control/src/control.ts:233-280 | over every run from reservation: the delivery has failed for good if and only if a failure without a retry met it while queued |
| WebhookDelivery.DueIsSwept | apps/github-control/src/control.ts:117-150 | past its due time a queued delivery is taken by the sweep that picks it and may run |
| WebhookDelivery.DeferralDecides | apps/github-control/src/control.ts:65-104 | over every run: a delivery may run before an instant, and before the next step, if and only if its deferral or one a retryable failure sets meanwhile ends before it and is not replaced first |
| WebhookDelivery.DeferralHolds | apps/github-control/src/control.ts:65-104 | so a deferral is kept over a run unless a shorter one set meanwhile lasts to its end, and exactly then |
| WebhookDelivery.DeferralShortensExactly | apps/github-control/src/control.ts:212-219 | one step lets a deferred delivery run early if and only if it is a retryable failure with a shorter delay |
| WebhookDelivery.DeferralCanBeShortened | apps/github-control/src/control.ts:198-219 | a concrete week-long deferral replaced by four seconds |
| WebhookDelivery.DeliveryRow.Resweep | apps/github-control/src/control.ts:106-161 | the sweep's statements on one row compute its step |
| WebhookDelivery.DeliveryRow.ScheduleRetry | apps/github-control/src/control.ts:163-231 | the retry's statements, and when it reports the failure handled |
| WebhookDelivery.DeliveryRow.HandleFailure | apps/github-control/src/control.ts:271-280 | a failure is retried or made permanent exactly as its step says |

## Left out

- WaitingAdmits: assumes no request event is stamped later than the rejecting clock reading, as does the range of the hint.
- JudgeAndProject: the deadline, the hashes and the descriptors of a provider's result appear as whether there is an answer; reason codes and the recommendation are not modelled.
- The decision's acceleration sits in EvidenceRetention and its status change in AttemptLifecycle; the two are not combined into one state.
- Sweeps and pruning over many deletion jobs and many deliveries: the limit and the row locks appear as whether this row is picked.
- Deletion of recordings, multipart uploads, transcripts and evaluations: only frame objects are tracked in storage.
- Decoding of stored rows, payload encryption and hashes of evaluations: a stored artifact is an id and a content value compared for equality.
- The signed zero: JSON prints it as zero, and a number is represented by its printed text.
- The stored-context comparison in generation-context-repository.ts: it compares identifiers and uses the JSON equality proved here; the row itself is not modelled.
- Sparse arrays, dates and other non-plain objects in canonical JSON.
- FFmpeg, media probing, the PCM extraction and the decoded-duration check.
- OAuth, cookies, capability tokens and authorization: a boolean parameter where a transaction depends on it.
- Semantic generation, configuration, provider factories, health endpoints and the user interface.
- The audit rows other than evidence.deleted and the permanent webhook failure.
- Check intents written for a whole revision by a push or a close: only those written with an attempt's settlement are counted.
