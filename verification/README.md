# A verified model of the voice runtime's stateful code

The repository answers telephone and browser calls with a voice pipeline. This project models its code with the most
delicate state and proves what that code promises:

- **Webhook replay and stream tokens** (`ReplayRegister`, `MemoryReplayStore`, `RedisReplayStore`, `StreamTokens`,
  `ReplayProtocol`). One abstract register of replay entries; the in-memory store and the four Redis scripts refine it.
  The webhook handler couples it to the token store; a machine over their atomic steps has requests interleave, commands
  run late, replies get lost and clients give up. Owners, call and reservation ids are fresh values.
- **Voice sessions** (`VoiceSessions`, `VoiceSessionStore`, `VoiceLifetimes`). Reserve, consume, supersede, commit, roll
  back and prune over four maps that must agree, with caps that survive speculative replacement, and how long a session
  keeps its slot.
- **The speech matrix runner** (`MatrixRecords`, `MatrixProtocol`, `MatrixHistory`, `MatrixCoverage`, `MatrixTotals`,
  `MatrixArtifacts`). Checkpoints around a call that must not be repeated, over any number of runs, with a crash possible
  between any two steps and writes that may fail: which calls follow which, what a finished run leaves behind, the
  attempt totals, and the order of records and files.
- **Sanitizers and canonical JSON** (`Utf16`, `PersistedSanitizer`, `SanitizerProvenance`, `SanitizerFixpoint`,
  `SanitizerIdempotence`, `SanitizerCapture`, `SanitizerSize`, `CoreSerializer`, `CoreProvenance`, `JsonText`,
  `CanonicalJson`). Two budgeted tree walks that share a counter, where every part of their output comes from,
  surrogate-safe truncation, and a key-sorting printer with a parser that inverts it.
- **Audio timelines** (`WavCodec`, `WavFormat`, `StableSort`, `ClearCutoff`, `StereoWav`, `Resampler`, `ResamplerBlocks`,
  `PlayoutAck`). Cutting agent audio at clears, placing samples on two channels, reading and writing WAV files,
  resampling block by block, and the browser client's playout acknowledgements.
- **The startup buffer and the mint limiter** (`StartupBuffer`, `MintRateLimiter`, `LiveKeys`). Re-entrant first-in
  first-out delivery, and a sliding window with an incremental pruning cursor. `Wrappers` holds options and
  results, `Sets` a fact on sizes.

Objects that the source updates in place are classes; their methods are proved against functions on values, about which
the lemmas then speak. What such a function means is stated once more without it: with codes, limits and formulas written
out, or as an independent description.

Six findings, each with its exact condition:

- *Late consume.* With a shared Redis register, the consume command of an earlier call may run after its entry expired
  and mark the next publication of the same key. A token that can commit then finds its entry consumed instead of
  completed. This cannot happen if and only if the register is process-local, or every consume command has run or is
  lost within the time by which the replay lifetime exceeds the token lifetime (`CompletedAtCommitIff`). The entry is
  always live, of the right request, and accepts the consume (`CommitFindsItsEntry`).
- *Sanitizing twice.* An over-long key collapses to `[Truncated]`; if a later key of that very name holds a container
  that the budget cuts, the container moves forward, its cut markers are counted on the second walk, and a sibling loses
  its budget (`CaptureBreaksIdempotence`). Limits make sanitizing idempotent on all trees if and only if they allow at
  most two levels or at most four nodes (`IdempotentIffSmallLimits`). Under larger limits it is idempotent on every tree
  in which such a container holds no container that the depth limit lets through, or whose nodes are fewer than the
  budget (`SanitizeIsIdempotent`).
- *Resampling above 32 kHz.* With a step above 2 the position can pass the end of the buffer and the excess is dropped,
  so that the output depends on the block lengths (`SplitIndependentIff`). For blocks of one length it does if and only
  if two neighbouring outputs jump over the end of some block (`EqualBlocksIff`); a browser's blocks of 128 samples are
  hit at 44.1 kHz and at 48 kHz (`CommonRatesLosePhase`).
- *Out of order.* The browser client acknowledges a range when its last sequence has been played. That is the whole range
  if and only if no frame of it arrived after the frame of that sequence (`LastDecidesIff`).
- *Called twice.* A close handler that is added while a close is being reported is called in turn and again by a
  microtask. Every close handler is called once if and only if none is added meanwhile (`CalledOnceIff`).
- *Odd PCM.* The WAV printer does not pad an odd payload and the parser refuses it (`ParseInvertsPrint`).

## Model

| member | source | states |
|---|---|---|
| `ReplayRegister.EntryLifetime` | examples/live-call/src/security.ts:112-203 | over any legal run, the entry of one owner only moves pending, completed, consumed with its hash, owner and published response fixed; once it is gone that owner never holds an entry again, whatever late completes and aborts arrive |
| `ReplayRegister.GoneOwnerStaysGone` | examples/live-call/src/security.ts:171-203 | an owner that was used and holds no entry never holds one again in any continuation |
| `ReplayRegister.PublishedSurvives` | examples/live-call/src/security.ts:219-263 | a published response outlives every run that ends before its expiry, with the same owner and response or consumed: no abort or rival complete removes it |
| `ReplayRegister.OperationsSeeOnlyTheView` | examples/live-call/src/security.ts:148-167 | acquire, complete, abort, consume and the passing of time give the same answer and the same live entries on registers that differ only in expired entries, so pruning at any moment is invisible |
| `ReplayRegister.AcquireAnswers` | examples/live-call/src/security.ts:112-147 | a claim is granted exactly when the key is free or expired; a live entry of another hash is a conflict and nothing else is, and a response is repeated only to the hash it was published under |
| `ReplayRegister.AnswersTellTheState` | examples/live-call/src/security.ts:148-201 | complete answers yes exactly when the key then holds this owner's very response, consume when it is then consumed, abort when it took the owner's pending entry away; a no changes nothing |
| `ReplayRegister.ClaimExcludes` | examples/live-call/src/security.ts:138-147 | over any run in which the owner neither completes nor aborts, its claim stays until it expires, and every other acquire waits, or conflicts if its hash is another |
| `MemoryReplayStore.InMemoryTwimlReplayStore.Acquire` | examples/live-call/src/security.ts:112-147 | an acquire of the in-memory store is the abstract acquire up to expired entries; a live entry of another hash conflicts, a response or a wait is given only for an equal hash; aborted and invalid-lifetime requests change nothing; nobody waits for an entry that is gone |
| `MemoryReplayStore.InMemoryTwimlReplayStore.FinishWait` | examples/live-call/src/security.ts:82-108 | a waiter is answered only with the one response its owner published, and is busy exactly on abort, timeout or a missing response |
| `MemoryReplayStore.InMemoryTwimlReplayStore.MarkConsumed` | examples/live-call/src/security.ts:148-158 | the abstract consume, failing on a missing, expired or unpublished entry |
| `MemoryReplayStore.InMemoryTwimlReplayStore.Prune` | examples/live-call/src/security.ts:159-167 | leaves the live entries alone and no expired one behind |
| `MemoryReplayStore.OwnerLease.Complete` | examples/live-call/src/security.ts:180-194 | an unsettled lease completes exactly as the abstract register does; a settled one changes nothing |
| `MemoryReplayStore.OwnerLease.Abort` | examples/live-call/src/security.ts:195-201 | settled or not, the abstract abort: never removes a published entry nor one of another owner |
| `MemoryReplayStore.PublishingIsComplete` | examples/live-call/src/security.ts:182-193 | publishing an owned live entry in the map is the abstract complete |
| `RedisReplayStore.RedisServer.ReserveScript` | examples/live-call/src/security.ts:219-224 | the reserve script is the abstract acquire, its reply the record that decides the claim |
| `RedisReplayStore.RedisServer.CompleteScript` | examples/live-call/src/security.ts:226-241 | the complete script is the abstract complete, idempotent for the same response |
| `RedisReplayStore.RedisServer.AbortScript` | examples/live-call/src/security.ts:243-250 | the abort script is the abstract abort |
| `RedisReplayStore.RedisServer.ConsumeScript` | examples/live-call/src/security.ts:252-263 | the consume script is the abstract consume and keeps the remaining lifetime |
| `RedisReplayStore.Classify` | examples/live-call/src/security.ts:370-376 | a record of another hash is a conflict and nothing else is; otherwise the claim is what the abstract register would give, a response being the record's own |
| `RedisReplayStore.AwaitPublication` | examples/live-call/src/security.ts:377-400 | the polling loop stops at the first reading that decides and answers as that reading says, else busy; a response comes from a reading with the request's hash |
| `RedisReplayStore.RedisOwnerLease.Complete` | examples/live-call/src/security.ts:428-440 | success is reported only if the register accepted this response; a lost or refused reply leaves the lease open |
| `RedisReplayStore.RedisOwnerLease.Abort` | examples/live-call/src/security.ts:441-445 | runs the abort script at most once and never on a settled lease |
| `RedisReplayStore.CompleteThenAbort` | examples/live-call/src/security.ts:418-447 | complete with a lost reply followed by abort leaves the response published under its owner until its own expiry |
| `StreamTokens.StreamTokenStore.Issue` | examples/live-call/src/security.ts:540-545 | a fresh call id tracked with its expiry and signed digest |
| `StreamTokens.StreamTokenStore.Reserve` | examples/live-call/src/security.ts:546-570 | succeeds exactly for a tracked, unreserved, unexpired token with the right expiry and digest, and changes only that reservation |
| `StreamTokens.StreamTokenStore.Commit` | examples/live-call/src/security.ts:571-578 | succeeds exactly for the holder of the reservation before expiry; a committed call id can never be committed again |
| `StreamTokens.StreamTokenStore.Restore` | examples/live-call/src/security.ts:579-587 | gives the token back only to the reservation that holds it, and drops an expired one |
| `StreamTokens.StreamTokenStore.Prune` | examples/live-call/src/security.ts:591-598 | removes exactly the expired tokens |
| `StreamTokens.RestoreUndoesReserve` | examples/live-call/src/security.ts:546-587 | reserve followed by restore leaves the tokens as they were before expiry, and without that token after it |
| `ReplayProtocol.StepKeepsInv` | examples/live-call/src/gateway.ts:162-215 | every atomic step of handler, register and token store, with lost replies and commands run late, keeps the cross-store invariant |
| `ReplayProtocol.AtMostOneDisclosedToken` | examples/live-call/src/gateway.ts:162-215 | in every run with a monotone clock and replay lifetime at least the token lifetime, at most one disclosed unexpired token per replay key |
| `ReplayProtocol.DisclosedToTheSameRequest` | examples/live-call/src/gateway.ts:162-215 | in every run a response is only disclosed to a request with the key and the hash of the request that it was issued for |
| `ReplayProtocol.GivingUpFreesTheKey` | examples/live-call/src/gateway.ts:162-215 | in every reachable state a request that gives up leaves an abort behind, after which whoever asks next gets the key, unless it was not this request's or is published; a token whose completion was not sent is released and was never published |
| `ReplayProtocol.CommitFindsItsEntry` | examples/live-call/src/main.ts:268-300 | whenever a token can commit, its replay entry is live, of the issuing request, and can be marked consumed; and is completed with that token if consume commands are in time or no earlier token of the key committed |
| `ReplayProtocol.CompletedAtCommitIff` | examples/live-call/src/main.ts:289-296 | a token that can commit finds its entry completed with that very token in every run, if and only if the register is process-local or each consume command runs, or is lost, within replay lifetime minus token lifetime of its commit |
| `ReplayProtocol.ConsumeFindsItsEntry` | examples/live-call/src/security.ts:252-263 | a consume command that runs in time finds the entry of its own, committed token or none |
| `ReplayProtocol.LateConsumeHitsTheNextEntry` | examples/live-call/src/security.ts:252-263 | for every configuration with a shared register whose consume commands may take longer there is a run in which the consume command of one call marks the next publication of the key |
| `ReplayProtocol.CommitsOfOneKeyAreFarApart` | examples/live-call/src/main.ts:289-296 | two commits under one replay key are of different calls, and the later one happens after the earlier token expired |
| `ReplayProtocol.PublishKeeps` | examples/live-call/src/gateway.ts:199-209 | publication starts the replay lifetime after issue, so a token cannot outlive its register entry |
| `VoiceSessionStore.VoiceSessionStore.Reserve` | examples/voice-mode/src/security.ts:150-189 | after pruning every expired slot of the user and some others, refused or granted exactly by the value-level rules; an unexpired prior of the same user is set aside |
| `VoiceSessionStore.VoiceSessionStore.Consume` | examples/voice-mode/src/security.ts:190-207 | succeeds exactly for the right digest of an unconsumed, unexpired slot, once; the slot then expires the maximal session duration after the time of consumption |
| `VoiceSessionStore.VoiceSessionStore.CommitSupersede` | examples/voice-mode/src/security.ts:208-220 | the four maps, kept in agreement (index exactly the slots by user without empty sets, pending and its inverse mutual inverses), follow the abstract commit: the prior is forgotten, an unconsumed replacement then expires with its token, a consumed one when it did before |
| `VoiceSessionStore.VoiceSessionStore.RollbackSupersede` | examples/voice-mode/src/security.ts:221-227 | the four maps follow the abstract rollback |
| `VoiceSessionStore.VoiceSessionStore.Release` | examples/voice-mode/src/security.ts:228-230 | removes the slot and any pending replacement that it is part of |
| `VoiceSessionStore.VoiceSessionStore.PruneUser` | examples/voice-mode/src/security.ts:122-129 | no expired slot of the user is left |
| `VoiceSessionStore.VoiceSessionStore.NextKey` | examples/voice-mode/src/security.ts:131-138 | a finished cursor starts over and then finds a slot, so the pruning loop ends |
| `VoiceSessionStore.CountIsIndex` | examples/voice-mode/src/security.ts:160-161 | the per-user index counts the user's slots |
| `VoiceSessions.StepKeeps` | examples/voice-mode/src/security.ts:150-230 | every call keeps caps, coherence of replacements and priors, and spent tokens |
| `VoiceSessions.EveryRun` | examples/voice-mode/src/security.ts:76-143 | in every run per-user and total caps hold, even after rollbacks, replacements and priors stay coherent, and each token is consumed at most once |
| `VoiceSessions.DeadStaysDead` | examples/voice-mode/src/security.ts:87-109 | a session that is neither a slot nor set aside as a prior never returns |
| `VoiceSessions.CommittedOrReleasedPriorIsDead` | examples/voice-mode/src/security.ts:208-230 | a prior committed away, or released while its replacement was pending, is in that state |
| `VoiceSessions.RollbackUndoesSupersede` | examples/voice-mode/src/security.ts:165-227 | an unexpired supersede followed at once by rollback restores the slots and pending replacements left after pruning; an expired prior alone stays away |
| `VoiceSessions.RefusalIs` | examples/voice-mode/src/security.ts:150-165 | a reservation is refused exactly for a session that the user cannot replace, for the user's cap, or for the total, in this order; a replacement borrows the place of what it replaces |
| `VoiceLifetimes.GoingOnIsWithinCap` | examples/voice-mode/src/security.ts:150-207 | over any run the sessions of a user that were opened, not ended and are still within the maximal duration are never more than the cap |
| `VoiceLifetimes.SlotStays` | examples/voice-mode/src/security.ts:122-143 | a slot stays as it is in every run that does not name it and prunes only before its expiry |
| `VoiceLifetimes.SlotIsGoneAfter` | examples/voice-mode/src/security.ts:122-129 | the user's next reservation at or after its expiry finds a slot gone |
| `VoiceLifetimes.ConsumedSlotLasts` | examples/voice-mode/src/security.ts:190-207 | a session consumed at t and not released, superseded or consumed again is a slot of its user at every time before t plus the maximal session duration |
| `VoiceLifetimes.ReservedSlotLasts` | examples/voice-mode/src/security.ts:165-189 | a reserved session is a slot until its token expires and, if it replaces one, as long as that one would have been |
| `VoiceLifetimes.ReservedTokenLasts` | examples/voice-mode/src/security.ts:165-207 | and its token can be consumed at every time before it expires |
| `VoiceLifetimes.CommittedSlotLasts` | examples/voice-mode/src/security.ts:208-220 | after a commit an unconsumed replacement is a slot at every time before its token expires, and expires then |
| `MatrixRecords.MergeRecordHistory` | scripts/sarvam-tts-matrix-resume.ts:198-208 | the merge keeps one record for every file: the last one of the run's records, else the last one of the history |
| `MatrixRecords.ReadPriorRecords` | scripts/sarvam-tts-matrix-resume.ts:146-196 | the reading loops compute what a manifest means: refused, or reusable, unresolved and history records |
| `MatrixRecords.Classify` | scripts/sarvam-tts-matrix-resume.ts:172-194 | each selected job's record is reused, unresolved or passed over |
| `MatrixRecords.NormalizeRecord` | scripts/sarvam-tts-matrix-resume.ts:415-553 | normalizing accepts every record that the runner writes and turns a blocking one, and only such, into passed or unknown; passed exactly for a synthesis whose metrics make sense and whose claimed file is there with as many bytes |
| `MatrixRecords.ReadBackBlocks` | scripts/sarvam-tts-matrix-resume.ts:146-196 | a selected job whose last record blocks it is read back as passed or unknown |
| `MatrixRecords.SynthesisIsReused` | scripts/sarvam-tts-matrix-resume.ts:146-196 | a job whose last record is such a synthesis, with audio if the run wants it, starts as passed with its metrics |
| `MatrixTotals.CarriedTotals` | scripts/sarvam-tts-matrix-resume.ts:79-106 | through a history of runs the carried total is the sum of all attempts, the unknown total the sum over the runs that left the job unknown, and a job left unknown stays so when it only fails |
| `MatrixProtocol.StepKeeps` | scripts/sarvam-tts-http-matrix.ts:171-298 | every step of workers, checkpoints, failing writes and crashes keeps the durable and in-memory invariant |
| `MatrixHistory.CalledAgainOnlyAfterDefiniteError` | scripts/sarvam-tts-matrix-retry.ts:34-67 | over any runs, crashes, failed writes and selections, a call that is followed by another of its job ended in an error not marked unknown with one of the seven codes, written out; within one run moreover only in a retriable rate limit with credit left, by the next attempt |
| `MatrixHistory.AtMostOneDecisiveCall` | scripts/sarvam-tts-http-matrix.ts:351-394 | a job has at most one call that is under way, succeeded or may have synthesized, codes written out, and that is its last one |
| `MatrixHistory.CallsAreWithinRetries` | scripts/sarvam-tts-http-matrix.ts:190-216 | in a run no job has more calls than retries plus one |
| `MatrixHistory.DecisiveCallIsReadBack` | scripts/sarvam-tts-matrix-resume.ts:146-196 | at any moment a crash may hit, the next run reads a job whose last call may have synthesized back as passed or unknown |
| `MatrixHistory.NextRunMakesNoCall` | scripts/sarvam-tts-matrix-resume.ts:146-196 | after a crash at any moment of any runs, the whole next run makes no call for such a job |
| `MatrixHistory.ErrorDecidesTheWorker` | scripts/sarvam-tts-matrix-retry.ts:20-67 | in every reachable state an error is tried again exactly if attempts are left and it is a retriable rate limit with credit, and else settles as unknown, or as a failure safe to retry if it is definite, conditions written out; the record names the error and the run's attempts |
| `MatrixHistory.ErrorGivesTheCallBack` | scripts/sarvam-tts-matrix-retry.ts:34-67 | and it takes back the one counted call of its job exactly when it is not marked unknown and has one of the seven codes; no other job's count changes |
| `MatrixCoverage.FinishedRunHasHandledEveryJob` | scripts/sarvam-tts-http-matrix.ts:171-298 | when a run whose jobs have all been taken finishes, the last durable record of each is passed or unknown, or failed with the job's last call made by this very run |
| `MatrixCoverage.FinishedManifestListsEveryJob` | scripts/sarvam-tts-http-matrix.ts:171-298 | and its manifest lists the jobs in their order, each with its record, and says whether the run wrote audio |
| `MatrixTotals.TotalsCountTheCalls` | scripts/sarvam-tts-matrix-resume.ts:79-106 | over any runs and crashes the durable total of a called job is at least the number of its calls, and exactly that as long as no in-flight checkpoint has failed |
| `MatrixProtocol.SettledIsLeftAlone` | scripts/sarvam-tts-http-matrix.ts:171-178 | once a job's record is passed or unknown and no worker is on it, no step of the rest of the run starts or ends a call of it, puts a worker on it or writes its record again |
| `MatrixProtocol.CallKeeps` | scripts/sarvam-tts-http-matrix.ts:190-216 | the in-flight record is durable before the provider is called |
| `MatrixArtifacts.StepInOrder` | scripts/sarvam-tts-matrix-checkpoint.ts:11-24 | every step but a foreign change of the files keeps the order of pending record, artifact and passed record |
| `MatrixArtifacts.PassedHasItsArtifact` | scripts/sarvam-tts-matrix-checkpoint.ts:11-24 | through any runs, crashes between any two steps and failing writes, a passed record with audio has its complete artifact, in memory and on disk |
| `MatrixArtifacts.PassedReportsItsCall` | scripts/sarvam-tts-matrix-checkpoint.ts:11-24 | and every passed record has the metrics of its job's last call, which succeeded |
| `MatrixArtifacts.PassedIsReused` | scripts/sarvam-tts-matrix-resume.ts:146-196 | the next run reads a passed record whose metrics make sense back as passed with these metrics, audio included, so a synthesis is not lost |
| `Utf16.MakeWellFormed` | packages/dal-codec/src/persisted-errors.ts:636-654 | the scanning loop replaces exactly the lone surrogates by U+FFFD and keeps everything else in its place |
| `Utf16.BoundedString` | packages/dal-codec/src/persisted-errors.ts:626-635 | well-formed and within the limit for every string and limit, a negative one leaving no room; unchanged exactly when it already was; only repaired when it fits, else as much as fits before the marker without splitting a pair, or as much of the marker as fits |
| `Utf16.BoundedIsIdempotent` | packages/core/src/error-serialization.ts:201-210 | bounding twice is bounding once |
| `PersistedSanitizer.SanitizePersistedValue` | packages/dal-codec/src/persisted-errors.ts:505-624 | the recursive walk with its shared counter computes the value-level walk, count included |
| `PersistedSanitizer.SanitizeArray` | packages/dal-codec/src/persisted-errors.ts:540-562 | the loop over items, with its cut at the budget |
| `PersistedSanitizer.SanitizeObject` | packages/dal-codec/src/persisted-errors.ts:563-618 | the loop over keys, with its cut at the budget |
| `PersistedSanitizer.SanitizeField` | packages/dal-codec/src/persisted-errors.ts:574-617 | one key: replaced, redacted, dropped or walked |
| `SanitizerProvenance.SanitizedComes` | packages/dal-codec/src/persisted-errors.ts:505-624 | every part of a result stands where its origin stood: each text is the bounded redaction of a text there or one of the markers, each where it belongs; the node marker occurs only if the budget is used up, the depth marker exactly where the levels are; a property comes from a field of its name; unless the budget is used up no item and no defined field is missing |
| `SanitizerProvenance.NoFieldIsLost` | packages/dal-codec/src/persisted-errors.ts:563-618 | while there is budget left an object keeps a property for every field whose value is not undefined |
| `SanitizerProvenance.PutDefines` | packages/dal-codec/src/persisted-errors.ts:583-590 | defining a property replaces the one of that name at its place or adds one at the end |
| `SanitizerProvenance.MarkersSpell` | packages/dal-codec/src/persisted-errors.ts:513 | the markers, spelled out |
| `SanitizerIdempotence.SanitizeIsIdempotent` | packages/dal-codec/src/persisted-errors.ts:505-624 | idempotent on every accepted tree whose containers under a key that an earlier unusable key collapses to hold no container that the depth limit lets through, and on every tree with fewer nodes than the budget, given a string step fixed on its outputs |
| `SanitizerFixpoint.FixedIsKept` | packages/dal-codec/src/persisted-errors.ts:505-624 | the trees described as fixed from a count are returned unchanged from that count |
| `SanitizerFixpoint.FixedFromLess` | packages/dal-codec/src/persisted-errors.ts:513-514 | and from every smaller count, so earlier siblings that shrank do no harm |
| `SanitizerIdempotence.SanitizedIsFixed` | packages/dal-codec/src/persisted-errors.ts:505-624 | the output of a walk is such a tree |
| `SanitizerIdempotence.SmallLimitsAreFinal` | packages/dal-codec/src/persisted-errors.ts:505-624 | idempotent on every accepted tree when the limits allow at most two levels or at most four nodes |
| `SanitizerCapture.CaptureBreaksIdempotence` | packages/dal-codec/src/persisted-errors.ts:576-590 | for all limits of at least three levels and five nodes and all lawful string rules, an ordinary tree with a captured container changes again on the second walk |
| `SanitizerCapture.IdempotentIffSmallLimits` | packages/dal-codec/src/persisted-errors.ts:505-624 | sanitizing is idempotent on all accepted trees if and only if the limits allow at most two levels or at most four nodes |
| `SanitizerCapture.TreeHasDistinctKeys` | packages/dal-codec/src/persisted-errors.ts:563-564 | that tree is one that an object can be |
| `SanitizerSize.SanitizedSize` | packages/dal-codec/src/persisted-errors.ts:505-624 | the output has at most maxNodes + maxDepth nodes |
| `SanitizerSize.CoreLeavesPersistedMetadataAlone` | packages/dal-codec/src/persisted-errors.ts:29-31 | with the real limits, 6 levels, 100 nodes and 256 units, at most 106 nodes, and the core serializer returns the output unchanged |
| `SanitizerSize.CoreLeavesPersistedAlone` | packages/core/src/error-serialization.ts:240-343 | the same for all limits with 2 * (maxNodes + maxDepth) - 1 within the core budget |
| `SanitizerSize.PlainIsSerializedUnchanged` | packages/core/src/error-serialization.ts:240-343 | the core serializer leaves every plain tree alone whose price, keys charged too, is within the budget |
| `CoreSerializer.SerializeJsonValue` | packages/core/src/error-serialization.ts:240-343 | the walk with its shared node count computes the value-level serializer |
| `CoreSerializer.SerializeArray` | packages/core/src/error-serialization.ts:293-311 | the loop over items and its cuts |
| `CoreSerializer.SerializeObject` | packages/core/src/error-serialization.ts:313-335 | the loop over keys, each of which is charged |
| `CoreProvenance.SerializedStands` | packages/core/src/error-serialization.ts:240-343 | every part of a result stands where its origin stood: each text is the caller's rule bounded to 256 units or a marker where it belongs; eight levels, 256 items and then the cut marker; unless the 256 nodes are used up nothing is missing but fields with longer keys |
| `CoreProvenance.BudgetIsKept` | packages/core/src/error-serialization.ts:251-252 | no more than 256 nodes are paid for |
| `CoreProvenance.SerializedIsShallow` | packages/core/src/error-serialization.ts:250 | containers are nested at most eight levels deep |
| `CanonicalJson.ParseInvertsPrint` | packages/dal-codec/src/index.ts:48-124 | parsing the printed text gives the value as a tree of key-to-value maps |
| `CanonicalJson.PrintsAlikeIffEqual` | packages/dal-codec/src/index.ts:48-124 | two accepted values print alike if and only if they are equal as key-to-value maps: order-independent and injective |
| `CanonicalJson.PrintsWhatIsAccepted` | packages/dal-codec/src/index.ts:61-97 | the printer refuses exactly values outside JSON, and undefined ones when strict |
| `CanonicalJson.MeaningDecidesText` | packages/dal-codec/src/index.ts:115-123 | equal meanings print alike whatever the order of members |
| `CanonicalJson.SortSorts` | packages/dal-codec/src/index.ts:117 | sorting keeps the rows and orders their keys strictly: each is a proper prefix of the next or smaller at the first unit that differs |
| `CanonicalJson.BeforeIsLess` | packages/dal-codec/src/index.ts:117 | the comparison is the lexicographic one by code units |
| `CanonicalJson.ObjectPrints` | packages/dal-codec/src/index.ts:115-123 | an object prints exactly its defined members, each once, in strictly ascending order of their keys |
| `JsonText.StringRoundTrip` | packages/dal-codec/src/index.ts:69-71 | a quoted string, unpaired surrogates included, reads back unit by unit |
| `JsonText.EscapeSpells` | packages/dal-codec/src/index.ts:69-71 | the escape of every code unit, spelled out: short ones, lower-case hexadecimal ones for other controls and lone surrogates, none for the rest |
| `JsonText.ArrayReads` | packages/dal-codec/src/index.ts:110-113 | a printed array is one value whatever follows it |
| `JsonText.ObjectReads` | packages/dal-codec/src/index.ts:118-123 | and so is a printed object |
| `ClearCutoff.ClearCutoffAt` | examples/call-recording/src/stereo-wav.ts:168-184 | suffix minima and binary search give the least time among the clears that reach the frame's sequence with a safe integer bound or name its turn among their pending sends, if there is one |
| `ClearCutoff.EarliestClearIsEarliest` | examples/call-recording/src/stereo-wav.ts:116-185 | the naive minimum is a time of a valid clear through the frame's sequence or of a pending-send clear of its turn, and none is earlier |
| `ClearCutoff.SuffixMinimum` | examples/call-recording/src/stereo-wav.ts:160-166 | the backward loop computes the minimum from every index on |
| `ClearCutoff.CollectCutoffs` | examples/call-recording/src/stereo-wav.ts:119-137 | the valid clears, sorted by sequence |
| `ClearCutoff.CollectPendingTurns` | examples/call-recording/src/stereo-wav.ts:138-159 | per turn the earliest pending-send clear that names it |
| `ClearCutoff.FindFirst` | examples/call-recording/src/stereo-wav.ts:169-175 | the binary search finds the first cutoff at or after the sequence |
| `StereoWav.ConfirmedAgentAudioThrough` | examples/call-recording/src/stereo-wav.ts:105-114 | per turn the furthest confirmed sequence |
| `StereoWav.Position` | examples/call-recording/src/stereo-wav.ts:27-70 | the positioning loop computes the placements, each in real time as the rows below say, and their common length |
| `StereoWav.BuildStereoWav` | examples/call-recording/src/stereo-wav.ts:18-103 | the file is refused for the first reason met, or is the header and the samples of the placements |
| `StereoWav.RefusalHasAReason` | examples/call-recording/src/stereo-wav.ts:190-216 | a refusal is explained by a frame that is wrong in just that way, or that is well-formed and lies too far out |
| `StereoWav.MalformedIsRefused` | examples/call-recording/src/stereo-wav.ts:190-216 | and every malformed frame leads to a refusal |
| `StereoWav.ShortRecordingIsBuilt` | examples/call-recording/src/stereo-wav.ts:27-70 | a recording of well-formed frames is built if their latest time and all samples together stay within 16 777 216 samples |
| `StableSort.SortIsStable` | examples/call-recording/src/stereo-wav.ts:32-34 | elements of equal keys keep their order |
| `StereoWav.PlacedFrames` | examples/call-recording/src/stereo-wav.ts:32-70 | placed intervals on a channel are disjoint and increasing, within bounds, start no more than half a sample before their time at 16 samples per millisecond, and keep every sample that ends by the cutoff and no other |
| `StereoWav.StartsOnTimeOrBehind` | examples/call-recording/src/stereo-wav.ts:44-48 | a frame starts within half a sample of its time in milliseconds or right behind an earlier one on its channel |
| `StereoWav.EveryFrameIsPlaced` | examples/call-recording/src/stereo-wav.ts:44-59 | every frame with samples is placed, or was cut no later than its time in milliseconds or than what precedes it on its channel |
| `StereoWav.NothingAfterAClear` | examples/call-recording/src/stereo-wav.ts:35-59 | no sample of unconfirmed agent audio is heard after a clear that concerns it |
| `StereoWav.OnlyAClearCuts` | examples/call-recording/src/stereo-wav.ts:35-59 | a frame that lost its end is unconfirmed agent audio with a clear that concerns it, before the end of the first sample lost |
| `StereoWav.RecordingHoldsItsFrames` | examples/call-recording/src/stereo-wav.ts:91-100 | every kept byte of every placed frame is in the file at 44 + 4 * sample, plus 2 for the agent, never written over |
| `StereoWav.TheRestIsSilent` | examples/call-recording/src/stereo-wav.ts:77-100 | all other bytes behind the header are zero |
| `StereoWav.RecordingEndsWithItsLastSample` | examples/call-recording/src/stereo-wav.ts:62-77 | the file ends with the sample that ends last |
| `StereoWav.WriteFrame` | examples/call-recording/src/stereo-wav.ts:92-99 | one frame's loop writes its interval and nothing else |
| `WavCodec.Pcm16ToWav` | scripts/sarvam-tts-http-live-common.ts:153-170 | the header and the samples, or refused when the length does not fit its field |
| `WavCodec.HeaderSays` | scripts/sarvam-tts-http-live-common.ts:153-170 | every field of the header at its offset, byte by byte, for one and for two channels |
| `WavCodec.ParsePcm16Wav` | examples/stt-only/src/wav.ts:14-67 | the chunk loop computes the scan, with its errors |
| `WavFormat.ParsesIff` | examples/stt-only/src/wav.ts:14-71 | a file is read as this audio if and only if it is a RIFF/WAVE file of whole chunks whose format chunks are all mono 16-bit PCM at a known rate, and whose last format and last data chunk say so; bytes written out |
| `WavCodec.ParseInvertsPrint` | examples/stt-only/src/wav.ts:14-67 | parsing the printed file returns rate and bytes for every even payload with 36 + n below 2^32, and refuses every odd one |
| `WavCodec.ForeignChunkIsIgnored` | examples/stt-only/src/wav.ts:23-58 | inserting a padded chunk other than `fmt ` and `data` between chunks changes nothing, whatever follows |
| `WavCodec.ScanChunk` | examples/stt-only/src/wav.ts:23-58 | a chunk at the front is absorbed and the scan goes on behind its padding |
| `StartupBuffer.StartupBufferedSocket.ReceiveMessage` | examples/voice-mode/src/connection-lifecycle.ts:101-124 | a message is handed on, queued, or rejects the connection exactly when there would be more than 32 messages or 65 536 bytes; re-entrant calls included, the first handler has received a prefix of the arrivals |
| `StartupBuffer.StartupBufferedSocket.FlushMessages` | examples/voice-mode/src/connection-lifecycle.ts:125-143 | the flush hands everything on in order, although handlers cause further arrivals, ends or handlers |
| `StartupBuffer.StartupBufferedSocket.DispatchMessage` | examples/voice-mode/src/connection-lifecycle.ts:145-149 | the first handler is called with the message before any handler causes anything, and every handler is called, those added meanwhile too |
| `StartupBuffer.StartupBufferedSocket.Play` | examples/voice-mode/src/connection-lifecycle.ts:101-182 | after any events delivered followed by queued is what arrived, until a rejection; byte count and limits hold |
| `StartupBuffer.StartupBufferedSocket.RejectStartupBuffer` | examples/voice-mode/src/connection-lifecycle.ts:168-176 | the queue is dropped, the end reported once and the socket closed once |
| `StartupBuffer.StartupBufferedSocket.NotifyTerminal` | examples/voice-mode/src/connection-lifecycle.ts:178-182 | the terminal callback runs at most once |
| `StartupBuffer.StartupBufferedSocket.ReceiveClose` | examples/voice-mode/src/connection-lifecycle.ts:151-158 | after a close nothing arrives any more, the end has been reported and every close handler has been called |
| `StartupBuffer.CalledOnceIff` | examples/voice-mode/src/connection-lifecycle.ts:80-90 | when the microtasks have run, every close handler has been called exactly once if and only if none was added while the close was being reported; the smallest exception |
| `StartupBuffer.StartupBufferedSocket.ReceiveError` | examples/voice-mode/src/connection-lifecycle.ts:160-166 | after an error nothing arrives any more, the end has been reported and every error handler has been called |
| `Resampler.EmitsInterpolations` | examples/voice-mode/public/pcm-worklet.js:16-29 | the samples are exactly the interpolations at k steps that have a right neighbour |
| `Resampler.InterpolatedIsNear` | examples/voice-mode/public/pcm-worklet.js:18-24 | a sample is the integer nearest to the weighted mean of its two neighbours on the scale of 32 767, and nothing from -1 to 1 is clipped |
| `Resampler.SixteenThousandASecond` | examples/voice-mode/public/pcm-worklet.js:3-29 | a block gives exactly the least number of samples that reaches its last input sample at 16 000 a second |
| `Resampler.SplitsDoNotMatter` | examples/voice-mode/public/pcm-worklet.js:11-36 | with a step of at most 2, any blocks give what one block with all input gives |
| `Resampler.SplitIndependentIff` | examples/voice-mode/public/pcm-worklet.js:32-34 | the output is independent of the blocks if and only if the step is at most 2 |
| `Resampler.LargeStepsLosePhase` | examples/voice-mode/public/pcm-worklet.js:32-34 | for every larger step two block lengths give one sample too many, whatever the samples |
| `ResamplerBlocks.EqualBlocksIff` | examples/voice-mode/public/pcm-worklet.js:11-36 | blocks of one fixed length give, for all samples and any number of blocks, what one block gives if and only if no two neighbouring outputs jump over the end of a block from before its last sample to behind the next one |
| `ResamplerBlocks.CommonRatesLosePhase` | examples/voice-mode/public/pcm-worklet.js:32-34 | with blocks of 128 samples the output differs at 44.1 kHz and at 48 kHz |
| `ResamplerBlocks.OneSampleTooMany` | examples/voice-mode/public/pcm-worklet.js:32-34 | at 48 kHz two blocks of 128 samples give 86 samples, whatever they hold, and one block of both gives 85 |
| `Resampler.PcmCaptureProcessor.Process` | examples/voice-mode/public/pcm-worklet.js:11-36 | a block changes position and remainder and appends samples as the value-level block does; posted chunks hold 320 samples and with the partial one concatenate to all output |
| `Resampler.PcmCaptureProcessor.Push` | examples/voice-mode/public/pcm-worklet.js:20-29 | one sample into the chunk, which is posted when full |
| `MintRateLimiter.EveryWindowIsBounded` | examples/voice-mode/src/gateway.ts:84-93 | no half-open window of 60 000 ms holds more than the limit of a user's mints, wherever it starts |
| `MintRateLimiter.RecentIsCount` | examples/voice-mode/src/gateway.ts:61-70 | the times after the cutoff are the user's mints of the last 60 000 ms, the oldest instant excluded |
| `MintRateLimiter.MintRateLimiter.Allow` | examples/voice-mode/src/gateway.ts:84-93 | with a monotone clock, rate limited exactly when the full unpruned log holds the limit of the user's mints within the last 60 000 ms; out of capacity exactly when the user has none there and as many users as the cap are left by this request's pruning, which with at most 32 tracked users are exactly those with a mint in the window; tracked users never exceed the cap |
| `MintRateLimiter.MintRateLimiter.PruneSome` | examples/voice-mode/src/gateway.ts:71-82 | the loop whose cursor starts over ends, and prunes exactly the next 32 users in the order of the cursor, or all |
| `MintRateLimiter.MintRateLimiter.PruneUser` | examples/voice-mode/src/gateway.ts:61-70 | exactly the times still in the window are kept |
| `MintRateLimiter.MintRateLimiter.NextUser` | examples/voice-mode/src/gateway.ts:74-79 | a finished cursor starts over and then finds a user |
| `MintRateLimiter.PruningKeepsFaithful` | examples/voice-mode/src/gateway.ts:61-70 | pruned times answer every later window as the full log does |
| `MintRateLimiter.CreateVoiceMintRateLimiter` | examples/voice-mode/src/gateway.ts:44-57 | limits other than 1 to 1 000 mints and 1 to 10 000 users are refused |
| `LiveKeys.RestartFindsAKey` | examples/voice-mode/src/gateway.ts:74-79 | a restarted iterator over a map that is not empty stops at a key |
| `LiveKeys.PassedOrder` | examples/voice-mode/src/gateway.ts:72-82 | passing over a key, and perhaps removing it, leaves the others in their order around the cursor, so every tracked user has a turn |
| `PlayoutAck.VoiceClient.HandleAudio` | examples/voice-mode/public/voice-client.js:425-454 | a frame, whatever its sequence, is scheduled right behind the earlier ones and can be committed by its sequence |
| `PlayoutAck.VoiceClient.Ended` | examples/voice-mode/public/voice-client.js:442-451 | the end of a source acknowledges exactly the commits that wait for it, if the socket is open, and none for a cleared range; every accepted commit waits, has been acknowledged, or was lost |
| `PlayoutAck.VoiceClient.ScheduleCommit` | examples/voice-mode/public/voice-client.js:456-488 | a commit is accepted exactly when its name is new and not pending and all its sequences can be committed; they leave the index, the others stay, and it waits or is acknowledged; it is lost only if already played with no open socket |
| `PlayoutAck.VoiceClient.ClearPlayback` | examples/voice-mode/public/voice-client.js:490-505 | nothing received before the clear can be acknowledged after it; of the accepted commits exactly those that wait are lost |
| `PlayoutAck.VoiceClient.Close` | examples/voice-mode/public/voice-client.js:181-210 | closing forgets what was waiting |
| `PlayoutAck.VoiceClient.Connect` | examples/voice-mode/public/voice-client.js:104-112 | a new connection starts with a new clock and nothing left of the last one |
| `PlayoutAck.LastEndsLast` | examples/voice-mode/public/voice-client.js:436-438 | when the source of a range's last sequence has ended, so have all sources of the range that arrived before it |
| `PlayoutAck.LastDecidesIff` | examples/voice-mode/public/voice-client.js:442-488 | the end of the last sequence's frame implies the end of the whole range, however the frames lie in time, if and only if no frame of the range arrived after it |
| `PlayoutAck.EndingKeeps` | examples/voice-mode/public/voice-client.js:442-451 | acknowledged ranges have been played up to the frame of their last sequence and no commit message is acknowledged twice |
| `PlayoutAck.DueIsExactly` | examples/voice-mode/public/voice-client.js:442-451 | an acknowledgement for every commit that waits for the source, and for no other |
| `PlayoutAck.EndingForgetsNone` | examples/voice-mode/public/voice-client.js:442-451 | when a source ends, every accepted commit still waits, has been acknowledged, or is lost because no socket is open |
| `PlayoutAck.CommitKeeps` | examples/voice-mode/public/voice-client.js:456-488 | accepted ranges stay disjoint; an acknowledgement at once is for a range whose last sequence has been played and that no clear has touched |
| `PlayoutAck.HasRange` | examples/voice-mode/public/voice-client.js:468-477 | the size check refuses no range that is there |

## Left out

- SanitizeIsIdempotent: on a single tree only sufficient, since whether a captured container with containers of its own survives a second walk depends on how the cut markers fall; IdempotentIffSmallLimits is exact for the limits.
- CommitFindsItsEntry: the completed state is promised under a condition on the run; CompletedAtCommitIff gives the exact condition on the configuration.
- VoiceSessionStore.VoiceSessionStore.Prune: which slots a pass inspects depends on the cursor; stated is that only expired ones go.
- HMAC, SHA-256, UUIDs and timing-safe comparison: a digest is an uninterpreted function of its arguments, an id is a fresh value; that a token cannot be presented before it was disclosed is an assumption of `ReplayProtocol`.
- Clocks: readings are parameters; where a property needs a clock that does not run backwards the contract says so.
- HTTP, WebSocket, file and Redis clients: atomic steps, lost replies, failing writes and crashes. Request parsing, Twilio signatures and the XML around a published token are not part of this model; a response is its call id and expiry.
- Refused constructor options of the voice session store, which throw range errors: `Limits.Valid` states them.
- The matrix manifest's JSON, legacy records, error codes and record indexes; a file name stands for exactly the job it is derived from. The live-matrix variant follows the same protocol and is not modelled again.
- Redaction and the secret-key pattern: abstract functions; a path is taken to be secret exactly when one of its keys is, and the markers and the collapsed key are assumed not to be.
- Accessors, prototype chains, symbol keys and cycles in the tree walkers: values are trees, objects their fields in enumeration order. In the core serializer error summaries are off, and any value outside JSON is named by one given string.
- Error-shaped objects in the canonical printer; numbers are the literals that they print as, so that -0 and 0 are one number.
- JSON white space and escapes that the printer does not write: the reader does not accept all of JSON.
- Floating-point rounding: times, positions and samples are reals. `Int16` storage of a quantized sample is exact by its bounds.
- Handlers that throw in the startup buffer, error handlers attached after an error (they are called by a microtask), and the Twilio variant, whose flush empties the queue first and promises less.
- The startup buffer's blanking of delivered queue places, which only frees memory.
- The 64 MiB check on the whole stereo recording: no frame can pass it that passed the check on its own end, so it has no branch of its own.
- Sample values as numbers: the stereo writer moves the two bytes of each sample, which reading and writing a 16-bit number does.
- The field checks of `readPersistedError` around the sanitizer, the mint handler's HTTP side of superseding, the connection registry, and `StartPacer`.
- Microphone capture, hold-to-talk, heartbeats and the connection handshake of the browser client.
- Provider adapters, the voice pipeline, the storage back ends, smoke scripts, configuration, and the fixed tables of error codes and provider capabilities, which would add only independent finite checks.
