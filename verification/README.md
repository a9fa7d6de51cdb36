# Verified model of the preprocessing pipeline

This project models, in Dafny 4.11, the way from a long prompt to a finished job, together with the compression
of a conversation that has outgrown its context window, and proves properties of both.

- **Context compression.** `Compression.dfy` says on values what each stage does; `ContextCompress.dfy` runs the
  stages on message objects whose content is overwritten in place while a running token total is carried along, and
  is proved equal to it. `CompressionFacts.dfy`, `CompressionTheorems.dfy` and `CompressionStages.dfy` hold the
  properties, `CompressionPins.dfy` what becomes of pinned messages, `CompressionRequests.dfy` the summary request,
  `CompressionMirror.dfy` the Rust version of stage 1, and `CompressionReports.dfy` what a report tells. Every stage is a *plan* (a replacement or none for each message) carried out oldest first up to a
  *cut*, the first index at which the target is met.
- **Segmenter.** `Segmenter.dfy`: the recursive splitter, as loops proved against a recursive specification.
- **Dispatch.** `Dispatch.dfy` (one bundle, one operation), `DispatchStore.dfy` (the store, changed in place),
  `DispatchRuns.dfy` (any interleaving of workers), `LoopAuto.dfy` (the drain loop), `Plans.dfy` (from a split
  prompt to a stored bundle and back).
- **Queues.** `WorkQueue.dfy` (bounded evicting heap), `SqlQueue.dfy` (table with admission sequences),
  `Resequencing.dfy` (the migration's update statement, row by row) and `Settling.dfy` (the same, repeated).
- **Ledger.** `Ledger.dfy` (the log and its fold) and `LedgerRuns.dfy` (replay, retry budget, backoff).
- `Text.dfy`, `Sorting.dfy`, `Owners.dfy` and `Wrappers.dfy` are shared vocabulary.

The environment is a parameter everywhere: the summariser's reply, the importance score and the cold store (`World`
in `Compression.dfy`), the runner and both clocks (`World` in `LoopAuto.dfy`), checksums, and time stamps. Results
hold for every value of these parameters. Token counts and indices are unbounded integers; ratios, clocks and delays
are reals.

## What the code does where its prose says otherwise

- The head comment of `context_compress.py` says that pinned messages stay untouched. A pinned message comes back
  changed exactly when the run triggers, the pinned messages alone exceed the target, forgetting is enabled or nothing
  is unpinned, and some recent message other than the first user message weighs more than 512 tokens and has more than
  1834 characters (`PinnedRewrittenIff`; one such input in `PinnedCanBeRewritten`). Pinned messages outside the recent
  window and the first user message never change (`IntentAndPinsSurvive`).
- The same comment says that stages 2 to 4 can be switched off. Stage 4 has no switch: with both flags off it still acts
  on a conversation of pinned messages, under the same condition (`OnlyStageOneIff`).
- It also promises stage-1 output identical to that of the Rust mirror. The mirror has no length guard on truncation,
  and its `trim` keeps U+001C to U+001F, which `strip` removes. The two agree after every stage exactly when truncation
  reaches no unpinned heavy message of 1801 to 1834 characters and deduplication reaches none whose duplicates the two
  rules see differently (`BackendsAgreeIff`). A condition on the input alone under which everything agrees is
  `BackendsAgree`; `GapShows` and `SeparatorShows` are conversations on which the outputs differ, one for each cause. The
  digests can also erase a difference that truncation made (`DigestCanHideTheGap`). The outputs agree exactly when every
  message on whose text the first two stages differ is digested by both to the same excerpt and weight, or by one to the
  text of the other, and equal texts are digested by both or by none (`OutputsAgreeIff`).
- Deduplication can make a conversation heavier: the note that names a four-digit index weighs more than a text of
  40 to 43 ASCII characters. While the named indices stay below 1000 it never does, at any length (`RunNeverGrows`), so
  conversations that grow exist exactly from 1002 messages on, in the stage (`DedupGrowthIff`) and in a whole run without
  summariser text (`RunGrowthIff`).
- `over_target_pinned_only` never differs from `forced_over_target` (`ForcedFlagIff`).
- A summary request may describe messages that are no longer returned. That is so exactly when the summariser was asked
  and left the request behind, and afterwards either forgetting dropped a message (no reply, something unpinned,
  forgetting enabled) or stage 4 gained a token (everything pinned) (`RequestIsStaleIff`, `RequestCanBeStale`).
- `remaining` is conserved over every run exactly when no step of unknown status is the first with its id
  (`RemainingIsConservedIff`).
- The resequencing migration is said to keep the order. Its update counts in the table it is rewriting, so sequences
  1, 1, 1 become 1, 2, 2. The result is unique, and then equal to the ranks, exactly when for every row as many earlier
  rows have a rank up to its sequence as have a sequence up to its sequence (`UpdateSucceedsIff`). Otherwise the index is
  skipped; Python rolls the update back, the mirror keeps it, and then another row may be served next
  (`FailedMigrationMayReorder`).
- The migration is called one-shot, but every call opens the store and tries it again. In Python the first opening
  decides for good (`PythonRuns`). The mirror rewrites a table with duplicates at every opening, and has made it unique
  once it has opened it as often as there are rows (`MirrorSettles`).
- The splitter keeps all visible text of every prompt exactly when the window is at least one (`AlwaysLosslessIff`). A
  window of zero loses everything, and a negative one, which is counted from the end, at least the last character
  (`LosslessIff`).

## Model

| member | source | states |
|---|---|---|
| ContextCompress.Compress | src/cluxion_runtime/core/context_compress.py:59-191 | the in-place pipeline returns exactly the report specified on values, whose `tokens_after` is recomputed as the sum over the returned messages: the total carried through all stages is exact |
| ContextCompress.RunPipeline | src/cluxion_runtime/core/context_compress.py:100-191 | the same for a triggered run, from the pinned set and the initial total on |
| ContextCompress.StageTruncate | src/cluxion_runtime/core/context_compress.py:257-271 | oldest first, unpinned messages are truncated up to the first index at which the target is met, for any total handed in |
| ContextCompress.StageDedup | src/cluxion_runtime/core/context_compress.py:311-328 | each unpinned long-enough message before the cut whose trimmed text occurred earlier is replaced by a note naming the first occurrence |
| ContextCompress.StageDigest | src/cluxion_runtime/core/context_compress.py:331-347 | digests replace unpinned messages before the cut exactly when they are lighter |
| ContextCompress.TruncateRound | src/cluxion_runtime/core/context_compress.py:294-307 | one pass over the recent window without the intent, stopping at the target |
| ContextCompress.StageTruncatePinnedRecent | src/cluxion_runtime/core/context_compress.py:279-308 | the last-resort loop terminates (total text length decreases) and equals repeated rounds until the target is met or nothing changes |
| ContextCompress.CollectPinned | src/cluxion_runtime/core/context_compress.py:232-242 | the sorted pin list is strictly increasing and holds exactly the explicit pins, the first user message and the recent window |
| ContextCompress.WriteSummaries | src/cluxion_runtime/core/context_compress.py:133-140 | every unpinned message carries the last summary the reply gives for it, its old text when there is none; pinned and missing indices change nothing; the total follows exactly |
| ContextCompress.SummarisePhase | src/cluxion_runtime/core/context_compress.py:125-146 | stage 2: an answer is applied and clears the request, a missing answer keeps it |
| ContextCompress.HybridForget | src/cluxion_runtime/core/hybrid_forget.py:93-142 | the surviving objects, total, dropped indices and flags are those of the value-level specification |
| ContextCompress.DropLoop | src/cluxion_runtime/core/hybrid_forget.py:119-131 | messages go in importance order and no further than needed; the backup flag is set exactly when a valuable message lost its copy |
| ContextCompress.ForgetPhase | src/cluxion_runtime/core/context_compress.py:148-162 | stage 3 leaves an exact total and recomputed pins; a pinned-only report means no unpinned message is left |
| ContextCompress.FinishPhase | src/cluxion_runtime/core/context_compress.py:164-191 | stage 4 and the flags of the report |
| CompressionTheorems.CompressionOutcome | src/cluxion_runtime/core/context_compress.py:100-191 | a triggered run with forgetting meets the target, or everything left is pinned and nothing recent but the intent can be shortened (at most 512 tokens or 1834 characters) |
| CompressionTheorems.IntentAndPinsSurvive | src/cluxion_runtime/core/context_compress.py:100-191 | the output is an order-preserving selection that loses no pinned message; the intent and pins outside the recent window are unchanged |
| CompressionTheorems.ReportedPinsAreCurrent | src/cluxion_runtime/core/context_compress.py:103-162 | the pins a report lists are those of the messages it returns, with or without forgetting |
| CompressionReports.ReturnedTexts | src/cluxion_runtime/core/context_compress.py:103-162 | short of the last resort, each returned message says its own text when pinned, else the last summary of the reply for it when the summariser answered, else what the deterministic stages left |
| CompressionReports.StagesTellTheTruth | src/cluxion_runtime/core/context_compress.py:103-171 | the stages reported, in pipeline order, each exactly when it did something: changed texts, a repeated long text reached, an answer, missing messages, a rewritten pin |
| CompressionReports.LostFlagIff | src/cluxion_runtime/core/hybrid_forget.py:119-131 | `dropped_without_backup` holds exactly when a message that is not returned deserved a copy (16 characters or more, not one character repeated, no marker) and the store did not take its text |
| CompressionReports.PinnedMeans | src/cluxion_runtime/core/context_compress.py:232-242 | pinned: flagged, the first message of the user, or fewer than `keep_recent` messages behind it |
| CompressionReports.LimitsInTokens | src/cluxion_runtime/core/context_compress.py:85-95 | the run triggers from ratio times window on; the target is the largest whole number of tokens within its ratio |
| CompressionReports.QuietRun | src/cluxion_runtime/core/context_compress.py:85-98 | below the trigger the conversation is returned as it came, with no stage, request or flag |
| CompressionReports.DigestShows | src/cluxion_runtime/core/context_compress.py:340-341 | a digest shows role, first line up to 120 characters, and weight |
| CompressionPins.PinnedKeepEnds | src/cluxion_runtime/core/context_compress.py:279-308 | in a run that reaches the last resort every returned message is a pinned one, as it was or shorter with its first 1200 and last 600 characters |
| CompressionPins.PinnedRewrittenIff | src/cluxion_runtime/core/context_compress.py:148-171 | a pinned message of the input comes back changed exactly when the pinned messages alone exceed the target, forgetting is on or nothing is unpinned, and a recent message other than the intent is heavy and long |
| CompressionPins.PinnedCanBeRewritten | src/cluxion_runtime/core/context_compress.py:279-308 | one explicitly pinned message of 4000 letters that comes back changed |
| CompressionPins.PinnedDecide | src/cluxion_runtime/core/context_compress.py:125-171 | when the pinned messages alone exceed the target, the output is the last resort on exactly them, whatever summariser, scores and store do; otherwise a run with forgetting meets the target |
| CompressionPins.TargetMissedIff | src/cluxion_runtime/core/context_compress.py:125-171 | with forgetting, the target is missed exactly when the pinned messages alone, after the last resort, exceed it |
| CompressionFacts.ForgettingCommutesWithPinning | src/cluxion_runtime/core/context_compress.py:148-162 | recomputing pins after dropping unpinned messages gives exactly the old pins renumbered |
| CompressionFacts.ForgetTotalExact | src/cluxion_runtime/core/hybrid_forget.py:114-141 | the returned total is the sum over the survivors, so the clamp at zero never acts |
| CompressionFacts.ForgetFlagIff | src/cluxion_runtime/core/hybrid_forget.py:114-141 | the flag is set exactly when the survivors are over the target and all of them are pinned |
| CompressionTheorems.HeadTailGuard | src/cluxion_runtime/core/context_compress.py:245-254 | truncation is refused exactly at 512 tokens or less or 1834 characters or less |
| CompressionTheorems.HeadTailShrinks | src/cluxion_runtime/core/context_compress.py:245-254 | an accepted replacement keeps the first 1200 and last 600 characters, names the number of characters left out, is shorter and never heavier, for any mix of characters |
| CompressionMirror.TruncationRulesAgreeIff | rust/cluxion_queue/src/context.rs:193-219 | the two truncation rules answer alike unless the message is heavy and has 1801 to 1834 characters |
| CompressionMirror.TrimsAgreeIff | rust/cluxion_queue/src/context.rs:225 | `trim` leaves what `strip` leaves exactly when the trimmed text does not begin or end with U+001C to U+001F |
| CompressionMirror.BackendsAgreeIff | rust/cluxion_queue/src/context.rs:193-276 | over conversations: the messages agree after every stage exactly when truncation reaches no unpinned message in the gap and deduplication none whose duplicates are seen differently |
| CompressionMirror.OutputsAgreeIff | rust/cluxion_queue/src/context.rs:193-276 | over conversations: the final outputs agree exactly when every message that differs before the digests is digested by both to the same excerpt and weight, or by one to the other's text, and equal texts are digested alike |
| CompressionMirror.DigestsEqualIff | rust/cluxion_queue/src/context.rs:253-266 | two digests of messages of one role are equal exactly when excerpt and weight are |
| CompressionMirror.BackendsAgree | rust/cluxion_queue/src/context.rs:96-108 | without separators at the ends of trimmed texts and without unpinned heavy messages of 1801 to 1834 characters, stage 1 is identical at every target, stage names included |
| CompressionMirror.GapShows | rust/cluxion_queue/src/context.rs:205-216 | one message of 1810 accented letters and valid limits on which the returned messages differ |
| CompressionMirror.DigestCanHideTheGap | rust/cluxion_queue/src/context.rs:245-276 | a run with a message that truncation treats differently and the digests make equal again |
| CompressionMirror.SeparatorShows | rust/cluxion_queue/src/context.rs:224-242 | a run on a text and the same text followed by U+001C: a duplicate for Python, none for the mirror |
| CompressionMirror.OnlyStageOneIff | src/cluxion_runtime/core/context_compress.py:11-13 | with summariser and forgetting off, a triggered run is stage 1 alone unless all messages are pinned, exceed the target, and a recent one can be shortened |
| CompressionTheorems.LastResortEnds | src/cluxion_runtime/core/context_compress.py:279-308 | the last resort ends under the target or with nothing left to shorten |
| CompressionStages.DedupIsRecoverable | src/cluxion_runtime/core/context_compress.py:311-328 | the index in a note, read back, names an earlier untouched message with the same trimmed text |
| CompressionStages.DedupNeverGrows | src/cluxion_runtime/core/context_compress.py:311-328 | while every named index is below 1000 the stage never increases the total, at any length |
| CompressionStages.DedupGrowthIff | src/cluxion_runtime/core/context_compress.py:311-328 | with the pins the code computes, conversations of a given length never grow in the stage exactly when that length is at most 1001 |
| CompressionStages.RunNeverGrows | src/cluxion_runtime/core/context_compress.py:59-191 | without summariser text and with every named index below 1000, `tokens_after` is at most `tokens_before`, at any length |
| CompressionStages.RunGrowthIff | src/cluxion_runtime/core/context_compress.py:59-191 | without summariser text, all runs on conversations of a given length end no heavier exactly when that length is at most 1001; above, a concrete run ends one token heavier |
| CompressionStages.ForgettingDropsTheLeast | src/cluxion_runtime/core/hybrid_forget.py:106-131 | every dropped message precedes every kept unpinned one by (score, index); the last drop was needed; stopping early means the target is met |
| CompressionStages.RequestNamesTheHeaviest | src/cluxion_runtime/core/context_compress.py:350-364 | a request names the (at most eight) heaviest unpinned messages, ties by index |
| CompressionRequests.RequestIsStaleIff | src/cluxion_runtime/core/context_compress.py:125-178 | over the target a request is always present; it does not describe the returned messages exactly when the summariser was asked, left it behind, and forgetting or the last resort lowered the total since |
| CompressionRequests.RequestCanBeStale | src/cluxion_runtime/core/context_compress.py:125-162 | a two-message conversation whose run returns a stale request |
| CompressionRequests.LastResortLightensIff | src/cluxion_runtime/core/context_compress.py:279-308 | entered over the target, stage 4 lowers the total exactly when truncating some recent message other than the intent gains a token |
| CompressionStages.ForcedFlagIff | src/cluxion_runtime/core/context_compress.py:164-191 | `forced_over_target` holds exactly when the run triggers and the input's first user message alone exceeds the target; the other flag equals it |
| Text.SplicingShrinks | src/cluxion_runtime/core/preprocess.py:173-177 | replacing a stretch by a shorter ASCII one never raises the estimate |
| Segmenter.CollectSegmentRanges | src/cluxion_runtime/core/preprocess.py:374-390 | for any window, negative ones included, the recursive loop terminates and equals the specification, in at most n/(w/2+1)+1 rounds per level (n+1 for windows below one) |
| Segmenter.CollectChunk | src/cluxion_runtime/core/preprocess.py:380-388 | a blank chunk gives nothing; one within the token limit, or with a window of at most 1024, gives exactly its stripped text at its offsets; any other is cut again with half the window |
| Segmenter.LightTextHasFewSegments | src/cluxion_runtime/core/preprocess.py:374-390 | a text whose chunks are within the token limit is cut at consecutive boundaries and nowhere else, into at most n/(w/2+1)+1 segments |
| Segmenter.DefaultLimitsExample | src/cluxion_runtime/core/preprocess.py:374-390 | 100,000 letters with the default limits give two segments of 18,000 and 7,000 tokens |
| Segmenter.FindBoundary | src/cluxion_runtime/core/preprocess.py:393-401 | the cut lies within the window and past its middle unless the text ends there |
| Segmenter.BoundaryIsNatural | src/cluxion_runtime/core/preprocess.py:393-401 | short of the end a chunk ends after the last late occurrence of the highest-ranked marker that has one, and at the full window exactly when none has |
| Segmenter.SplitIsLossless | src/cluxion_runtime/core/preprocess.py:367-390 | ordered disjoint ranges, content equal to the text at its own offsets, every visible character in exactly one segment |
| Segmenter.LosslessIff | src/cluxion_runtime/core/preprocess.py:374-401 | a window of at least one loses nothing visible, a window of zero everything; a text that ends visibly is kept exactly by windows of at least one, over all integers |
| Segmenter.AlwaysLosslessIff | src/cluxion_runtime/core/preprocess.py:374-401 | the splitter loses nothing of any text exactly when the window is at least one |
| Segmenter.SegmentsFitTheBudget | src/cluxion_runtime/core/preprocess.py:374-388 | for windows of zero and more, segments never exceed the window; one over the token limit has at most 1024 characters; by default all fit 32,000 tokens |
| Segmenter.FitWindowIff | src/cluxion_runtime/core/preprocess.py:374-401 | segments of every text stay within the window exactly when it is not negative |
| Segmenter.SegmentIdsDiffer | src/cluxion_runtime/core/preprocess.py:367-371 | zero-padded segment ids are injective |
| Plans.PlanIsReadyToDrain | src/cluxion_runtime/core/dispatch_store.py:252-266 | a plan's steps have unique non-empty ids, are all queued, all remain, and hold the text and checksum of their segments |
| Plans.PromptSurvivesDispatch | src/cluxion_runtime/core/dispatch_store.py:369-380 | after any run of the protocol the stored steps still partition the visible characters of the prompt |
| DispatchStore.Store.Persist | src/cluxion_runtime/core/dispatch_store.py:335-366 | writes only when nothing is stored; otherwise decides between idempotent, owner conflict and conflict |
| DispatchStore.Store.Next | src/cluxion_runtime/core/dispatch_store.py:137-163 | claims the first claimable step, changes nothing else |
| DispatchStore.Store.Record | src/cluxion_runtime/core/dispatch_store.py:166-228 | the whole new store and reply: stored, acknowledged, refused, or not found |
| DispatchStore.Store.BuildBriefing | src/cluxion_runtime/core/dispatch_store.py:231-249 | the missing ids, or all results in stored order |
| Dispatch.BriefingShows | src/cluxion_runtime/core/dispatch_store.py:231-249 | a ready briefing holds each step's ids, checksum and recorded result in stored order; one that is not lists exactly the ids of the steps that have not succeeded, in stored order |
| Dispatch.ClaimHandsOut | src/cluxion_runtime/core/dispatch_store.py:137-163 | a claim hands out the first step that is queued, parked or running for more than 600 s, with its ids, checksum and text, and only marks it running; without one it tells whether all succeeded |
| Dispatch.RecordStores | src/cluxion_runtime/core/dispatch_store.py:186-228 | a report is stored on the first step with its id unless that is terminal: status, result, error and time; nothing else changes |
| Dispatch.RemainingIsCount | src/cluxion_runtime/core/dispatch_store.py:431-432 | the remaining count is the number of queued, running and parked steps |
| Dispatch.ClaimIndex | src/cluxion_runtime/core/dispatch_store.py:142-146 | the least index that is queued, parked or expired |
| Dispatch.StepIndex | src/cluxion_runtime/core/dispatch_store.py:186-187 | the least index with the given id |
| Dispatch.Brief | src/cluxion_runtime/core/dispatch_store.py:231-249 | ready exactly when every step succeeded |
| DispatchRuns.LeaseIsExclusive | src/cluxion_runtime/core/dispatch_store.py:137-156 | two claims of a step have a `retry_wait` record between them or are more than 600 s apart, for every interleaving, although `now` is read before the lock |
| DispatchRuns.ClaimableStepIsServed | src/cluxion_runtime/core/dispatch_store.py:137-156 | a step that is queued, parked or past its lease is passed over by at most as many claims as steps precede it, as long as no earlier step is released and no lease given meanwhile expires |
| DispatchRuns.StoredBundleIsStable | src/cluxion_runtime/core/dispatch_store.py:166-228 | owner, version and the step identity sequence never change; terminal status, result and error are frozen |
| DispatchRuns.WrittenOnce | src/cluxion_runtime/core/dispatch_store.py:335-366 | over any run of persists and other operations a bundle is written exactly once if it comes to be stored, and never when it was |
| DispatchRuns.SettledOnce | src/cluxion_runtime/core/dispatch_store.py:186-227 | in any run each step takes at most one terminal record |
| DispatchRuns.RecordingIsIdempotent | src/cluxion_runtime/core/dispatch_store.py:189-215 | after a terminal record every further report changes nothing and is acknowledged exactly when it repeats it |
| DispatchRuns.RemainingIsConservedIff | src/cluxion_runtime/core/dispatch_store.py:431-432 | remaining plus terminal records is constant over every run exactly when no step of unknown status is the first with its id |
| DispatchRuns.BriefingIsFinal | src/cluxion_runtime/core/dispatch_store.py:231-249 | a ready briefing stays the same over every later run |
| DispatchRuns.BriefingShowsTheReports | src/cluxion_runtime/core/dispatch_store.py:186-249 | over any run, a ready briefing shows for every step the result of the report that settled it |
| LoopAuto.RunLoopAuto | src/cluxion_runtime/core/loop_auto.py:159-345 | terminates; bounded runner calls; a failed preflight calls nothing and changes nothing; changes the store only through protocol operations; ok implies all succeeded; no-progress is unreachable; processed equals the growth in succeeded steps; no step is left running but at the cap; a crash parks its step, or leaves it to the lease when it has no id; a favourable run completes. Every step is as it was or carries the text of a completing call, except the one the run ended on: the last output and reason of a failed one, the exception of a crashed one. The briefing is the last call's text; a missing briefing means some step has not succeeded, a failed one that all have; records fit the steps and account for every call; a clock past the deadline at its second reading leaves the store untouched |
| LoopAuto.RunSegment | src/cluxion_runtime/core/loop_auto.py:219-239 | at most `max_segment_retries + 1` calls; done exactly on a completing call, with its text; given up only when retries or time are used up, with the last output and the last reason; no call follows a reading at or past the deadline |
| LoopAuto.WorkOn | src/cluxion_runtime/core/loop_auto.py:241-285 | the store changes exactly by the report of the segment's outcome, a crash included |
| LoopAuto.Round | src/cluxion_runtime/core/loop_auto.py:185-285 | one pass keeps the loop state, leaves the loop, or ends the run with the guarantee; it leaves exactly when time is up or no step is available |
| LoopAuto.Conclude | src/cluxion_runtime/core/loop_auto.py:287-324 | the briefing phase ends the run with the guarantee |
| LoopAuto.ClaimIsProgress | src/cluxion_runtime/core/loop_auto.py:380-389 | with unique ids a claimed step never repeats the previous signature |
| WorkQueue.HeapPush | src/cluxion_runtime/core/work_queue.py:44 | heap order and contents after a push |
| WorkQueue.HeapPop | src/cluxion_runtime/core/work_queue.py:59 | the least entry comes off and a heap of the rest remains |
| WorkQueue.Heapify | src/cluxion_runtime/core/work_queue.py:52 | any list becomes a heap with the same contents |
| WorkQueue.AgentWorkQueue.Enqueue | src/cluxion_runtime/core/work_queue.py:39-53 | admits, refuses, or evicts the worst entry for a strictly better one; size stays within bounds |
| WorkQueue.AnswerTells | src/cluxion_runtime/core/work_queue.py:39-53 | the admission names what happened: room, nothing less urgent to evict, or the id of the last entry in line, which had strictly lower priority |
| WorkQueue.AgentWorkQueue.Dequeue | src/cluxion_runtime/core/work_queue.py:55-59 | hands out the least entry and keeps the rest |
| WorkQueue.AgentWorkQueue.PeekOrder | src/cluxion_runtime/core/work_queue.py:61-63 | the ids in exactly the order in which dequeuing will hand them out |
| WorkQueue.AgentWorkQueue.WorstIndex | src/cluxion_runtime/core/work_queue.py:69-70 | an index of the lexicographically greatest entry |
| WorkQueue.QueueHoldsTheBest | src/cluxion_runtime/core/work_queue.py:39-53 | after any run of enqueues the queue holds exactly the `max_size` least entries ever offered |
| WorkQueue.DrainedRunIsTheBest | src/cluxion_runtime/core/work_queue.py:39-63 | draining then returns them in strictly increasing order |
| SqlQueue.Queue.OpenStore | src/cluxion_runtime/resources/py_queue.py:152-191 | what opening leaves of the table in either backend, and whether the unique index is there afterwards |
| SqlQueue.Queue.Enqueue | src/cluxion_runtime/resources/py_queue.py:287-359 | a well-formed request opens the store and runs one transaction; the new table and the reply, refusals included |
| SqlQueue.Queue.Dequeue | src/cluxion_runtime/resources/py_queue.py:362-391 | opens the store, then serves and marks the first pending row |
| SqlQueue.Queue.Resequence | src/cluxion_runtime/resources/py_queue.py:209-217 | the update loop, in rowid order over the live table, leaves what `Updated` says |
| SqlQueue.Queue.EnsureUniqueSequences | src/cluxion_runtime/resources/py_queue.py:194-219 | the index is built exactly when sequences are unique already or no rank overtakes a sequence; then the ranks are stored, otherwise the table is as before |
| SqlQueue.Queue.EnsureUniqueSequencesMirror | rust/cluxion_queue/src/queue.rs:206-230 | the same condition, but a failed migration keeps the rewritten sequences |
| SqlQueue.DequeueServesTheFirst | src/cluxion_runtime/resources/py_queue.py:366-375 | in the transaction: no other pending row precedes the served one by (priority, sequence), and only it changes |
| SqlQueue.EnqueueTouchesOneRow | rust/cluxion_queue/src/queue.rs:360-430 | in the transaction: accepted exactly when complete, validly owned, and new or stored for the same owner; a refusal changes nothing; an accepted row carries prompt, surface, priority and metadata of the request; a requeue keeps its sequence; a new row's sequence exceeds all others, and is n+1 when they were 1..n |
| SqlQueue.RefusalTells | rust/cluxion_queue/src/queue.rs:360-430 | each refusal names its reason, both directions: a missing field, an owner that does not parse in the request or the stored row, or a stored owner that differs |
| SqlQueue.RowsCarryTheLast | src/cluxion_runtime/resources/py_queue.py:334-349 | over any run every row carries the last accepted request for its id, or what it was stored with |
| SqlQueue.ServedAsRequested | src/cluxion_runtime/resources/py_queue.py:362-391 | so does the row a dequeue serves |
| SqlQueue.RunsKeepRows | src/cluxion_runtime/resources/py_queue.py:287-391 | over any interleaving of openings by either backend and transactions, ids stay unique and rows keep id and owner |
| SqlQueue.UniqueRunsKeepSequences | src/cluxion_runtime/resources/py_queue.py:194-391 | from unique sequences: rows keep theirs, new rows exceed all before them, and all stay unique, whoever opens the store |
| SqlQueue.PythonRuns | src/cluxion_runtime/resources/py_queue.py:194-391 | Python's calls from any table: sequences are unique afterwards exactly when they were or no rank overtakes one; in the second case the first opening stores the ranks, otherwise rows keep their sequences; new rows exceed all before them |
| SqlQueue.MirrorSettles | rust/cluxion_queue/src/queue.rs:206-230 | once the mirror has opened the store as often as there are rows, sequences are unique, over any interleaving |
| SqlQueue.RunsStayDense | src/cluxion_runtime/resources/py_queue.py:194-391 | from sequences 1..n, over any run the rows carry exactly 1..n of the new count and keep their sequences, whatever the stored owners |
| SqlQueue.HandedOutAtMostAccepted | src/cluxion_runtime/resources/py_queue.py:194-391 | over any run of openings and transactions from any store, an id is handed out at most as often as it was accepted, once more if it was pending at the start |
| Resequencing.RankOrder | src/cluxion_runtime/resources/py_queue.py:212-215 | the formula on a fixed table: ranks lie in 1..n and order rows exactly as (sequence, rowid) did |
| Resequencing.UpdateSucceedsIff | src/cluxion_runtime/resources/py_queue.py:209-217 | the row-by-row update leaves distinct sequences exactly when it computes the ranks, and exactly when for every row as many earlier rows have a rank as have a sequence up to its sequence |
| Resequencing.TiesStayTied | src/cluxion_runtime/resources/py_queue.py:209-217 | 1, 1, 1 become 1, 2, 2 |
| Resequencing.AppendKeepsFailure | src/cluxion_runtime/resources/py_queue.py:194-219 | a table whose migration fails still fails it with a new row on top |
| Settling.SettlesWithinN | rust/cluxion_queue/src/queue.rs:214-229 | the update kept and repeated at every opening makes n rows distinct by opening number n at the latest |
| Settling.BoundIsTight | rust/cluxion_queue/src/queue.rs:214-229 | 10, 3, 3 needs all three openings |
| SqlQueue.MigrationKeepsOrder | src/cluxion_runtime/resources/py_queue.py:209-217 | the migration succeeds exactly when no rank overtakes a sequence, and then is a bijection onto 1..n that keeps the queue order and the row served next |
| SqlQueue.FailedMigrationMayReorder | rust/cluxion_queue/src/queue.rs:214-229 | a migration that fails and is kept can change which row is served next |
| Owners.OwnerOfObject | src/cluxion_runtime/core/ledger.py:75-98 | ownerless exactly when no reserved key is present, owned exactly when all three are valid |
| Ledger.DurableWorkLedger.LatestUnlocked | src/cluxion_runtime/core/ledger.py:208-222 | the loop computes the fold |
| Ledger.DurableWorkLedger.RecordEnqueued | src/cluxion_runtime/core/ledger.py:116-133 | appends a queued event or refuses an invalid or conflicting owner |
| Ledger.DurableWorkLedger.RecordStarted | src/cluxion_runtime/core/ledger.py:135-148 | appends a running event with one more attempt |
| Ledger.DurableWorkLedger.RecordFinished | src/cluxion_runtime/core/ledger.py:150-162 | appends a success event |
| Ledger.DurableWorkLedger.RecordFailed | src/cluxion_runtime/core/ledger.py:164-191 | appends a retry or death event and returns the decision |
| Ledger.DurableWorkLedger.ReadyToRetry | src/cluxion_runtime/core/ledger.py:198-206 | exactly the due entries, each once, in (priority, work id) order |
| Ledger.LexMeans | src/cluxion_runtime/core/ledger.py:204-206 | the id order of due entries: a prefix first, else the smaller code point at the first difference |
| LedgerRuns.ReplayIsFaithful | src/cluxion_runtime/core/ledger.py:116-222 | all events of an id share one valid owner; attempt counts starts since the last enqueue |
| LedgerRuns.EntriesTellTheLastOperation | src/cluxion_runtime/core/ledger.py:116-222 | over any run the latest entry of an id tells the last accepted operation on it: status, reason, retry time, item and counters |
| LedgerRuns.EnqueueRespectsOwners | src/cluxion_runtime/core/ledger.py:116-133 | after any run an enqueue is refused exactly when its owner is invalid or differs from that of the id's earlier events |
| LedgerRuns.FailureObeysTheBudget | src/cluxion_runtime/core/ledger.py:164-191 | over any interleaving a retryable failure parks work below its budget and kills it otherwise |
| LedgerRuns.DeadExactlyAtTheBudget | src/cluxion_runtime/core/ledger.py:164-191 | in a start-and-fail run the work is dead exactly from failure number `max_attempts` on, and failure k waits base*2^(k-1) |
| LedgerRuns.BackoffSum | src/cluxion_runtime/core/ledger.py:164-191 | over a start-and-fail run the retry times logged wait in sum base*(2^k-1) after k failures, and base*(2^(max_attempts-1)-1) from the last allowed one on |

## Left out

- File modes, symbolic links, temporary files, fsync, SQLite journaling and busy retries; each locked section or transaction is one atomic step.
- Locking is assumed to work: platforms without `fcntl` are not part of this model.
- JSON text. Bundles, metadata and events are parsed values; undecodable stored metadata is a case of the model, other undecodable input is not.
- SHA-256 (checksums are an arbitrary function), UUIDs, subprocesses, and the guard that edits summaries: the summariser's reply is arbitrary.
- Floating point: limits, ratios, clocks, scores and delays are reals, so rounding at the trigger and the target is not modelled.
- The formula of the importance score: it is an arbitrary function of index, message and count.
- Reading the compression payload (defaults, model table): ratios and the window enter with the bounds the readers guarantee.
- `usage_before`, `usage_after` and `compressed`, which are computed from reported fields.
- Validation of work ids as file names; the environment variables that choose the store directory.
- Prompt texts and markers of the drain loop: the runner's outcome already says whether the segment is complete; error texts of results and durations are not kept.
- LoopAuto.RunLoopAuto: the runner does not touch the store, and store failures other than a missing bundle are not modelled.
- The preflight checks of the drain loop (timeout value, runner binary, writable store) are one boolean option.
- Segmenter.LosslessIff: which texts that end in whitespace a negative window keeps is not worked out.
- WorkQueue.HeapPop: `heapq` is a library; its sift order is modelled by a textbook heap with the same contract.
- SqlQueue.Queue.Enqueue: transient lock errors and the retries they cause are not modelled; the created and updated columns are not kept.
- SqlQueue.Queue.Resequence: SQLite is taken to rewrite the rows in rowid order, each count seeing the rows written before.
- SqlQueue.Admitted: an empty surface becomes `api`, as in Python; the mirror keeps it empty.
- DispatchRuns.BriefingIsFinal: the mirror leaves steps without a string id out of the missing ones; every step of the model has one.
- `peek` and `status` of the SQL queue: to the table they are openings; what they report is not modelled.
- SqlQueue.FailedMigrationMayReorder: one table; which kept failures preserve the queue order is open.
- Guard sampling, browser bridge, doctor, configuration patching, command line and keyword-based intent: plumbing or single-branch rules.
