# Chora: a verified model

Chora runs a coding agent as a child process against a Task, records everything in a transactional
store, reviews the resulting patches and applies them to repositories. This project models the parts
of `internal/app` (and one of `internal/acceptanceauthority`) that have to survive crashes, races and
untrusted text, and proves what they are for. `dafny verify dfyconfig.toml` checks all of it.

| module | what it models |
|---|---|
| `Common` | `Option` and `Result` |
| `Lifecycle`, `RunLaunch`, `RunLaunchSafety`, `RunLaunchOutcomes`, `RunLaunchParent` | the launch, stop, exit, recovery, retry and parent-stop protocol of one Run, as a step relation with a crash between any two steps; what it keeps, and what each stop, exit and recovery ends in |
| `ApplyJournal`, `ApplyService` | the multi-repository apply journal and result closure: the rules as a relation on worlds, the two commands as methods of a class that append only what the rules allow |
| `PatchModel`, `PatchHeaders`, `PatchParser`, `PatchPrinting` | the unified-patch parser, its grammar, and printing files with their metadata and markers |
| `DiffProjection`, `LegacyProjection`, `DisplayPrinting` | display hunks derived from an edit script, the rewrite of legacy whole-file patches, and the display as a patch of its own |
| `ReviewEvidence` | command evidence and checks as an exact cover of the contract |
| `ResourceAuthority`, `ResourceSelection`, `SelectionMeaning`, `ResourceChecks`, `ResourceTruth`, `ResourceNonInterference` | checks derived from an event stream, what selections and results mean, and what the agent can influence |
| `StreamDrain`, `StreamSignals` | exactly-once stream consumption, and the notifications that drive it |
| `KeyedLocks` | reference-counted locks by key, under any interleaving of any number of threads |
| `AutomaticRetry` | the retry budget, its writers, and the board's reading of it |
| `FaultConsumption` | at-most-once directives under crashes and power loss |
| `BoardDelivery`, `BoardCard`, `BoardMeaning`, `BoardPaging` | the board of Tasks: repository states, cards and what each of them says, cursors |

## Assumptions

- Store transactions are atomic and write transactions are serialised; compare-and-swap writes compare
  what they say they compare (`internal/store/sqlite/runtime.go:393-412`).
- The supervisor is truthful: it reports "no child" or "dead" only when that is so. Recovery at startup
  precedes every command.
- A patch target reports the digest of its current content, writes only onto the content it inspected,
  and leaves the target alone when it reports a conflict.
- The edit script of the diff algorithm has the two texts as its two sides (`LegacyProjection.Honest`).
  Nothing else of the algorithm is used; the context ranges are modelled and proved.
- Checks and command evidence exist only as their constructors make them: a check is trusted and cites
  evidence, each id once (`internal/domain/verification.go:309-323`), and command evidence is bound to criteria, to each once
  (`internal/domain/verification.go:475-496`). Only what is said to need this uses it (`ReviewEvidence.Constructed`, `ReviewEvidence.BoundOnce`).
- A closed repository has no delivery operation but cleanups in writing or recovery: closing refuses while there
  is one, and later deliveries of a closed entry are refused (`internal/app/result_closure.go:280-283`, `internal/app/task_delivery.go:333`).
  Only `BoardDelivery.DispositionMeans`, `BoardDelivery.OrderDecidesStatusOnly` and `BoardCard.OutcomeDetermined` use it.
- Commands of one Run take turns: each holds the Run's lock, in particular applying and closing a result.
- Digests are injective (`ResourceAuthority.Injective`). UTF-8 validity, field splitting, the writable
  scope, command normalisation, decoding of JSON bodies and of the selection block, and the projection of
  one protocol line are parameters.
- Closure, charter, profile and authorisation guards that only refuse more commands are left out of the
  launch protocol, so that its theorems hold for every outcome of those guards.

## What the proofs brought to light

- A crash between marking a session stopped (`internal/app/stops.go:380-406`) and the last stop transaction
  (`internal/app/stops.go:289-356`) leaves the Attempt in a live state. Recovery does not move it, and the
  index on live Attempts (`migrations/0001_operational.sql:60`) then refuses every later start: a retry is prepared but can
  never run (`RunLaunchParent.InterruptedStopStrandsRun`).
- A delegation cannot leave "stopping" for "running" (`internal/domain/delegation.go:61-79`), so a parent stop is permanent;
  but a launch whose session was recorded before the stop may still produce a child after it
  (`RunLaunchParent.ChildMayBeBornAfterStop`).
- A "partial" apply status hides an interrupted write (`ApplyService.ProjectionMeaning`).
- The display of an accepted patch is a patch again, and that patch is shown in just the same way
  (`DisplayPrinting.ShownReadsBack`).
- The patch parser ignores conversion errors, so a range beyond the machine integer is clamped and line
  numbers wrap around (`PatchPrinting.LineNumbersMayWrap`); exactly when is `PatchPrinting.LineNumbersExact`.
- The retry after verification or review is the one preparation that does not look at the predecessor's
  session (`internal/app/verified_retry.go:71-81`). It need not: a submitted output is only ever recorded together with
  a finalised session of a dead child (`RunLaunchSafety.VerifiedRetryIsSafe`).
- The count of a lock entry is its holders, its waiters and the threads between unlocking and counting
  down. Deadlock freedom needs distinct keys and the process mutex, but not the sorting.
- The board ranges over a map whose order decides the status shown for an open repository whose unfinished
  operations failed in different ways (`BoardDelivery.OrderMatters`). It decides nothing else: column, outcome and
  attention are the same in every order, because closing waits for pending operations (`BoardCard.OutcomeDetermined`).
- The board folds only the last eight control events. That is enough for every log the writers leave, the
  unmarked first preparation included (`AutomaticRetry.WindowIsEnough`). `AutomaticRetry.WindowMayForget` shows a log no writer leaves
  and says only that this discipline is needed. The two readings of the budget differ for a Run past its agent
  work that was blocked (`AutomaticRetry.BoardAgrees` says exactly when).

## Model

| member | source | states |
|---|---|---|
| `RunLaunchSafety.StepPreserves` | internal/app/runs.go:443-503 | every transaction, supervisor call, child death and crash of the protocol keeps the launch invariant |
| `RunLaunchSafety.PreparePreserves` | internal/app/runs.go:156-162 | all five preparations keep the invariant: a successor is prepared only over an Attempt without a session or with one finalised for retry, whether the command checks that or not |
| `RunLaunchSafety.OutcomePreserves` | internal/app/runs.go:728-842 | recording any start outcome keeps session, Attempt and child consistent |
| `RunLaunchSafety.FinishStopPreserves` | internal/app/stops.go:289-356 | the final stop transaction keeps the invariant, confirmed or uncertain; what it ends in is `RunLaunchOutcomes.StopEnds` |
| `RunLaunchSafety.ExitPreserves` | internal/app/streams.go:829-869 | a terminal exit finalises a session only after the child was proven dead |
| `RunLaunchSafety.RecoveryPreserves` | internal/app/recovery.go:57-195 | restart reconciliation keeps the invariant |
| `RunLaunchSafety.ReachableConsistent` | internal/app/runs.go:346-619 | the invariant holds in every state of every execution |
| `RunLaunchSafety.LaunchSafety` | internal/app/runs.go:324-332 | in every reachable state at most one child is alive, every earlier Attempt never had a session or has a finalised one with no live child, and an Attempt without a session was never launched |
| `RunLaunchSafety.VerifiedRetryIsSafe` | internal/app/verified_retry.go:71-151 | the retry after verification or review, which checks no session, only ever succeeds an Attempt whose session is finalised and whose child is gone |
| `RunLaunchOutcomes.StopEnds` | internal/app/stops.go:289-356 | in every execution: a confirmed cancellation ends with Run cancelled and Attempt withdrawn, a confirmed stop for revision or handoff with revision required and the Attempt interrupted, an uncertain one with recovery required and the session lost; nothing else changes |
| `RunLaunchOutcomes.StopComesFromRequest` | internal/app/stops.go:80-180 | every stop under way was set off by exactly one request to a running Run, whose intent and retry permission are the ones recorded |
| `RunLaunchOutcomes.CancellationStands` | internal/app/stops.go:301-313 | from the step that confirms a cancellation on, the Run is cancelled and that Attempt withdrawn until a preparation goes through; once idle one can if and only if the request allowed a retry, and without permission none ever does |
| `RunLaunchOutcomes.InactiveCancellationStands` | internal/app/stops.go:80-180 | a Run that does not work is cancelled at once, with no child alive and its Attempts untouched, and the same holds from there on |
| `RunLaunchOutcomes.ProvenStopGoesThrough` | internal/app/stops.go:289-356 | nothing refuses a requested stop once the child is proven stopped: it ends cancelled or in revision as its intent says, with no live child |
| `RunLaunchOutcomes.UnprovenStopGoesThrough` | internal/app/stops.go:315-356 | a stop the supervisor cannot prove ends uncertain and leaves the children alone |
| `RunLaunchOutcomes.StartEnds` | internal/app/runs.go:728-842 | what is recorded of a start: a running process under a live Attempt, a proven absence with a failed one, or an open question with the session lost |
| `RunLaunchOutcomes.StartGoesThrough` | internal/app/runs.go:728-842 | every answer of the supervisor to a start can be recorded |
| `RunLaunchOutcomes.ExitEnds` | internal/app/streams.go:829-869 | an exit finalises the session of the current Attempt: a failed one awaits recovery, a submitted one goes where the report says |
| `RunLaunchOutcomes.RecoveryEnds` | internal/app/recovery.go:57-195 | a recovery run to its end leaves an interrupted Attempt with a final session, no live child, and recovery required |
| `RunLaunchOutcomes.RunsMoveAsRecorded` | internal/app/runs.go:346-619 | in every execution a Run enters each of its states only by the actions that stand for that state, from the states they start from |
| `RunLaunchOutcomes.RunAndAttemptAgree` | internal/app/runs.go:324-332 | in every reachable state the state of the Run says how its current Attempt and its session stand |
| `RunLaunchOutcomes.OnlyWorkingRunsHaveChildren` | internal/app/runs.go:324-332 | only a Run that works, is being stopped or awaits recovery can have a live child |
| `RunLaunchParent.NoSessionAfterParentStop` | internal/app/runs.go:387-410 | from the transaction that stops the parent on, no child Run gains a session, and every child process seen later belongs to a session from before |
| `RunLaunchParent.CancelUnstartedIsFinal` | internal/app/delegation.go:449-538 | the unstarted-run path cancels only when no child is alive, and the Run stays cancelled for ever |
| `RunLaunchParent.ChildMayBeBornAfterStop` | internal/app/runs.go:604-618 | witness: a launch already recorded when the parent stops may still produce its child |
| `RunLaunchParent.RetryStartsIffNoLiveAttempt` | internal/app/runs.go:443-503 | a prepared retry can start if and only if no earlier Attempt was left in a live state |
| `RunLaunchParent.StaleLiveAttemptIsPermanent` | internal/app/recovery.go:109-127 | no step ever moves a superseded Attempt out of a live state |
| `RunLaunchParent.InterruptedStopStrandsRun` | internal/app/stops.go:380-406 | witness: after a crash inside a stop, and recovery run to its end, the Run is prepared again but can never start |
| `ApplyJournal.ChangePreserves` | internal/app/resource_apply.go:228-243 | every edit, inspection, journal entry, write and closing keeps the journal invariant |
| `ApplyJournal.JournalExplainsPrefix` | internal/app/resource_apply.go:307-337 | over all histories with failures and crashes: applied repositories are a prefix, at most one is writing or uncertain and it is the next, its entry carries the digest from before the write, and nothing apply modified is unmarked |
| `ApplyJournal.WriteNeedsFullPreflight` | internal/app/resource_apply.go:244-311 | over all histories: whenever a target is written, the same call marked it before, and at that moment every repository still to be written had passed preflight in that call and this one was the first of them |
| `ApplyJournal.AppliedIsAbsorbing` | internal/store/sqlite/resource_apply.go:70-100 | an applied entry never changes and sequence numbers only grow |
| `ApplyJournal.ClosureSplitsExactly` | internal/app/result_closure.go:320-340 | from closing on, for ever: a repository is closed exactly when it is neither committed nor applied, and no write is left interrupted |
| `ApplyJournal.ClosureFreezesApply` | internal/app/result_closure.go:382-391 | after closing no call gets past its first check: no entry is appended, nothing is passed or written, and only people change repositories |
| `ApplyService.ProjectStatus` | internal/app/resource_apply.go:49-83 | the status loop computes the projection |
| `ApplyService.ProjectionMeaning` | internal/app/resource_apply.go:49-83 | what each of the five statuses means in every sound world: applied exactly when all entries are, partial exactly when some changed repository is applied and not all are, even over an interrupted write, and recovery, conflict and pending exactly by the entries there are |
| `ApplyService.CourseDecides` | internal/app/resource_apply.go:244-337 | given what the target answered in a call, all entries are applied if and only if no inspection hindered and no write was unproven, every entry left uncertain or in conflict was caused by such an answer and every such answer leaves one, and none is left writing |
| `ApplyService.ResultApply.Judge` | internal/app/resource_apply.go:262-303 | one inspection blocks if and only if it failed, or was not applicable, or found an interrupted write with other content than recorded and not recognised as complete; the entry says which |
| `ApplyService.ResultApply.PreflightOne` | internal/app/resource_apply.go:244-303 | a repository already applied or unchanged is not inspected; any other is judged by just what the target answered |
| `ApplyService.ResultApply.PreflightAll` | internal/app/resource_apply.go:244-306 | the preflight loop blocks if and only if one of its inspections does, concludes every entry from its own inspection, and otherwise clears every repository in this call |
| `ApplyService.ResultApply.WriteAll` | internal/app/resource_apply.go:307-337 | the write loop marks, writes and settles in order up to the first unproven write, settles each entry by the answer to its own write, and ends with every entry applied or with the reason it stopped, never with one left writing |
| `ApplyService.ResultApply.ApplyResourceResult` | internal/app/resource_apply.go:124-355 | each refusal exactly under its guard and without effect; otherwise, unless a fault occurred, the outcome is explained by the answers of the target in this call: everything is applied if and only if none of them hindered; the history grows only by allowed changes, and the Task is closed exactly when everything is applied, or the call says that closing it failed |
| `ApplyService.ResultApply.CloseResult` | internal/app/result_closure.go:70-131 | each refusal exactly under its guard, above all while a write is interrupted; otherwise exactly the eligible repositories are recorded |
| `PatchModel.ItoaValue` | internal/app/review_patch.go:605-610 | printed decimals read back as the number |
| `PatchModel.SplitJoin` | internal/app/review_patch.go:377 | splitting undoes joining of lines without breaks |
| `PatchModel.JoinSplit` | internal/app/review_patch.go:377 | joining undoes splitting |
| `PatchHeaders.DiffHeaderExact` | internal/app/review_patch.go:612-631 | the header split accepts a path if and only if the line is the header of that path, also for paths containing the separator |
| `PatchHeaders.HeaderReads` | internal/app/review_patch.go:337 | a printed hunk header with any trailing text reads back as its ranges, clamped to machine integers |
| `PatchHeaders.HeaderExact` | internal/app/review_patch.go:337 | a line reads as these ranges if and only if it is a hunk header written with them, digit for digit, and any text after it |
| `PatchParser.ScanMetadata` | internal/app/review_patch.go:397-432 | the metadata loop returns what the grammar says, each refused kind with its own error; which lines it may accept is `PatchPrinting.AcceptedExactly` |
| `PatchParser.ScanBody` | internal/app/review_patch.go:454-494 | the hunk-body loop returns the numbered lines, both side counts and the totals of the grammar |
| `PatchParser.ScanHunks` | internal/app/review_patch.go:436-500 | the hunk loop returns the hunks of the grammar with exact counts |
| `PatchParser.ScanFile` | internal/app/review_patch.go:380-503 | one file section, with the order of its checks |
| `PatchParser.ParseUnifiedPatch` | internal/app/review_patch.go:373-507 | the whole nested-loop parser computes the grammar, every error included; what it accepts is `PatchPrinting.AcceptedExactly` |
| `PatchPrinting.BodyReads` | internal/app/review_patch.go:454-494 | printed lines of a hunk read back exactly, whichever of them are followed by the marker for a missing line break |
| `PatchPrinting.FileReads` | internal/dockersupervisor/files.go:196-277 | a printed file section, with any fitting metadata, header suffixes and markers, reads back exactly and leaves the rest |
| `PatchPrinting.ParsingUndoesPrinting` | internal/app/review_patch.go:373-507 | for every list of well-formed files, in any fitting dress of metadata, header suffixes and markers, parsing the printed patch returns that list, files of the legacy shape as their display |
| `PatchPrinting.AcceptedIsWellFormed` | internal/app/review_patch.go:373-507 | every accepted patch is, byte for byte, the printing of well-formed files with distinct allowed paths, exact counts and totals, numbering from the hunk start, and metadata of new, deleted or blob lines only, at most one of them about the kind, which it decides; printing the files again is accepted with the same answer |
| `PatchPrinting.AcceptedExactly` | internal/app/review_patch.go:373-507 | a valid text is accepted if and only if it is such a printing, so that any other line anywhere refuses the whole patch |
| `PatchPrinting.OtherMetadataIsRefused` | internal/app/review_patch.go:398-432 | a patch with any other line between a section header and its file headers is refused, such as one about changed modes |
| `PatchPrinting.DisplayKeepsMeaning` | internal/app/review_patch.go:500-501 | what is displayed for an accepted file does to every text what the file does |
| `PatchPrinting.LineNumbersExact` | internal/app/review_patch.go:439-487 | a line carries start plus lines before it if and only if that is a machine integer |
| `PatchPrinting.LineNumbersMayWrap` | internal/app/review_patch.go:442-443 | witness: a whole accepted patch with a negative line number |
| `DiffProjection.ContextRanges` | internal/linediff/linediff.go:326-349 | the merging loop computes the ranges |
| `DiffProjection.ContextRangesExact` | internal/linediff/linediff.go:324-349 | the ranges are separated, in bounds, and cover exactly the positions near a change |
| `DiffProjection.ShowHunk` | internal/app/review_patch.go:558-598 | one display hunk: starts (also of empty sides), counts, numbered lines, totals |
| `DiffProjection.SemanticPatchProjection` | internal/app/review_patch.go:542-603 | the projection loops compute the projection |
| `DiffProjection.HunksApply` | internal/app/review_patch.go:542-603 | from any position, strictly applying the remaining hunks to the old text gives the remaining new text |
| `DiffProjection.AppliedBalance` | internal/app/review_patch.go:585-592 | whatever hunks apply, additions minus deletions is the change in length |
| `DiffProjection.AppliedInOrder` | internal/app/review_patch.go:567-598 | hunks that apply are ordered and disjoint on both sides |
| `DiffProjection.ProjectionMeansTheChange` | internal/app/review_patch.go:514-603 | the display of a change is the change: applied to the complete old text it gives the complete new one, every number names its line, totals balance, and there is no display exactly when nothing changes |
| `LegacyProjection.NormalizeLegacyWholeFileProjection` | internal/app/review_patch.go:514-540 | the detection loop rewrites exactly the legacy shape |
| `LegacyProjection.NormalizationKeepsMeaning` | internal/app/review_patch.go:514-540 | on every text the original file applies to, the rewritten file applies with the same result; path, kind and balance stay |
| `LegacyProjection.RewrittenExactly` | internal/app/review_patch.go:509-513 | any other file is untouched, and a rewritten one is an ordered display whose numbers name their lines |
| `DisplayPrinting.DisplayIsTheNeighbourhood` | internal/app/review_patch.go:542-603 | the display of a script is its numbered lines at most three away from a change, and there is one unless nothing changes |
| `DisplayPrinting.ShownIsWellFormed` | internal/app/review_patch.go:542-603 | what is displayed for a well-formed file is a well-formed file: its headers read back as its ranges, its lines are counted and numbered by them |
| `DisplayPrinting.ShownIsFinal` | internal/app/review_patch.go:514-540 | displaying what is displayed changes nothing: a display of the legacy shape shows both texts whole |
| `DisplayPrinting.ShownReadsBack` | internal/app/review_patch.go:373-603 | what is shown for an accepted patch can be printed as a patch again, which is accepted and shown in just the same way |
| `ReviewEvidence.SameStringSet` | internal/app/review_patch.go:320-335 | true exactly for equal multisets |
| `ReviewEvidence.ValidReviewEvidence` | internal/app/review_patch.go:242-289 | the three loops decide acceptance |
| `ReviewEvidence.Pigeonhole` | internal/app/review_patch.go:243-269 | as many distinct ids as places, all taken from them, correspond one to one |
| `ReviewEvidence.AcceptedIsExactCover` | internal/app/review_patch.go:242-289 | accepted if and only if evidence and contract commands, and checks and criteria, correspond one to one and every item answers or supports its partner; unique contract ids follow |
| `ReviewEvidence.CitationsAreBound` | internal/app/review_patch.go:281-286 | whatever an accepted check cites is evidence of a command its own criterion names |
| `ReviewEvidence.AcceptedCriteriaAreProven` | internal/app/review_patch.go:270-288 | in an accepted document of constructed checks every criterion has a trusted check citing evidence of a command which that criterion names and the contract contains, run as the contract says in the reviewed workspace; no criterion without commands is accepted |
| `ReviewEvidence.AcceptedCommandsServe` | internal/domain/verification.go:475-496 | with constructed evidence, every command of an accepted contract is named by a criterion, and by none twice |
| `ResourceAuthority.MatchStart` | internal/app/resource_checks.go:352-392 | the branches of command matching pick exactly the matching authorities |
| `ResourceAuthority.OneCommandOneLocator` | internal/app/resource_checks.go:339-424 | one observed command never stands for checks of two repositories |
| `ResourceSelection.ValidateSelection` | internal/app/resource_check_selection.go:213-307 | the proposal loops accept exactly the acceptable selections |
| `ResourceSelection.DeriveAutoSelection` | internal/app/resource_check_selection.go:53-138 | the selection loops compute the selection |
| `ResourceSelection.SelectionConfined` | internal/app/resource_check_selection.go:53-138 | whatever the agent says or runs, order, source, invalidity and the no-checks flag of a named or check-free repository stay as frozen |
| `ResourceSelection.CandidateCountsIff` | internal/app/resource_check_selection.go:98-136 | an automatic candidate counts if and only if it was proposed, or run by a command that stands for it alone |
| `SelectionMeaning.ProposalStands` | internal/app/resource_check_selection.go:242-305 | a proposal is taken for a check if and only if it is plain and canonical, runs where the frozen policy already runs something, is recognised as just its command, was not proposed before, and the check is the one frozen candidate of its identity or, when there is none, a new one |
| `SelectionMeaning.SelectionAccepted` | internal/app/resource_check_selection.go:213-307 | a selection is accepted, with this table, if and only if it has one to sixteen repositories, each once and automatic and with a reason, each with checks that all stand for one or declared without any, and at most 64 checks in all |
| `SelectionMeaning.StartMeans` | internal/app/resource_check_selection.go:74-96 | how the selection of an automatic repository starts: from the last message and nothing else |
| `SelectionMeaning.RunsTurn` | internal/app/resource_check_selection.go:98-136 | what any run of commands makes of a repository: a clash of candidates is final, running one after a waiver is refused, running one without a proposal selects it |
| `SelectionMeaning.SelectionMeans` | internal/app/resource_check_selection.go:53-138 | everything said of an automatic repository, validity, reason, waiver and source, exactly by the last message and the commands observed |
| `SelectionMeaning.OrderGrows` | internal/app/resource_check_selection.go:104-136 | running candidates only adds checks at the end, each once, in the order in which they were first run |
| `ResourceChecks.AmbiguousCalls` | internal/app/resource_checks.go:256-280 | a call is ambiguous exactly when it starts more than once, or starts once and ends more than once |
| `ResourceChecks.NeverActiveTwice` | internal/app/resource_checks.go:175-179 | the branch for a second start of an active call is never reached |
| `ResourceChecks.ObserveAllEvents` | internal/app/resource_checks.go:148-226 | the event loop leaves for each check its latest start or end, and the ended calls in order |
| `ResourceChecks.NormalizeFingerprints` | internal/app/resource_checks.go:501-519 | accepted if and only if all observations are valid and none conflict; the table says exactly what they say |
| `ResourceChecks.ChangedAfter` | internal/app/resource_checks.go:470-499 | whether a later command or write may have touched the repository |
| `ResourceChecks.AggregateChecks` | internal/app/resource_checks.go:521-551 | the aggregation loop |
| `ResourceChecks.DeriveResourceChecks` | internal/app/resource_checks.go:109-254 | the whole derivation, accepted exactly for valid authorities and fingerprints |
| `ResourceTruth.EndsCorrelate` | internal/app/resource_checks.go:197-219 | an end counts for a check if and only if its call started once before, for that check alone, and ended once |
| `ResourceTruth.PassIsProven` | internal/app/resource_checks.go:148-253 | a repository reported PASS has a check, and each one ended in a correlated call that reports no error and exit code zero, or success without a code, and whose contents are the final contents |
| `ResourceTruth.StatusIsDecided` | internal/app/resource_checks.go:425-468 | with a valid selection: FAIL if and only if the last correlated end of some check reports an error or a nonzero exit code, PASS if and only if there are checks and the last such end of each reports success over contents still final, verified and stale exactly by the contents; with an invalid one UNKNOWN with its reason |
| `ResourceTruth.MayTouchMeans` | internal/app/resource_checks.go:470-499 | a later event may have touched the repository unless it is neither command nor write, or is known to be about another repository |
| `ResourceTruth.InvocationsAreTheEnds` | internal/app/resource_checks.go:197-243 | the invocations shown are exactly the correlated ends of the repository's checks, in the order of the ends, each judged by what its own event reports |
| `ResourceTruth.AggregateIsWorst` | internal/app/resource_checks.go:521-551 | the aggregate is the maximum of FAIL, UNKNOWN, PASS whatever the order |
| `ResourceTruth.CompletedChecksAreInvocations` | internal/app/resource_checks.go:215-243 | for every frozen policy, a completed check is one of the invocations shown, field for field |
| `ResourceNonInterference.MatchingSurrounded` | internal/app/resource_checks.go:119-134 | checks of other repositories in the pool never change what matches the own ones |
| `ResourceNonInterference.OwnDerivation` | internal/app/resource_checks.go:148-253 | the derivation of a fixed policy is computed from its own checks alone |
| `ResourceNonInterference.MessagesDoNotInterfere` | internal/app/resource_check_selection.go:140-211 | changing any assistant messages leaves every named or check-free derivation unchanged |
| `StreamDrain.DecodeEvent` | internal/agent/pi/adapter.go:600-648 | the decoder loop: complete lines, everything at end of file, diagnostics without events |
| `StreamDrain.RecordsAppend` | internal/agent/pi/adapter.go:613-647 | decoding is compositional at line ends |
| `StreamDrain.DecodingMeans` | internal/agent/pi/adapter.go:600-648 | any bytes are taken for their whole lines only, all of which must be sound, in order; at the end of the stream an unfinished line makes them malformed |
| `StreamDrain.ChainMeans` | internal/app/streams.go:77-171 | whatever the chunking, the events recorded are the decoding of exactly the bytes used |
| `StreamDrain.LedgerMeans` | internal/app/streams.go:569-692 | stored events of a stream are the decoding of the bytes before its offset, unless a malformed record is stored, which is never lost |
| `StreamDrain.ChunkingDoesNotMatter` | internal/app/streams.go:77-171 | two records of one output agree on every stream both finished well |
| `StreamDrain.RuntimeRecord.Commit` | internal/store/sqlite/runtime.go:393-412 | one transaction: everything, or nothing, which happens exactly on a fault or when a stream moved since it was read |
| `StreamDrain.RuntimeRecord.ConsumeStream` | internal/app/streams.go:77-171 | a reading keeps the record exact whatever others commit meanwhile; success on a stream not at its end means that the bytes at the stored offset, decoded without fault, are what the stream gained, and that it gained nothing else since the call began; it fails only without an announcement, on a fault, over malformed bytes, or because the stream moved |
| `StreamDrain.RuntimeRecord.DrainToEOF` | internal/app/streams.go:569-692 | the drain loop terminates, keeps the record exact under interference, and succeeds only with both streams at their end; it stops early only on a fault, exactly when a reading is too long, when a reading brings nothing, or when a stream moved |
| `StreamDrain.Advanced` | internal/app/streams.go:628-637 | progress shrinks remaining bytes plus streams not at their end |
| `StreamSignals.RuntimeSignals.Notify` | internal/app/runtime_sink.go:20-26 | the furthest announcement is kept |
| `StreamSignals.RuntimeSignals.Reserve` | internal/app/runtime_sink.go:39-52 | a reader is never turned away while more was announced than acknowledged |
| `StreamSignals.RuntimeSignals.Acknowledge` | internal/app/runtime_sink.go:54-68 | announcements that arrived during a reading stay |
| `KeyedLocks.LockTable.CountUp` | internal/app/service.go:84-96 | the first section under the table's mutex finds or makes the entry and counts up, exactly the Enter step |
| `KeyedLocks.LockTable.CountDown` | internal/app/service.go:97-105 | the last section counts down and deletes the entry with its last user, exactly the Drop step |
| `KeyedLocks.StepKeeps` | internal/app/service.go:84-106 | every step of every thread keeps the lock invariant |
| `KeyedLocks.LockSafety` | internal/app/service.go:74-106 | mutual exclusion, the exact meaning of the count, an entry in the table exactly while counted, one entry per key |
| `KeyedLocks.NoDeadlock` | internal/app/resource_apply.go:175-192 | in every reachable state some thread can move unless all are done |
| `KeyedLocks.RepeatedKeyBlocks` | internal/app/resource_apply.go:183 | witness: a lone thread that takes one key twice reaches a state in which nothing can move |
| `KeyedLocks.KeysToLock` | internal/app/resource_apply.go:177-186 | the keys taken are the sorted identities, each once |
| `AutomaticRetry.EventState` | internal/app/automatic_retry.go:150-191 | the fold over the event log, malformed events refused |
| `AutomaticRetry.FoldRefuses` | internal/app/automatic_retry.go:150-191 | a log is refused if and only if one of its events is malformed |
| `AutomaticRetry.FoldMeans` | internal/app/automatic_retry.go:150-191 | each part of the folded state is what the last event about it says, and the count is the marked preparations since the last reset |
| `AutomaticRetry.RetryMeans` | internal/app/automatic_retry.go:63-148 | every reading of a retry exactly by the facts: blocked, pending, exhausted, retrying or none, with its count, reason and failure |
| `AutomaticRetry.BudgetIsKept` | internal/app/runs.go:178-262 | on every log the writers leave: nothing malformed, the count is the automatic preparations since the last reset, at most two |
| `AutomaticRetry.AutomaticAlwaysMarked` | internal/app/runs.go:233-262 | every automatic preparation that goes through leaves its marker, whatever the adapter |
| `AutomaticRetry.SpentBudgetRefuses` | internal/app/automatic_retry.go:133-136 | a spent budget refuses automatic preparation until a reset |
| `AutomaticRetry.BoardAutomaticRetry` | internal/app/task_board.go:603-654 | the board's loop computes the board's reading |
| `AutomaticRetry.BoardAgrees` | internal/app/task_board.go:603-654 | board and service agree, malformed logs included, if and only if the Run is not past its agent work with its current Attempt blocked |
| `AutomaticRetry.BoardAgreesWhereAsked` | internal/app/task_board.go:569 | in the states in which the board asks they always agree |
| `AutomaticRetry.BlockedReviewDiffers` | internal/app/automatic_retry.go:83-86 | witness: a blocked Run under review |
| `AutomaticRetry.WindowIsEnough` | internal/store/sqlite/task_board.go:294-311 | the eight events the board is handed fold to what the whole log folds to, on every log the commands of a Run leave, for either adapter |
| `AutomaticRetry.OrdinaryRunIsCovered` | internal/app/runs.go:226-232 | the ordinary log, enabled, prepared without a marker and started, is one of them |
| `AutomaticRetry.WindowMayForget` | internal/store/sqlite/task_board.go:294-296 | the discipline of the writers is needed: a log none of them leaves, whose window forgets that retries are enabled |
| `FaultConsumption.DurableRemains` | internal/acceptanceauthority/controller.go:196-219 | a durable record survives any power loss |
| `FaultConsumption.Controller.Record` | internal/acceptanceauthority/controller.go:163-216 | writing the record succeeds if and only if there was none and no fault occurred, and then it is durable; every failure, removal and crash on the way leaves other records alone |
| `FaultConsumption.Controller.Consume` | internal/acceptanceauthority/controller.go:136-226 | a directive is handed out only for a declared invocation that has not drifted, only after its record is durable, and only if it never was before; without faults it is handed out exactly then, drift is reported exactly for it, and what is remembered as consumed is durable |
| `FaultConsumption.Live` | internal/acceptanceauthority/controller.go:136-226 | over any number of processes with any contracts, calls, crashes and power losses, the list of all directives handed out only grows and never holds a scenario twice |
| `BoardDelivery.JudgeRepository` | internal/app/task_board.go:443-524 | the operation loops and the map visit compute the judgement for the order that happened |
| `BoardDelivery.JudgementMeans` | internal/app/task_board.go:499-509 | merged exactly with a proven merge commit, applied and closed only if recorded so, in every order |
| `BoardDelivery.DispositionMeans` | internal/app/task_board.go:489-524 | each disposition, the need for a review and a failed cleanup exactly by the operations and the record of the repository, in every order, given that closing waits for pending operations |
| `BoardDelivery.StatusMeans` | internal/app/task_board.go:443-488 | the status is the place the last locating operation names, or else that of the start |
| `BoardDelivery.ShownStatus` | internal/app/task_board.go:489-524 | the status shown, when all troubled operations are in the same kind of trouble |
| `BoardDelivery.OrderDoesNotMatter` | internal/app/task_board.go:489-498 | unless operations are in different kinds of trouble, the order of the map is irrelevant |
| `BoardDelivery.OrderMatters` | internal/app/task_board.go:489-498 | if they are, two orders give different statuses |
| `BoardCard.DeriveDelivery` | internal/app/task_board.go:432-545 | the aggregation loop computes the delivery card |
| `BoardCard.OutcomeByCounts` | internal/app/task_board.go:522-545 | each outcome is reached if and only if these and only these kinds of repositories exist |
| `BoardCard.OutcomeMeans` | internal/app/task_board.go:432-545 | merged, applied, closed and pending partition the changed repositories; delivered means all merged with proof, applied locally means all applied |
| `BoardDelivery.OrderDecidesStatusOnly` | internal/app/task_board.go:489-515 | given that closing waits for pending operations, two orders give the same judgement but for the status shown |
| `BoardCard.OutcomeDetermined` | internal/app/task_board.go:489-545 | then column, outcome, health and attention of a card do not depend on the order, and nothing about a closed repository does |
| `BoardCard.DeriveCard` | internal/app/task_board.go:238-601 | the whole derivation computes the card; what it says is `BoardMeaning.CardMeans` |
| `BoardCard.CardIsCoherent` | internal/app/task_board.go:238-601 | an outcome exists exactly when finished, the phase is absent exactly when inconsistent |
| `BoardMeaning.CardMeans` | internal/app/task_board.go:238-601 | a card is consistent if and only if the facts are understood and are the evidence its stage needs; then it stands in exactly the column its facts call for and asks for a person exactly when they do |
| `BoardMeaning.OutcomesMean` | internal/app/task_board.go:370-566 | each outcome outside delivery exactly when its facts hold: cancelled only for a closed Task with no active Run, unchanged only for a completed Run, accepted documents, older patches |
| `BoardMeaning.SubstatesMean` | internal/app/task_board.go:335-601 | what a card says: its outcome, its gate, its retry, or where its Run stands |
| `BoardMeaning.ReasonsMean` | internal/app/task_board.go:335-601 | work that is neither delivered nor waiting for its start gives one reason when it asks, and a gate adds its own |
| `BoardMeaning.ReasonIsTrue` | internal/app/task_board.go:238-430 | the one reason given for not placing a card is true of the facts |
| `BoardCard.CardDetermined` | internal/app/task_board.go:489-498 | without an ambivalent repository the card does not depend on map order |
| `BoardPaging.OrderIsUnique` | internal/app/task_board.go:186-191 | activity order has one arrangement, however the cards are sorted |
| `BoardPaging.CountRows` | internal/app/task_board.go:192-202 | phase counts plus reconciliation equal the total |
| `BoardPaging.ProjectBoard` | internal/app/task_board.go:106-233 | the refusals in order, the filtering, the counts of all matching cards, the page and the options |
| `BoardPaging.CursorsCoverOnce` | internal/app/task_board.go:210-233 | following cursors with any page sizes returns exactly the matching cards, each once, in activity order |
| `BoardPaging.AnswersCoverOnce` | internal/app/task_board.go:106-233 | the same of whole answers to an acceptable request |
| `BoardPaging.RequestsAreRead` | internal/app/task_board.go:106-126 | a request is understood if and only if its limit and its filters are among the known ones |
| `BoardPaging.WantedOnce` | internal/app/task_board.go:106-233 | following cursors gathers exactly the cards the request asks for, by the words of the request, each once, the most recent first |
| `BoardPaging.AnswersFail` | internal/app/task_board.go:106-233 | each refusal exactly under its condition: a stale snapshot, or a request or cursor that makes no sense |
| `BoardPaging.PageOptions` | internal/app/task_board.go:724-775 | the option page with its selected choices |
| `BoardPaging.OptionsCoverOnce` | internal/app/task_board.go:724-775 | each option page shows its own part and after it nothing but the selected choice; the own parts joined are the lists; all pages together show the selected choice once per page and any other exactly once |

## Left out

- KeyedLocks: the two sections of the table's mutex are methods of a class, but the steps of the threads around them are a relation, because their interleaving is the point; the per-Run lock outside is not modelled.
- RunLaunch: transactions are functions on the store composed by a step relation, so that crashes can fall between them; planning lineage, context snapshots and model bindings are not part of it.
- RunLaunchSafety.VerifiedRetryIsSafe: the binding of the reviewed result to the Attempt and the review's authority are guards that only refuse, and are not modelled.
- StreamDrain.RuntimeRecord.ConsumeStream: policy projection is the identity and closing the child's input is not modelled; the bound on one chunk is checked only while draining.
- ResourceSelection.DeriveAutoSelection: the fenced block in the last message is read by a parameter, and explanations are not kept.
- ResourceChecks.DeriveResourceChecks: evidence and explanation sentences are not modelled.
- PatchParser.ParseUnifiedPatch: which of several faults is named first is stated by the grammar only; the original words all of them as one kind of error.
- PatchPrinting.ParsingUndoesPrinting: UTF-8 validity of the printed text is a premise, because byte decoding is a parameter.
- PatchPrinting: digest binding of the patch in `BuildReviewablePatch` is not modelled.
- BoardCard.DeriveCard: links, next actions, versions and reason targets are not modelled; planning and rejection actions are given facts.
- BoardPaging.ProjectBoard: cursor encoding and both digests are abstract; a cursor is unreadable, or a snapshot and an offset. Rooms and repositories are given in the order of their identities.
- FaultConsumption.Controller.Record: permission bits and ownership checks are not modelled.
- FaultConsumption.Live: processes follow one another; two at once over one directory are not modelled.
- ApplyService.ResultApply.ApplyResourceResult: document results and evidence that no longer matches the plan are among the premises of a call; that others may close the Task meanwhile is not modelled.
- AutomaticRetry: who may start a Run and the schedule of the dispatcher are not modelled.
- The single-target patch application, hosting and pull-request orchestration, Project and Room commands, and the desktop client are not modelled.
