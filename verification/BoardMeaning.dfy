/**
 What a card on the board says about a Task, read the other way round: for each column, each outcome and
 each call for attention, exactly the facts that lead to it.
 */
module BoardMeaning {
  import opened Common
  import opened Lifecycle
  import opened BoardDelivery
  import opened BoardCard
  import AutomaticRetry

  // ---- Evidence ------------------------------------------------------------------------------

  predicate RepositoryUnderstood(f: Facts, r: Repository) {
    (r.mode.NoMode? || r.mode.TaskBranch?) &&
    (r.role.WriteRole? || r.role.ReferenceRole? || (r.role.NoRole? && !f.snapshot)) && (r.role.ReferenceRole? ==> r.changed <= 0)
  }

  predicate Understood(f: Facts) {
    f.invalid == "" && f.scopeValid && (f.task.Open? || f.task.Closed?) &&
    forall i :: 0 <= i < |f.repositories| ==> RepositoryUnderstood(f, f.repositories[i])
  }

  predicate Over(s: RunState) { s in {Accepted, RunState.Cancelled, Completed} }

  predicate Busy(s: RunState) { s in {Draft, Ready, Running, Stopping, AwaitingVerification, Verifying} }

  /** Counts, Attempt, plan and closure fit the Run. */
  predicate Lineage(f: Facts, run: Run) {
    f.runLineage && f.planBound && f.runCount >= 1 && f.activeRuns == (if Over(run.state) then 0 else 1) &&
    (run.attemptNumber > 0 ==> f.attempt) && !(f.closure && Busy(run.state))
  }

  /** Closing a Result ends its Task's work, unless a new plan is being drafted. */
  predicate EndedByClosing(f: Facts, run: Run) {
    f.closure && !f.openDraft && run.state in {AwaitingReview, RecoveryRequired, RevisionRequired}
  }

  /** Accepted work, or work that closing ended. */
  predicate Delivered(f: Facts, run: Run) { run.state.Accepted? || EndedByClosing(f, run) }

  predicate In(f: Facts, run: Run, s: RunState) { run.state == s && !EndedByClosing(f, run) }

  // ---- A revision ----------------------------------------------------------------------------

  predicate RevisesDocument(f: Facts) { f.document && f.result && !f.documentStatus.OtherDocument? }

  predicate ResultRefused(f: Facts) { f.result && (f.review.ReviewRejected? || f.resultOutcome.ChecksFailed? || f.resultOutcome.ChecksIncomplete?) }

  /** The Task goes back to planning. */
  predicate Replans(f: Facts) { !RevisesDocument(f) && !ResultRefused(f) && f.rejection.ContinueSuccessorPlan? }

  // ---- Delivery ------------------------------------------------------------------------------

  predicate WantsReview(js: seq<Judgement>) { exists i :: 0 <= i < |js| && js[i].needsReview }

  predicate Shows(js: seq<Judgement>, d: Disposition) { exists i :: 0 <= i < |js| && js[i].disposition == d }

  predicate HasChanges(js: seq<Judgement>) { Shows(js, Merged) || Shows(js, AppliedLocally) || Shows(js, ClosedOff) || Shows(js, StillPending) }

  predicate AllClosedUnchanged(js: seq<Judgement>) { forall i :: 0 <= i < |js| ==> js[i].disposition == UnchangedClosed }

  predicate CleanupFailed(f: Facts, js: seq<Judgement>)
    requires |js| == |f.repositories|
  {
    exists i :: 0 <= i < |js| && f.repositories[i].changed != 0 && js[i].cleanupFailed
  }

  predicate DeliveryEvidence(f: Facts, js: seq<Judgement>) {
    f.result && f.repositories != [] && (forall i :: 0 <= i < |f.repositories| ==> f.repositories[i].resultPresent) &&
    (WantsReview(js) || HasChanges(js) || (f.closure && AllClosedUnchanged(js)))
  }

  predicate OldPatchKnown(f: Facts) {
    !f.patch.OtherPatch? && (f.patch.NoPatch? ==> f.closure || (f.verifiedAccepted && f.verified))
  }

  lemma {:induction false} AllCounted(js: seq<Judgement>, d: Disposition)
    ensures Count(js, d) <= |js|
    ensures Count(js, d) == |js| <==> forall i :: 0 <= i < |js| ==> js[i].disposition == d
  {
    if js != [] {
      var n := |js| - 1;
      AllCounted(js[..n], d);
      assert forall i :: 0 <= i < n ==> js[..n][i] == js[i];
    }
  }

  lemma CountsMean(js: seq<Judgement>)
    ensures forall d :: Count(js, d) > 0 <==> Shows(js, d)
    ensures Count(js, UnchangedClosed) == |js| <==> AllClosedUnchanged(js)
    ensures NeedsReview(js) <==> WantsReview(js)
    ensures Changed(js) > 0 <==> HasChanges(js)
  {
    forall d
      ensures Count(js, d) > 0 <==> Shows(js, d)
    {
      CountNone(js, d);
    }
    AllCounted(js, UnchangedClosed);
  }

  lemma {:induction false} CollectedMeans(repos: seq<Repository>, js: seq<Judgement>)
    requires |repos| == |js|
    ensures var c := Collected(repos, js);
            c.outcome.None? && c.consistent && c.phase == Some(Delivering) && !c.attention.UnknownAttention? &&
            (c.attention.Required? <==> exists i :: 0 <= i < |js| && repos[i].changed != 0 && js[i].cleanupFailed)
  {
    if js != [] {
      var n := |js| - 1;
      CollectedMeans(repos[..n], js[..n]);
      assert forall i :: 0 <= i < n ==> js[..n][i] == js[i] && repos[..n][i] == repos[i];
    }
  }

  /** The delivery part: when it can be shown, its column, and when it calls for attention. */
  lemma DeliveryMeans(f: Facts, js: seq<Judgement>)
    requires |js| == |f.repositories|
    ensures var c := DeliveryCard(f, js);
            (c.consistent <==> DeliveryEvidence(f, js)) &&
            (c.consistent ==>
               (c.phase == Some(Reviewing) <==> WantsReview(js)) &&
               (c.phase == Some(Delivering) <==> !WantsReview(js) && Shows(js, StillPending)) &&
               (c.phase == Some(FinishedPhase) <==> !WantsReview(js) && !Shows(js, StillPending)) &&
               (c.attention.Required? <==> WantsReview(js) || Shows(js, StillPending) || CleanupFailed(f, js)) &&
               !c.attention.UnknownAttention? && (c.outcome.Some? <==> c.phase == Some(FinishedPhase)))
  {
    hide Collected, Count, NeedsReview, Changed, WantsReview, Shows, AllClosedUnchanged;
    CountsMean(js);
    CollectedMeans(f.repositories, js);
    ChangedIsSum(js);
  }

  lemma ChangedIsSum(js: seq<Judgement>)
    ensures Changed(js) == Count(js, Merged) + Count(js, AppliedLocally) + Count(js, ClosedOff) + Count(js, StillPending)
  {
  }

  // ---- Cards of a Run ------------------------------------------------------------------------

  predicate ProvenUnchanged(r: Repository) {
    r.resultPresent && r.changed == 0 && (r.checks.ChecksNone? || r.checksNotApplicable || r.checksPassed)
  }

  /** The stage the Run is at has the evidence it needs. */
  predicate StageEvidence(f: Facts, run: Run, js: seq<Judgement>) {
    if Delivered(f, run) then
      if f.document then f.result && f.repositories == [] else if f.snapshot then DeliveryEvidence(f, js) else OldPatchKnown(f)
    else
      match run.state
      case AwaitingReview => f.result || f.verified
      case RevisionRequired => RevisesDocument(f) || ResultRefused(f) || !f.rejection.OtherRejection?
      case Completed => f.resultOutcome.CompletedNoChange? && f.repositories != [] &&
                        forall i :: 0 <= i < |f.repositories| ==> ProvenUnchanged(f.repositories[i])
      case _ => true
  }

  predicate WatchesRetry(f: Facts, run: Run) { !f.closure && run.state in {RecoveryRequired, Ready, Running, Stopping} }

  /** A retry is shown, in this state. */
  predicate ShowsRetry(f: Facts, run: Run) { WatchesRetry(f, run) && f.retry.Some? && f.retry.value.Some? }

  predicate RunEvidence(f: Facts, run: Run, js: seq<Judgement>) {
    Lineage(f, run) && StageEvidence(f, run, js) && (WatchesRetry(f, run) ==> f.retry.Some?) && (f.gate ==> run.state.Running?)
  }

  predicate NotStarted(run: Run) { (run.state.Draft? || run.state.Ready?) && run.attemptNumber <= 1 && !run.started }

  predicate PreparationTrouble(f: Facts) {
    exists i :: 0 <= i < |f.repositories| && (f.repositories[i].preparation.PreparationFailed? || f.repositories[i].preparation.PreparationRecovery?)
  }

  /** Each column, by the facts. */
  predicate Column(f: Facts, run: Run, js: seq<Judgement>, phase: Phase) {
    match phase
    case Preparing => NotStarted(run) || (In(f, run, RevisionRequired) && Replans(f))
    case Working =>
      (Busy(run.state) && !NotStarted(run)) || In(f, run, RecoveryRequired) || run.state.VerificationRecoveryRequired? ||
      (In(f, run, RevisionRequired) && !RevisesDocument(f) && !Replans(f)) || (run.state.Cancelled? && !(f.task.Closed? && f.activeRuns == 0))
    case Reviewing =>
      In(f, run, AwaitingReview) || (In(f, run, RevisionRequired) && RevisesDocument(f) && f.documentStatus.DocumentPending?) ||
      (Delivered(f, run) && if f.document then !f.documentStatus.DocumentAccepted? else f.snapshot && WantsReview(js))
    case Delivering =>
      Delivered(f, run) && !f.document &&
      if f.snapshot then !WantsReview(js) && Shows(js, StillPending) else !f.patch.PatchApplied? && !(f.patch.NoPatch? && f.closure)
    case FinishedPhase =>
      run.state.Completed? || (run.state.Cancelled? && f.task.Closed? && f.activeRuns == 0) ||
      (In(f, run, RevisionRequired) && RevisesDocument(f) && f.documentStatus.DocumentAccepted?) ||
      (Delivered(f, run) &&
       if f.document then f.documentStatus.DocumentAccepted?
       else if f.snapshot then !WantsReview(js) && !Shows(js, StillPending)
       else f.patch.PatchApplied? || (f.patch.NoPatch? && f.closure))
  }

  /** What calls for a person, gates and retries aside. */
  predicate StageAsks(f: Facts, run: Run, js: seq<Judgement>)
    requires |js| == |f.repositories|
  {
    if Delivered(f, run) then
      if f.document then !f.documentStatus.DocumentAccepted?
      else if f.snapshot then WantsReview(js) || Shows(js, StillPending) || CleanupFailed(f, js)
      else f.patch.PatchConflict? || f.patch.PatchRecovery? || (f.patch.NoPatch? && !f.closure)
    else
      match run.state
      case Draft => PreparationTrouble(f)
      case Ready => PreparationTrouble(f)
      case RecoveryRequired => true
      case VerificationRecoveryRequired => true
      case AwaitingReview => true
      case RevisionRequired => !(RevisesDocument(f) && f.documentStatus.DocumentAccepted?)
      case Cancelled => !(f.task.Closed? && f.activeRuns == 0)
      case _ => false
  }

  predicate Asks(f: Facts, run: Run, js: seq<Judgement>)
    requires |js| == |f.repositories|
  {
    f.gate || if ShowsRetry(f, run) then f.retry.value.value.Exhausted? || f.retry.value.value.BlockedRetry? else StageAsks(f, run, js)
  }

  lemma {:induction false} ScopeMeans(f: Facts, repos: seq<Repository>)
    ensures ScopeError(f, repos).None? <==> forall i :: 0 <= i < |repos| ==> RepositoryUnderstood(f, repos[i])
  {
    if repos != [] {
      ScopeMeans(f, repos[1..]);
      assert forall i :: 0 <= i < |repos| - 1 ==> repos[1..][i] == repos[i + 1];
      if forall i :: 0 <= i < |repos| - 1 ==> RepositoryUnderstood(f, repos[1..][i]) {
        assert forall i :: 1 <= i < |repos| ==> repos[i] == repos[1..][i - 1];
      }
    }
  }

  lemma LineageMeans(f: Facts, run: Run)
    ensures LineageError(f, run).None? <==> Lineage(f, run)
  {
  }

  lemma {:induction false} PreparationMeans(c: Card, repos: seq<Repository>)
    ensures var p := PreparationOf(c, repos);
            p.phase == c.phase && p.outcome == c.outcome && p.consistent == c.consistent &&
            (p.attention == if exists i :: 0 <= i < |repos| && (repos[i].preparation.PreparationFailed? || repos[i].preparation.PreparationRecovery?)
                            then Required else c.attention)
  {
    if repos != [] {
      var n := |repos| - 1;
      PreparationMeans(c, repos[..n]);
      assert forall i :: 0 <= i < n ==> repos[..n][i] == repos[i];
    }
  }

  /** The card of a stage: consistent with its evidence, in its column, and asking exactly when it should. */
  ghost predicate Stands(f: Facts, run: Run, js: seq<Judgement>, c: Card)
    requires |js| == |f.repositories|
  {
    (c.consistent <==> StageEvidence(f, run, js)) &&
    (c.consistent ==>
       (forall p: Phase :: c.phase == Some(p) <==> Column(f, run, js, p)) &&
       c.attention == (if StageAsks(f, run, js) then Required else NoAttention))
  }

  lemma BusyStands(f: Facts, run: Run, js: seq<Judgement>)
    requires |js| == |f.repositories| && Lineage(f, run) && !Delivered(f, run)
    requires Busy(run.state) || run.state.RecoveryRequired? || run.state.VerificationRecoveryRequired?
    ensures Stands(f, run, js, StateCard(f, run, run.state, js))
  {
    hide AcceptedCard, RevisionCard, ReviewCard, CancelledCard, CompletedCard, PreparationOf;
    PreparationMeans(WaitingCard(run), f.repositories);
  }

  lemma RevisionStands(f: Facts, run: Run, js: seq<Judgement>)
    requires |js| == |f.repositories| && Lineage(f, run) && !Delivered(f, run) && run.state.RevisionRequired?
    ensures Stands(f, run, js, RevisionCard(f))
  {
  }

  lemma ReviewedStands(f: Facts, run: Run, js: seq<Judgement>)
    requires |js| == |f.repositories| && Lineage(f, run) && !Delivered(f, run)
    requires run.state.AwaitingReview? || run.state.Cancelled? || run.state.Completed?
    ensures Stands(f, run, js, StateCard(f, run, run.state, js))
  {
    hide AcceptedCard, RevisionCard, PreparationOf, WaitingCard;
    assert (forall i :: 0 <= i < |f.repositories| ==> ProvenUnchanged(f.repositories[i])) <==>
      !exists i :: 0 <= i < |f.repositories| && !NoChangeEvidence(f.repositories[i]);
  }

  lemma DeliveredStands(f: Facts, run: Run, js: seq<Judgement>)
    requires |js| == |f.repositories| && Lineage(f, run) && Delivered(f, run)
    ensures Stands(f, run, js, AcceptedCard(f, js))
  {
    hide DeliveryCard, DeliveryEvidence, WantsReview, Shows, CleanupFailed;
    DeliveryMeans(f, js);
  }

  lemma StageStands(f: Facts, run: Run, js: seq<Judgement>)
    requires |js| == |f.repositories| && Lineage(f, run)
    ensures Stands(f, run, js, StateCard(f, run, ProjectedState(f, run.state), js))
  {
    hide Stands, AcceptedCard, RevisionCard, ReviewCard, CancelledCard, CompletedCard, PreparationOf, WaitingCard;
    if Delivered(f, run) {
      DeliveredStands(f, run, js);
    } else if run.state.RevisionRequired? {
      RevisionStands(f, run, js);
    } else if Busy(run.state) || run.state.RecoveryRequired? || run.state.VerificationRecoveryRequired? {
      BusyStands(f, run, js);
    } else {
      ReviewedStands(f, run, js);
    }
  }

  /** Retries and gates change attention and substate, never the column. */
  lemma OverlaysMean(f: Facts, run: Run, js: seq<Judgement>, c: Card)
    requires |js| == |f.repositories| && c.consistent && c.attention == (if StageAsks(f, run, js) then Required else NoAttention)
    ensures var retried := RetryCard(f, run, c);
            (retried.consistent <==> (WatchesRetry(f, run) ==> f.retry.Some?)) &&
            (retried.consistent ==>
               retried.phase == c.phase && retried.outcome == c.outcome &&
               var shown := GateCard(f, run, retried);
               (shown.consistent <==> (f.gate ==> run.state.Running?)) &&
               (shown.consistent ==>
                  shown.phase == c.phase && shown.outcome == c.outcome && shown.attention == (if Asks(f, run, js) then Required else NoAttention)))
  {
    hide StageAsks;
  }

  /** A Run's card: consistent exactly with its evidence, in exactly its column, asking exactly when it should. */
  lemma RunCardMeans(f: Facts, run: Run, js: seq<Judgement>)
    requires |js| == |f.repositories|
    ensures var c := RunCard(f, run, js);
            (c.consistent <==> RunEvidence(f, run, js)) &&
            (c.consistent ==>
               (forall p: Phase :: c.phase == Some(p) <==> Column(f, run, js, p)) &&
               c.attention == (if Asks(f, run, js) then Required else NoAttention) &&
               c.outcome == StateCard(f, run, ProjectedState(f, run.state), js).outcome)
  {
    hide StateCard, RetryCard, GateCard, LineageError, Lineage, StageEvidence, Column, StageAsks, Asks, WatchesRetry, ProjectedState;
    LineageMeans(f, run);
    if Lineage(f, run) {
      StageStands(f, run, js);
      var c := StateCard(f, run, ProjectedState(f, run.state), js);
      if c.consistent { OverlaysMean(f, run, js, c); }
    }
  }

  /** A Task without a Run is being planned, unless its counts, state or plan contradict that. */
  predicate PlanningEvidence(f: Facts) { f.runCount == 0 && f.activeRuns == 0 && !f.task.Closed? && !f.planning.OtherPlanning? }

  /**
   The whole card. It is consistent exactly when the facts are understood and are the evidence its stage needs;
   then it stands in exactly the column its facts call for, asks for a person exactly when they do, and has an outcome
   exactly in the last column.
   */
  lemma CardMeans(f: Facts, js: seq<Judgement>)
    requires |js| == |f.repositories|
    ensures var c := CardOf(f, js);
            (c.consistent <==>
               Understood(f) && match f.run case None => PlanningEvidence(f) case Some(run) => RunEvidence(f, run, js)) &&
            (c.consistent ==>
               match f.run
               case None => c.phase == Some(Preparing) && c.attention == (if f.planning.ReviewPlan? then Required else NoAttention)
               case Some(run) =>
                 (forall p: Phase :: c.phase == Some(p) <==> Column(f, run, js, p)) &&
                 c.attention == (if Asks(f, run, js) then Required else NoAttention)) &&
            (c.outcome.Some? <==> c.phase == Some(FinishedPhase)) && (!c.consistent ==> c.phase.None? && c.attention.UnknownAttention?)
  {
    hide RunCard, ScopeError, RepositoryUnderstood, Column, Asks, RunEvidence;
    ScopeMeans(f, f.repositories);
    CardIsCoherent(f, js);
    if f.run.Some? { RunCardMeans(f, f.run.value, js); }
  }

  // ---- Outcomes, substates and reasons -------------------------------------------------------

  lemma DeliveryOutcomeNames(f: Facts, js: seq<Judgement>)
    requires |js| == |f.repositories|
    ensures var outcome := DeliveryCard(f, js).outcome;
            outcome.Some? ==> outcome.value in {"delivered", "applied_locally", "mixed_delivery", "partially_delivered_closed", "closed"}
  {
    hide Collected, Count, NeedsReview, EvidenceMissing, Changed;
    CollectedMeans(f.repositories, js);
  }

  /** The outcome of a stage, except that of a delivery over repositories. */
  function StageOutcome(f: Facts, run: Run, js: seq<Judgement>): Option<string>
    requires |js| == |f.repositories|
  {
    if Delivered(f, run) && !f.document && f.snapshot then DeliveryCard(f, js).outcome
    else if run.state.Cancelled? && f.task.Closed? && f.activeRuns == 0 then Some("cancelled")
    else if run.state.Completed? then Some("no_change")
    else if f.documentStatus.DocumentAccepted? && ((Delivered(f, run) && f.document) || (In(f, run, RevisionRequired) && RevisesDocument(f))) then
      Some("document_accepted")
    else if Delivered(f, run) && !f.document && f.patch.PatchApplied? then Some("applied_locally")
    else if Delivered(f, run) && !f.document && f.patch.NoPatch? && f.closure then Some("closed")
    else None
  }

  lemma StageOutcomes(f: Facts, run: Run, js: seq<Judgement>)
    requires |js| == |f.repositories| && Lineage(f, run) && StageEvidence(f, run, js)
    ensures StateCard(f, run, ProjectedState(f, run.state), js).outcome == StageOutcome(f, run, js)
  {
    hide DeliveryCard, PreparationOf, DeliveryEvidence;
    PreparationMeans(WaitingCard(run), f.repositories);
    if run.state.Completed? {
      assert forall i :: 0 <= i < |f.repositories| ==> NoChangeEvidence(f.repositories[i]);
    }
  }

  /**
   Every outcome that is not one of delivering repositories, exactly when: cancelled only for a closed Task
   with no active Run, unchanged only for a completed Run, accepted documents, and patches of the older kind.
   */
  lemma OutcomesMean(f: Facts, run: Run, js: seq<Judgement>)
    requires |js| == |f.repositories| && f.run == Some(run) && CardOf(f, js).consistent
    ensures var outcome, over := CardOf(f, js).outcome, Delivered(f, run) && !f.document && f.snapshot;
            (outcome == Some("cancelled") <==> run.state.Cancelled? && f.task.Closed? && f.activeRuns == 0) &&
            (outcome == Some("no_change") <==> run.state.Completed?) &&
            (outcome == Some("document_accepted") <==>
               f.documentStatus.DocumentAccepted? && ((Delivered(f, run) && f.document) || (In(f, run, RevisionRequired) && RevisesDocument(f)))) &&
            (!over ==> (outcome == Some("applied_locally") <==> Delivered(f, run) && !f.document && f.patch.PatchApplied?)) &&
            (!over ==> (outcome == Some("closed") <==> Delivered(f, run) && !f.document && f.patch.NoPatch? && f.closure)) &&
            (over ==> outcome == DeliveryCard(f, js).outcome)
  {
    hide CardOf, RunCard, StateCard, DeliveryCard, RepositoryUnderstood, Column, Asks, StageEvidence, ProjectedState;
    CardMeans(f, js);
    CardIsOfRun(f, run, js);
    RunCardMeans(f, run, js);
    StageOutcomes(f, run, js);
    DeliveryOutcomeNames(f, js);
  }

  lemma CardIsOfRun(f: Facts, run: Run, js: seq<Judgement>)
    requires |js| == |f.repositories| && f.run == Some(run) && CardOf(f, js).consistent
    ensures CardOf(f, js) == RunCard(f, run, js)
  {
    hide RunCard;
  }

  predicate WriterUnprepared(r: Repository) { r.role.WriteRole? && !r.preparation.Prepared? }

  predicate Unready(r: Repository) { r.preparation.PreparationFailed? || r.preparation.PreparationRecovery? || WriterUnprepared(r) }

  function PreparationName(r: Repository): string {
    if r.preparation.PreparationFailed? || r.preparation.PreparationRecovery? then "resource_preparation_failed" else "resource_preparation"
  }

  lemma {:induction false} PreparationSubstate(c: Card, repos: seq<Repository>)
    ensures var substate := PreparationOf(c, repos).substate;
            (forall k: nat :: LastUnready(repos, k) ==> substate == PreparationName(repos[k])) &&
            ((forall i :: 0 <= i < |repos| ==> !Unready(repos[i])) ==> substate == c.substate)
  {
    if repos != [] {
      var n := |repos| - 1;
      PreparationSubstate(c, repos[..n]);
      assert forall i :: 0 <= i < n ==> repos[..n][i] == repos[i];
      forall k: nat | LastUnready(repos, k)
        ensures PreparationOf(c, repos).substate == PreparationName(repos[k])
      {
        if k < n { assert LastUnready(repos[..n], k); }
      }
    }
  }

  /** The last repository that is not ready. */
  predicate LastUnready(repos: seq<Repository>, k: nat) {
    k < |repos| && Unready(repos[k]) && forall i :: k < i < |repos| ==> !Unready(repos[i])
  }

  /** The names under which a Run that is neither gated nor retried shows in its column, when it is not over. */
  ghost predicate Named(f: Facts, run: Run, js: seq<Judgement>, substate: string) {
    if Delivered(f, run) then
      if f.document then substate == "document_review"
      else if f.snapshot then WantsReview(js) ==> substate == "result_review"
      else substate == if f.patch.PatchApplying? then "applying" else "pending_apply"
    else
      match run.state
      case Running => substate == "executing"
      case Stopping => substate == "stopping"
      case AwaitingVerification => substate == "awaiting_verification"
      case Verifying => substate == "verifying"
      case RecoveryRequired => substate == "recovery_required"
      case VerificationRecoveryRequired => substate == "verification_recovery_required"
      case AwaitingReview => substate == "result_review"
      case Cancelled => substate == "stopped"
      case RevisionRequired =>
        substate == if RevisesDocument(f) then "document_review"
                    else if ResultRefused(f) || f.rejection.RetryImplementation? then "changes_requested"
                    else if f.rejection.OpenRelatedTask? then "related_task" else "replanning"
      case Draft => NamedWaiting(f, run, substate)
      case Ready => NamedWaiting(f, run, substate)
      case _ => true
  }

  /** Before a start the last repository that is not ready is named, if there is one. */
  ghost predicate NamedWaiting(f: Facts, run: Run, substate: string) {
    (forall k: nat :: LastUnready(f.repositories, k) ==> substate == PreparationName(f.repositories[k])) &&
    ((forall i :: 0 <= i < |f.repositories| ==> !Unready(f.repositories[i])) ==>
       substate == if NotStarted(run) then "ready_to_start" else "waiting_retry")
  }

  lemma WaitingNamed(f: Facts, run: Run)
    requires run.state.Draft? || run.state.Ready?
    ensures NamedWaiting(f, run, PreparationOf(WaitingCard(run), f.repositories).substate)
  {
    PreparationSubstate(WaitingCard(run), f.repositories);
  }

  lemma StageNamed(f: Facts, run: Run, js: seq<Judgement>)
    requires |js| == |f.repositories| && Lineage(f, run) && StageEvidence(f, run, js)
    requires StateCard(f, run, ProjectedState(f, run.state), js).outcome.None?
    ensures Named(f, run, js, StateCard(f, run, ProjectedState(f, run.state), js).substate)
  {
    hide PreparationOf, DeliveryEvidence, DeliveryCard, NoChangeEvidence, NamedWaiting, WantsReview, CompletedCard;
    if run.state.Draft? || run.state.Ready? { WaitingNamed(f, run); }
    DeliveryNamed(f, js);
    ConsistentDelivery(f, js);
  }

  lemma ConsistentDelivery(f: Facts, js: seq<Judgement>)
    requires |js| == |f.repositories|
    ensures DeliveryCard(f, js).consistent <==> DeliveryEvidence(f, js)
  {
    hide DeliveryCard, DeliveryEvidence;
    DeliveryMeans(f, js);
  }

  lemma DeliveryNamed(f: Facts, js: seq<Judgement>)
    requires |js| == |f.repositories|
    ensures DeliveryCard(f, js).consistent && WantsReview(js) ==> DeliveryCard(f, js).substate == "result_review"
  {
    hide Collected, Count;
  }

  /** What a card that is not over says: its gate, its retry, or where its Run stands. */
  lemma SubstatesMean(f: Facts, run: Run, js: seq<Judgement>)
    requires |js| == |f.repositories| && f.run == Some(run) && CardOf(f, js).consistent
    ensures var c := CardOf(f, js);
            if c.outcome.Some? then c.substate == c.outcome.value
            else if f.gate then c.substate == "waiting_gate"
            else if ShowsRetry(f, run) then
              c.substate == match f.retry.value.value
                            case Pending => "retry_pending"
                            case Retrying => "retrying"
                            case Exhausted => "retry_exhausted"
                            case BlockedRetry => "retry_blocked"
            else Named(f, run, js, c.substate)
  {
    hide CardOf, RunCard, StateCard, DeliveryCard, RepositoryUnderstood, Column, Asks, ProjectedState, Named;
    CardIsOfRun(f, run, js);
    CardMeans(f, js);
    RunCardMeans(f, run, js);
    CardIsCoherent(f, js);
    OutcomeIsSubstate(CardOf(f, js));
    StageStandsConsistent(f, run, js);
    var c := StateCard(f, run, ProjectedState(f, run.state), js);
    Overlaid(f, run, js);
    if c.outcome.None? { StageNamed(f, run, js); }
  }

  lemma OutcomeIsSubstate(c: Card)
    requires Coherent(c)
    ensures c.outcome.Some? ==> c.substate == c.outcome.value
  {
  }

  lemma StageStandsConsistent(f: Facts, run: Run, js: seq<Judgement>)
    requires |js| == |f.repositories| && RunEvidence(f, run, js)
    ensures var c := StateCard(f, run, ProjectedState(f, run.state), js); c.consistent && c.attention != UnknownAttention
  {
    hide StateCard, ProjectedState;
    StageStands(f, run, js);
  }

  /** What gate and retry write over a consistent stage. */
  lemma Overlaid(f: Facts, run: Run, js: seq<Judgement>)
    requires |js| == |f.repositories| && RunCard(f, run, js).consistent
    ensures var c := StateCard(f, run, ProjectedState(f, run.state), js);
            RunCard(f, run, js).substate ==
            if f.gate then "waiting_gate" else if ShowsRetry(f, run) then RetryName(f.retry.value.value) else c.substate
  {
    hide StateCard, LineageError, ProjectedState, RetryName;
  }

  // ---- Reasons -------------------------------------------------------------------------------

  /** Where a Run stands is also the one reason it gives, if it asks for a person. */
  predicate OneReason(c: Card) { c.reasons == if c.attention.Required? then [c.substate] else [] }

  lemma StageOneReason(f: Facts, run: Run, js: seq<Judgement>)
    requires |js| == |f.repositories| && Lineage(f, run) && StageEvidence(f, run, js) && !Delivered(f, run)
    requires !run.state.Draft? && !run.state.Ready?
    requires StateCard(f, run, ProjectedState(f, run.state), js).consistent
    ensures OneReason(StateCard(f, run, ProjectedState(f, run.state), js))
  {
    hide PreparationOf, AcceptedCard, RevisionCard, ReviewCard, CancelledCard, CompletedCard, StageEvidence, Lineage, WaitingCard;
    RevisionOneReason(f);
    ReviewOneReason(f);
    EndOneReason(f);
  }

  lemma RevisionOneReason(f: Facts)
    ensures RevisionCard(f).consistent ==> OneReason(RevisionCard(f))
  {
  }

  lemma ReviewOneReason(f: Facts)
    ensures ReviewCard(f).consistent ==> OneReason(ReviewCard(f))
  {
  }

  lemma EndOneReason(f: Facts)
    ensures OneReason(CancelledCard(f)) && (CompletedCard(f).consistent ==> OneReason(CompletedCard(f)))
  {
    hide NoChangeEvidence;
  }

  /** Work that is neither delivered nor waiting for its start gives one reason, its retry's if that is shown; a gate adds its own. */
  lemma ReasonsMean(f: Facts, run: Run, js: seq<Judgement>)
    requires |js| == |f.repositories| && f.run == Some(run) && CardOf(f, js).consistent && !Delivered(f, run)
    requires ShowsRetry(f, run) || (!run.state.Draft? && !run.state.Ready?)
    ensures var c := CardOf(f, js);
            if f.gate then c.reasons != [] && c.reasons[|c.reasons| - 1] == "blocking_gate" && |c.reasons| <= 2 else OneReason(c)
  {
    hide CardOf, RunCard, StateCard, RepositoryUnderstood, Column, Asks, ProjectedState, StageAsks, StageEvidence, Lineage;
    CardIsOfRun(f, run, js);
    CardMeans(f, js);
    RunCardMeans(f, run, js);
    StageStandsConsistent(f, run, js);
    if !run.state.Draft? && !run.state.Ready? { StageOneReason(f, run, js); }
    OverlaidReasons(f, run, js);
  }

  lemma OverlaidReasons(f: Facts, run: Run, js: seq<Judgement>)
    requires |js| == |f.repositories| && RunCard(f, run, js).consistent
    requires ShowsRetry(f, run) || OneReason(StateCard(f, run, ProjectedState(f, run.state), js))
    requires StateCard(f, run, ProjectedState(f, run.state), js).attention != UnknownAttention
    ensures var c := RunCard(f, run, js);
            if f.gate then c.reasons != [] && c.reasons[|c.reasons| - 1] == "blocking_gate" && |c.reasons| <= 2 else OneReason(c)
  {
    hide StateCard, LineageError, ProjectedState;
  }

  /** What a reason for not placing a card says about the facts of its Run. */
  predicate RunReasonHolds(f: Facts, run: Run, js: seq<Judgement>, code: string) {
    || (code == "invalid_run_lineage" && (!f.runLineage || f.runCount < 1 || f.activeRuns > 1))
    || (code == "invalid_run_counts" && !Over(run.state) && f.activeRuns != 1)
    || (code == "active_predecessor" && Over(run.state) && f.activeRuns != 0)
    || (code == "missing_attempt" && run.attemptNumber > 0 && !f.attempt)
    || (code == "invalid_plan_lineage" && !f.planBound)
    || (code == "closure_with_active_work" && f.closure && Busy(run.state))
    || StageReasonHolds(f, run, js, code)
    || (code == "invalid_retry_evidence" && WatchesRetry(f, run) && f.retry.None?)
    || (code == "gate_with_inactive_run" && f.gate && !run.state.Running?)
  }

  predicate StageReasonHolds(f: Facts, run: Run, js: seq<Judgement>, code: string) {
    || (code == "invalid_review_lineage" && run.state.RevisionRequired? && f.rejection.OtherRejection?)
    || (code == "missing_no_change_evidence" && run.state.Completed? && (!f.resultOutcome.CompletedNoChange? || f.repositories == []))
    || (code == "invalid_no_change_evidence" && run.state.Completed? &&
        exists i :: 0 <= i < |f.repositories| && !ProvenUnchanged(f.repositories[i]))
    || (code == "missing_result_evidence" && run.state.AwaitingReview? && !f.result && !f.verified)
    || (code == "missing_document_evidence" && Delivered(f, run) && f.document && (!f.result || f.repositories != []))
    || (code == "missing_result_evidence" && Delivered(f, run) && f.snapshot && (!f.result || f.repositories == []))
    || (code == "missing_repository_evidence" && Delivered(f, run) && f.snapshot &&
        exists i :: 0 <= i < |f.repositories| && !f.repositories[i].resultPresent)
    || (code == "accepted_without_changed_result" && Delivered(f, run) && f.snapshot && !HasChanges(js))
    || (code == "missing_legacy_delivery_evidence" && Delivered(f, run) && f.patch.NoPatch? && !f.closure)
    || (code == "unknown_apply_state" && Delivered(f, run) && f.patch.OtherPatch?)
  }

  predicate ReasonHolds(f: Facts, js: seq<Judgement>, code: string) {
    || (f.invalid != "" && code == f.invalid)
    || (code == "invalid_scope" && !f.scopeValid)
    || (code == "invalid_task_state" && f.task.OtherTask?)
    || (code == "unknown_delivery_mode" && exists i :: 0 <= i < |f.repositories| && f.repositories[i].mode.OtherMode?)
    || (code == "unknown_repository_role" &&
        exists i :: 0 <= i < |f.repositories| && !f.repositories[i].role.WriteRole? && !f.repositories[i].role.ReferenceRole?)
    || (code == "read_only_repository_changed" &&
        exists i :: 0 <= i < |f.repositories| && f.repositories[i].role.ReferenceRole? && f.repositories[i].changed > 0)
    || (code == "missing_run_summary" && f.run.None? && (f.runCount != 0 || f.activeRuns != 0))
    || (code == "missing_end_disposition" && f.run.None? && f.task.Closed?)
    || (code == "invalid_plan_lineage" && f.run.None? && f.planning.OtherPlanning?)
    || (f.run.Some? && RunReasonHolds(f, f.run.value, js, code))
  }

  lemma {:induction false} ScopeReason(f: Facts, repos: seq<Repository>)
    requires ScopeError(f, repos).Some?
    ensures var code := ScopeError(f, repos).value;
            (code == "unknown_delivery_mode" && exists i :: 0 <= i < |repos| && repos[i].mode.OtherMode?) ||
            (code == "unknown_repository_role" && exists i :: 0 <= i < |repos| && !repos[i].role.WriteRole? && !repos[i].role.ReferenceRole?) ||
            (code == "read_only_repository_changed" && exists i :: 0 <= i < |repos| && repos[i].role.ReferenceRole? && repos[i].changed > 0)
  {
    var r := repos[0];
    if !(r.mode.OtherMode? || ((f.snapshot || !r.role.NoRole?) && !r.role.WriteRole? && !r.role.ReferenceRole?) ||
         (r.role.ReferenceRole? && r.changed > 0)) {
      ScopeReason(f, repos[1..]);
      assert forall i :: 0 <= i < |repos| - 1 ==> repos[1..][i] == repos[i + 1];
    }
  }

  lemma DeliveryReason(f: Facts, js: seq<Judgement>)
    requires |js| == |f.repositories| && !DeliveryCard(f, js).consistent
    ensures var reasons := DeliveryCard(f, js).reasons;
            (reasons == ["missing_result_evidence"] && (!f.result || f.repositories == [])) ||
            (reasons == ["missing_repository_evidence"] && exists i :: 0 <= i < |f.repositories| && !f.repositories[i].resultPresent) ||
            (reasons == ["accepted_without_changed_result"] && !HasChanges(js))
  {
    hide Collected, Count, NeedsReview, Changed, WantsReview, Shows, AllClosedUnchanged;
    CountsMean(js);
    CollectedMeans(f.repositories, js);
    ChangedIsSum(js);
  }

  lemma DeliveredReason(f: Facts, run: Run, js: seq<Judgement>)
    requires |js| == |f.repositories| && Delivered(f, run) && !AcceptedCard(f, js).consistent
    ensures var reasons := AcceptedCard(f, js).reasons; |reasons| == 1 && StageReasonHolds(f, run, js, reasons[0])
  {
    hide DeliveryCard, HasChanges, Delivered;
    if !DeliveryCard(f, js).consistent { DeliveryReason(f, js); }
  }

  lemma CompletedReason(f: Facts, run: Run, js: seq<Judgement>)
    requires run.state.Completed? && !CompletedCard(f).consistent
    ensures var reasons := CompletedCard(f).reasons; |reasons| == 1 && StageReasonHolds(f, run, js, reasons[0])
  {
    hide HasChanges, Delivered;
    if exists i :: 0 <= i < |f.repositories| && !NoChangeEvidence(f.repositories[i]) {
      var i :| 0 <= i < |f.repositories| && !NoChangeEvidence(f.repositories[i]);
      assert !ProvenUnchanged(f.repositories[i]);
    }
  }

  lemma StageReason(f: Facts, run: Run, js: seq<Judgement>)
    requires |js| == |f.repositories| && Lineage(f, run) && !StateCard(f, run, ProjectedState(f, run.state), js).consistent
    ensures var reasons := StateCard(f, run, ProjectedState(f, run.state), js).reasons; |reasons| == 1 && StageReasonHolds(f, run, js, reasons[0])
  {
    hide AcceptedCard, CompletedCard, PreparationOf, HasChanges, ProvenUnchanged;
    PreparationMeans(WaitingCard(run), f.repositories);
    if Delivered(f, run) {
      DeliveredReason(f, run, js);
    } else if run.state.Completed? {
      CompletedReason(f, run, js);
    }
  }

  lemma LineageReason(f: Facts, run: Run, js: seq<Judgement>)
    requires LineageError(f, run).Some?
    ensures RunReasonHolds(f, run, js, LineageError(f, run).value)
  {
    hide StageReasonHolds;
  }

  lemma RunReason(f: Facts, run: Run, js: seq<Judgement>)
    requires |js| == |f.repositories| && !RunCard(f, run, js).consistent
    ensures var reasons := RunCard(f, run, js).reasons; |reasons| == 1 && RunReasonHolds(f, run, js, reasons[0])
  {
    hide StateCard, LineageError, ProjectedState, StageReasonHolds;
    LineageMeans(f, run);
    if LineageError(f, run).Some? {
      LineageReason(f, run, js);
    } else if !StateCard(f, run, ProjectedState(f, run.state), js).consistent {
      StageReason(f, run, js);
    }
  }

  /** The one reason shown for not placing a card is true. */
  lemma ReasonIsTrue(f: Facts, js: seq<Judgement>)
    requires |js| == |f.repositories| && !CardOf(f, js).consistent
    ensures |CardOf(f, js).reasons| == 1 && ReasonHolds(f, js, CardOf(f, js).reasons[0])
  {
    hide RunCard, ScopeError, RunReasonHolds;
    if f.invalid == "" && f.scopeValid && !f.task.OtherTask? {
      if ScopeError(f, f.repositories).Some? {
        ScopeReason(f, f.repositories);
      } else if f.run.Some? {
        RunReason(f, f.run.value, js);
      }
    }
  }
}
