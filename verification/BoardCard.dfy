/** The card of one Task on the board: its phase, outcome and health, derived from durable facts. */
module BoardCard {
  import opened Common
  import opened Lifecycle
  import opened BoardDelivery
  import AutomaticRetry

  datatype Phase = Preparing | Working | Reviewing | Delivering | FinishedPhase

  datatype Attention = NoAttention | Required | UnknownAttention

  /** `phase` is absent exactly on an inconsistent card; this is a theorem below, not part of the type. */
  datatype Card = Card(phase: Option<Phase>, substate: string, outcome: Option<string>, consistent: bool, attention: Attention, reasons: seq<string>)

  datatype TaskState = Open | Closed | OtherTask
  datatype PlanningAction = EditPlan | ReviewPlan | StartPlanned | OtherPlanning
  datatype RejectionAction = ContinueSuccessorPlan | OpenRelatedTask | RetryImplementation | OtherRejection
  datatype DocumentStatus = DocumentPending | DocumentAccepted | OtherDocument
  datatype ReviewKind = ReviewAccepted | ReviewRejected | NoReview
  datatype ResultOutcome = ChecksFailed | ChecksIncomplete | CompletedNoChange | OtherOutcome
  datatype PatchState = PatchApplied | PatchApplying | PatchConflict | PatchRecovery | NoPatch | OtherPatch

  datatype Run = Run(state: RunState, attemptNumber: nat, started: bool)

  datatype Facts = Facts(
    invalid: string, scopeValid: bool, task: TaskState, snapshot: bool, repositories: seq<Repository>,
    run: Option<Run>, runCount: nat, activeRuns: nat, runLineage: bool, planning: PlanningAction, rejection: RejectionAction,
    attempt: bool, planBound: bool, openDraft: bool, closure: bool,
    document: bool, documentStatus: DocumentStatus, result: bool, review: ReviewKind, resultOutcome: ResultOutcome,
    verified: bool, verifiedAccepted: bool, patch: PatchState,
    retry: Option<Option<AutomaticRetry.State>>, gate: bool)

  const BLANK := Card(None, "", None, true, NoAttention, [])

  function Reconcile(code: string): Card { Card(None, "needs_reconciliation", None, false, UnknownAttention, [code]) }

  function Set(c: Card, phase: Phase, substate: string): Card { c.(phase := Some(phase), substate := substate) }

  function Attend(c: Card, code: string): Card { c.(attention := Required, reasons := c.reasons + [code]) }

  function Finish(c: Card, outcome: string): Card { Set(c.(outcome := Some(outcome)), FinishedPhase, outcome) }

  // ---- Delivery ------------------------------------------------------------------------------

  function Count(js: seq<Judgement>, d: Disposition): nat {
    if js == [] then 0 else Count(js[..|js| - 1], d) + if js[|js| - 1].disposition == d then 1 else 0
  }

  function Changed(js: seq<Judgement>): nat { Count(js, Merged) + Count(js, AppliedLocally) + Count(js, ClosedOff) + Count(js, StillPending) }

  predicate NeedsReview(js: seq<Judgement>) { exists i :: 0 <= i < |js| && js[i].needsReview }

  predicate Settled(status: string) { status == "delivered" || status == "applied_locally" || status == "closed" }

  /** Reasons collected from failed cleanups, and the last status that still asks for something. */
  function Collected(repos: seq<Repository>, js: seq<Judgement>): Card
    requires |repos| == |js|
  {
    if js == [] then Set(BLANK, Delivering, "pending_apply")
    else
      var n := |js| - 1;
      var before := Collected(repos[..n], js[..n]);
      if repos[n].changed == 0 then before
      else
        var c := if js[n].cleanupFailed then Attend(before, "cleanup_failed") else before;
        if Settled(js[n].status) then c else c.(substate := js[n].status)
  }

  function DeliveryOf(f: Facts, c: Card, js: seq<Judgement>): Card {
    var merged, applied, closed := Count(js, Merged), Count(js, AppliedLocally), Count(js, ClosedOff);
    if NeedsReview(js) then Attend(Set(c, Reviewing, "result_review"), "result_review")
    else if Count(js, StillPending) > 0 then Attend(c, c.substate)
    else if Changed(js) == 0 then
      if f.closure && Count(js, UnchangedClosed) == |js| then Finish(c, "closed") else Reconcile("accepted_without_changed_result")
    else if closed > 0 then Finish(c, if merged + applied > 0 then "partially_delivered_closed" else "closed")
    else if merged > 0 && applied > 0 then Finish(c, "mixed_delivery")
    else Finish(c, if merged > 0 then "delivered" else "applied_locally")
  }

  predicate EvidenceMissing(repos: seq<Repository>) { exists i :: 0 <= i < |repos| && !repos[i].resultPresent }

  /** An accepted result over repositories; `js` are their judgements. */
  function DeliveryCard(f: Facts, js: seq<Judgement>): Card
    requires |js| == |f.repositories|
  {
    if !f.result || f.repositories == [] then Reconcile("missing_result_evidence")
    else if EvidenceMissing(f.repositories) then Reconcile("missing_repository_evidence")
    else DeliveryOf(f, Collected(f.repositories, js), js)
  }

  /** The first judgements, each for some order of visiting the repository's operations. */
  predicate JudgedSoFar(f: Facts, js: seq<Judgement>, orders: seq<seq<OperationKind>>) {
    |js| == |orders| <= |f.repositories| &&
    forall i :: 0 <= i < |js| ==>
      Visits(orders[i], Latest(f.repositories[i].operations)) && js[i] == Judge(f.repositories[i], orders[i], f.review.ReviewAccepted?)
  }

  predicate Judged(f: Facts, js: seq<Judgement>, orders: seq<seq<OperationKind>>) {
    |js| == |f.repositories| && JudgedSoFar(f, js, orders)
  }

  lemma JudgedStep(f: Facts, js: seq<Judgement>, orders: seq<seq<OperationKind>>, j: Judgement,
          order: seq<OperationKind>)
    requires JudgedSoFar(f, js, orders) && |js| < |f.repositories|
    requires Visits(order, Latest(f.repositories[|js|].operations)) && j == Judge(f.repositories[|js|], order, f.review.ReviewAccepted?)
    ensures JudgedSoFar(f, js + [j], orders + [order])
  {
    hide Visits, Judge, Latest;
  }

  datatype Totals = Totals(merged: nat, applied: nat, closed: nat, pending: nat, closedNoChange: nat, needsReview: bool)

  predicate Totalled(t: Totals, js: seq<Judgement>) {
    t.merged == Count(js, Merged) && t.applied == Count(js, AppliedLocally) && t.closed == Count(js, ClosedOff) &&
    t.pending == Count(js, StillPending) && t.closedNoChange == Count(js, UnchangedClosed) && (t.needsReview <==> NeedsReview(js))
  }

  function TotalsStep(t: Totals, j: Judgement): Totals {
    var t' := t.(needsReview := t.needsReview || j.needsReview);
    match j.disposition
    case Unchanged => t'
    case UnchangedClosed => t'.(closedNoChange := t.closedNoChange + 1)
    case Merged => t'.(merged := t.merged + 1)
    case AppliedLocally => t'.(applied := t.applied + 1)
    case ClosedOff => t'.(closed := t.closed + 1)
    case StillPending => t'.(pending := t.pending + 1)
  }

  lemma TotalsExact(t: Totals, js: seq<Judgement>, j: Judgement)
    requires Totalled(t, js)
    ensures Totalled(TotalsStep(t, j), js + [j])
  {
    CountStep(js, j);
  }

  lemma CountStep(js: seq<Judgement>, j: Judgement)
    ensures forall d :: Count(js + [j], d) == Count(js, d) + (if j.disposition == d then 1 else 0)
    ensures NeedsReview(js + [j]) <==> NeedsReview(js) || j.needsReview
  {
    assert (js + [j])[..|js|] == js;
    assert forall i :: 0 <= i < |js| ==> (js + [j])[i] == js[i];
    if NeedsReview(js) {
      var i :| 0 <= i < |js| && js[i].needsReview;
      assert (js + [j])[i].needsReview;
    }
    if j.needsReview { assert (js + [j])[|js|].needsReview; }
  }

  /** Goes through the repositories once; None when one of them has no result. */
  method Aggregate(f: Facts) returns (r: Option<Totals>, c: Card, ghost js: seq<Judgement>,
          ghost orders: seq<seq<OperationKind>>)
    ensures r.None? <==> EvidenceMissing(f.repositories)
    ensures r.Some? ==> Judged(f, js, orders) && Totalled(r.value, js) && c == Collected(f.repositories, js)
  {
    hide Judge, Latest, Visits, Totalled, JudgedSoFar, TotalsStep;
    c, js, orders := Set(BLANK, Delivering, "pending_apply"), [], [];
    var t := Totals(0, 0, 0, 0, 0, false);
    NothingTotalled(f);
    for i := 0 to |f.repositories|
      invariant forall k :: 0 <= k < i ==> f.repositories[k].resultPresent
      invariant |js| == i && JudgedSoFar(f, js, orders) && Totalled(t, js) && c == Collected(f.repositories[..i], js)
    {
      var repository := f.repositories[i];
      if !repository.resultPresent { return None, c, js, orders; }
      var j, order := JudgeRepository(repository, f.review.ReviewAccepted?);
      JudgedStep(f, js, orders, j, order);
      TotalsExact(t, js, j);
      assert f.repositories[..i + 1][..i] == f.repositories[..i] && (js + [j])[..i] == js;
      if repository.changed != 0 {
        if j.cleanupFailed { c := Attend(c, "cleanup_failed"); }
        if !Settled(j.status) { c := c.(substate := j.status); }
      }
      t, js, orders := TotalsStep(t, j), js + [j], orders + [order];
    }
    assert f.repositories[..|f.repositories|] == f.repositories;
    r := Some(t);
  }

  lemma NothingTotalled(f: Facts)
    ensures Totalled(Totals(0, 0, 0, 0, 0, false), []) && JudgedSoFar(f, [], [])
  {
  }

  method DeriveDelivery(f: Facts) returns (c: Card, ghost js: seq<Judgement>, ghost orders: seq<seq<OperationKind>>)
    ensures MayDeliver(f, c) && Judged(f, js, orders) && c == DeliveryCard(f, js)
  {
    hide Judge, Latest, Visits, JudgedSoFar, Collected;
    js, orders := JudgeAll(f);
    if !f.result || f.repositories == [] { return Reconcile("missing_result_evidence"), js, orders; }
    ghost var js', orders';
    var totals;
    totals, c, js', orders' := Aggregate(f);
    if totals.None? { return Reconcile("missing_repository_evidence"), js, orders; }
    js, orders := js', orders';
    var t := totals.value;
    if t.needsReview {
      c := Attend(Set(c, Reviewing, "result_review"), "result_review");
    } else if t.pending > 0 {
      c := Attend(c, c.substate);
    } else if t.merged + t.applied + t.closed == 0 {
      if f.closure && t.closedNoChange == |f.repositories| { c := Finish(c, "closed"); } else { c := Reconcile("accepted_without_changed_result"); }
    } else if t.closed > 0 {
      c := Finish(c, if t.merged + t.applied > 0 then "partially_delivered_closed" else "closed");
    } else if t.merged > 0 && t.applied > 0 {
      c := Finish(c, "mixed_delivery");
    } else {
      c := Finish(c, if t.merged > 0 then "delivered" else "applied_locally");
    }
  }

  lemma JudgeAll(f: Facts) returns (js: seq<Judgement>, orders: seq<seq<OperationKind>>)
    ensures Judged(f, js, orders)
  {
    js, orders := [], [];
    for i := 0 to |f.repositories|
      invariant |js| == i && JudgedSoFar(f, js, orders)
    {
      var order := SomeOrder(Latest(f.repositories[i].operations).Keys);
      var j := Judge(f.repositories[i], order, f.review.ReviewAccepted?);
      JudgedStep(f, js, orders, j, order);
      js, orders := js + [j], orders + [order];
    }
  }

  // ---- What a delivery outcome means ---------------------------------------------------------

  /** A repository with changes: merged into its target, with the merge commit known. */
  predicate MergedWithProof(r: Repository) { exists i :: 0 <= i < |r.operations| && MergeProof(r.operations[i]) }

  lemma {:induction false} CountNone(js: seq<Judgement>, d: Disposition)
    ensures Count(js, d) == 0 <==> forall i :: 0 <= i < |js| ==> js[i].disposition != d
  {
    if js != [] {
      var n := |js| - 1;
      CountNone(js[..n], d);
      assert forall i :: 0 <= i < n ==> js[..n][i] == js[i];
    }
  }

  lemma {:induction false} CollectedUnfinished(repos: seq<Repository>, js: seq<Judgement>)
    requires |repos| == |js|
    ensures Collected(repos, js).outcome.None? && Collected(repos, js).consistent && Collected(repos, js).phase == Some(Delivering)
  {
    if js != [] { CollectedUnfinished(repos[..|repos| - 1], js[..|js| - 1]); }
  }

  predicate Decided(f: Facts, js: seq<Judgement>) {
    f.result && f.repositories != [] && !EvidenceMissing(f.repositories) && !NeedsReview(js) && Count(js, StillPending) == 0
  }

  /** Each outcome is reached exactly when these repositories exist, and no others with changes. */
  lemma OutcomeByCounts(f: Facts, js: seq<Judgement>)
    requires |js| == |f.repositories|
    ensures var outcome := DeliveryCard(f, js).outcome;
            var merged, applied, closed := Count(js, Merged), Count(js, AppliedLocally), Count(js, ClosedOff);
            (outcome == Some("delivered") <==> Decided(f, js) && merged > 0 && applied == 0 && closed == 0) &&
            (outcome == Some("applied_locally") <==> Decided(f, js) && merged == 0 && applied > 0 && closed == 0) &&
            (outcome == Some("mixed_delivery") <==> Decided(f, js) && merged > 0 && applied > 0 && closed == 0) &&
            (outcome == Some("partially_delivered_closed") <==> Decided(f, js) && merged + applied > 0 && closed > 0) &&
            (outcome == Some("closed") <==>
              Decided(f, js) && merged + applied == 0 && (closed > 0 || (f.closure && Count(js, UnchangedClosed) == |js|)))
  {
    hide Collected, Count, NeedsReview, EvidenceMissing;
    CollectedUnfinished(f.repositories, js);
  }

  /**
   Merged, applied, closed and pending partition the changed repositories, and the outcome says which of
   them there are, whatever order the operations are visited in.
   */
  lemma {:induction false} OutcomeMeans(f: Facts, js: seq<Judgement>, orders: seq<seq<OperationKind>>)
    requires Judged(f, js, orders)
    ensures Count(js, Merged) + Count(js, AppliedLocally) + Count(js, ClosedOff) + Count(js, StillPending) == ChangedIn(f.repositories)
    ensures var outcome := DeliveryCard(f, js).outcome;
            (outcome == Some("delivered") ==>
              ChangedIn(f.repositories) > 0 &&
              forall i :: 0 <= i < |js| && f.repositories[i].changed != 0 ==> MergedWithProof(f.repositories[i])) &&
            (outcome == Some("applied_locally") ==>
              ChangedIn(f.repositories) > 0 &&
              forall i :: 0 <= i < |js| && f.repositories[i].changed != 0 ==> f.repositories[i].apply.Applied? && !MergedWithProof(f.repositories[i])) &&
            (outcome == Some("mixed_delivery") ==>
              forall i :: 0 <= i < |js| && f.repositories[i].changed != 0 ==> MergedWithProof(f.repositories[i]) || f.repositories[i].apply.Applied?) &&
            (outcome == Some("closed") ==>
              forall i :: 0 <= i < |js| && f.repositories[i].changed != 0 ==> f.repositories[i].closed && !MergedWithProof(f.repositories[i])) &&
            (outcome == Some("partially_delivered_closed") ==>
              forall i :: 0 <= i < |js| && f.repositories[i].changed != 0 ==>
                MergedWithProof(f.repositories[i]) || f.repositories[i].apply.Applied? || f.repositories[i].closed)
  {
    hide Judge, Latest, Visits, DeliveryCard, Count, NeedsReview, EvidenceMissing;
    OutcomeByCounts(f, js);
    ChangedCounted(f, js, orders, |js|);
    assert js[..|js|] == js && f.repositories[..|js|] == f.repositories;
    forall i | 0 <= i < |js|
      ensures Means(f.repositories[i], js[i].disposition)
    {
      JudgementMeans(f.repositories[i], orders[i], f.review.ReviewAccepted?);
    }
    CountNone(js, Merged);
    CountNone(js, AppliedLocally);
    CountNone(js, ClosedOff);
    CountNone(js, StillPending);
  }

  predicate Means(r: Repository, d: Disposition) {
    ((d.Unchanged? || d.UnchangedClosed?) <==> r.changed == 0) && (d.Merged? <==> r.changed != 0 && MergedWithProof(r)) &&
    (d.AppliedLocally? ==> r.apply.Applied?) && (d.ClosedOff? || d.UnchangedClosed? ==> r.closed)
  }

  function ChangedIn(repos: seq<Repository>): nat {
    if repos == [] then 0 else ChangedIn(repos[..|repos| - 1]) + if repos[|repos| - 1].changed != 0 then 1 else 0
  }

  lemma {:induction false} ChangedCounted(f: Facts, js: seq<Judgement>, orders: seq<seq<OperationKind>>, n: nat)
    requires Judged(f, js, orders) && n <= |js|
    ensures Changed(js[..n]) == ChangedIn(f.repositories[..n])
  {
    hide Judge, Latest, Visits;
    if n > 0 {
      ChangedCounted(f, js, orders, n - 1);
      assert js[..n][..n - 1] == js[..n - 1] && f.repositories[..n][..n - 1] == f.repositories[..n - 1];
      JudgementMeans(f.repositories[n - 1], orders[n - 1], f.review.ReviewAccepted?);
    }
  }

  // ---- The whole card ------------------------------------------------------------------------

  /** The first repository whose mode, role or changes the board does not understand. */
  function ScopeError(f: Facts, repos: seq<Repository>): Option<string> {
    if repos == [] then None
    else
      var r := repos[0];
      if r.mode.OtherMode? then Some("unknown_delivery_mode")
      else if (f.snapshot || !r.role.NoRole?) && !r.role.WriteRole? && !r.role.ReferenceRole? then Some("unknown_repository_role")
      else if r.role.ReferenceRole? && r.changed > 0 then Some("read_only_repository_changed")
      else ScopeError(f, repos[1..])
  }

  function PlanningCard(f: Facts): Card {
    if f.runCount != 0 || f.activeRuns != 0 then Reconcile("missing_run_summary")
    else if f.task.Closed? then Reconcile("missing_end_disposition")
    else
      match f.planning
      case EditPlan => Set(BLANK, Preparing, "editing_plan")
      case ReviewPlan => Attend(Set(BLANK, Preparing, "plan_review"), "plan_review")
      case StartPlanned => Set(BLANK, Preparing, "ready_to_start")
      case OtherPlanning => Reconcile("invalid_plan_lineage")
  }

  predicate Terminal(s: RunState) { s.Accepted? || s.Cancelled? || s.Completed? }

  predicate ActiveWork(s: RunState) {
    s.Running? || s.Stopping? || s.Ready? || s.Draft? || s.AwaitingVerification? || s.Verifying?
  }

  function LineageError(f: Facts, run: Run): Option<string> {
    if !f.runLineage || f.runCount < 1 || f.activeRuns > 1 then Some("invalid_run_lineage")
    else if !Terminal(run.state) && f.activeRuns != 1 then Some("invalid_run_counts")
    else if f.activeRuns != 0 && Terminal(run.state) then Some("active_predecessor")
    else if run.attemptNumber > 0 && !f.attempt then Some("missing_attempt")
    else if !f.planBound then Some("invalid_plan_lineage")
    else if f.closure && ActiveWork(run.state) then Some("closure_with_active_work")
    else None
  }

  function PreparationStep(c: Card, r: Repository): Card {
    if r.preparation.PreparationFailed? || r.preparation.PreparationRecovery? then
      Attend(c.(substate := "resource_preparation_failed"), "resource_preparation_failed")
    else if r.role.WriteRole? && !r.preparation.Prepared? then c.(substate := "resource_preparation")
    else c
  }

  function PreparationOf(c: Card, repos: seq<Repository>): Card {
    if repos == [] then c else PreparationStep(PreparationOf(c, repos[..|repos| - 1]), repos[|repos| - 1])
  }

  predicate NoChangeEvidence(r: Repository) {
    r.resultPresent && r.changed == 0 && (r.checks.ChecksNone? || r.checksNotApplicable || r.checksPassed)
  }

  function RevisionCard(f: Facts): Card {
    if f.document && f.result && f.documentStatus.DocumentPending? then Attend(Set(BLANK, Reviewing, "document_review"), "document_review")
    else if f.document && f.result && f.documentStatus.DocumentAccepted? then Finish(BLANK, "document_accepted")
    else if f.result && (f.review.ReviewRejected? || f.resultOutcome.ChecksFailed? || f.resultOutcome.ChecksIncomplete?) then
      Attend(Set(BLANK, Working, "changes_requested"), "changes_requested")
    else
      match f.rejection
      case ContinueSuccessorPlan => Attend(Set(BLANK, Preparing, "replanning"), "replanning")
      case OpenRelatedTask => Attend(Set(BLANK, Working, "related_task"), "related_task")
      case RetryImplementation => Attend(Set(BLANK, Working, "changes_requested"), "changes_requested")
      case OtherRejection => Reconcile("invalid_review_lineage")
  }

  function LegacyCard(f: Facts): Card {
    var c := Set(BLANK, Delivering, "pending_apply");
    match f.patch
    case PatchApplied => Finish(c, "applied_locally")
    case PatchApplying => Set(c, Delivering, "applying")
    case PatchConflict => Attend(c, "apply_recovery")
    case PatchRecovery => Attend(c, "apply_recovery")
    case NoPatch =>
      if f.closure then Finish(c, "closed")
      else if f.verifiedAccepted && f.verified then Attend(c, "pending_apply")
      else Reconcile("missing_legacy_delivery_evidence")
    case OtherPatch => Reconcile("unknown_apply_state")
  }

  function AcceptedCard(f: Facts, js: seq<Judgement>): Card
    requires |js| == |f.repositories|
  {
    if f.document then
      if !f.result || f.repositories != [] then Reconcile("missing_document_evidence")
      else if f.documentStatus.DocumentAccepted? then Finish(BLANK, "document_accepted")
      else Attend(Set(BLANK, Reviewing, "document_review"), "document_review")
    else if f.snapshot then DeliveryCard(f, js)
    else LegacyCard(f)
  }

  /** A closed Result without a new draft is delivered work, whatever state its Run was left in. */
  function ProjectedState(f: Facts, s: RunState): RunState {
    if f.closure && !f.openDraft && (s.AwaitingReview? || s.RecoveryRequired? || s.RevisionRequired?) then Accepted else s
  }

  function ReviewCard(f: Facts): Card {
    if !f.result && !f.verified then Reconcile("missing_result_evidence") else Attend(Set(BLANK, Reviewing, "result_review"), "result_review")
  }

  function CancelledCard(f: Facts): Card {
    if f.task.Closed? && f.activeRuns == 0 then Finish(BLANK, "cancelled") else Attend(Set(BLANK, Working, "stopped"), "stopped")
  }

  function CompletedCard(f: Facts): Card {
    if !f.resultOutcome.CompletedNoChange? || f.repositories == [] then Reconcile("missing_no_change_evidence")
    else if exists i :: 0 <= i < |f.repositories| && !NoChangeEvidence(f.repositories[i]) then Reconcile("invalid_no_change_evidence")
    else Finish(BLANK, "no_change")
  }

  function StateCard(f: Facts, run: Run, state: RunState, js: seq<Judgement>): Card
    requires |js| == |f.repositories|
  {
    match state
    case Draft => PreparationOf(WaitingCard(run), f.repositories)
    case Ready => PreparationOf(WaitingCard(run), f.repositories)
    case Running => Set(BLANK, Working, "executing")
    case Stopping => Set(BLANK, Working, "stopping")
    case AwaitingVerification => Set(BLANK, Working, "awaiting_verification")
    case Verifying => Set(BLANK, Working, "verifying")
    case RecoveryRequired => Attend(Set(BLANK, Working, "recovery_required"), "recovery_required")
    case VerificationRecoveryRequired => Attend(Set(BLANK, Working, "verification_recovery_required"), "verification_recovery_required")
    case RevisionRequired => RevisionCard(f)
    case AwaitingReview => ReviewCard(f)
    case Cancelled => CancelledCard(f)
    case Completed => CompletedCard(f)
    case Accepted => AcceptedCard(f, js)
  }

  function WaitingCard(run: Run): Card {
    if run.attemptNumber > 1 || run.started then Set(BLANK, Working, "waiting_retry") else Set(BLANK, Preparing, "ready_to_start")
  }

  function RetryName(s: AutomaticRetry.State): string {
    match s
    case Pending => "retry_pending"
    case Retrying => "retrying"
    case Exhausted => "retry_exhausted"
    case BlockedRetry => "retry_blocked"
  }

  predicate AsksForRetry(f: Facts, run: Run) {
    !f.closure && (run.state.RecoveryRequired? || run.state.Ready? || run.state.Running? || run.state.Stopping?)
  }

  /** The retry projection: None when its evidence is malformed. */
  function RetryCard(f: Facts, run: Run, c: Card): Card {
    if !AsksForRetry(f, run) then c
    else if f.retry.None? then Reconcile("invalid_retry_evidence")
    else if f.retry.value.None? then c
    else
      var state := f.retry.value.value;
      var quiet := c.(substate := RetryName(state), attention := NoAttention, reasons := []);
      if state.Pending? || state.Retrying? then quiet else Attend(quiet, RetryName(state))
  }

  function GateCard(f: Facts, run: Run, c: Card): Card {
    if !f.gate then c
    else if !run.state.Running? then Reconcile("gate_with_inactive_run")
    else Attend(c.(substate := "waiting_gate"), "blocking_gate")
  }

  function RunCard(f: Facts, run: Run, js: seq<Judgement>): Card
    requires |js| == |f.repositories|
  {
    var error := LineageError(f, run);
    if error.Some? then Reconcile(error.value)
    else
      var c := StateCard(f, run, ProjectedState(f, run.state), js);
      if !c.consistent then c
      else
        var retried := RetryCard(f, run, c);
        if !retried.consistent then retried else GateCard(f, run, retried)
  }

  /** The card, given how each repository was judged. */
  function CardOf(f: Facts, js: seq<Judgement>): Card
    requires |js| == |f.repositories|
  {
    var scope := ScopeError(f, f.repositories);
    if f.invalid != "" then Reconcile(f.invalid)
    else if !f.scopeValid then Reconcile("invalid_scope")
    else if f.task.OtherTask? then Reconcile("invalid_task_state")
    else if scope.Some? then Reconcile(scope.value)
    else match f.run case None => PlanningCard(f) case Some(run) => RunCard(f, run, js)
  }

  method CheckScope(f: Facts) returns (error: Option<string>)
    ensures error == ScopeError(f, f.repositories)
  {
    assert f.repositories[0..] == f.repositories;
    for i := 0 to |f.repositories|
      invariant ScopeError(f, f.repositories) == ScopeError(f, f.repositories[i..])
    {
      assert f.repositories[i..][1..] == f.repositories[i + 1..];
      var r := f.repositories[i];
      if r.mode.OtherMode? { return Some("unknown_delivery_mode"); }
      if (f.snapshot || !r.role.NoRole?) && !r.role.WriteRole? && !r.role.ReferenceRole? { return Some("unknown_repository_role"); }
      if r.role.ReferenceRole? && r.changed > 0 { return Some("read_only_repository_changed"); }
    }
    error := None;
  }

  method ShowPreparation(start: Card, repos: seq<Repository>) returns (c: Card)
    ensures c == PreparationOf(start, repos)
  {
    c := start;
    for i := 0 to |repos|
      invariant c == PreparationOf(start, repos[..i])
    {
      assert repos[..i + 1][..i] == repos[..i];
      var r := repos[i];
      if r.preparation.PreparationFailed? || r.preparation.PreparationRecovery? {
        c := Attend(c.(substate := "resource_preparation_failed"), "resource_preparation_failed");
      } else if r.role.WriteRole? && !r.preparation.Prepared? {
        c := c.(substate := "resource_preparation");
      }
    }
    assert repos[..|repos|] == repos;
  }

  method ShowState(f: Facts, run: Run, state: RunState) returns (c: Card, ghost js: seq<Judgement>,
          ghost orders: seq<seq<OperationKind>>)
    ensures Judged(f, js, orders) && c == StateCard(f, run, state, js)
  {
    hide Judged, DeliveryCard, PreparationOf;
    js, orders := JudgeAll(f);
    JudgedLength(f, js, orders);
    if state.Draft? || state.Ready? {
      c := ShowPreparation(WaitingCard(run), f.repositories);
    } else if state.Accepted? && !f.document && f.snapshot {
      c, js, orders := DeriveDelivery(f);
      JudgedLength(f, js, orders);
    } else {
      c := StateCard(f, run, state, seq(|f.repositories|, i => Judgement(Unchanged, "no_change", false, false)));
      JudgementsUnused(f, run, state, js, seq(|f.repositories|, i => Judgement(Unchanged, "no_change", false, false)));
    }
  }

  lemma JudgementsUnused(f: Facts, run: Run, state: RunState, js: seq<Judgement>, js': seq<Judgement>)
    requires |js| == |js'| == |f.repositories| && !(state.Accepted? && !f.document && f.snapshot)
    ensures StateCard(f, run, state, js) == StateCard(f, run, state, js')
  {
  }

  lemma JudgedLength(f: Facts, js: seq<Judgement>, orders: seq<seq<OperationKind>>)
    requires Judged(f, js, orders)
    ensures |js| == |f.repositories|
  {
  }

  /** A card the facts may lead to, for some orders of visiting the operations. */
  ghost predicate MayShow(f: Facts, c: Card) { exists js, orders :: Judged(f, js, orders) && c == CardOf(f, js) }

  /** The same for the delivery part alone. */
  ghost predicate MayDeliver(f: Facts, c: Card) { exists js, orders :: Judged(f, js, orders) && c == DeliveryCard(f, js) }

  method DeriveCard(f: Facts) returns (c: Card, ghost js: seq<Judgement>, ghost orders: seq<seq<OperationKind>>)
    ensures MayShow(f, c) && Judged(f, js, orders) && c == CardOf(f, js)
  {
    hide Judged, StateCard, ScopeError, RetryCard, LineageError;
    js, orders := JudgeAll(f);
    JudgedLength(f, js, orders);
    var scope := CheckScope(f);
    if f.invalid != "" { return Reconcile(f.invalid), js, orders; }
    if !f.scopeValid { return Reconcile("invalid_scope"), js, orders; }
    if f.task.OtherTask? { return Reconcile("invalid_task_state"), js, orders; }
    if scope.Some? { return Reconcile(scope.value), js, orders; }
    if f.run.None? { return PlanningCard(f), js, orders; }
    var run := f.run.value;
    var error := LineageError(f, run);
    if error.Some? { return Reconcile(error.value), js, orders; }
    c, js, orders := ShowState(f, run, ProjectedState(f, run.state));
    JudgedLength(f, js, orders);
    if !c.consistent { return; }
    c := RetryCard(f, run, c);
    if !c.consistent { return; }
    c := GateCard(f, run, c);
  }

  /** Phase, outcome, health and attention never contradict each other. */
  predicate Coherent(c: Card) {
    (c.outcome.Some? <==> c.phase == Some(FinishedPhase)) && (c.phase.None? <==> !c.consistent) &&
    (c.outcome.Some? ==> c.substate == c.outcome.value) &&
    (!c.consistent ==> c.attention.UnknownAttention? && c.substate == "needs_reconciliation") &&
    (c.attention.Required? ==> c.reasons != []) && (c.attention.UnknownAttention? ==> !c.consistent)
  }

  lemma {:induction false} PreparationCoherent(c: Card, repos: seq<Repository>)
    requires Coherent(c) && c.outcome.None? && c.consistent
    ensures Coherent(PreparationOf(c, repos)) && PreparationOf(c, repos).outcome.None? && PreparationOf(c, repos).consistent
  {
    if repos != [] { PreparationCoherent(c, repos[..|repos| - 1]); }
  }

  lemma {:induction false} CollectedCoherent(repos: seq<Repository>, js: seq<Judgement>)
    requires |repos| == |js|
    ensures Coherent(Collected(repos, js))
  {
    CollectedUnfinished(repos, js);
    if js != [] {
      CollectedUnfinished(repos[..|repos| - 1], js[..|js| - 1]);
      CollectedCoherent(repos[..|repos| - 1], js[..|js| - 1]);
    }
  }

  lemma DeliveryCoherent(f: Facts, js: seq<Judgement>)
    requires |js| == |f.repositories|
    ensures Coherent(DeliveryCard(f, js))
  {
    hide Collected, Count, NeedsReview, EvidenceMissing;
    CollectedUnfinished(f.repositories, js);
    CollectedCoherent(f.repositories, js);
  }

  lemma RevisionCoherent(f: Facts)
    ensures Coherent(RevisionCard(f))
  {
  }

  lemma AcceptedCoherent(f: Facts, js: seq<Judgement>)
    requires |js| == |f.repositories|
    ensures Coherent(AcceptedCard(f, js))
  {
    hide DeliveryCard, LegacyCard;
    DeliveryCoherent(f, js);
    LegacyCoherent(f);
  }

  lemma LegacyCoherent(f: Facts)
    ensures Coherent(LegacyCard(f))
  {
  }

  lemma WaitingCoherent(f: Facts, run: Run)
    ensures Coherent(PreparationOf(WaitingCard(run), f.repositories)) && PreparationOf(WaitingCard(run), f.repositories).outcome.None?
  {
    PreparationCoherent(WaitingCard(run), f.repositories);
  }

  lemma PlainCoherent()
    ensures forall phase: Phase, substate :: !phase.FinishedPhase? ==>
              Coherent(Set(BLANK, phase, substate)) && Set(BLANK, phase, substate).outcome.None? &&
              forall code :: Coherent(Attend(Set(BLANK, phase, substate), code)) && Attend(Set(BLANK, phase, substate), code).outcome.None?
    ensures forall outcome :: Coherent(Finish(BLANK, outcome))
    ensures forall code :: Coherent(Reconcile(code))
  {
  }

  lemma SettledCoherent(f: Facts)
    ensures Coherent(ReviewCard(f)) && Coherent(CancelledCard(f)) && Coherent(CompletedCard(f))
  {
    hide Coherent, Set, Attend, Finish, Reconcile, NoChangeEvidence;
    PlainCoherent();
  }

  lemma StateCoherent(f: Facts, run: Run, state: RunState, js: seq<Judgement>)
    requires |js| == |f.repositories|
    ensures Coherent(StateCard(f, run, state, js))
    ensures ActiveWork(state) || state.RecoveryRequired? ==> StateCard(f, run, state, js).outcome.None?
  {
    hide AcceptedCard, RevisionCard, PreparationOf, ReviewCard, CancelledCard, CompletedCard, Coherent, Set, Attend,
         Finish, Reconcile;
    PlainCoherent();
    SettledCoherent(f);
    WaitingCoherent(f, run);
    AcceptedCoherent(f, js);
    RevisionCoherent(f);
  }

  lemma RetryCoherent(f: Facts, run: Run, c: Card)
    requires Coherent(c) && c.consistent && (AsksForRetry(f, run) || run.state.Running? ==> c.outcome.None?)
    ensures Coherent(RetryCard(f, run, c)) && (run.state.Running? ==> RetryCard(f, run, c).outcome.None?)
  {
    hide RetryName;
  }

  lemma GateCoherent(f: Facts, run: Run, c: Card)
    requires Coherent(c) && c.consistent && (run.state.Running? ==> c.outcome.None?)
    ensures Coherent(GateCard(f, run, c))
  {
  }

  lemma RunCoherent(f: Facts, run: Run, js: seq<Judgement>)
    requires |js| == |f.repositories|
    ensures Coherent(RunCard(f, run, js))
  {
    hide StateCard, LineageError, RetryCard, GateCard, Coherent;
    ReconcileCoherent();
    if LineageError(f, run).None? {
      var state := ProjectedState(f, run.state);
      var c := StateCard(f, run, state, js);
      StateCoherent(f, run, state, js);
      if c.consistent {
        RetryCoherent(f, run, c);
        if RetryCard(f, run, c).consistent { GateCoherent(f, run, RetryCard(f, run, c)); }
      }
    }
  }

  lemma ReconcileCoherent()
    ensures forall code :: Coherent(Reconcile(code))
  {
  }

  lemma PlanningCoherent(f: Facts)
    ensures Coherent(PlanningCard(f))
  {
  }

  /** On every card: an outcome exactly when finished, no phase exactly when inconsistent. */
  lemma CardIsCoherent(f: Facts, js: seq<Judgement>)
    requires |js| == |f.repositories|
    ensures Coherent(CardOf(f, js))
  {
    hide RunCard, PlanningCard, ScopeError, Coherent;
    ReconcileCoherent();
    PlanningCoherent(f);
    if f.run.Some? { RunCoherent(f, f.run.value, js); }
  }

  /** A card changes with the order of visiting only through an ambivalent repository. */
  lemma {:induction false} CardDetermined(f: Facts, js: seq<Judgement>, orders: seq<seq<OperationKind>>,
          js': seq<Judgement>, orders': seq<seq<OperationKind>>)
    requires Judged(f, js, orders) && Judged(f, js', orders')
    requires forall i :: 0 <= i < |f.repositories| ==> !Ambivalent(f.repositories[i])
    ensures js == js' && CardOf(f, js) == CardOf(f, js')
  {
    hide Judge, Latest, Visits, Ambivalent;
    forall i | 0 <= i < |js|
      ensures js[i] == js'[i]
    {
      OrderDoesNotMatter(f.repositories[i], orders[i], orders'[i], f.review.ReviewAccepted?);
    }
  }

  // ---- What the order of visiting can change -------------------------------------------------

  /** The same judgements, whatever statuses they show. */
  predicate SameButStatus(js: seq<Judgement>, js': seq<Judgement>) {
    |js| == |js'| && forall i :: 0 <= i < |js| ==> js[i].(status := "") == js'[i].(status := "")
  }

  /** The same place on the board: column, outcome, health and attention. */
  predicate SamePlace(c: Card, c': Card) {
    c.phase == c'.phase && c.outcome == c'.outcome && c.consistent == c'.consistent && c.attention == c'.attention
  }

  lemma {:induction false} SameCounts(js: seq<Judgement>, js': seq<Judgement>)
    requires SameButStatus(js, js')
    ensures forall d :: Count(js, d) == Count(js', d)
    ensures NeedsReview(js) <==> NeedsReview(js')
  {
    assert forall i :: 0 <= i < |js| ==> js[i].needsReview == js'[i].needsReview;
    if js != [] {
      var n := |js| - 1;
      SameCounts(js[..n], js'[..n]);
      assert js[n].(status := "").disposition == js'[n].(status := "").disposition;
    }
  }

  lemma {:induction false} CollectedSame(repos: seq<Repository>, js: seq<Judgement>, js': seq<Judgement>)
    requires |repos| == |js| && SameButStatus(js, js')
    ensures SamePlace(Collected(repos, js), Collected(repos, js'))
  {
    if js != [] {
      var n := |js| - 1;
      CollectedSame(repos[..n], js[..n], js'[..n]);
      assert js[n].(status := "").cleanupFailed == js'[n].(status := "").cleanupFailed;
    }
  }

  lemma DeliverySame(f: Facts, js: seq<Judgement>, js': seq<Judgement>)
    requires |js| == |f.repositories| && SameButStatus(js, js')
    ensures SamePlace(DeliveryCard(f, js), DeliveryCard(f, js'))
  {
    hide Collected, Count, NeedsReview, EvidenceMissing;
    SameCounts(js, js');
    CollectedSame(f.repositories, js, js');
  }

  lemma StateSame(f: Facts, run: Run, state: RunState, js: seq<Judgement>, js': seq<Judgement>)
    requires |js| == |f.repositories| && SameButStatus(js, js')
    ensures SamePlace(StateCard(f, run, state, js), StateCard(f, run, state, js'))
  {
    hide DeliveryCard;
    if state.Accepted? { DeliverySame(f, js, js'); } else { JudgementsUnused(f, run, state, js, js'); }
  }

  lemma CardSame(f: Facts, js: seq<Judgement>, js': seq<Judgement>)
    requires |js| == |f.repositories| && SameButStatus(js, js')
    ensures SamePlace(CardOf(f, js), CardOf(f, js'))
  {
    hide StateCard, ScopeError, LineageError, PlanningCard, SameButStatus, ProjectedState, RetryName;
    if f.run.Some? { StateSame(f, f.run.value, ProjectedState(f, f.run.value.state), js, js'); }
  }

  /**
   Column, outcome, health and attention of a card never depend on the order in which operations are
   visited. Nothing but the status of an open repository, and with it the substate, can.
   */
  lemma {:induction false} OutcomeDetermined(f: Facts, js: seq<Judgement>, orders: seq<seq<OperationKind>>,
          js': seq<Judgement>, orders': seq<seq<OperationKind>>)
    requires Judged(f, js, orders) && Judged(f, js', orders')
    requires forall i :: 0 <= i < |f.repositories| ==> QuietOnceClosed(f.repositories[i])
    ensures SamePlace(CardOf(f, js), CardOf(f, js'))
    ensures forall i :: 0 <= i < |js| && f.repositories[i].closed ==> js[i] == js'[i]
  {
    hide Judge, Latest, Visits, Ambivalent, NoPendingDelivery, CardOf, SamePlace;
    forall i | 0 <= i < |js|
      ensures js[i].(status := "") == js'[i].(status := "")
      ensures f.repositories[i].closed ==> js[i] == js'[i]
    {
      var r, accepted := f.repositories[i], f.review.ReviewAccepted?;
      OrderDecidesStatusOnly(r, orders[i], orders'[i], accepted);
      if r.closed {
        QuietIsUnambivalent(r);
        OrderDoesNotMatter(r, orders[i], orders'[i], accepted);
      }
    }
    CardSame(f, js, js');
  }
}
