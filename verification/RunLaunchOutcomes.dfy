/**
 Where the steps of the launch protocol lead: what a Run's state says about its current Attempt, and what
 a stop, an exit, a start or a recovery leaves behind.
 */
module RunLaunchOutcomes {
  import opened Common
  import opened Lifecycle
  import opened RunLaunch
  import opened RunLaunchSafety
  import opened RunLaunchParent

  // ---- The state of a Run and of its current Attempt ---------------------------------------

  /** The Run's work is done and is being verified or reviewed, or was. */
  predicate WorkDone(run: RunState) {
    run in {AwaitingVerification, Verifying, VerificationRecoveryRequired, AwaitingReview, Accepted, Completed}
  }

  predicate Ended(a: Attempt) { a.session.None? || a.session.value.finalized }

  predicate Agrees(st: Store) {
    if st.attempts == [] then st.run.Draft? || st.run.Cancelled?
    else
      var a := st.attempts[Current(st)];
      match st.run
      case Draft => false
      case Ready => a.state.Created?
      case Running => LiveState(a.state) && a.session.Some?
      case Stopping => LiveState(a.state) && a.session.Some?
      case RecoveryRequired => LiveState(a.state) || a.state.Failed? || a.state.Interrupted?
      case RevisionRequired => (a.state.Interrupted? || a.state.OutputSubmitted?) && Ended(a)
      case Cancelled => !LiveState(a.state) && !a.state.OutputSubmitted? && Ended(a)
      case _ => a.state.OutputSubmitted?
  }

  /** Earlier Attempts are out of the way while a Run works. */
  predicate AloneAtWork(st: Store) {
    st.run.Running? || st.run.Stopping? ==> forall i :: 0 <= i < |st.attempts| - 1 ==> !LiveState(st.attempts[i].state)
  }

  predicate AtWork(s: System) {
    match s.op
    case Launching(_) => s.store.run.Running?
    case LaunchReturned(_, _) => s.store.run.Running?
    case OutcomePending(_, _) => s.store.run.Running?
    case StopPending(_, _) => s.store.run.Stopping?
    case StopProven(_, _) => s.store.run.Stopping?
    case StopResolved(_, _, _) => s.store.run.Stopping?
    case RecoverPending(_) => s.store.run.RecoveryRequired?
    case RecoverProven(_) => s.store.run.RecoveryRequired?
    case _ => true
  }

  predicate StoppedIsTerminal(st: Store) {
    forall i :: 0 <= i < |st.attempts| && st.attempts[i].session.Some? && st.attempts[i].session.value.state.SessionStopped? ==>
      st.attempts[i].session.value.terminal
  }

  predicate InStep(s: System) { Agrees(s.store) && AloneAtWork(s.store) && AtWork(s) && StoppedIsTerminal(s.store) }

  lemma PrepareInStep(s: System, a: Action, t: System)
    requires Consistent(s) && InStep(s) && Perform(s, a) == Some(t) && (a.Prepare? || a.BeginStart? || a.RefuseLaunch? || a.SupervisorStart?)
    ensures InStep(t)
  {
    hide HandshakeTx, OutcomeTx, StopTx, MarkStoppedTx, FinishStopTx, ExitTx, RecoverDetectTx, RecoverStopTx,
         MarkFinalizedTx, CancelUnstartedTx, NotesBounded, OperationConsistent;
  }

  lemma OutcomeInStep(s: System, a: Action, t: System)
    requires Consistent(s) && InStep(s) && Perform(s, a) == Some(t) && (a.RecordHandshake? || a.RecordOutcome?)
    ensures InStep(t)
  {
    hide PrepareTx, StartTx, StopTx, MarkStoppedTx, FinishStopTx, ExitTx, RecoverDetectTx, RecoverStopTx,
         MarkFinalizedTx, CancelUnstartedTx, NotesBounded;
  }

  lemma StopInStep(s: System, a: Action, t: System)
    requires Consistent(s) && InStep(s) && Perform(s, a) == Some(t) && (a.RequestStop? || a.ObserveStop?)
    ensures InStep(t)
  {
    hide PrepareTx, StartTx, HandshakeTx, OutcomeTx, MarkStoppedTx, FinishStopTx, ExitTx, RecoverDetectTx, RecoverStopTx,
         MarkFinalizedTx, CancelUnstartedTx, NotesBounded;
  }

  lemma StoppedInStep(s: System, a: Action, t: System)
    requires Consistent(s) && InStep(s) && Perform(s, a) == Some(t) && (a.MarkStopped? || a.FinishStop?)
    ensures InStep(t)
  {
    hide PrepareTx, StartTx, HandshakeTx, OutcomeTx, StopTx, ExitTx, RecoverDetectTx, RecoverStopTx,
         MarkFinalizedTx, CancelUnstartedTx, NotesBounded;
  }

  lemma ExitInStep(s: System, a: Action, t: System)
    requires Consistent(s) && InStep(s) && Perform(s, a) == Some(t)
    requires a.ObserveExit? || a.FinishExit? || a.ReplayFinalize? || a.MarkFinalized?
    ensures InStep(t)
  {
    hide PrepareTx, StartTx, HandshakeTx, OutcomeTx, StopTx, MarkStoppedTx, FinishStopTx, RecoverDetectTx, RecoverStopTx,
         CancelUnstartedTx, NotesBounded;
  }

  lemma RecoveryInStep(s: System, a: Action, t: System)
    requires Consistent(s) && InStep(s) && Perform(s, a) == Some(t) && (a.DetectRecovery? || a.ObserveRecovery? || a.RecoverStop?)
    ensures InStep(t)
  {
    hide PrepareTx, StartTx, HandshakeTx, OutcomeTx, StopTx, MarkStoppedTx, FinishStopTx, ExitTx, MarkFinalizedTx,
         CancelUnstartedTx, NotesBounded;
  }

  lemma OtherInStep(s: System, a: Action, t: System)
    requires Consistent(s) && InStep(s) && Perform(s, a) == Some(t)
    requires a.CancelUnstarted? || a.ReviewStep? || a.ChangeParent? || a.ChildExits? || a.Abort?
    ensures InStep(t)
  {
    hide PrepareTx, StartTx, HandshakeTx, OutcomeTx, StopTx, MarkStoppedTx, FinishStopTx, ExitTx, RecoverDetectTx,
         RecoverStopTx, MarkFinalizedTx, NotesBounded;
  }

  lemma StepInStep(s: System, a: Action, t: System)
    requires Consistent(s) && InStep(s) && Perform(s, a) == Some(t)
    ensures InStep(t)
  {
    hide Consistent, Perform, InStep;
    match a
    case Prepare(_, _) => PrepareInStep(s, a, t);
    case BeginStart(_) => PrepareInStep(s, a, t);
    case RefuseLaunch => PrepareInStep(s, a, t);
    case SupervisorStart(_, _, _) => PrepareInStep(s, a, t);
    case RecordHandshake => OutcomeInStep(s, a, t);
    case RecordOutcome => OutcomeInStep(s, a, t);
    case RequestStop(_, _, _, _) => StopInStep(s, a, t);
    case ObserveStop(_) => StopInStep(s, a, t);
    case MarkStopped => StoppedInStep(s, a, t);
    case FinishStop => StoppedInStep(s, a, t);
    case DetectRecovery => RecoveryInStep(s, a, t);
    case ObserveRecovery => RecoveryInStep(s, a, t);
    case RecoverStop => RecoveryInStep(s, a, t);
    case CancelUnstarted => OtherInStep(s, a, t);
    case ReviewStep(_) => OtherInStep(s, a, t);
    case ChangeParent(_) => OtherInStep(s, a, t);
    case ChildExits(_) => OtherInStep(s, a, t);
    case Abort => OtherInStep(s, a, t);
    case _ => ExitInStep(s, a, t);
  }

  lemma {:induction false} ReachableInStep(states: seq<System>, actions: seq<Action>, k: nat)
    requires Execution(states, actions) && k < |states|
    ensures Consistent(states[k]) && InStep(states[k])
  {
    hide Perform, Consistent;
    ReachableConsistent(states, actions, k);
    if k > 0 {
      ReachableInStep(states, actions, k - 1);
      StepInStep(states[k - 1], actions[k - 1], states[k]);
    }
  }

  /** In every reachable state the Run's state tells how its current Attempt stands. */
  lemma RunAndAttemptAgree(states: seq<System>, actions: seq<Action>, k: nat)
    requires Execution(states, actions) && k < |states|
    ensures Agrees(states[k].store)
    ensures WorkDone(states[k].store.run) ==>
              var st := states[k].store;
              st.attempts != [] && st.attempts[Current(st)].state.OutputSubmitted? && st.attempts[Current(st)].session.Some? &&
              FinalizedForRetry(st.attempts[Current(st)].session.value)
  {
    ReachableInStep(states, actions, k);
    var s := states[k];
    if WorkDone(s.store.run) { assert Settled(s.store.attempts[Current(s.store)], s.children[Current(s.store)]); }
  }

  /** Only a Run that works, is being stopped or awaits recovery can have a living child. */
  lemma OnlyWorkingRunsHaveChildren(states: seq<System>, actions: seq<Action>, k: nat)
    requires Execution(states, actions) && k < |states|
    requires states[k].store.run !in {Running, Stopping, RecoveryRequired}
    ensures forall i :: 0 <= i < |states[k].children| ==> !states[k].children[i].Alive?
  {
    hide OperationConsistent, NotesBounded;
    ReachableInStep(states, actions, k);
    var s := states[k];
    forall i | 0 <= i < |s.children|
      ensures !s.children[i].Alive?
    {
      assert Settled(s.store.attempts[i], s.children[i]);
      if i < |s.children| - 1 { assert Succeeded(s.store.attempts[i]); }
    }
  }

  // ---- Where a Run can go ------------------------------------------------------------------

  /** Which action, from which state, made the Run enter this state. */
  predicate EnteredBy(entered: RunState, from: RunState, a: Action, op: Operation, parent: Option<DelegationState>) {
    match entered
    case Draft => false
    case Ready =>
      a.Prepare? && if a.kind.FirstPreparation? then from.Draft? else from.RevisionRequired? || from.RecoveryRequired? || from.Cancelled?
    case Running => a.BeginStart? && from.Ready?
    case Stopping => a.RequestStop? && from.Running?
    case AwaitingVerification =>
      (a == FinishExit(SubmitAgentReport) && from.Running?) || (a == ReviewStep(VerificationCancelConfirmed) && from.Verifying?)
    case Verifying =>
      (a == ReviewStep(StartVerification) && from.AwaitingVerification?) ||
      (a == ReviewStep(RetryVerification) && (from.AwaitingVerification? || from.VerificationRecoveryRequired?))
    case VerificationRecoveryRequired => a == ReviewStep(VerificationFailed) && from.Verifying?
    case AwaitingReview =>
      (a == FinishExit(SubmitAgentReportDirectReview) && from.Running?) || (a == ReviewStep(VerificationPassed) && from.Verifying?)
    case Accepted => a == ReviewStep(ReviewAccept) && from.AwaitingReview?
    case Completed => a == FinishExit(CompleteNoChange) && from.Running?
    case RevisionRequired =>
      (a == ReviewStep(VerificationNeedsRevision) && from.Verifying?) || (a == ReviewStep(ReviewReject) && from.AwaitingReview?) ||
      (a.FinishStop? && from.Stopping? && op.StopResolved? && op.confirmed && !op.intent.ForCancel?)
    case RecoveryRequired =>
      (a.RecordOutcome? && from.Running? && op.OutcomePending? && !op.outcome.ProcessStarted?) ||
      (a == FinishExit(AttemptFailed) && from.Running?) || (a.DetectRecovery? && (from.Running? || from.Stopping?)) ||
      (a.FinishStop? && from.Stopping? && op.StopResolved? && !op.confirmed)
    case Cancelled =>
      (a.FinishStop? && from.Stopping? && op.StopResolved? && op.confirmed && op.intent.ForCancel?) ||
      (a.RequestStop? && a.intent.ForCancel? && (from.Ready? || from.RecoveryRequired?)) ||
      (a.CancelUnstarted? && (from.Draft? || from.Ready? || from.RecoveryRequired?) && parent == Some(DelegationStopping))
  }

  predicate Launches(a: Action) {
    a.Prepare? || a.BeginStart? || a.RefuseLaunch? || a.SupervisorStart? || a.RecordHandshake? || a.RecordOutcome?
  }

  predicate Stops(a: Action) { a.RequestStop? || a.ObserveStop? || a.MarkStopped? || a.FinishStop? }

  lemma PrepareMoves(s: System, a: Action, t: System)
    requires |s.children| == |s.store.attempts| && Perform(s, a) == Some(t) && s.store.run != t.store.run
    requires a.Prepare?
    ensures EnteredBy(t.store.run, s.store.run, a, s.op, s.store.parent)
  {
    hide FinalizedForRetry, RetryAuthority;
  }

  lemma LaunchMoves(s: System, a: Action, t: System)
    requires |s.children| == |s.store.attempts| && Perform(s, a) == Some(t) && s.store.run != t.store.run
    requires Launches(a) && !a.Prepare?
    ensures EnteredBy(t.store.run, s.store.run, a, s.op, s.store.parent)
  {
    hide FinalizedAttempt, FinalizedForRetry, RetryAuthority, StartupCandidate, PrepareTx, StopTx, MarkStoppedTx, FinishStopTx,
         ExitTx, RecoverDetectTx, RecoverStopTx, MarkFinalizedTx, CancelUnstartedTx, LiveState;
  }

  lemma StopMoves(s: System, a: Action, t: System)
    requires |s.children| == |s.store.attempts| && Perform(s, a) == Some(t) && s.store.run != t.store.run
    requires Stops(a)
    ensures EnteredBy(t.store.run, s.store.run, a, s.op, s.store.parent)
  {
    hide FinalizedAttempt, FinalizedForRetry, RetryAuthority, StartupCandidate, PrepareTx, StartTx, HandshakeTx, OutcomeTx,
         ExitTx, RecoverDetectTx, RecoverStopTx, MarkFinalizedTx, CancelUnstartedTx, LiveState;
  }

  lemma OtherMoves(s: System, a: Action, t: System)
    requires |s.children| == |s.store.attempts| && Perform(s, a) == Some(t) && s.store.run != t.store.run
    requires !Launches(a) && !Stops(a)
    ensures EnteredBy(t.store.run, s.store.run, a, s.op, s.store.parent)
  {
    hide FinalizedAttempt, FinalizedForRetry, RetryAuthority, StartupCandidate, PrepareTx, StartTx, HandshakeTx, OutcomeTx,
         StopTx, MarkStoppedTx, FinishStopTx, LiveState;
  }

  lemma HowRunsMove(s: System, a: Action, t: System)
    requires |s.children| == |s.store.attempts| && Perform(s, a) == Some(t) && s.store.run != t.store.run
    ensures EnteredBy(t.store.run, s.store.run, a, s.op, s.store.parent)
  {
    hide Perform, EnteredBy;
    if a.Prepare? {
      PrepareMoves(s, a, t);
    } else if Launches(a) {
      LaunchMoves(s, a, t);
    } else if Stops(a) {
      StopMoves(s, a, t);
    } else {
      OtherMoves(s, a, t);
    }
  }

  /** In every execution a Run enters a state only by the actions that stand for it. */
  lemma RunsMoveAsRecorded(states: seq<System>, actions: seq<Action>, k: nat)
    requires Execution(states, actions) && k < |actions| && states[k].store.run != states[k + 1].store.run
    ensures EnteredBy(states[k + 1].store.run, states[k].store.run, actions[k], states[k].op, states[k].store.parent)
  {
    hide Perform, EnteredBy;
    HowRunsMove(states[k], actions[k], states[k + 1]);
  }

  /** Which verification and review commands an idle Run takes, and where they lead. */
  lemma ReviewLeads(s: System, command: RunCommand)
    requires |s.children| == |s.store.attempts| && s.op.Idle? && ReviewCommand(command)
    ensures var t, run := Perform(s, ReviewStep(command)), s.store.run;
            match command
            case StartVerification => t.Some? <==> run.AwaitingVerification?
            case RetryVerification => t.Some? <==> run.AwaitingVerification? || run.VerificationRecoveryRequired?
            case ReviewAccept => t.Some? <==> run.AwaitingReview?
            case ReviewReject => t.Some? <==> run.AwaitingReview?
            case _ => t.Some? <==> run.Verifying?
    ensures var t := Perform(s, ReviewStep(command));
            t.Some? ==> t.value.store.attempts == s.store.attempts && t.value.children == s.children &&
                        t.value.store.run == match command
                                             case StartVerification => Verifying
                                             case RetryVerification => Verifying
                                             case VerificationPassed => AwaitingReview
                                             case VerificationNeedsRevision => RevisionRequired
                                             case VerificationFailed => VerificationRecoveryRequired
                                             case VerificationCancelConfirmed => AwaitingVerification
                                             case ReviewAccept => Accepted
                                             case _ => RevisionRequired
  {
  }

  /** An accepted or completed Run stays so, and so does its Attempt. */
  lemma {:induction false} FinishedForEver(states: seq<System>, actions: seq<Action>, k: nat, j: nat)
    requires Execution(states, actions) && k <= j < |states| && (states[k].store.run.Accepted? || states[k].store.run.Completed?)
    ensures states[j].store.run == states[k].store.run
    decreases j
  {
    hide Perform;
    if k < j {
      FinishedForEver(states, actions, k, j - 1);
      if states[j].store.run != states[j - 1].store.run { RunsMoveAsRecorded(states, actions, j - 1); }
    }
  }

  // ---- What a step leaves behind -----------------------------------------------------------

  /** The current Attempt becomes `a`, the Run moves on, and nothing else is touched. */
  predicate Leaves(before: Store, after: Store, run: RunState, a: Attempt)
    requires before.attempts != []
  {
    after.run == run && after.attempts == before.attempts[Current(before) := a] && after.notes == before.notes && after.parent == before.parent
  }

  predicate Accompanied(st: Store) { st.attempts != [] && st.attempts[Current(st)].session.Some? }

  /** A start: a fresh session under a starting Attempt. */
  lemma StartBegins(states: seq<System>, actions: seq<Action>, k: nat)
    requires Execution(states, actions) && k < |actions| && actions[k].BeginStart?
    ensures var st, after := states[k].store, states[k + 1].store;
            st.attempts != [] && st.run.Ready? && Leaves(st, after, Running, Attempt(Starting, Some(FRESH_SESSION))) &&
            states[k + 1].op == Launching(Current(st)) && st.parent != Some(DelegationStopping) && st.parent != Some(DelegationStopped)
  {
    hide NotesBounded, OperationConsistent;
    ReachableInStep(states, actions, k);
  }

  /** What is recorded of a start: a running process, a proven absence of one, or an open question. */
  lemma StartEnds(states: seq<System>, actions: seq<Action>, k: nat)
    requires Execution(states, actions) && k < |actions| && actions[k].RecordOutcome?
    ensures var st, after := states[k].store, states[k + 1].store;
            states[k].op.OutcomePending? && Accompanied(st) &&
            var a := st.attempts[Current(st)];
            var s := a.session.value;
            match states[k].op.outcome
            case ProcessStarted =>
              a.state.Starting? && Leaves(st, after, Running, Attempt(Live, Some(s.(state := SessionRunning, started := true))))
            case ProvenNoChild =>
              a.state.Starting? && Leaves(st, after, RecoveryRequired, Attempt(Failed, Some(s.(state := SessionFailed, terminal := true, finalized := true))))
            case ReconciliationRequired =>
              Leaves(st, after, RecoveryRequired, a.(session := Some(s.(state := SessionLost, started := true))))
  {
    hide NotesBounded;
    ReachableInStep(states, actions, k);
  }

  /** An exit: a failed Attempt awaits recovery, a submitted one goes where the report says; the session is final. */
  lemma ExitEnds(states: seq<System>, actions: seq<Action>, k: nat)
    requires Execution(states, actions) && k < |actions| && actions[k].FinishExit?
    ensures var st, after := states[k].store, states[k + 1].store;
            Accompanied(st) && st.run.Running? && states[k].op == ExitProven(Current(st), st.version) &&
            var s := st.attempts[Current(st)].session.value.(state := SessionStopped, terminal := true, finalized := true);
            match actions[k].command
            case AttemptFailed => Leaves(st, after, RecoveryRequired, Attempt(Failed, Some(s)))
            case SubmitAgentReport => st.attempts[Current(st)].state.Live? && Leaves(st, after, AwaitingVerification, Attempt(OutputSubmitted, Some(s)))
            case SubmitAgentReportDirectReview => st.attempts[Current(st)].state.Live? && Leaves(st, after, AwaitingReview, Attempt(OutputSubmitted, Some(s)))
            case CompleteNoChange => st.attempts[Current(st)].state.Live? && Leaves(st, after, Completed, Attempt(OutputSubmitted, Some(s)))
            case _ => false
  {
    hide NotesBounded;
    ReachableInStep(states, actions, k);
    ExitIsCurrent(states[k], actions[k], states[k + 1]);
  }

  lemma ExitIsCurrent(s: System, a: Action, t: System)
    requires Consistent(s) && InStep(s) && Perform(s, a) == Some(t) && a.FinishExit?
    ensures s.store.attempts != [] && s.op.ExitProven? && s.op.attempt == Current(s.store) && s.op.expected == s.store.version
  {
    hide NotesBounded;
  }

  /**
   The end of a stop. A confirmed cancellation cancels Run and Attempt, a confirmed stop for revision or
   handoff asks for revision of an interrupted Attempt, and an uncertain stop loses the session.
   */
  lemma StopEnds(states: seq<System>, actions: seq<Action>, k: nat)
    requires Execution(states, actions) && k < |actions| && actions[k].FinishStop?
    ensures var st, after := states[k].store, states[k + 1].store;
            states[k].op.StopResolved? && Accompanied(st) && st.run.Stopping? && states[k + 1].op.Idle? &&
            var a := st.attempts[Current(st)];
            var s := a.session.value;
            if !states[k].op.confirmed then Leaves(st, after, RecoveryRequired, a.(session := Some(s.(state := SessionLost))))
            else
              FinalizedForRetry(s) && s.state.SessionStopped? && s.intent == states[k].op.intent &&
              if s.intent.ForCancel? then Leaves(st, after, Cancelled, a.(state := Withdrawn))
              else Leaves(st, after, RevisionRequired, a.(state := Interrupted))
  {
    hide NotesBounded;
    ReachableInStep(states, actions, k);
  }

  /** The four steps of a recovery in a row. */
  lemma RecoverySteps(s: System, t: System, u: System, v: System, w: System)
    requires Consistent(s) && InStep(s)
    requires Perform(s, DetectRecovery) == Some(t) && |t.children| == |t.store.attempts| && Perform(t, ObserveRecovery) == Some(u)
    requires |u.children| == |u.store.attempts| && Perform(u, RecoverStop) == Some(v) && |v.children| == |v.store.attempts|
    requires Perform(v, MarkFinalized) == Some(w) && |w.children| == |w.store.attempts|
    ensures Accompanied(s.store) && w.op.Idle? && |w.children| == |s.children| && !w.children[Current(s.store)].Alive?
    ensures Leaves(s.store, w.store, RecoveryRequired,
                   Attempt(Interrupted, Some(s.store.attempts[Current(s.store)].session.value.(state := SessionStopped, terminal := true, finalized := true))))
  {
    hide NotesBounded, OperationConsistent, Settled, Succeeded, InStep, PrepareTx, StartTx, HandshakeTx, OutcomeTx, StopTx,
         MarkStoppedTx, FinishStopTx, ExitTx, CancelUnstartedTx;
  }

  /** Recovery of a lost or interrupted Attempt, run to its end. */
  lemma RecoveryEnds(states: seq<System>, actions: seq<Action>, k: nat)
    requires Execution(states, actions) && k + 3 < |actions| && actions[k] == DetectRecovery && actions[k + 1] == ObserveRecovery
    requires actions[k + 2] == RecoverStop && actions[k + 3] == MarkFinalized
    ensures var st, after := states[k].store, states[k + 4].store;
            Accompanied(st) && states[k + 4].op.Idle? && |states[k + 4].children| == |states[k].children| &&
            !states[k + 4].children[Current(st)].Alive? &&
            Leaves(st, after, RecoveryRequired,
                   Attempt(Interrupted, Some(st.attempts[Current(st)].session.value.(state := SessionStopped, terminal := true, finalized := true))))
  {
    hide Perform, Consistent, InStep;
    ReachableInStep(states, actions, k);
    RecoverySteps(states[k], states[k + 1], states[k + 2], states[k + 3], states[k + 4]);
  }

  // ---- What a cancellation is good for -----------------------------------------------------

  /** Request r set off the stop that is under way at k, and is the latest note about the Attempt. */
  predicate SetOff(states: seq<System>, actions: seq<Action>, r: nat, k: nat)
    requires |states| == |actions| + 1
  {
    r < k < |states| && actions[r].RequestStop? && !actions[r].intent.NoIntent? && states[r].store.run.Running? &&
    (forall m :: r < m <= k ==> states[m].store.run.Stopping?) &&
    Accompanied(states[k].store) && |states[k].store.attempts| == |states[r].store.attempts| &&
    states[k].store.notes == states[r].store.notes + [StopNote(Some(Current(states[k].store)), actions[r].intent.ForCancel?, actions[r].allowRetry)] &&
    states[k].store.attempts[Current(states[k].store)].session.value.intent == actions[r].intent
  }

  /** The same Attempts, notes and intent. */
  predicate StillStopping(before: Store, after: Store) {
    Accompanied(before) && Accompanied(after) && |after.attempts| == |before.attempts| && after.notes == before.notes &&
    after.attempts[Current(after)].session.value.intent == before.attempts[Current(before)].session.value.intent
  }

  lemma NoLaunchWhileStopping(s: System, a: Action, t: System)
    requires InStep(s) && |s.children| == |s.store.attempts| && s.store.run.Stopping? && Perform(s, a) == Some(t)
    ensures !Launches(a)
  {
    hide StopTx, MarkStoppedTx, FinishStopTx, ExitTx, RecoverDetectTx, RecoverStopTx, MarkFinalizedTx, CancelUnstartedTx;
  }

  lemma KeptByStop(s: System, a: Action, t: System)
    requires Consistent(s) && InStep(s) && Perform(s, a) == Some(t) && s.store.run.Stopping? && t.store.run.Stopping? && Stops(a)
    ensures StillStopping(s.store, t.store)
  {
    hide NotesBounded, StartupCandidate, RetryAuthority, FinalizedAttempt, FinalizedForRetry, PrepareTx, StartTx, HandshakeTx,
         OutcomeTx, ExitTx, RecoverDetectTx, RecoverStopTx, MarkFinalizedTx, CancelUnstartedTx;
  }

  lemma KeptByOthers(s: System, a: Action, t: System)
    requires Consistent(s) && InStep(s) && Perform(s, a) == Some(t) && s.store.run.Stopping? && t.store.run.Stopping?
    requires !Stops(a) && !Launches(a)
    ensures StillStopping(s.store, t.store)
  {
    hide NotesBounded, StartupCandidate, RetryAuthority, FinalizedAttempt, FinalizedForRetry, PrepareTx, StartTx, HandshakeTx,
         OutcomeTx, StopTx, MarkStoppedTx, FinishStopTx;
  }

  lemma StoppingKept(s: System, a: Action, t: System)
    requires Consistent(s) && InStep(s) && Perform(s, a) == Some(t) && s.store.run.Stopping? && t.store.run.Stopping?
    ensures StillStopping(s.store, t.store)
  {
    hide Perform, InStep, Consistent, StillStopping;
    SameShape(s);
    NoLaunchWhileStopping(s, a, t);
    if Stops(a) { KeptByStop(s, a, t); } else { KeptByOthers(s, a, t); }
  }

  lemma SameShape(s: System)
    requires Consistent(s)
    ensures |s.children| == |s.store.attempts|
  {
  }

  lemma StopRequested(s: System, a: Action, t: System)
    requires Consistent(s) && InStep(s) && Perform(s, a) == Some(t) && a.RequestStop? && s.store.run.Running? && t.store.run.Stopping?
    ensures Accompanied(t.store) && |t.store.attempts| == |s.store.attempts| && !a.intent.NoIntent?
    ensures t.store.attempts[Current(t.store)].session.value.intent == a.intent
    ensures t.store.notes == s.store.notes + [StopNote(Some(Current(t.store)), a.intent.ForCancel?, a.allowRetry)]
  {
    hide NotesBounded, OperationConsistent;
  }

  /** Every stop under way was set off by one request, whose intent and retry permission are the ones recorded. */
  lemma {:induction false} StopComesFromRequest(states: seq<System>, actions: seq<Action>, k: nat) returns (r: nat)
    requires Execution(states, actions) && k < |states| && states[k].store.run.Stopping?
    ensures SetOff(states, actions, r, k)
    decreases k
  {
    hide Perform, Consistent, InStep, EnteredBy;
    assert Perform(states[k - 1], actions[k - 1]) == Some(states[k]);
    ReachableInStep(states, actions, k - 1);
    if states[k - 1].store.run.Stopping? {
      r := StopComesFromRequest(states, actions, k - 1);
      StoppingKept(states[k - 1], actions[k - 1], states[k]);
    } else {
      r := k - 1;
      StoppingEntered(states[r], actions[r], states[k]);
      StopRequested(states[r], actions[r], states[k]);
    }
  }

  lemma StoppingEntered(s: System, a: Action, t: System)
    requires |s.children| == |s.store.attempts| && Perform(s, a) == Some(t) && !s.store.run.Stopping? && t.store.run.Stopping?
    ensures a.RequestStop? && s.store.run.Running?
  {
    hide Perform;
    HowRunsMove(s, a, t);
  }

  /** The Run is cancelled with these notes; its current Attempt is in this state and has no session or a final one. */
  predicate CancelledWith(st: Store, attempts: nat, state: AttemptState, notes: seq<StopNote>) {
    st.run.Cancelled? && attempts > 0 && |st.attempts| == attempts && st.notes == notes && st.attempts[attempts - 1].state == state &&
    (st.attempts[attempts - 1].session.Some? ==> FinalizedForRetry(st.attempts[attempts - 1].session.value))
  }

  lemma CancelledStep(s: System, a: Action, t: System, attempts: nat, state: AttemptState, notes: seq<StopNote>)
    requires Consistent(s) && InStep(s) && Perform(s, a) == Some(t) && !a.Prepare? && CancelledWith(s.store, attempts, state, notes)
    ensures CancelledWith(t.store, attempts, state, notes)
  {
    hide NotesBounded, HandshakeTx, OutcomeTx, MarkStoppedTx, FinishStopTx, RecoverStopTx, FinalizedAttempt, RetryAuthority,
         OperationConsistent, PrepareTx;
  }

  /** The note of a cancellation of the last of so many Attempts. */
  function CancelNote(attempts: nat, allowRetry: bool): StopNote
    requires attempts > 0
  {
    StopNote(Some(attempts - 1), true, allowRetry)
  }

  /** A cancelled Run is prepared again exactly when the request that cancelled it allowed a retry. */
  lemma RetryIffAllowed(s: System, attempts: nat, state: AttemptState, before: seq<StopNote>, allowRetry: bool)
    requires Consistent(s) && attempts > 0 && CancelledWith(s.store, attempts, state, before + [CancelNote(attempts, allowRetry)])
    ensures s.op.Idle? ==> (Perform(s, Prepare(s.store.version, HumanRetry)).Some? <==> allowRetry)
    ensures !allowRetry ==> forall expected: nat, kind: PrepareKind :: Perform(s, Prepare(expected, kind)).None?
  {
    hide NotesBounded, OperationConsistent;
  }

  lemma {:induction false} CancelledUntilPrepared(states: seq<System>, actions: seq<Action>, k: nat, j: nat, attempts: nat,
          state: AttemptState, notes: seq<StopNote>)
    requires Execution(states, actions) && k <= j < |states| && CancelledWith(states[k].store, attempts, state, notes)
    requires forall m :: k <= m < j ==> !actions[m].Prepare?
    ensures CancelledWith(states[j].store, attempts, state, notes)
    decreases j
  {
    hide Perform, Consistent, InStep, CancelledWith;
    if k < j {
      CancelledUntilPrepared(states, actions, k, j - 1, attempts, state, notes);
      ReachableInStep(states, actions, j - 1);
      CancelledStep(states[j - 1], actions[j - 1], states[j], attempts, state, notes);
    }
  }

  /** Without permission no preparation is ever among the actions. */
  lemma {:induction false} NeverPrepared(states: seq<System>, actions: seq<Action>, k: nat, j: nat, attempts: nat,
          state: AttemptState, before: seq<StopNote>)
    requires Execution(states, actions) && k <= j < |states| && attempts > 0
    requires CancelledWith(states[k].store, attempts, state, before + [CancelNote(attempts, false)])
    ensures forall m :: k <= m < j ==> !actions[m].Prepare?
    decreases j
  {
    hide Perform, Consistent, InStep, CancelledWith;
    if k < j {
      NeverPrepared(states, actions, k, j - 1, attempts, state, before);
      CancelledUntilPrepared(states, actions, k, j - 1, attempts, state, before + [CancelNote(attempts, false)]);
      ReachableInStep(states, actions, j - 1);
      RetryIffAllowed(states[j - 1], attempts, state, before, false);
      assert Perform(states[j - 1], actions[j - 1]) == Some(states[j]);
    }
  }

  /** No preparation goes through between the two, or none may. */
  predicate Unprepared(actions: seq<Action>, k: nat, j: nat, allowRetry: bool) {
    !allowRetry || forall m :: k <= m < j && m < |actions| ==> !actions[m].Prepare?
  }

  lemma CancelledStands(states: seq<System>, actions: seq<Action>, k: nat, j: nat, attempts: nat, state: AttemptState,
          before: seq<StopNote>, allowRetry: bool)
    requires Execution(states, actions) && k <= j < |states| && attempts > 0
    requires CancelledWith(states[k].store, attempts, state, before + [CancelNote(attempts, allowRetry)])
    ensures !allowRetry ==> forall m :: k <= m < j ==> !actions[m].Prepare?
    ensures Unprepared(actions, k, j, allowRetry) ==>
              CancelledWith(states[j].store, attempts, state, before + [CancelNote(attempts, allowRetry)]) &&
              |states[j].children| == |states[j].store.attempts| &&
              (states[j].op.Idle? ==> (Perform(states[j], Prepare(states[j].store.version, HumanRetry)).Some? <==> allowRetry))
  {
    hide Perform, Consistent, InStep, CancelledWith;
    if !allowRetry { NeverPrepared(states, actions, k, j, attempts, state, before); }
    if Unprepared(actions, k, j, allowRetry) {
      CancelledUntilPrepared(states, actions, k, j, attempts, state, before + [CancelNote(attempts, allowRetry)]);
      ReachableInStep(states, actions, j);
      SameShape(states[j]);
      RetryIffAllowed(states[j], attempts, state, before, allowRetry);
    }
  }

  /**
   From the step that finishes a confirmed cancellation on, the Run is cancelled and its Attempt withdrawn
   until a preparation goes through. Once the Run is idle one can, exactly when the request that set off
   the stop allowed a retry; otherwise the Run stays cancelled for ever.
   */
  lemma CancellationStands(states: seq<System>, actions: seq<Action>, k: nat, j: nat) returns (r: nat)
    requires Execution(states, actions) && k < j < |states| && actions[k].FinishStop? && states[k + 1].store.run.Cancelled?
    ensures r < k && SetOff(states, actions, r, k) && actions[r].intent.ForCancel?
    ensures !actions[r].allowRetry ==> forall m :: k < m < j ==> !actions[m].Prepare?
    ensures Unprepared(actions, k + 1, j, actions[r].allowRetry) ==>
              var s := states[j];
              s.store.run.Cancelled? && |s.store.attempts| == |states[k].store.attempts| && |s.children| == |s.store.attempts| > 0 &&
              s.store.attempts[Current(s.store)].state.Withdrawn? &&
              (s.op.Idle? ==> (Perform(s, Prepare(s.store.version, HumanRetry)).Some? <==> actions[r].allowRetry))
  {
    hide Perform, Consistent, InStep, EnteredBy;
    StopEnds(states, actions, k);
    r := StopComesFromRequest(states, actions, k);
    CancelledStands(states, actions, k + 1, j, |states[k].store.attempts|, Withdrawn, states[r].store.notes, actions[r].allowRetry);
  }

  lemma InactiveCancelled(s: System, a: Action, t: System)
    requires Consistent(s) && InStep(s) && Perform(s, a) == Some(t) && a.RequestStop? && t.store.run.Cancelled?
    ensures s.store.attempts != [] && a.intent.ForCancel? && t.op.Idle? && t.children == s.children
    ensures var c := Current(s.store);
            CancelledWith(t.store, c + 1, s.store.attempts[c].state, s.store.notes + [CancelNote(c + 1, a.allowRetry)]) &&
            t.store.attempts == s.store.attempts &&
            (s.store.attempts[c].session.None? || s.store.attempts[c].state.Failed? || s.store.attempts[c].state.Interrupted?)
  {
    hide NotesBounded, OperationConsistent, RetryAuthority;
  }

  /** A Run that does not work is cancelled at once, without touching its Attempt, and the same holds from there on. */
  lemma InactiveCancellationStands(states: seq<System>, actions: seq<Action>, k: nat, j: nat)
    requires Execution(states, actions) && k < j < |states| && actions[k].RequestStop? && states[k + 1].store.run.Cancelled?
    ensures states[k].store.attempts != [] && states[k + 1].store.attempts == states[k].store.attempts && actions[k].intent.ForCancel?
    ensures forall i :: 0 <= i < |states[k].children| ==> !states[k].children[i].Alive?
    ensures !actions[k].allowRetry ==> forall m :: k < m < j ==> !actions[m].Prepare?
    ensures Unprepared(actions, k + 1, j, actions[k].allowRetry) ==>
              var s := states[j];
              s.store.run.Cancelled? && |s.store.attempts| == |states[k].store.attempts| && |s.children| == |s.store.attempts| &&
              s.store.attempts[Current(s.store)].state == states[k].store.attempts[Current(s.store)].state &&
              (s.op.Idle? ==> (Perform(s, Prepare(s.store.version, HumanRetry)).Some? <==> actions[k].allowRetry))
  {
    hide Perform, Consistent, InStep;
    ReachableInStep(states, actions, k);
    InactiveCancelled(states[k], actions[k], states[k + 1]);
    OnlyWorkingRunsHaveChildren(states, actions, k + 1);
    var c := Current(states[k].store);
    CancelledStands(states, actions, k + 1, j, c + 1, states[k].store.attempts[c].state, states[k].store.notes, actions[k].allowRetry);
  }

  // ---- What goes through -------------------------------------------------------------------

  function Then(s: Option<System>, a: Action): Option<System> {
    if s.Some? && |s.value.children| == |s.value.store.attempts| then Perform(s.value, a) else None
  }

  predicate AwaitsStop(s: System) {
    Consistent(s) && InStep(s) && s.op.StopPending? && Accompanied(s.store) && !s.op.intent.NoIntent? &&
    s.store.attempts[Current(s.store)].session.value.intent == s.op.intent && !s.store.attempts[Current(s.store)].session.value.finalized
  }

  /** Nothing refuses a stop once it was requested: proven, it is confirmed. */
  lemma ProvenStopGoesThrough(s: System)
    requires AwaitsStop(s)
    ensures var end := Then(Then(Then(Some(s), ObserveStop(true)), MarkStopped), FinishStop);
            end.Some? && Current(s.store) < |end.value.children| && !end.value.children[Current(s.store)].Alive? &&
            end.value.store.run == if s.op.intent.ForCancel? then Cancelled else RevisionRequired
  {
    hide NotesBounded, Settled, PrepareTx, StartTx, HandshakeTx, OutcomeTx, StopTx, ExitTx, RecoverDetectTx, RecoverStopTx,
         MarkFinalizedTx, CancelUnstartedTx;
  }

  /** Unproven, it ends as uncertain. */
  lemma UnprovenStopGoesThrough(s: System)
    requires AwaitsStop(s)
    ensures var end := Then(Then(Some(s), ObserveStop(false)), FinishStop);
            end.Some? && end.value.store.run.RecoveryRequired? && end.value.children == s.children
  {
    hide NotesBounded, Settled, PrepareTx, StartTx, HandshakeTx, OutcomeTx, StopTx, ExitTx, RecoverDetectTx, RecoverStopTx,
         MarkFinalizedTx, CancelUnstartedTx, MarkStoppedTx;
  }

  /** Nothing refuses what the supervisor answered to a start. */
  lemma StartGoesThrough(s: System)
    requires Consistent(s) && InStep(s) && s.op.Launching? && Accompanied(s.store) && s.store.attempts[Current(s.store)].state.Starting?
    ensures var end := Then(Then(Then(Some(s), SupervisorStart(ProcessStarted, true, true)), RecordHandshake), RecordOutcome);
            end.Some? && end.value.store.run.Running? && end.value.children[Current(s.store)].Alive? &&
            end.value.store.attempts[Current(s.store)].state.Live?
    ensures var end := Then(Then(Some(s), SupervisorStart(ProvenNoChild, false, false)), RecordOutcome);
            end.Some? && end.value.store.run.RecoveryRequired? && end.value.children == s.children &&
            end.value.store.attempts[Current(s.store)].state.Failed?
    ensures Then(Some(s), RefuseLaunch) == Then(Some(s), SupervisorStart(ProvenNoChild, false, false))
  {
    hide NotesBounded;
  }

  /** Nothing refuses the exit of a dead child of a running Run. */
  lemma ExitGoesThrough(s: System, command: RunCommand)
    requires Consistent(s) && InStep(s) && s.op.Idle? && s.store.run.Running? && s.store.attempts[Current(s.store)].state.Live?
    requires !s.children[Current(s.store)].Alive? && TerminalCommand(command)
    ensures var end := Then(Then(Some(s), ObserveExit(Current(s.store), s.store.version)), FinishExit(command));
            end.Some? && end.value.op.Idle? && !end.value.store.run.Running?
  {
    hide NotesBounded;
  }
}
