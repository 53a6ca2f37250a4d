/** Safety of the launch protocol, over every execution. */
module RunLaunchSafety {
  import opened Common
  import opened Lifecycle
  import opened RunLaunch

  // ---- What is claimed ---------------------------------------------------------------------

  predicate AtMostOneAlive(s: System) {
    forall i, j :: 0 <= i < j < |s.children| ==> !(s.children[i].Alive? && s.children[j].Alive?)
  }

  /** Every Attempt that has been succeeded never had a session, or its session is finalised and its child is gone. */
  predicate PredecessorsQuiet(s: System)
    requires |s.children| == |s.store.attempts|
  {
    forall i :: 0 <= i < |s.children| - 1 ==>
      var a := s.store.attempts[i];
      if a.session.None? then s.children[i].Never? else FinalizedForRetry(a.session.value) && !s.children[i].Alive?
  }

  predicate UnsessionedNeverLaunched(s: System)
    requires |s.children| == |s.store.attempts|
  {
    forall i :: 0 <= i < |s.children| && s.store.attempts[i].session.None? ==> s.children[i].Never?
  }

  // ---- The inductive invariant -------------------------------------------------------------

  predicate Settled(a: Attempt, c: Child) {
    (a.session.None? ==> c.Never?) &&
    (a.session.Some? && a.session.value.finalized ==> !c.Alive?) &&
    (a.state.Created? ==> a.session.None?) &&
    (a.state.OutputSubmitted? ==> a.session.Some? && FinalizedForRetry(a.session.value) && a.session.value.state.SessionStopped?)
  }

  /** Where a Run can be whose current Attempt has submitted its output. */
  predicate Reported(run: RunState) {
    !run.Draft? && !run.Ready? && !run.Running? && !run.Stopping? && !run.RecoveryRequired?
  }

  predicate Succeeded(a: Attempt) { a.session.None? || FinalizedForRetry(a.session.value) }

  predicate Sessioned(s: System, i: nat) { i < |s.store.attempts| && s.store.attempts[i].session.Some? }

  predicate OperationConsistent(s: System)
    requires |s.children| == |s.store.attempts|
  {
    var last := |s.store.attempts| - 1;
    match s.op
    case Idle => true
    case Launching(i) => i == last && Sessioned(s, i) && !s.store.attempts[i].session.value.finalized && s.children[i].Never?
    case LaunchReturned(i, o) => i == last && Sessioned(s, i) && !o.ProvenNoChild?
    case OutcomePending(i, o) => i == last && Sessioned(s, i) && (o.ProvenNoChild? ==> !s.children[i].Alive?)
    case StopPending(i, _) => i == last && Sessioned(s, i)
    case StopProven(i, _) => i == last && Sessioned(s, i) && !s.children[i].Alive?
    case StopResolved(i, _, _) => i == last && Sessioned(s, i)
    case ExitProven(i, _) => Sessioned(s, i) && !s.children[i].Alive?
    case RecoverPending(i) => i == last
    case RecoverProven(i) => i == last && Sessioned(s, i) && !s.children[i].Alive?
    case FinalizePending(i) => Sessioned(s, i) && !s.children[i].Alive?
  }

  predicate NotesBounded(st: Store) {
    forall k :: 0 <= k < |st.notes| && st.notes[k].attempt.Some? ==>
      st.notes[k].attempt.value < |st.attempts| - (if st.run.Ready? then 1 else 0)
  }

  predicate Consistent(s: System) {
    |s.children| == |s.store.attempts| &&
    (forall i :: 0 <= i < |s.children| ==> Settled(s.store.attempts[i], s.children[i])) &&
    (forall i :: 0 <= i < |s.children| - 1 ==> Succeeded(s.store.attempts[i])) &&
    (s.store.run.Draft? ==> s.store.attempts == []) &&
    (s.store.run.Ready? ==> s.store.attempts != [] && s.store.attempts[Current(s.store)] == Attempt(Created, None)) &&
    (s.store.attempts != [] && s.store.attempts[Current(s.store)].state.OutputSubmitted? ==> Reported(s.store.run)) &&
    NotesBounded(s.store) &&
    OperationConsistent(s)
  }

  lemma PreparePreserves(s: System, expected: nat, kind: PrepareKind, t: System)
    requires Consistent(s) && Perform(s, Prepare(expected, kind)) == Some(t)
    ensures Consistent(t)
  {
    hide StartTx, HandshakeTx, OutcomeTx, StopTx, MarkStoppedTx, FinishStopTx, ExitTx, RecoverDetectTx, RecoverStopTx,
         MarkFinalizedTx, CancelUnstartedTx;
    assert forall i :: 0 <= i < |s.store.attempts| ==> t.store.attempts[i] == s.store.attempts[i];
  }

  lemma LaunchPreserves(s: System, a: Action, t: System)
    requires Consistent(s) && Perform(s, a) == Some(t)
    requires a.BeginStart? || a.RefuseLaunch? || a.SupervisorStart? || a.RecordHandshake?
    ensures Consistent(t)
  {
    hide PrepareTx, OutcomeTx, StopTx, MarkStoppedTx, FinishStopTx, ExitTx, RecoverDetectTx, RecoverStopTx,
         MarkFinalizedTx, CancelUnstartedTx;
  }

  lemma OutcomePreserves(s: System, t: System)
    requires Consistent(s) && Perform(s, RecordOutcome) == Some(t)
    ensures Consistent(t)
  {
    hide PrepareTx, StartTx, StopTx, MarkStoppedTx, FinishStopTx, ExitTx, RecoverDetectTx, RecoverStopTx,
         MarkFinalizedTx, CancelUnstartedTx;
  }

  lemma StopRequestPreserves(s: System, a: Action, t: System)
    requires Consistent(s) && Perform(s, a) == Some(t) && a.RequestStop?
    ensures Consistent(t)
  {
    hide PrepareTx, StartTx, HandshakeTx, OutcomeTx, MarkStoppedTx, FinishStopTx, ExitTx, RecoverDetectTx,
         RecoverStopTx, MarkFinalizedTx, CancelUnstartedTx;
  }

  lemma ProofOfStopPreserves(s: System, a: Action, t: System)
    requires Consistent(s) && Perform(s, a) == Some(t)
    requires a.ObserveStop? || a.MarkStopped?
    ensures Consistent(t)
  {
    hide PrepareTx, StartTx, HandshakeTx, OutcomeTx, StopTx, FinishStopTx, ExitTx, RecoverDetectTx, RecoverStopTx,
         MarkFinalizedTx, CancelUnstartedTx;
  }

  lemma FinishStopPreserves(s: System, t: System)
    requires Consistent(s) && Perform(s, FinishStop) == Some(t)
    ensures Consistent(t)
  {
    hide PrepareTx, StartTx, HandshakeTx, OutcomeTx, StopTx, MarkStoppedTx, ExitTx, RecoverDetectTx, RecoverStopTx,
         MarkFinalizedTx, CancelUnstartedTx;
  }

  lemma ExitPreserves(s: System, a: Action, t: System)
    requires Consistent(s) && Perform(s, a) == Some(t)
    requires a.ObserveExit? || a.FinishExit? || a.ReplayFinalize? || a.MarkFinalized?
    ensures Consistent(t)
  {
    hide PrepareTx, StartTx, HandshakeTx, OutcomeTx, StopTx, MarkStoppedTx, FinishStopTx, RecoverDetectTx,
         RecoverStopTx, CancelUnstartedTx;
  }

  lemma RecoveryPreserves(s: System, a: Action, t: System)
    requires Consistent(s) && Perform(s, a) == Some(t)
    requires a.DetectRecovery? || a.ObserveRecovery? || a.RecoverStop?
    ensures Consistent(t)
  {
    hide PrepareTx, StartTx, HandshakeTx, OutcomeTx, StopTx, MarkStoppedTx, FinishStopTx, ExitTx, MarkFinalizedTx,
         CancelUnstartedTx;
  }

  lemma CancelUnstartedPreserves(s: System, t: System)
    requires Consistent(s) && Perform(s, CancelUnstarted) == Some(t)
    ensures Consistent(t)
  {
    hide PrepareTx, StartTx, HandshakeTx, OutcomeTx, StopTx, MarkStoppedTx, FinishStopTx, ExitTx, RecoverDetectTx,
         RecoverStopTx, MarkFinalizedTx;
  }

  lemma OtherStepsPreserve(s: System, a: Action, t: System)
    requires Consistent(s) && Perform(s, a) == Some(t)
    requires a.ReviewStep? || a.ChangeParent? || a.ChildExits? || a.Abort?
    ensures Consistent(t)
  {
    hide PrepareTx, StartTx, HandshakeTx, OutcomeTx, StopTx, MarkStoppedTx, FinishStopTx, ExitTx, RecoverDetectTx,
         RecoverStopTx, MarkFinalizedTx, CancelUnstartedTx;
  }

  lemma StepPreserves(s: System, a: Action, t: System)
    requires Consistent(s) && Perform(s, a) == Some(t)
    ensures Consistent(t)
  {
    hide Consistent, Perform;
    match a
    case Prepare(expected, kind) => PreparePreserves(s, expected, kind, t);
    case BeginStart(_) => LaunchPreserves(s, a, t);
    case RefuseLaunch => LaunchPreserves(s, a, t);
    case SupervisorStart(_, _, _) => LaunchPreserves(s, a, t);
    case RecordHandshake => LaunchPreserves(s, a, t);
    case RecordOutcome => OutcomePreserves(s, t);
    case RequestStop(_, _, _, _) => StopRequestPreserves(s, a, t);
    case ObserveStop(_) => ProofOfStopPreserves(s, a, t);
    case MarkStopped => ProofOfStopPreserves(s, a, t);
    case FinishStop => FinishStopPreserves(s, t);
    case CancelUnstarted => CancelUnstartedPreserves(s, t);
    case ReviewStep(_) => OtherStepsPreserve(s, a, t);
    case ChangeParent(_) => OtherStepsPreserve(s, a, t);
    case ChildExits(_) => OtherStepsPreserve(s, a, t);
    case Abort => OtherStepsPreserve(s, a, t);
    case DetectRecovery => RecoveryPreserves(s, a, t);
    case ObserveRecovery => RecoveryPreserves(s, a, t);
    case RecoverStop => RecoveryPreserves(s, a, t);
    case _ => ExitPreserves(s, a, t);
  }

  lemma {:induction false} ReachableConsistent(states: seq<System>, actions: seq<Action>, k: nat)
    requires Execution(states, actions) && k < |states|
    ensures Consistent(states[k])
  {
    if k > 0 {
      ReachableConsistent(states, actions, k - 1);
      StepPreserves(states[k - 1], actions[k - 1], states[k]);
    }
  }

  // ---- Main results ------------------------------------------------------------------------

  /** In every reachable state, whatever crashed on the way there. */
  lemma LaunchSafety(states: seq<System>, actions: seq<Action>, k: nat)
    requires Execution(states, actions) && k < |states|
    ensures AtMostOneAlive(states[k])
    ensures PredecessorsQuiet(states[k])
    ensures UnsessionedNeverLaunched(states[k])
  {
    ReachableConsistent(states, actions, k);
    var s := states[k];
    forall i | 0 <= i < |s.children| - 1
      ensures !s.children[i].Alive?
    {
      assert Settled(s.store.attempts[i], s.children[i]) && Succeeded(s.store.attempts[i]);
    }
  }

  /**
   The retry after verification or review checks no session, and need not: in every reachable state in
   which it goes through, the session of the Attempt it succeeds is finalised and its child is gone.
   */
  lemma VerifiedRetryIsSafe(states: seq<System>, actions: seq<Action>, k: nat, expected: nat)
    requires Execution(states, actions) && k < |states| && PrepareTx(states[k].store, expected, VerifiedRetry).Some?
    ensures var st := states[k].store;
            st.attempts != [] && st.attempts[Current(st)].session.Some? && FinalizedForRetry(st.attempts[Current(st)].session.value) &&
            !states[k].children[Current(st)].Alive?
  {
    hide OperationConsistent, NotesBounded;
    ReachableConsistent(states, actions, k);
    var st := states[k].store;
    assert Settled(st.attempts[Current(st)], states[k].children[Current(st)]);
  }
}
