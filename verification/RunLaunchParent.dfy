/**
 What stopping a parent delegation guarantees about a child Run, and what an interrupted stop
 leaves behind.
 */
module RunLaunchParent {
  import opened Common
  import opened Lifecycle
  import opened RunLaunch
  import opened RunLaunchSafety

  predicate ParentStopped(s: System) {
    s.store.parent == Some(DelegationStopping) || s.store.parent == Some(DelegationStopped)
  }

  function SessionedAttempts(s: System): set<int> {
    set i | 0 <= i < |s.store.attempts| && s.store.attempts[i].session.Some?
  }

  predicate Born(s: System, i: nat) { i < |s.children| && !s.children[i].Never? }

  /** Only a start gives an existing Attempt a session, and nothing takes one away. */
  lemma SessionKept(s: System, a: Action, t: System, i: nat)
    requires Consistent(s) && Perform(s, a) == Some(t) && i < |s.store.attempts| && !a.BeginStart?
    ensures i < |t.store.attempts| && (t.store.attempts[i].session.Some? <==> s.store.attempts[i].session.Some?)
  {
  }

  lemma NewAttemptsHaveNoSession(s: System, a: Action, t: System, i: nat)
    requires Consistent(s) && Perform(s, a) == Some(t) && |s.store.attempts| <= i < |t.store.attempts|
    ensures t.store.attempts[i].session.None?
  {
  }

  lemma ParentStaysStopped(s: System, a: Action, t: System)
    requires |s.children| == |s.store.attempts| && Perform(s, a) == Some(t) && ParentStopped(s)
    ensures ParentStopped(t) && !a.BeginStart?
  {
  }

  lemma StepAfterStop(s: System, a: Action, t: System)
    requires Consistent(s) && Perform(s, a) == Some(t) && ParentStopped(s)
    ensures ParentStopped(t)
    ensures SessionedAttempts(t) == SessionedAttempts(s)
  {
    ParentStaysStopped(s, a, t);
    forall i: nat
      ensures i in SessionedAttempts(t) <==> i in SessionedAttempts(s)
    {
      if i < |s.store.attempts| {
        SessionKept(s, a, t, i);
      } else if i < |t.store.attempts| {
        NewAttemptsHaveNoSession(s, a, t, i);
      }
    }
  }

  lemma BornHaveSessions(s: System)
    requires |s.children| == |s.store.attempts| && UnsessionedNeverLaunched(s)
    ensures forall i: nat :: Born(s, i) ==> i in SessionedAttempts(s)
  {
  }

  /**
   Once a delegation is stopping it can never run again, and from that transaction on no child Run
   gains a session: a child process seen later belongs to a session that existed at the stop.
   */
  lemma {:induction false} NoSessionAfterParentStop(states: seq<System>, actions: seq<Action>, k: nat, j: nat)
    requires Execution(states, actions) && k <= j < |states| && ParentStopped(states[k])
    ensures ParentStopped(states[j])
    ensures SessionedAttempts(states[j]) == SessionedAttempts(states[k])
    ensures forall i: nat :: Born(states[j], i) ==> i in SessionedAttempts(states[k])
    decreases j
  {
    hide Perform, Consistent, SessionedAttempts;
    if k < j {
      NoSessionAfterParentStop(states, actions, k, j - 1);
      ReachableConsistent(states, actions, j - 1);
      StepAfterStop(states[j - 1], actions[j - 1], states[j]);
    }
    LaunchSafety(states, actions, j);
    BornHaveSessions(states[j]);
  }

  // ---- Cancelling a child that was never started ---------------------------------------------

  /** Cancelled with nothing that a retry could be authorised by. */
  predicate Doomed(s: System) {
    s.store.run.Cancelled? &&
    (s.store.attempts == [] || !RetryAuthority(s.store.notes, Current(s.store))) &&
    (s.op.Idle? || s.op.ExitProven? || s.op.FinalizePending?)
  }

  lemma {:induction false} NoNoteNoAuthority(notes: seq<StopNote>, attempt: nat)
    requires forall k :: 0 <= k < |notes| ==> notes[k].attempt != Some(attempt)
    ensures !RetryAuthority(notes, attempt)
  {
    if notes != [] { NoNoteNoAuthority(notes[..|notes| - 1], attempt); }
  }

  lemma CancelUnstartedDooms(s: System, t: System)
    requires Consistent(s) && Perform(s, CancelUnstarted) == Some(t)
    ensures Doomed(t)
  {
    if s.store.run.Ready? {
      assert forall k :: 0 <= k < |s.store.notes| ==> s.store.notes[k].attempt != Some(Current(s.store));
      NoNoteNoAuthority(t.store.notes, Current(t.store));
    }
  }

  lemma DoomedStep(s: System, a: Action, t: System)
    requires Consistent(s) && Doomed(s) && Perform(s, a) == Some(t)
    ensures Doomed(t)
  {
    hide HandshakeTx, OutcomeTx, MarkStoppedTx, FinishStopTx, RecoverStopTx, FinalizedAttempt, FinalizedForRetry,
         OperationConsistent, NotesBounded, Settled;
  }

  lemma DoomedIsCancelled(s: System)
    requires Doomed(s)
    ensures s.store.run.Cancelled?
  {
  }

  lemma NoneAliveWhenCancelled(s: System, t: System)
    requires Consistent(s) && Perform(s, CancelUnstarted) == Some(t)
    ensures forall i :: 0 <= i < |s.children| ==> !s.children[i].Alive?
  {
    hide OperationConsistent, NotesBounded;
    forall i | 0 <= i < |s.children|
      ensures !s.children[i].Alive?
    {
      assert Settled(s.store.attempts[i], s.children[i]);
      if i < |s.children| - 1 { assert Succeeded(s.store.attempts[i]); }
    }
  }

  /**
   The unstarted-run path cancels only when no child of the Run is alive, and the Run then stays
   cancelled for ever: it is never prepared, hence never launched, again.
   */
  lemma {:induction false} CancelUnstartedIsFinal(states: seq<System>, actions: seq<Action>, k: nat, j: nat)
    requires Execution(states, actions) && k < j < |states| && actions[k] == CancelUnstarted
    ensures forall i :: 0 <= i < |states[k].children| ==> !states[k].children[i].Alive?
    ensures states[j].store.run.Cancelled? && Doomed(states[j])
    decreases j
  {
    hide Perform, Consistent, Doomed;
    ReachableConsistent(states, actions, k);
    NoneAliveWhenCancelled(states[k], states[k + 1]);
    if j == k + 1 {
      CancelUnstartedDooms(states[k], states[j]);
    } else {
      CancelUnstartedIsFinal(states, actions, k, j - 1);
      ReachableConsistent(states, actions, j - 1);
      DoomedStep(states[j - 1], actions[j - 1], states[j]);
    }
    DoomedIsCancelled(states[j]);
  }

  // ---- An interrupted stop can block the Run -------------------------------------------------

  predicate StaleLive(st: Store) {
    exists i :: 0 <= i < |st.attempts| - 1 && LiveState(st.attempts[i].state)
  }

  /** A freshly prepared retry can be started exactly when no Attempt was left in a live state. */
  lemma RetryStartsIffNoLiveAttempt(st: Store, expected: nat, kind: PrepareKind, next: Store)
    requires !kind.FirstPreparation? && PrepareTx(st, expected, kind) == Some(next)
    requires next.parent != Some(DelegationStopping) && next.parent != Some(DelegationStopped)
    ensures StartTx(next, next.version).Some? <==> (forall i :: 0 <= i < |st.attempts| ==> !LiveState(st.attempts[i].state))
  {
    assert forall i :: 0 <= i < |st.attempts| ==> next.attempts[i] == st.attempts[i];
  }

  /** Only a running Run changes the state of an Attempt that is not the current one. */
  lemma SupersededUnchanged(s: System, a: Action, t: System, i: nat)
    requires Consistent(s) && !s.store.run.Running? && Perform(s, a) == Some(t) && i < |s.store.attempts| - 1
    ensures |s.store.attempts| <= |t.store.attempts| && t.store.attempts[i].state == s.store.attempts[i].state
  {
  }

  /** Only a start makes a Run that is not running run. */
  lemma OnlyStartRuns(s: System, a: Action, t: System)
    requires |s.children| == |s.store.attempts| && !s.store.run.Running? && Perform(s, a) == Some(t) && !a.BeginStart?
    ensures !t.store.run.Running?
  {
  }

  lemma StaleStep(s: System, a: Action, t: System)
    requires Consistent(s) && !s.store.run.Running? && StaleLive(s.store) && Perform(s, a) == Some(t)
    ensures !t.store.run.Running? && StaleLive(t.store)
  {
    var i :| 0 <= i < |s.store.attempts| - 1 && LiveState(s.store.attempts[i].state);
    if !a.BeginStart? {
      OnlyStartRuns(s, a, t);
      SupersededUnchanged(s, a, t, i);
    }
  }

  /** Once a superseded Attempt is still live while the Run is not running, the Run never runs again. */
  lemma {:induction false} StaleLiveAttemptIsPermanent(states: seq<System>, actions: seq<Action>, k: nat, j: nat)
    requires Execution(states, actions) && k <= j < |states|
    requires !states[k].store.run.Running? && StaleLive(states[k].store)
    ensures !states[j].store.run.Running? && StaleLive(states[j].store)
    decreases j
  {
    hide Perform, Consistent, StaleLive;
    if k < j {
      StaleLiveAttemptIsPermanent(states, actions, k, j - 1);
      ReachableConsistent(states, actions, j - 1);
      StaleStep(states[j - 1], actions[j - 1], states[j]);
    }
  }

  // ---- Two boundary executions ---------------------------------------------------------------

  lemma Extend(states: seq<System>, actions: seq<Action>, a: Action)
      returns (states': seq<System>, actions': seq<Action>, t: System)
    requires Execution(states, actions) && Perform(states[|actions|], a).Some?
    requires var t := Perform(states[|actions|], a).value; |t.children| == |t.store.attempts|
    ensures Perform(states[|actions|], a) == Some(t)
    ensures Execution(states', actions') && states'[|actions'|] == t && states < states' && actions' == actions + [a]
  {
    t := Perform(states[|actions|], a).value;
    states', actions' := states + [t], actions + [a];
  }

  lemma Begin(parent: Option<DelegationState>) returns (states: seq<System>, actions: seq<Action>, s: System)
    requires parent.None? || parent == Some(DelegationRunning)
    ensures Execution(states, actions) && states[|actions|] == s
    ensures s.op == Launching(0) && |s.store.attempts| == 1 && |s.children| == 1 && s.children[0].Never? && s.store.run.Running?
    ensures s.store.attempts[0] == Attempt(Starting, Some(FRESH_SESSION)) && s.store.parent == parent && s.store.notes == []
    ensures s.store.version == 2
  {
    states, actions := [System(Store(Draft, 0, [], [], parent), [], Idle)], [];
    states, actions, s := Extend(states, actions, Prepare(0, FirstPreparation));
    states, actions, s := Extend(states, actions, BeginStart(1));
  }

  /** A stop does not recall a launch whose session it found: the child may be born afterwards. */
  lemma ChildMayBeBornAfterStop() returns (states: seq<System>, actions: seq<Action>, k: nat)
    ensures Execution(states, actions) && k < |actions|
    ensures ParentStopped(states[k]) && !Born(states[k], 0) && states[|actions|].children == [Alive]
  {
    var s;
    states, actions, s := Begin(Some(DelegationRunning));
    states, actions, s := Extend(states, actions, ChangeParent(DelegationStopping));
    k := |actions|;
    states, actions, s := Extend(states, actions, SupervisorStart(ProcessStarted, true, true));
  }

  lemma BeginLive() returns (states: seq<System>, actions: seq<Action>, s: System)
    ensures Execution(states, actions) && states[|actions|] == s
    ensures s.op.Idle? && |s.store.attempts| == 1 && |s.children| == 1 && s.store.run.Running? && s.store.version == 3
    ensures s.store.attempts[0] == Attempt(Live, Some(Session(SessionRunning, true, true, false, false, NoIntent)))
    ensures s.store.parent == None && s.store.notes == []
  {
    states, actions, s := Begin(None);
    states, actions, s := Extend(states, actions, SupervisorStart(ProcessStarted, true, true));
    states, actions, s := Extend(states, actions, RecordHandshake);
    states, actions, s := Extend(states, actions, RecordOutcome);
  }

  lemma BeginStopped() returns (states: seq<System>, actions: seq<Action>, s: System)
    ensures Execution(states, actions) && states[|actions|] == s
    ensures s.op.StopResolved? && |s.store.attempts| == 1 && |s.children| == 1 && s.store.run.Stopping? && s.store.version == 4
    ensures s.store.attempts[0] == Attempt(Live, Some(Session(SessionStopped, true, true, true, true, ForRevision)))
    ensures s.store.parent == None && !s.children[0].Alive?
  {
    states, actions, s := BeginLive();
    states, actions, s := Extend(states, actions, RequestStop(3, ForRevision, false, None));
    states, actions, s := Extend(states, actions, ObserveStop(true));
    states, actions, s := Extend(states, actions, MarkStopped);
  }

  /**
   A crash between the two last transactions of a stop leaves the Attempt live under a finalised
   session. Recovery at restart accepts that session as proof and runs to its end, a retry is prepared,
   and its start is refused for ever.
   */
  lemma InterruptedStopStrandsRun() returns (states: seq<System>, actions: seq<Action>, s: System)
    ensures Execution(states, actions) && states[|actions|] == s
    ensures s.store.run.Ready? && StaleLive(s.store) && s.op.Idle? && !s.children[0].Alive?
    ensures forall expected: nat :: StartTx(s.store, expected).None?
  {
    states, actions, s := BeginStopped();
    states, actions, s := Extend(states, actions, Abort);
    states, actions, s := Extend(states, actions, DetectRecovery);
    states, actions, s := Extend(states, actions, ObserveRecovery);
    states, actions, s := Extend(states, actions, MarkFinalized);
    states, actions, s := Extend(states, actions, Prepare(5, HumanRetry));
    assert LiveState(s.store.attempts[0].state);
  }
}
