/**
 The launch, stop, exit, recovery and retry protocol of one Run.

 A durable transaction, a supervisor call and the death of a child are separate steps. The lock that
 serialises commands on a Run and the place a command has reached (`Operation`) live in memory only:
 `Abort` drops them at any point, which is both an error return and a crash of the service.
 */
module RunLaunch {
  import opened Common
  import opened Lifecycle

  datatype SessionState =
    | SessionStarting | SessionRunning | SessionStopping | SessionStopped | SessionFailed | SessionLost

  datatype Intent = NoIntent | ForRevision | ForHandoff | ForCancel

  /** A persisted runtime session. The booleans say whether an identity or a time has been recorded. */
  datatype Session = Session(
    state: SessionState, identified: bool, started: bool, terminal: bool, finalized: bool, intent: Intent)

  datatype Attempt = Attempt(state: AttemptState, session: Option<Session>)

  /** The part of a "run.stopping" or "run.cancelled" event that retry authority is read from. */
  datatype StopNote = StopNote(attempt: Option<nat>, cancel: bool, retryAllowed: bool)

  datatype Store = Store(
    run: RunState, version: nat, attempts: seq<Attempt>, notes: seq<StopNote>, parent: Option<DelegationState>)

  /** What physically became of the child launched for an Attempt. */
  datatype Child = Never | Alive | Dead

  datatype StartKind = ProcessStarted | ProvenNoChild | ReconciliationRequired

  datatype Operation =
    | Idle
    | Launching(attempt: nat)
    | LaunchReturned(attempt: nat, outcome: StartKind)
    | OutcomePending(attempt: nat, outcome: StartKind)
    | StopPending(attempt: nat, intent: Intent)
    | StopProven(attempt: nat, intent: Intent)
    | StopResolved(attempt: nat, intent: Intent, confirmed: bool)
    | ExitProven(attempt: nat, expected: nat)
    | RecoverPending(attempt: nat)
    | RecoverProven(attempt: nat)
    | FinalizePending(attempt: nat)

  datatype System = System(store: Store, children: seq<Child>, op: Operation)

  datatype PrepareKind = FirstPreparation | HumanRetry | AutomaticRetry | ProfileSwitch | VerifiedRetry

  datatype RetryStatus = RetryPending | Retrying | RetryExhausted | RetryBlocked

  // ---- Predicates the transactions read -----------------------------------------------------

  predicate FinalizedForRetry(s: Session) {
    s.terminal && s.finalized &&
    (s.state.SessionStopped? || (s.state.SessionFailed? && !s.identified && !s.started))
  }

  predicate FinalizedAttempt(a: Attempt) {
    a.session.Some? && a.session.value.terminal && a.session.value.finalized &&
    match a.state
    case Interrupted => a.session.value.state.SessionStopped?
    case Failed =>
      if a.session.value.state.SessionFailed? then !a.session.value.identified && !a.session.value.started
      else a.session.value.state.SessionStopped? && a.session.value.identified && a.session.value.started
    case _ => false
  }

  /** The latest note about the Attempt decides. */
  predicate RetryAuthority(notes: seq<StopNote>, attempt: nat) {
    notes != [] &&
    var last := notes[|notes| - 1];
    if last.attempt == Some(attempt) then last.cancel && last.retryAllowed
    else RetryAuthority(notes[..|notes| - 1], attempt)
  }

  predicate LiveState(s: AttemptState) { s.Starting? || s.Live? }

  function Current(st: Store): nat
    requires st.attempts != []
  {
    |st.attempts| - 1
  }

  predicate InactiveCancelReady(st: Store, status: RetryStatus)
    requires st.attempts != []
  {
    var a := st.attempts[Current(st)];
    if a.session.None? then st.run.Ready? && (status.Retrying? || status.RetryBlocked?)
    else st.run.RecoveryRequired? && FinalizedAttempt(a)
  }

  // ---- Transactions: None means the transaction is refused and nothing is written -----------

  function Advance(st: Store, command: RunCommand): Option<Store> {
    match TransitionRun(st.run, command)
    case None => None
    case Some(next) => Some(st.(run := next, version := st.version + 1))
  }

  /** A retry after verification or review asks for a submitted output and does not look at the session. */
  function PrepareTx(st: Store, expected: nat, kind: PrepareKind): Option<Store> {
    if st.version != expected then None
    else if kind.FirstPreparation? then
      match Advance(st, PrepareRun)
      case None => None
      case Some(next) => Some(next.(attempts := st.attempts + [Attempt(Created, None)]))
    else if st.attempts == [] then None
    else if kind.VerifiedRetry? then
      if !st.run.RevisionRequired? || !st.attempts[Current(st)].state.OutputSubmitted? then None
      else
        match Advance(st, PrepareRetry)
        case None => None
        case Some(next) => Some(next.(attempts := st.attempts + [Attempt(Created, None)]))
    else if st.run.Cancelled? && !RetryAuthority(st.notes, Current(st)) then None
    else
      var session := st.attempts[Current(st)].session;
      if session.Some? && !FinalizedForRetry(session.value) then None
      else
        match Advance(st, PrepareRetry)
        case None => None
        case Some(next) => Some(next.(attempts := st.attempts + [Attempt(Created, None)]))
  }

  const FRESH_SESSION := Session(SessionStarting, false, false, false, false, NoIntent)

  /** The index on live Attempts of a Run is part of the schema, so a second live Attempt is refused. */
  function StartTx(st: Store, expected: nat): Option<Store> {
    if st.parent == Some(DelegationStopping) || st.parent == Some(DelegationStopped) then None
    else if st.version != expected || st.attempts == [] then None
    else
      match (Advance(st, StartAttempt), TransitionAttempt(st.attempts[Current(st)].state, Start))
      case (Some(next), Some(state)) =>
        if exists j :: 0 <= j < Current(st) && LiveState(st.attempts[j].state) then None
        else Some(next.(attempts := st.attempts[Current(st) := Attempt(state, Some(FRESH_SESSION))]))
      case _ => None
  }

  function HandshakeTx(st: Store, i: nat): Option<Store> {
    if i < |st.attempts| && st.attempts[i].session.Some? then
      var s := st.attempts[i].session.value;
      Some(st.(attempts := st.attempts[i := st.attempts[i].(session := Some(s.(identified := true)))]))
    else None
  }

  function OutcomeTx(st: Store, i: nat, kind: StartKind): Option<Store> {
    if st.attempts == [] || i >= |st.attempts| || st.attempts[i].session.None? then None
    else
      var c := Current(st);
      var s := st.attempts[i].session.value;
      match kind
      case ProcessStarted =>
        (match (Advance(st, AttemptStarted), TransitionAttempt(st.attempts[c].state, Started))
         case (Some(next), Some(state)) =>
           var moved := st.attempts[c := st.attempts[c].(state := state)];
           Some(next.(attempts := moved[i := moved[i].(session := Some(s.(
             state := SessionRunning, started := true)))]))
         case _ => None)
      case ProvenNoChild =>
        (match (Advance(st, StartFailed), TransitionAttempt(st.attempts[c].state, StartFailure))
         case (Some(next), Some(state)) =>
           var moved := st.attempts[c := st.attempts[c].(state := state)];
           Some(next.(attempts := moved[i := moved[i].(session := Some(s.(
             state := SessionFailed, terminal := true, finalized := true)))]))
         case _ => None)
      case ReconciliationRequired =>
        match Advance(st, StartReconciliationRequired)
        case Some(next) =>
          Some(next.(attempts := st.attempts[i := st.attempts[i].(session := Some(s.(
            state := SessionLost, started := true)))]))
        case None => None
  }

  datatype StopAnswer = CancelledInactive(store: Store) | NowStopping(store: Store)

  function StopCommand(intent: Intent): RunCommand {
    if intent.ForCancel? then RequestCancel else if intent.ForHandoff? then RequestHandoff else RequestIntervention
  }

  function StopTx(st: Store, expected: nat, intent: Intent, allowRetry: bool,
          status: Option<RetryStatus>): Option<StopAnswer> {
    if intent.NoIntent? || (allowRetry && !intent.ForCancel?) || st.version != expected || st.attempts == [] then None
    else
      var c := Current(st);
      var note := StopNote(Some(c), intent.ForCancel?, allowRetry);
      if intent.ForCancel? && (st.run.RecoveryRequired? || st.run.Ready?) && status.Some? &&
         InactiveCancelReady(st, status.value) then
        match Advance(st, CancelInactiveRun)
        case None => None
        case Some(next) => Some(CancelledInactive(next.(notes := st.notes + [note])))
      else if st.attempts[c].session.None? then None
      else
        var s := st.attempts[c].session.value;
        if st.run.Stopping? then
          if intent.ForHandoff? || s.intent != intent then None else Some(NowStopping(st))
        else
          match Advance(st, StopCommand(intent))
          case None => None
          case Some(next) =>
            Some(NowStopping(next.(
              notes := st.notes + [note],
              attempts := st.attempts[c := st.attempts[c].(session := Some(s.(state := SessionStopping, intent := intent)))])))
  }

  function MarkStoppedTx(st: Store, i: nat): Option<Store> {
    if i >= |st.attempts| || st.attempts[i].session.None? then None
    else
      var s := st.attempts[i].session.value;
      if s.finalized then (if s.state.SessionStopped? then Some(st) else None)
      else Some(st.(attempts := st.attempts[i := st.attempts[i].(session := Some(s.(
        state := SessionStopped, terminal := true, finalized := true)))]))
  }

  function FinishStopTx(st: Store, intent: Intent, confirmed: bool): Option<Store> {
    if st.attempts == [] || st.attempts[Current(st)].session.None? then None
    else
      var c := Current(st);
      var a := st.attempts[c];
      var s := a.session.value;
      if confirmed then
        match (Advance(st, if intent.ForCancel? then StopConfirmedForCancel else StopConfirmedForRevision),
               TransitionAttempt(a.state, if intent.ForCancel? then StoppedForCancel else StoppedForRevision))
        case (Some(next), Some(state)) =>
          if s.state.SessionStopped? && s.finalized && s.intent == intent
          then Some(next.(attempts := st.attempts[c := a.(state := state)])) else None
        case _ => None
      else
        match Advance(st, StopUncertain)
        case None => None
        case Some(next) =>
          Some(next.(attempts := st.attempts[c := a.(session := Some(s.(state := SessionLost)))]))
  }

  predicate TerminalCommand(command: RunCommand) {
    command.AttemptFailed? || command.SubmitAgentReport? || command.SubmitAgentReportDirectReview? || command.CompleteNoChange?
  }

  function ExitTx(st: Store, i: nat, expected: nat, command: RunCommand): Option<Store> {
    if i >= |st.attempts| || st.attempts[i].session.None? || st.version != expected || !TerminalCommand(command) then None
    else
      var a := st.attempts[i];
      match (Advance(st, command), TransitionAttempt(a.state, if command.AttemptFailed? then Failure else Output))
      case (Some(next), Some(state)) =>
        Some(next.(attempts := st.attempts[i := Attempt(state, Some(a.session.value.(
          state := SessionStopped, terminal := true, finalized := true)))]))
      case _ => None
  }

  /** Restart selects Runs that may still have a child; other Runs are left alone. */
  predicate StartupCandidate(st: Store) {
    st.attempts != [] &&
    var a := st.attempts[Current(st)];
    (st.run.Running? || st.run.Stopping? || LiveState(a.state) ||
     (st.run.RecoveryRequired? && a.session.Some? && !a.session.value.finalized && !a.session.value.state.SessionFailed?))
  }

  function RecoverDetectTx(st: Store): Option<Store> {
    if st.run.RecoveryRequired? then Some(st) else Advance(st, RecoveryDetected)
  }

  function RecoverStopTx(st: Store, i: nat): Option<Store> {
    if i >= |st.attempts| || st.attempts[i].session.None? then None
    else
      var c := Current(st);
      match TransitionAttempt(st.attempts[c].state, StoppedForRevision)
      case None => None
      case Some(state) =>
        var moved := st.attempts[c := st.attempts[c].(state := state)];
        Some(st.(attempts := moved[i := moved[i].(session := Some(st.attempts[i].session.value.(
          state := SessionStopped, terminal := true)))]))
  }

  function MarkFinalizedTx(st: Store, i: nat): Option<Store> {
    if i < |st.attempts| && st.attempts[i].session.Some? then
      Some(st.(attempts := st.attempts[i := st.attempts[i].(session := Some(st.attempts[i].session.value.(finalized := true)))]))
    else None
  }

  function CancelUnstartedTx(st: Store): Option<Store> {
    if st.parent != Some(DelegationStopping) then None
    else if st.run.RecoveryRequired? then
      if st.attempts == [] || !FinalizedAttempt(st.attempts[Current(st)]) then None
      else
        match Advance(st, CancelInactiveRun)
        case None => None
        case Some(next) => Some(next.(notes := st.notes + [StopNote(Some(Current(st)), false, false)]))
    else if st.run.Draft? then
      if st.attempts != [] then None
      else
        match Advance(st, CancelInactiveRun)
        case None => None
        case Some(next) => Some(next.(notes := st.notes + [StopNote(None, false, false)]))
    else if st.run.Ready? then
      if st.attempts == [] then None
      else
        var a := st.attempts[Current(st)];
        if !a.state.Created? || a.session.Some? then None
        else
          match (Advance(st, CancelInactiveRun), TransitionAttempt(a.state, StoppedForCancel))
          case (Some(next), Some(state)) =>
            Some(next.(attempts := st.attempts[Current(st) := a.(state := state)],
                       notes := st.notes + [StopNote(None, false, false)]))
          case _ => None
    else None
  }

  /** Verification and review move the Run without touching Attempts or sessions. */
  predicate ReviewCommand(command: RunCommand) {
    command.StartVerification? || command.VerificationPassed? || command.VerificationNeedsRevision? ||
    command.VerificationFailed? || command.VerificationCancelConfirmed? || command.RetryVerification? ||
    command.ReviewAccept? || command.ReviewReject?
  }

  // ---- Steps ---------------------------------------------------------------------------------

  datatype Action =
    | Prepare(expected: nat, kind: PrepareKind)
    | BeginStart(expected: nat)
    | RefuseLaunch
    | SupervisorStart(outcome: StartKind, born: bool, identified: bool)
    | RecordHandshake
    | RecordOutcome
    | RequestStop(expected: nat, intent: Intent, allowRetry: bool, status: Option<RetryStatus>)
    | ObserveStop(proven: bool)
    | MarkStopped
    | FinishStop
    | ObserveExit(attempt: nat, expected: nat)
    | FinishExit(command: RunCommand)
    | DetectRecovery
    | ObserveRecovery
    | RecoverStop
    | ReplayFinalize
    | MarkFinalized
    | CancelUnstarted
    | ReviewStep(command: RunCommand)
    | ChangeParent(next: DelegationState)
    | ChildExits(attempt: nat)
    | Abort

  function Commit(s: System, st: Option<Store>, op: Operation): Option<System> {
    match st case None => None case Some(next) => Some(s.(store := next, op := op))
  }

  /** The supervisor is truthful: "dead" is reported, or brought about, only for a child that is not alive afterwards. */
  function ProveDead(children: seq<Child>, i: nat): seq<Child>
    requires i < |children|
  {
    if children[i].Alive? then children[i := Dead] else children
  }

  /** A start without a child leaves none; a start with a child made exactly one. */
  function AfterStart(children: seq<Child>, i: nat, kind: StartKind, born: bool): seq<Child>
    requires i < |children|
  {
    if kind.ProcessStarted? || (kind.ReconciliationRequired? && born) then children[i := Alive] else children
  }

  function Perform(s: System, a: Action): Option<System>
    requires |s.children| == |s.store.attempts|
  {
    var st := s.store;
    match a
    case Prepare(expected, kind) =>
      if !s.op.Idle? then None
      else (match PrepareTx(st, expected, kind)
            case None => None
            case Some(next) => Some(System(next, s.children + [Never], Idle)))
    case BeginStart(expected) =>
      if !s.op.Idle? || st.attempts == [] then None else Commit(s, StartTx(st, expected), Launching(Current(st)))
    case RefuseLaunch =>
      if s.op.Launching? then Some(s.(op := OutcomePending(s.op.attempt, ProvenNoChild))) else None
    case SupervisorStart(kind, born, identified) =>
      if s.op.Launching? && s.op.attempt < |s.children| && (kind.ProcessStarted? ==> identified) && (kind.ProvenNoChild? ==> !identified)
      then Some(s.(children := AfterStart(s.children, s.op.attempt, kind, born),
                   op := if identified then LaunchReturned(s.op.attempt, kind) else OutcomePending(s.op.attempt, kind)))
      else None
    case RecordHandshake =>
      if s.op.LaunchReturned?
      then Commit(s, HandshakeTx(st, s.op.attempt), OutcomePending(s.op.attempt, s.op.outcome)) else None
    case RecordOutcome =>
      if s.op.OutcomePending? then Commit(s, OutcomeTx(st, s.op.attempt, s.op.outcome), Idle) else None
    case RequestStop(expected, intent, allowRetry, status) =>
      if !s.op.Idle? then None
      else (match StopTx(st, expected, intent, allowRetry, status)
            case None => None
            case Some(CancelledInactive(next)) => Some(s.(store := next))
            case Some(NowStopping(next)) => Some(s.(store := next, op := StopPending(|st.attempts| - 1, intent))))
    case ObserveStop(proven) =>
      if !s.op.StopPending? || s.op.attempt >= |st.attempts| || st.attempts[s.op.attempt].session.None? then None
      else
        var session := st.attempts[s.op.attempt].session.value;
        if session.finalized then
          (if session.state.SessionStopped? && session.intent == s.op.intent
           then Some(s.(op := StopResolved(s.op.attempt, s.op.intent, true))) else None)
        else if proven then
          Some(s.(children := ProveDead(s.children, s.op.attempt), op := StopProven(s.op.attempt, s.op.intent)))
        else Some(s.(op := StopResolved(s.op.attempt, s.op.intent, false)))
    case MarkStopped =>
      if s.op.StopProven?
      then Commit(s, MarkStoppedTx(st, s.op.attempt), StopResolved(s.op.attempt, s.op.intent, true)) else None
    case FinishStop =>
      if s.op.StopResolved? then Commit(s, FinishStopTx(st, s.op.intent, s.op.confirmed), Idle) else None
    case ObserveExit(i, expected) =>
      if s.op.Idle? && i < |st.attempts| && st.attempts[i].session.Some? && !s.children[i].Alive?
      then Some(s.(op := ExitProven(i, expected))) else None
    case FinishExit(command) =>
      if s.op.ExitProven? then Commit(s, ExitTx(st, s.op.attempt, s.op.expected, command), Idle) else None
    case DetectRecovery =>
      if s.op.Idle? && StartupCandidate(st)
      then Commit(s, RecoverDetectTx(st), RecoverPending(Current(st))) else None
    case ObserveRecovery =>
      if !s.op.RecoverPending? || s.op.attempt >= |st.attempts| || st.attempts[s.op.attempt].session.None? then None
      else Some(s.(children := ProveDead(s.children, s.op.attempt),
                   op := if st.attempts[s.op.attempt].session.value.state.SessionStopped?
                         then FinalizePending(s.op.attempt) else RecoverProven(s.op.attempt)))
    case RecoverStop =>
      if s.op.RecoverProven? then Commit(s, RecoverStopTx(st, s.op.attempt), FinalizePending(s.op.attempt)) else None
    case ReplayFinalize =>
      if s.op.Idle? && st.attempts != [] && (st.run.RevisionRequired? || st.run.Cancelled?) &&
         st.attempts[Current(st)].session.Some? && !s.children[Current(st)].Alive?
      then Some(s.(op := FinalizePending(Current(st)))) else None
    case MarkFinalized =>
      if s.op.FinalizePending? then Commit(s, MarkFinalizedTx(st, s.op.attempt), Idle) else None
    case CancelUnstarted =>
      if s.op.Idle? then Commit(s, CancelUnstartedTx(st), Idle) else None
    case ReviewStep(command) =>
      if s.op.Idle? && ReviewCommand(command) then Commit(s, Advance(st, command), Idle) else None
    case ChangeParent(next) =>
      if st.parent.Some? && DelegationMayBecome(st.parent.value, next)
      then Some(s.(store := st.(parent := Some(next)))) else None
    case ChildExits(i) =>
      if i < |s.children| && s.children[i].Alive? then Some(s.(children := s.children[i := Dead])) else None
    case Abort => Some(s.(op := Idle))
  }

  predicate Initial(s: System) {
    s.store.run.Draft? && s.store.attempts == [] && s.store.notes == [] && s.children == [] && s.op.Idle? &&
    s.store.version == 0 && (s.store.parent.None? || s.store.parent == Some(DelegationRunning))
  }

  /** Any finite run of the protocol, with crashes anywhere. */
  ghost predicate Execution(states: seq<System>, actions: seq<Action>) {
    |states| == |actions| + 1 && Initial(states[0]) &&
    (forall k :: 0 <= k < |states| ==> |states[k].children| == |states[k].store.attempts|) &&
    (forall k :: 0 <= k < |actions| ==> Perform(states[k], actions[k]) == Some(states[k + 1]))
  }
}
