/** The automatic retry budget of one Run, folded from its event log, and the board's own reading of it. */
module AutomaticRetry {
  import opened Common
  import opened Lifecycle

  const MAX_RETRIES := 2

  datatype Payload = Payload(attempt: string, predecessor: string, failure: string, used: int, max: int, reason: string)

  /** Events of other kinds are irrelevant to the budget; a payload is absent when it cannot be decoded. */
  datatype Event =
    | RunStarted
    | Enabled
    | Reset
    | Prepared(payload: Option<Payload>)
    | Blocked(payload: Option<Payload>)
    | AttemptEnded(attempt: string, failure: string)
    | Unrelated

  datatype Projection = Projection(enabled: bool, used: int, prepared: string, blocked: string, reason: string, failure: string)

  datatype State = Pending | Retrying | Exhausted | BlockedRetry

  datatype Retry = Retry(state: State, used: int, failure: string, reason: string)

  datatype Malformed = MalformedPreparation | MalformedBlock

  datatype SessionState = StartingSession | RunningSession | StoppedSession | FailedSession | OtherSession

  datatype Session = Session(terminal: bool, finalized: bool, state: SessionState, process: bool, started: bool)

  /** What else is read beside the log: the Run, its current Attempt and that Attempt's session. */
  datatype Facts = Facts(closed: bool, run: RunState, attempt: Option<string>, attemptState: AttemptState, session: Option<Session>)

  // ---- The fold ------------------------------------------------------------------------------

  predicate ValidPreparation(p: Option<Payload>) {
    p.Some? && p.value.attempt != "" && p.value.predecessor != "" && 1 <= p.value.used <= MAX_RETRIES && p.value.max == MAX_RETRIES
  }

  predicate ValidBlock(p: Option<Payload>) { p.Some? && p.value.attempt != "" && p.value.max == MAX_RETRIES }

  const NOTHING := Projection(false, 0, "", "", "", "")

  function Fold(log: seq<Event>): Result<Projection, Malformed> {
    if log == [] then Ok(NOTHING)
    else
      match Fold(log[..|log| - 1])
      case Err(e) => Err(e)
      case Ok(p) =>
        match log[|log| - 1]
        case RunStarted => Ok(p.(blocked := "", reason := ""))
        case Enabled => Ok(p.(enabled := true))
        case Reset => Ok(p.(enabled := true, used := 0, prepared := "", blocked := "", failure := ""))
        case Prepared(q) =>
          if !ValidPreparation(q) then Err(MalformedPreparation)
          else Ok(p.(enabled := true, used := q.value.used, prepared := q.value.attempt, blocked := "", failure := q.value.failure))
        case Blocked(q) =>
          if !ValidBlock(q) then Err(MalformedBlock)
          else
            Ok(p.(blocked := q.value.attempt, reason := q.value.reason,
                  failure := if q.value.failure != "" then q.value.failure else p.failure))
        case AttemptEnded(_, _) => Ok(p)
        case Unrelated => Ok(p)
  }

  lemma {:induction false} FoldFails(log: seq<Event>, k: nat)
    requires k <= |log| && Fold(log[..k]).Err?
    ensures Fold(log) == Err(Fold(log[..k]).error)
  {
    if k < |log| {
      assert log[..|log| - 1][..k] == log[..k];
      FoldFails(log[..|log| - 1], k);
    } else {
      assert log[..k] == log;
    }
  }

  method EventState(log: seq<Event>) returns (r: Result<Projection, Malformed>)
    ensures r == Fold(log)
  {
    var p := NOTHING;
    for k := 0 to |log|
      invariant Fold(log[..k]) == Ok(p)
    {
      assert log[..k + 1][..k] == log[..k];
      if Fold(log[..k + 1]).Err? { FoldFails(log, k + 1); }
      match log[k] {
        case RunStarted => p := p.(blocked := "", reason := "");
        case Enabled => p := p.(enabled := true);
        case Reset => p := p.(enabled := true, used := 0, prepared := "", blocked := "", failure := "");
        case Prepared(q) =>
          if !ValidPreparation(q) { return Err(MalformedPreparation); }
          p := p.(enabled := true, used := q.value.used, prepared := q.value.attempt, blocked := "", failure := q.value.failure);
        case Blocked(q) =>
          if !ValidBlock(q) { return Err(MalformedBlock); }
          p := p.(blocked := q.value.attempt, reason := q.value.reason);
          if q.value.failure != "" { p := p.(failure := q.value.failure); }
        case _ =>
      }
    }
    assert log[..|log|] == log;
    r := Ok(p);
  }

  /** The reason recorded last for the Attempt; empty when none was. */
  function FailureOf(log: seq<Event>, attempt: string): string {
    if log == [] then ""
    else
      var last := log[|log| - 1];
      if last.AttemptEnded? && last.attempt == attempt then last.failure else FailureOf(log[..|log| - 1], attempt)
  }

  predicate Retryable(failure: string) {
    failure == "runtime_output_limit_exceeded" || failure == "attempt_timeout" || failure == "runtime_exit_nonzero"
  }

  predicate Finalized(attempt: AttemptState, session: Option<Session>) {
    session.Some? && session.value.terminal && session.value.finalized &&
    match attempt
    case Interrupted => session.value.state.StoppedSession?
    case Failed =>
      if session.value.state.FailedSession? then !session.value.process && !session.value.started
      else session.value.state.StoppedSession? && session.value.process && session.value.started
    case _ => false
  }

  predicate Finished(run: RunState) {
    run in {Accepted, Completed, RunState.Cancelled, AwaitingVerification, Verifying, AwaitingReview, RevisionRequired, VerificationRecoveryRequired}
  }

  predicate InProgress(run: RunState) { run.Ready? || run.Running? || run.Stopping? }

  /** The service's answer; None when there is no automatic continuation to present. */
  function RetryForRun(facts: Facts, log: seq<Event>): Result<Option<Retry>, Malformed> {
    if facts.closed then Ok(None)
    else
      match Fold(log)
      case Err(e) => Err(e)
      case Ok(p) =>
        if !p.enabled || Finished(facts.run) || facts.attempt.None? then Ok(None)
        else
          var attempt := facts.attempt.value;
          var exact := FailureOf(log, attempt);
          var failure := if exact == "" then p.failure else exact;
          var found := Retry(Pending, p.used, failure, "");
          if p.blocked == attempt then Ok(Some(found.(state := BlockedRetry, reason := p.reason)))
          else if p.prepared == attempt && InProgress(facts.run) then Ok(Some(found.(state := Retrying)))
          else if !facts.run.RecoveryRequired? then Ok(None)
          else if facts.attemptState.Interrupted? then Ok(Some(found.(state := BlockedRetry)))
          else if exact == "" || !Finalized(facts.attemptState, facts.session) || !Retryable(exact) then Ok(Some(found.(state := BlockedRetry)))
          else if p.used >= MAX_RETRIES then Ok(Some(found.(state := Exhausted)))
          else Ok(Some(found))
  }

  // ---- What the fold means -------------------------------------------------------------------

  predicate Determines(e: Event) { e.Reset? || e.Prepared? }
  predicate AboutBlocking(e: Event) { e.RunStarted? || e.Reset? || e.Prepared? || e.Blocked? }
  predicate AboutReason(e: Event) { e.RunStarted? || e.Blocked? }
  predicate AboutFailure(e: Event) { e.Reset? || e.Prepared? || (e.Blocked? && e.payload.Some? && e.payload.value.failure != "") }

  /** Event k is the last of its sort. */
  ghost predicate LastOf(log: seq<Event>, k: nat, sort: Event -> bool) {
    k < |log| && sort(log[k]) && forall j :: k < j < |log| ==> !sort(log[j])
  }

  ghost predicate NoneOf(log: seq<Event>, sort: Event -> bool) { forall j :: 0 <= j < |log| ==> !sort(log[j]) }

  /** Adding an event that is not of a sort leaves the last of that sort the last. */
  lemma LastStays(log: seq<Event>, sort: Event -> bool)
    requires log != []
    ensures var n := |log| - 1;
            if sort(log[n]) then !NoneOf(log, sort) && LastOf(log, n, sort) && forall k: nat :: LastOf(log, k, sort) ==> k == n
            else (forall k: nat :: LastOf(log, k, sort) <==> LastOf(log[..n], k, sort)) && (NoneOf(log, sort) <==> NoneOf(log[..n], sort))
  {
    var n := |log| - 1;
    assert forall k :: 0 <= k < n ==> log[..n][k] == log[k];
  }

  /** A recorded preparation names both Attempts and a number within the budget; a recorded block names its Attempt. */
  predicate WellRecorded(e: Event) {
    match e
    case Prepared(q) => q.Some? && q.value.attempt != "" && q.value.predecessor != "" && q.value.used in {1, 2} && q.value.max == 2
    case Blocked(q) => q.Some? && q.value.attempt != "" && q.value.max == 2
    case _ => true
  }

  lemma {:induction false} FoldRefuses(log: seq<Event>)
    ensures Fold(log).Ok? <==> forall k :: 0 <= k < |log| ==> WellRecorded(log[k])
  {
    if log != [] {
      var n := |log| - 1;
      FoldRefuses(log[..n]);
      assert forall k :: 0 <= k < n ==> log[..n][k] == log[k];
    }
  }

  // Each part of the fold is what the last event about it says.

  predicate SaysEnabled(log: seq<Event>, p: Projection) {
    p.enabled <==> exists k :: 0 <= k < |log| && (log[k].Enabled? || Determines(log[k]))
  }

  ghost predicate SaysBudget(log: seq<Event>, p: Projection) {
    (NoneOf(log, Determines) ==> p.used == 0 && p.prepared == "") &&
    (forall k: nat :: LastOf(log, k, Determines) ==>
       if log[k].Reset? then p.used == 0 && p.prepared == ""
       else log[k].Prepared? && log[k].payload.Some? && p.used == log[k].payload.value.used && p.prepared == log[k].payload.value.attempt)
  }

  ghost predicate SaysBlock(log: seq<Event>, p: Projection) {
    (NoneOf(log, AboutBlocking) ==> p.blocked == "") &&
    (forall k: nat :: LastOf(log, k, AboutBlocking) ==>
       if log[k].Blocked? then log[k].payload.Some? && p.blocked == log[k].payload.value.attempt else p.blocked == "")
  }

  ghost predicate SaysReason(log: seq<Event>, p: Projection) {
    (NoneOf(log, AboutReason) ==> p.reason == "") &&
    (forall k: nat :: LastOf(log, k, AboutReason) ==>
       if log[k].Blocked? then log[k].payload.Some? && p.reason == log[k].payload.value.reason else p.reason == "")
  }

  ghost predicate SaysFailure(log: seq<Event>, p: Projection) {
    (NoneOf(log, AboutFailure) ==> p.failure == "") &&
    (forall k: nat :: LastOf(log, k, AboutFailure) ==>
       if log[k].Prepared? || log[k].Blocked? then log[k].payload.Some? && p.failure == log[k].payload.value.failure else p.failure == "")
  }

  lemma {:induction false} EnabledMeans(log: seq<Event>)
    requires Fold(log).Ok?
    ensures SaysEnabled(log, Fold(log).value)
  {
    if log != [] {
      var n := |log| - 1;
      EnabledMeans(log[..n]);
      assert forall k :: 0 <= k < n ==> log[..n][k] == log[k];
    }
  }

  lemma LastIsWithin(log: seq<Event>, sort: Event -> bool)
    ensures forall k: nat :: LastOf(log, k, sort) ==> k < |log|
  {
  }

  lemma {:induction false} BudgetMeans(log: seq<Event>)
    requires Fold(log).Ok?
    ensures SaysBudget(log, Fold(log).value)
  {
    if log == [] {
      assert NoneOf(log, Determines);
    } else {
      var n := |log| - 1;
      BudgetMeans(log[..n]);
      hide LastOf, NoneOf;
      LastStays(log, Determines);
      if !Determines(log[n]) {
        LastIsWithin(log[..n], Determines);
        assert forall k :: 0 <= k < n ==> log[..n][k] == log[k];
      }
    }
  }

  lemma {:induction false} BlockMeans(log: seq<Event>)
    requires Fold(log).Ok?
    ensures SaysBlock(log, Fold(log).value)
  {
    if log == [] {
      assert NoneOf(log, AboutBlocking);
    } else {
      var n := |log| - 1;
      BlockMeans(log[..n]);
      hide LastOf, NoneOf;
      LastStays(log, AboutBlocking);
      if !AboutBlocking(log[n]) {
        LastIsWithin(log[..n], AboutBlocking);
        assert forall k :: 0 <= k < n ==> log[..n][k] == log[k];
      }
    }
  }

  lemma {:induction false} ReasonMeans(log: seq<Event>)
    requires Fold(log).Ok?
    ensures SaysReason(log, Fold(log).value)
  {
    if log == [] {
      assert NoneOf(log, AboutReason);
    } else {
      var n := |log| - 1;
      ReasonMeans(log[..n]);
      hide LastOf, NoneOf;
      LastStays(log, AboutReason);
      if !AboutReason(log[n]) {
        LastIsWithin(log[..n], AboutReason);
        assert forall k :: 0 <= k < n ==> log[..n][k] == log[k];
      }
    }
  }

  lemma {:induction false} FailureFoldMeans(log: seq<Event>)
    requires Fold(log).Ok?
    ensures SaysFailure(log, Fold(log).value)
  {
    if log == [] {
      assert NoneOf(log, AboutFailure);
    } else {
      var n := |log| - 1;
      FailureFoldMeans(log[..n]);
      hide LastOf, NoneOf;
      LastStays(log, AboutFailure);
      if !AboutFailure(log[n]) {
        LastIsWithin(log[..n], AboutFailure);
        assert forall k :: 0 <= k < n ==> log[..n][k] == log[k];
      }
    }
  }

  /** What a well-formed log folds to, part by part. */
  lemma FoldMeans(log: seq<Event>)
    requires Fold(log).Ok?
    ensures var p := Fold(log).value;
            SaysEnabled(log, p) && SaysBudget(log, p) && SaysBlock(log, p) && SaysReason(log, p) && SaysFailure(log, p)
  {
    EnabledMeans(log);
    BudgetMeans(log);
    BlockMeans(log);
    ReasonMeans(log);
    FailureFoldMeans(log);
  }

  // ---- What the service's answer means -------------------------------------------------------

  /** Event k is the last one that ends this Attempt. */
  predicate LastEnding(log: seq<Event>, attempt: string, k: nat) {
    k < |log| && log[k].AttemptEnded? && log[k].attempt == attempt &&
    forall j :: k < j < |log| ==> !(log[j].AttemptEnded? && log[j].attempt == attempt)
  }

  lemma {:induction false} FailureMeans(log: seq<Event>, attempt: string)
    ensures forall k: nat :: LastEnding(log, attempt, k) ==> FailureOf(log, attempt) == log[k].failure
    ensures (forall k :: 0 <= k < |log| ==> !(log[k].AttemptEnded? && log[k].attempt == attempt)) ==> FailureOf(log, attempt) == ""
  {
    if log != [] {
      var n := |log| - 1;
      FailureMeans(log[..n], attempt);
      assert forall k :: 0 <= k < n ==> log[..n][k] == log[k];
      forall k: nat | LastEnding(log, attempt, k)
        ensures FailureOf(log, attempt) == log[k].failure
      {
        if k < n { assert LastEnding(log[..n], attempt, k); }
      }
    }
  }

  /** A failure that passes with time: the output grew too large, the time ran out, or the process exited badly. */
  predicate Passing(failure: string) {
    failure in {"runtime_exit_nonzero", "runtime_output_limit_exceeded", "attempt_timeout"}
  }

  /** The Attempt failed, its session is over and done with, and either no process was ever started or it was stopped. */
  predicate SafelyFailed(facts: Facts) {
    facts.attemptState.Failed? && facts.session.Some? && facts.session.value.terminal && facts.session.value.finalized &&
    (if facts.session.value.process || facts.session.value.started
     then facts.session.value.process && facts.session.value.started && facts.session.value.state.StoppedSession?
     else facts.session.value.state.FailedSession?)
  }

  /** Retries are enabled for a Run that has an Attempt, is open, and is still working. */
  predicate Continues(facts: Facts, p: Projection) {
    !facts.closed && p.enabled && facts.attempt.Some? && facts.run in {Draft, Ready, Running, Stopping, RecoveryRequired}
  }

  /**
   The service presents a retry exactly when: pending, if the current Attempt failed safely and for a passing
   reason with budget left; exhausted, if there is none left; retrying, while the Attempt it prepared is under way; blocked, if
   someone blocked this Attempt or recovery is not safe to automate; and nothing otherwise.
   */
  lemma RetryMeans(facts: Facts, log: seq<Event>)
    requires Fold(log).Ok?
    ensures var p, r := Fold(log).value, RetryForRun(facts, log);
            r.Ok? &&
            if !Continues(facts, p) then r.value.None?
            else
              var a := facts.attempt.value;
              var eligible := facts.run.RecoveryRequired? && SafelyFailed(facts) && Passing(FailureOf(log, a));
              if p.blocked == a then r.value.Some? && r.value.value.state.BlockedRetry? && r.value.value.reason == p.reason
              else if facts.run.RecoveryRequired? then
                r.value.Some? && r.value.value.used == p.used && r.value.value.reason == "" &&
                (r.value.value.state.Pending? <==> eligible && p.used < 2) && (r.value.value.state.Exhausted? <==> eligible && p.used >= 2) &&
                (r.value.value.state.BlockedRetry? <==> !eligible)
              else if p.prepared == a && !facts.run.Draft? then r.value.Some? && r.value.value.state.Retrying? && r.value.value.used == p.used
              else r.value.None?
    ensures RetryForRun(facts, log).value.Some? ==>
              var exact := FailureOf(log, facts.attempt.value);
              RetryForRun(facts, log).value.value.failure == if exact != "" then exact else Fold(log).value.failure
  {
    hide Fold, FailureOf;
  }

  // ---- The writers ---------------------------------------------------------------------------

  datatype Command =
    | EnableOnCreation
    | PrepareFirst(attempt: string)
    | StartRun
    | PrepareAutomatic(attempt: string, predecessor: string, reason: string, pi: bool)
    | PrepareHuman(attempt: string, pi: bool)
    | PrepareVerified(attempt: string, pi: bool)
    | SwitchProfile(attempt: string)
    | Block(attempt: string, reason: string)
    | EndAttempt(attempt: string, failure: string)
    | AppendUnrelated

  /** Whether a retry leaves its marker: always for the pi adapter, otherwise once retries are enabled. */
  predicate MarkerPersists(log: seq<Event>, pi: bool) { pi || (Fold(log).Ok? && Fold(log).value.enabled) }

  /**
   The log a command leaves, for arbitrary other facts at that moment. A refused command leaves the log
   as it was.
   */
  function Written(log: seq<Event>, facts: Facts, c: Command): seq<Event> {
    match c
    case EnableOnCreation => log + [Enabled]
    case PrepareFirst(attempt) => log + [Unrelated]
    case StartRun => log + [RunStarted]
    case PrepareVerified(attempt, pi) => if pi then log + [Unrelated, Reset] else log + [Unrelated]
    case EndAttempt(attempt, failure) => log + [AttemptEnded(attempt, failure)]
    case AppendUnrelated => log + [Unrelated]
    case SwitchProfile(attempt) => log + [Reset]
    case PrepareHuman(attempt, pi) =>
      if !pi && Fold(log).Err? then log
      else if MarkerPersists(log, pi) then log + [Unrelated, Reset] else log + [Unrelated]
    case PrepareAutomatic(attempt, predecessor, reason, pi) =>
      var status := RetryForRun(facts, log);
      if attempt == "" || facts.attempt != Some(predecessor) || predecessor == "" then log
      else if status.Err? || status.value.None? || !status.value.value.state.Pending? || status.value.value.used >= MAX_RETRIES then log
      else if MarkerPersists(log + [Unrelated], pi) then
        log + [Unrelated, Prepared(Some(Payload(attempt, predecessor, reason, status.value.value.used + 1, MAX_RETRIES, "")))]
      else log + [Unrelated]
    case Block(attempt, reason) =>
      var status := RetryForRun(facts, log);
      if reason == "" || attempt == "" || facts.attempt != Some(attempt) || status.Err? || status.value.None? then log
      else
        var r := status.value.value;
        if r.state.Exhausted? || (r.state.BlockedRetry? && r.reason != "") then log
        else log + [Blocked(Some(Payload(attempt, "", r.failure, r.used, MAX_RETRIES, reason)))]
  }

  function WrittenAll(steps: seq<(Facts, Command)>): seq<Event> {
    if steps == [] then []
    else Written(WrittenAll(steps[..|steps| - 1]), steps[|steps| - 1].0, steps[|steps| - 1].1)
  }

  /** Automatic preparations since a person last reset the budget. */
  function PreparedSinceReset(log: seq<Event>): nat {
    if log == [] then 0
    else
      match log[|log| - 1]
      case Reset => 0
      case Prepared(_) => PreparedSinceReset(log[..|log| - 1]) + 1
      case _ => PreparedSinceReset(log[..|log| - 1])
  }

  predicate Sound(log: seq<Event>) {
    Fold(log).Ok? && Fold(log).value.used == PreparedSinceReset(log) <= MAX_RETRIES
  }

  lemma Append(log: seq<Event>, e: Event)
    ensures (log + [e])[..|log + [e]| - 1] == log && (log + [e])[|log + [e]| - 1] == e
  {
  }

  lemma AppendKeepsSound(log: seq<Event>, e: Event)
    requires Sound(log)
    requires e.Prepared? ==> ValidPreparation(e.payload) && e.payload.value.used == PreparedSinceReset(log) + 1
    requires e.Blocked? ==> ValidBlock(e.payload)
    ensures Sound(log + [e])
  {
    Append(log, e);
  }

  lemma AppendTwo(log: seq<Event>, d: Event, e: Event)
    ensures log + [d, e] == log + [d] + [e]
  {
  }

  lemma WrittenSound(log: seq<Event>, facts: Facts, c: Command)
    requires Sound(log)
    ensures Sound(Written(log, facts, c))
  {
    hide Fold, PreparedSinceReset, Finalized, Retryable, Finished, FailureOf;
    AppendKeepsSound(log, Unrelated);
    UnrelatedKeeps(log);
    match c
    case EnableOnCreation => AppendKeepsSound(log, Enabled);
    case PrepareFirst(attempt) =>
    case StartRun => AppendKeepsSound(log, RunStarted);
    case EndAttempt(attempt, failure) => AppendKeepsSound(log, AttemptEnded(attempt, failure));
    case AppendUnrelated =>
    case PrepareVerified(attempt, pi) =>
      AppendKeepsSound(log + [Unrelated], Reset);
      AppendTwo(log, Unrelated, Reset);
    case SwitchProfile(attempt) => AppendKeepsSound(log, Reset);
    case PrepareHuman(attempt, pi) =>
      AppendKeepsSound(log + [Unrelated], Reset);
      AppendTwo(log, Unrelated, Reset);
    case PrepareAutomatic(attempt, predecessor, reason, pi) =>
      if Written(log, facts, c) != log {
        var marker := Prepared(Some(Payload(attempt, predecessor, reason, Fold(log).value.used + 1, MAX_RETRIES, "")));
        AppendKeepsSound(log + [Unrelated], marker);
        AppendTwo(log, Unrelated, marker);
      }
    case Block(attempt, reason) =>
      if Written(log, facts, c) != log {
        var r := RetryForRun(facts, log).value.value;
        AppendKeepsSound(log, Blocked(Some(Payload(attempt, "", r.failure, r.used, MAX_RETRIES, reason))));
      }
  }

  lemma UnrelatedKeeps(log: seq<Event>)
    ensures Fold(log + [Unrelated]) == Fold(log) && PreparedSinceReset(log + [Unrelated]) == PreparedSinceReset(log)
  {
    Append(log, Unrelated);
  }

  /**
   On every log the writers produce, whatever the Run does meanwhile: nothing is malformed, and the
   folded count is the number of automatic preparations since the last reset, never above the budget.
   */
  lemma {:induction false} BudgetIsKept(steps: seq<(Facts, Command)>)
    ensures Sound(WrittenAll(steps))
  {
    hide Written;
    if steps != [] {
      var n := |steps| - 1;
      BudgetIsKept(steps[..n]);
      WrittenSound(WrittenAll(steps[..n]), steps[n].0, steps[n].1);
    }
  }

  /** Every automatic preparation that goes through leaves its marker, whatever the adapter. */
  lemma AutomaticAlwaysMarked(log: seq<Event>, facts: Facts, attempt: string, predecessor: string, reason: string,
          pi: bool)
    requires Sound(log) && Written(log, facts, PrepareAutomatic(attempt, predecessor, reason, pi)) != log
    ensures var log' := Written(log, facts, PrepareAutomatic(attempt, predecessor, reason, pi));
            log' == log + [Unrelated, Prepared(Some(Payload(attempt, predecessor, reason, PreparedSinceReset(log) + 1, MAX_RETRIES, "")))] &&
            PreparedSinceReset(log') == PreparedSinceReset(log) + 1
  {
    hide Fold, Finalized, Retryable, Finished, FailureOf;
    UnrelatedKeeps(log);
    var marker := Prepared(Some(Payload(attempt, predecessor, reason, PreparedSinceReset(log) + 1, MAX_RETRIES, "")));
    Append(log + [Unrelated], marker);
    AppendTwo(log, Unrelated, marker);
  }

  /** Once the budget is used up, no automatic preparation goes through until a reset. */
  lemma SpentBudgetRefuses(log: seq<Event>, facts: Facts, attempt: string, predecessor: string, reason: string,
          pi: bool)
    requires Sound(log) && PreparedSinceReset(log) == MAX_RETRIES
    ensures Written(log, facts, PrepareAutomatic(attempt, predecessor, reason, pi)) == log
  {
    hide Fold, PreparedSinceReset, Finalized, Retryable, Finished, FailureOf;
  }

  // ---- The board's reading -------------------------------------------------------------------

  /** What the board is handed of a Run: the same log, the same failure and finalisation facts. */
  function BoardFold(log: seq<Event>): Option<(bool, int, string, string)> {
    if log == [] then Some((false, 0, "", ""))
    else
      match BoardFold(log[..|log| - 1])
      case None => None
      case Some((enabled, used, prepared, blocked)) =>
        match log[|log| - 1]
        case RunStarted => Some((enabled, used, prepared, ""))
        case Enabled => Some((true, used, prepared, blocked))
        case Reset => Some((true, 0, "", ""))
        case Prepared(q) => if !ValidPreparation(q) then None else Some((true, q.value.used, q.value.attempt, ""))
        case Blocked(q) => if !ValidBlock(q) then None else Some((enabled, used, prepared, q.value.attempt))
        case _ => Some((enabled, used, prepared, blocked))
  }

  /** None when the events are malformed; an inner None when there is nothing to show. */
  function BoardState(facts: Facts, events: seq<Event>, failure: string, attempt: string): Option<Option<State>> {
    match BoardFold(events)
    case None => None
    case Some((enabled, used, prepared, blocked)) =>
      if !enabled then Some(None)
      else if blocked == attempt then Some(Some(BlockedRetry))
      else if prepared == attempt && InProgress(facts.run) then Some(Some(Retrying))
      else if !facts.run.RecoveryRequired? then Some(None)
      else if !Finalized(facts.attemptState, facts.session) || !Retryable(failure) || facts.attemptState.Interrupted? then
        Some(Some(BlockedRetry))
      else if used >= MAX_RETRIES then Some(Some(Exhausted))
      else Some(Some(Pending))
  }

  lemma {:induction false} BoardFails(log: seq<Event>, k: nat)
    requires k <= |log| && BoardFold(log[..k]).None?
    ensures BoardFold(log).None?
  {
    if k < |log| {
      assert log[..|log| - 1][..k] == log[..k];
      BoardFails(log[..|log| - 1], k);
    } else {
      assert log[..k] == log;
    }
  }

  method BoardAutomaticRetry(facts: Facts, events: seq<Event>, failure: string,
          attempt: string) returns (r: Option<Option<State>>)
    ensures r == BoardState(facts, events, failure, attempt)
  {
    var enabled, used, prepared, blocked := false, 0, "", "";
    for k := 0 to |events|
      invariant BoardFold(events[..k]) == Some((enabled, used, prepared, blocked))
    {
      assert events[..k + 1][..k] == events[..k];
      if BoardFold(events[..k + 1]).None? { BoardFails(events, k + 1); }
      match events[k] {
        case RunStarted => blocked := "";
        case Enabled => enabled := true;
        case Reset => enabled, used, prepared, blocked := true, 0, "", "";
        case Prepared(q) =>
          if !ValidPreparation(q) { return None; }
          enabled, used, prepared, blocked := true, q.value.used, q.value.attempt, "";
        case Blocked(q) =>
          if !ValidBlock(q) { return None; }
          blocked := q.value.attempt;
        case _ =>
      }
    }
    assert events[..|events|] == events;
    if !enabled { return Some(None); }
    if blocked == attempt { return Some(Some(BlockedRetry)); }
    if prepared == attempt && InProgress(facts.run) { return Some(Some(Retrying)); }
    if !facts.run.RecoveryRequired? { return Some(None); }
    if !Finalized(facts.attemptState, facts.session) || !Retryable(failure) || facts.attemptState.Interrupted? {
      return Some(Some(BlockedRetry));
    }
    r := if used >= MAX_RETRIES then Some(Some(Exhausted)) else Some(Some(Pending));
  }

  lemma {:induction false} FoldsAgree(log: seq<Event>)
    ensures BoardFold(log).None? <==> Fold(log).Err?
    ensures Fold(log).Ok? ==> var p := Fold(log).value; BoardFold(log) == Some((p.enabled, p.used, p.prepared, p.blocked))
  {
    if log != [] { FoldsAgree(log[..|log| - 1]); }
  }

  /** What the service's answer comes to on the board. */
  function Shown(r: Result<Option<Retry>, Malformed>): Option<Option<State>> {
    match r
    case Err(_) => None
    case Ok(None) => Some(None)
    case Ok(Some(retry)) => Some(Some(retry.state))
  }

  /**
   Board and service read every log of an unclosed Run the same, malformed logs included, except for a
   Run past its agent work whose current Attempt was blocked: there the service shows nothing and the
   board's function would show the block.
   */
  lemma BoardAgrees(facts: Facts, log: seq<Event>, attempt: string)
    requires !facts.closed && facts.attempt == Some(attempt) && attempt != ""
    ensures BoardState(facts, log, FailureOf(log, attempt), attempt) == Shown(RetryForRun(facts, log)) <==>
              !(Finished(facts.run) && Fold(log).Ok? && Fold(log).value.enabled && Fold(log).value.blocked == attempt)
  {
    hide Finalized, FailureOf, Fold, BoardFold;
    FoldsAgree(log);
  }

  /** The board asks only about Runs for which the two always agree. */
  lemma BoardAgreesWhereAsked(facts: Facts, log: seq<Event>, attempt: string)
    requires !facts.closed && facts.attempt == Some(attempt) && attempt != "" && (InProgress(facts.run) || facts.run.RecoveryRequired?)
    ensures BoardState(facts, log, FailureOf(log, attempt), attempt) == Shown(RetryForRun(facts, log))
  {
    BoardAgrees(facts, log, attempt);
  }

  /** The exception is real. */
  lemma BlockedReviewDiffers()
    ensures var log := [Enabled, Blocked(Some(Payload("a", "", "", 0, MAX_RETRIES, "why")))];
            var facts := Facts(false, AwaitingReview, Some("a"), OutputSubmitted, None);
            BoardState(facts, log, "", "a") == Some(Some(BlockedRetry)) && RetryForRun(facts, log) == Ok(None)
  {
    var log := [Enabled, Blocked(Some(Payload("a", "", "", 0, MAX_RETRIES, "why")))];
    assert log[..1] == [Enabled] && [Enabled][..0] == [];
    assert Fold([Enabled]) == Ok(NOTHING.(enabled := true)) && BoardFold([Enabled]) == Some((true, 0, "", ""));
  }

  // ---- The board's window --------------------------------------------------------------------

  const WINDOW := 8

  predicate IsControl(e: Event) { !e.AttemptEnded? && !e.Unrelated? }

  function Control(log: seq<Event>): seq<Event> {
    if log == [] then []
    else
      var last := log[|log| - 1];
      Control(log[..|log| - 1]) + if IsControl(last) then [last] else []
  }

  /** All the board is handed: the latest few control events. */
  function Window(log: seq<Event>): seq<Event> {
    var control := Control(log);
    if |control| <= WINDOW then control else control[|control| - WINDOW..]
  }

  predicate SetsAll(e: Event) { e.Reset? || e.Prepared? }

  /** Control events since the last one that determines the whole projection. */
  function Since(log: seq<Event>): nat {
    if log == [] then 0
    else
      var last := log[|log| - 1];
      if SetsAll(last) then 0 else Since(log[..|log| - 1]) + if IsControl(last) then 1 else 0
  }

  predicate Marked(log: seq<Event>) { exists k :: 0 <= k < |log| && SetsAll(log[k]) }

  lemma ControlStep(log: seq<Event>)
    requires log != []
    ensures var rest, last := Control(log[..|log| - 1]), log[|log| - 1];
            if IsControl(last) then Control(log) == rest + [last] && Control(log)[..|Control(log)| - 1] == rest else Control(log) == rest
  {
    var rest := Control(log[..|log| - 1]);
    assert rest + [] == rest;
  }

  lemma {:induction false} ControlFolds(log: seq<Event>)
    ensures BoardFold(Control(log)) == BoardFold(log)
    ensures forall k :: 0 <= k < |Control(log)| ==> IsControl(Control(log)[k])
  {
    hide Control;
    if log != [] {
      ControlStep(log);
      ControlFolds(log[..|log| - 1]);
    } else {
      NoControl();
    }
  }

  lemma NoControl()
    ensures Control([]) == []
  {
  }

  lemma {:induction false} ControlMarks(log: seq<Event>)
    ensures Since(Control(log)) == Since(log) && (Marked(Control(log)) <==> Marked(log))
  {
    hide Control, Marked;
    if log != [] {
      ControlStep(log);
      ControlMarks(log[..|log| - 1]);
      MarkedStep(log);
      if IsControl(log[|log| - 1]) { MarkedStep(Control(log)); }
    } else {
      NoControl();
    }
  }

  lemma MarkedStep(log: seq<Event>)
    requires log != []
    ensures Marked(log) <==> Marked(log[..|log| - 1]) || SetsAll(log[|log| - 1])
  {
    var rest := log[..|log| - 1];
    assert forall k :: 0 <= k < |rest| ==> rest[k] == log[k];
    if k :| 0 <= k < |log| && SetsAll(log[k]) { assert k < |rest| ==> SetsAll(rest[k]); }
    if k :| 0 <= k < |rest| && SetsAll(rest[k]) { assert SetsAll(log[k]); }
  }

  /** A suffix that still holds the last determining event folds to the same. */
  lemma {:induction false} SuffixFolds(control: seq<Event>, from: nat)
    requires from <= |control| && BoardFold(control).Some? && Marked(control) && |control| - from > Since(control)
    requires forall k :: 0 <= k < |control| ==> IsControl(control[k])
    ensures BoardFold(control[from..]) == BoardFold(control)
  {
    var n := |control| - 1;
    var last := control[n];
    assert control[from..][..|control[from..]| - 1] == control[..n][from..];
    MarkedStep(control);
    if SetsAll(last) {
      SuffixWellFormed(control[..n], from);
    } else {
      assert forall k :: 0 <= k < n ==> control[..n][k] == control[k];
      SuffixFolds(control[..n], from);
    }
  }

  lemma {:induction false} SuffixWellFormed(control: seq<Event>, from: nat)
    requires from <= |control| && BoardFold(control).Some?
    ensures BoardFold(control[from..]).Some?
  {
    if from < |control| {
      assert control[from..][..|control[from..]| - 1] == control[..|control| - 1][from..];
      SuffixWellFormed(control[..|control| - 1], from);
    }
  }

  /** A Run that never enabled retries shows only starts. */
  predicate OnlyStarts(log: seq<Event>) { forall k :: 0 <= k < |log| ==> IsControl(log[k]) ==> log[k].RunStarted? }

  lemma {:induction false} OnlyStartsFolds(log: seq<Event>)
    requires OnlyStarts(log)
    ensures BoardFold(log) == Some((false, 0, "", "")) && Fold(log).Ok? && !Fold(log).value.enabled && Fold(log).value.blocked == ""
  {
    if log != [] { OnlyStartsFolds(log[..|log| - 1]); }
  }

  lemma {:induction false} OnlyStartsControl(log: seq<Event>)
    requires OnlyStarts(log)
    ensures OnlyStarts(Control(log))
  {
    if log != [] {
      OnlyStartsControl(log[..|log| - 1]);
      assert forall k :: 0 <= k < |log| - 1 ==> log[..|log| - 1][k] == log[k];
    }
  }

  predicate Covered(log: seq<Event>) { OnlyStarts(log) || (Marked(log) && Since(log) < WINDOW) || |Control(log)| <= WINDOW }

  lemma WindowFolds(log: seq<Event>)
    requires Covered(log) && BoardFold(log).Some?
    ensures BoardFold(Window(log)) == BoardFold(log)
  {
    hide BoardFold, Control, Since, Marked;
    var control := Control(log);
    ControlFolds(log);
    ControlMarks(log);
    if |control| > WINDOW {
      if OnlyStarts(log) {
        OnlyStartsControl(log);
        OnlyStartsFolds(control);
        assert forall k :: 0 <= k < WINDOW ==> Window(log)[k] == control[|control| - WINDOW + k];
        OnlyStartsFolds(Window(log));
      } else {
        SuffixFolds(control, |control| - WINDOW);
      }
    }
  }

  /** The adapter of the Run, its log, the current Attempt if there is one, and whether it was started already. */
  datatype History = History(pi: bool, log: seq<Event>, attempt: string, started: bool)

  /**
   What the Run's stage and its one adapter admit. Retries are enabled while creating a Run of the pi
   adapter, the first Attempt is prepared without a marker, only a Run with an Attempt is retried, and an
   Attempt starts once.
   */
  predicate Admitted(h: History, c: Command) {
    match c
    case EnableOnCreation => h.pi && h.log == []
    case PrepareFirst(attempt) => h.attempt == "" && attempt != ""
    case StartRun => h.attempt != "" && !h.started
    case PrepareAutomatic(attempt, _, _, pi) => pi == h.pi && h.attempt != "" && attempt != ""
    case PrepareHuman(attempt, pi) => pi == h.pi && h.attempt != "" && attempt != ""
    case PrepareVerified(attempt, pi) => pi == h.pi && h.attempt != "" && attempt != ""
    case SwitchProfile(attempt) => h.pi && h.attempt != "" && attempt != ""
    case _ => true
  }

  predicate Prepares(c: Command) {
    c.PrepareFirst? || c.PrepareAutomatic? || c.PrepareHuman? || c.PrepareVerified? || c.SwitchProfile?
  }

  /** One command of a Run, for arbitrary other facts: a preparation that goes through makes a new Attempt current. */
  function Disciplined(h: History, someFacts: Facts, c: Command): History {
    var facts := someFacts.(attempt := if h.attempt == "" then None else Some(h.attempt));
    var log := Written(h.log, facts, c);
    if !Admitted(h, c) || log == h.log then h
    else if Prepares(c) then History(h.pi, log, c.attempt, false)
    else h.(log := log, started := h.started || c.StartRun?)
  }

  function DisciplinedAll(pi: bool, steps: seq<(Facts, Command)>): History {
    if steps == [] then History(pi, [], "", false)
    else Disciplined(DisciplinedAll(pi, steps[..|steps| - 1]), steps[|steps| - 1].0, steps[|steps| - 1].1)
  }

  /** Since the last marker there is room for one block, one start and one more block. */
  predicate Paced(h: History) {
    Sound(h.log) && (h.attempt == "" ==> !h.started) &&
    var p := Fold(h.log).value;
    if p.enabled then
      h.pi &&
      Since(h.log) <= (if Marked(h.log) then 0 else 1) + (if h.started then 2 else 0) + (if p.blocked != "" then 1 else 0) &&
      (p.blocked != "" ==> p.blocked == h.attempt && p.reason != "")
    else OnlyStarts(h.log)
  }

  lemma PacedAppend(h: History, e: Event, attempt: string, started: bool)
    requires Paced(h) && (h.started ==> started || SetsAll(e)) && (attempt == "" ==> !started)
    requires attempt == h.attempt || SetsAll(e) || h.attempt == ""
    requires e.Prepared? ==> ValidPreparation(e.payload) && e.payload.value.used == PreparedSinceReset(h.log) + 1
    requires e.Blocked? ==> ValidBlock(e.payload) && e.payload.value.attempt == attempt && e.payload.value.reason != ""
    requires e.Blocked? ==> Fold(h.log).value.enabled && Fold(h.log).value.blocked == ""
    requires e.RunStarted? ==> !h.started && started
    requires e.Enabled? ==> h.log == []
    requires e.Enabled? || SetsAll(e) ==> h.pi
    ensures Paced(History(h.pi, h.log + [e], attempt, started))
  {
    var log := h.log + [e];
    Append(h.log, e);
    AppendKeepsSound(h.log, e);
    MarkedStep(log);
    assert forall k :: 0 <= k < |h.log| ==> log[k] == h.log[k];
  }

  lemma PacedSound(h: History)
    requires Paced(h)
    ensures Sound(h.log) && (h.attempt == "" ==> !h.started) && (Fold(h.log).value.enabled ==> h.pi)
  {
  }

  /** A Run whose retries were never enabled may change its Attempt without a marker. */
  lemma UnmarkedPaced(h: History, attempt: string)
    requires Paced(h) && !Fold(h.log).value.enabled
    ensures Paced(History(h.pi, h.log + [Unrelated], attempt, false))
  {
    UnrelatedKeeps(h.log);
    assert forall k :: 0 <= k < |h.log| ==> (h.log + [Unrelated])[k] == h.log[k];
    OnlyStartsFolds(h.log + [Unrelated]);
  }

  lemma ResetPaced(h: History, attempt: string)
    requires Paced(h) && h.pi
    ensures Paced(History(h.pi, h.log + [Unrelated, Reset], attempt, false))
  {
    hide Paced, SetsAll;
    PacedSound(h);
    ResetSetsAll();
    PacedAppend(h, Unrelated, h.attempt, h.started);
    PacedAppend(History(h.pi, h.log + [Unrelated], h.attempt, h.started), Reset, attempt, false);
    AppendTwo(h.log, Unrelated, Reset);
  }

  lemma ResetSetsAll()
    ensures SetsAll(Reset)
  {
  }

  lemma HumanPaced(h: History, facts: Facts, attempt: string)
    requires Paced(h)
    ensures Paced(History(h.pi, Written(h.log, facts, PrepareHuman(attempt, h.pi)), attempt, false))
  {
    hide Paced;
    PacedSound(h);
    if MarkerPersists(h.log, h.pi) { ResetPaced(h, attempt); } else { UnmarkedPaced(h, attempt); }
  }

  lemma VerifiedPaced(h: History, facts: Facts, attempt: string)
    requires Paced(h)
    ensures Paced(History(h.pi, Written(h.log, facts, PrepareVerified(attempt, h.pi)), attempt, false))
  {
    hide Paced;
    PacedSound(h);
    if h.pi { ResetPaced(h, attempt); } else { UnmarkedPaced(h, attempt); }
  }

  lemma AutomaticPaced(h: History, facts: Facts, attempt: string, predecessor: string, reason: string)
    requires Paced(h) && Written(h.log, facts, PrepareAutomatic(attempt, predecessor, reason, h.pi)) != h.log
    ensures Paced(History(h.pi, Written(h.log, facts, PrepareAutomatic(attempt, predecessor, reason, h.pi)), attempt, false))
  {
    hide Fold, Finalized, Retryable, FailureOf, Since, Marked, Paced;
    PacedSound(h);
    AutomaticAlwaysMarked(h.log, facts, attempt, predecessor, reason, h.pi);
    PacedAppend(h, Unrelated, h.attempt, h.started);
    UnrelatedKeeps(h.log);
    var marker := Prepared(Some(Payload(attempt, predecessor, reason, PreparedSinceReset(h.log) + 1, MAX_RETRIES, "")));
    PacedAppend(History(h.pi, h.log + [Unrelated], h.attempt, h.started), marker, attempt, false);
    AppendTwo(h.log, Unrelated, marker);
  }

  /** A Run that is blocked already is not blocked again. */
  lemma BlockPaced(h: History, facts: Facts, attempt: string, reason: string)
    requires Paced(h) && attempt == h.attempt && Written(h.log, facts, Block(attempt, reason)) != h.log
    ensures Paced(h.(log := Written(h.log, facts, Block(attempt, reason))))
  {
    hide Fold, Finalized, Retryable, FailureOf, Since, Marked;
    var r := RetryForRun(facts, h.log).value.value;
    assert Fold(h.log).value.blocked == "";
    PacedAppend(h, Blocked(Some(Payload(attempt, "", r.failure, r.used, MAX_RETRIES, reason))), h.attempt, h.started);
  }

  lemma DisciplinedPaced(h: History, someFacts: Facts, c: Command)
    requires Paced(h)
    ensures Paced(Disciplined(h, someFacts, c))
  {
    hide RetryForRun, Paced, MarkerPersists, Fold;
    PacedSound(h);
    var facts := someFacts.(attempt := if h.attempt == "" then None else Some(h.attempt));
    if Admitted(h, c) && Written(h.log, facts, c) != h.log {
      match c
      case EnableOnCreation => PacedAppend(h, Enabled, h.attempt, h.started);
      case PrepareFirst(attempt) => PacedAppend(h, Unrelated, attempt, false);
      case StartRun => PacedAppend(h, RunStarted, h.attempt, true);
      case EndAttempt(attempt, failure) => PacedAppend(h, AttemptEnded(attempt, failure), h.attempt, h.started);
      case AppendUnrelated => PacedAppend(h, Unrelated, h.attempt, h.started);
      case SwitchProfile(attempt) => PacedAppend(h, Reset, attempt, false);
      case PrepareHuman(attempt, pi) => HumanPaced(h, facts, attempt);
      case PrepareVerified(attempt, pi) => VerifiedPaced(h, facts, attempt);
      case PrepareAutomatic(attempt, predecessor, reason, pi) => AutomaticPaced(h, facts, attempt, predecessor, reason);
      case Block(attempt, reason) => BlockPaced(h, facts, attempt, reason);
    }
  }

  lemma {:induction false} AllPaced(pi: bool, steps: seq<(Facts, Command)>)
    ensures Paced(DisciplinedAll(pi, steps))
  {
    hide Disciplined;
    if steps != [] {
      var n := |steps| - 1;
      AllPaced(pi, steps[..n]);
      DisciplinedPaced(DisciplinedAll(pi, steps[..n]), steps[n].0, steps[n].1);
    }
  }

  lemma {:induction false} SinceIsAll(log: seq<Event>)
    requires !Marked(log)
    ensures Since(log) == |Control(log)|
  {
    if log != [] {
      MarkedStep(log);
      SinceIsAll(log[..|log| - 1]);
    }
  }

  /** On every log the writers leave, the eight events the board is handed fold to what the whole log folds to. */
  lemma WindowIsEnough(pi: bool, steps: seq<(Facts, Command)>, facts: Facts, failure: string, attempt: string)
    ensures var log := DisciplinedAll(pi, steps).log;
            BoardState(facts, Window(log), failure, attempt) == BoardState(facts, log, failure, attempt)
  {
    hide BoardFold, Window, Fold;
    AllPaced(pi, steps);
    var h := DisciplinedAll(pi, steps);
    FoldsAgree(h.log);
    if !Marked(h.log) { SinceIsAll(h.log); }
    WindowFolds(h.log);
  }

  /** The ordinary life of a Run is among those logs: enabled, prepared without a marker, started. */
  lemma OrdinaryRunIsCovered(facts: Facts)
    ensures DisciplinedAll(true, [(facts, EnableOnCreation), (facts, PrepareFirst("a")), (facts, StartRun)]) ==
            History(true, [Enabled, Unrelated, RunStarted], "a", true)
  {
    var steps := [(facts, EnableOnCreation), (facts, PrepareFirst("a")), (facts, StartRun)];
    assert steps[..2] == [(facts, EnableOnCreation), (facts, PrepareFirst("a"))];
    assert steps[..2][..1] == [(facts, EnableOnCreation)] && steps[..2][..1][..0] == [];
    assert DisciplinedAll(true, steps[..2][..1]) == History(true, [Enabled], "", false);
    assert DisciplinedAll(true, steps[..2]) == History(true, [Enabled, Unrelated], "a", false);
  }

  /** The discipline is needed: in a log no writer leaves, starts of one Attempt push the enabling event out of the window. */
  lemma WindowMayForget()
    ensures var log := [Enabled, RunStarted, RunStarted, RunStarted, RunStarted, RunStarted, RunStarted, RunStarted, RunStarted];
            Fold(log).Ok? && Fold(log).value.enabled && BoardFold(Window(log)) == Some((false, 0, "", ""))
  {
    var starts := seq(8, i => RunStarted);
    var log := [Enabled] + starts;
    EnabledStays(starts);
    ControlOfControl(log);
    assert Window(log) == starts;
    OnlyStartsFolds(starts);
    assert log == [Enabled, RunStarted, RunStarted, RunStarted, RunStarted, RunStarted, RunStarted, RunStarted, RunStarted];
  }

  lemma {:induction false} EnabledStays(starts: seq<Event>)
    requires forall k :: 0 <= k < |starts| ==> starts[k].RunStarted?
    ensures Fold([Enabled] + starts).Ok? && Fold([Enabled] + starts).value.enabled
  {
    var log := [Enabled] + starts;
    if starts == [] {
      assert log == [Enabled] && [Enabled][..0] == [];
    } else {
      assert log[..|log| - 1] == [Enabled] + starts[..|starts| - 1];
      EnabledStays(starts[..|starts| - 1]);
    }
  }

  lemma {:induction false} ControlOfControl(log: seq<Event>)
    requires forall k :: 0 <= k < |log| ==> IsControl(log[k])
    ensures Control(log) == log
  {
    if log != [] { ControlOfControl(log[..|log| - 1]); }
  }
}
