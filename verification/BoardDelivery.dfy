/** Where each repository of an accepted result stands, and what they add up to. */
module BoardDelivery {
  import opened Common

  datatype OperationKind = Commit | Push | PullRequest | Merge | Cleanup | OtherKind(name: string)
  datatype OperationState = Preview | Succeeded | OperationFailed | RecoveryNeeded | WritingOperation | OtherState
  datatype PRState = NoPR | PROpen | PRClosed | PRMerged

  datatype Operation = Operation(kind: OperationKind, state: OperationState, pr: PRState, mergeCommit: bool, updated: int)

  datatype Mode = NoMode | TaskBranch | OtherMode
  datatype Role = NoRole | WriteRole | ReferenceRole | OtherRole
  datatype ApplyState = NotApplied | Applied | Uncertain | Conflicting | WritingApply
  datatype Preparation = Prepared | PreparationFailed | PreparationRecovery | NotPrepared
  datatype ChecksMode = ChecksNone | ChecksNeeded

  datatype Repository = Repository(
    id: string, role: Role, mode: Mode, preparation: Preparation, resultPresent: bool, changed: int, closed: bool,
    apply: ApplyState, checks: ChecksMode, checksNotApplicable: bool, checksPassed: bool, operations: seq<Operation>)

  datatype Disposition = Unchanged | UnchangedClosed | Merged | AppliedLocally | ClosedOff | StillPending

  datatype Judgement = Judgement(disposition: Disposition, status: string, cleanupFailed: bool, needsReview: bool)

  // ---- One repository ------------------------------------------------------------------------

  function InitialStatus(r: Repository): string {
    match r.apply
    case Applied => "applied_locally"
    case Uncertain => "apply_uncertain"
    case Conflicting => "apply_conflict"
    case WritingApply => "apply_writing"
    case NotApplied => if r.mode.TaskBranch? then "pending_commit" else "pending_apply"
  }

  predicate MergeProof(op: Operation) {
    op.state.Succeeded? && (op.kind.PullRequest? || op.kind.Merge?) && op.pr.PRMerged? && op.mergeCommit
  }

  function StatusStep(status: string, op: Operation): string {
    if !op.state.Succeeded? then status
    else
      match op.kind
      case Commit => if status == "pending_commit" then "pending_push" else status
      case Push => "pending_pr"
      case PullRequest => PRStatus(status, op)
      case Merge => PRStatus(status, op)
      case _ => status
  }

  function PRStatus(status: string, op: Operation): string {
    if op.pr.PRMerged? && op.mergeCommit then status
    else if op.pr.PRClosed? then "pr_closed"
    else if op.pr.PROpen? then "pending_merge"
    else status
  }

  function StatusAfter(r: Repository, ops: seq<Operation>): string {
    if ops == [] then InitialStatus(r) else StatusStep(StatusAfter(r, ops[..|ops| - 1]), ops[|ops| - 1])
  }

  predicate AchievedMerge(ops: seq<Operation>) { exists i :: 0 <= i < |ops| && MergeProof(ops[i]) }

  /** The latest operation of each kind; of two made at the same time, the one listed later. */
  function Latest(ops: seq<Operation>): map<OperationKind, Operation> {
    if ops == [] then map[]
    else
      var before, op := Latest(ops[..|ops| - 1]), ops[|ops| - 1];
      if op.kind !in before || op.updated >= before[op.kind].updated then before[op.kind := op] else before
  }

  predicate Bad(s: OperationState) { s.OperationFailed? || s.RecoveryNeeded? || s.WritingOperation? }

  function BadStatus(s: OperationState): string
    requires Bad(s)
  {
    match s
    case OperationFailed => "delivery_failed"
    case RecoveryNeeded => "delivery_recovery_required"
    case WritingOperation => "delivery_writing"
  }

  datatype Trouble = Trouble(status: string, uncertain: bool, cleanupFailed: bool)

  function TroubleStep(t: Trouble, kind: OperationKind, state: OperationState, merged: bool): Trouble {
    if !Bad(state) then t
    else if kind.Cleanup? then t.(cleanupFailed := !state.WritingOperation?)
    else if merged then t
    else t.(status := BadStatus(state), uncertain := !state.OperationFailed?)
  }

  /** The kinds in the order in which ranging over the map happens to visit them. */
  predicate Visits(order: seq<OperationKind>, latest: map<OperationKind, Operation>) {
    (forall i, j :: 0 <= i < j < |order| ==> order[i] != order[j]) &&
    (forall kind :: kind in order ==> kind in latest) && (forall kind :: kind in latest ==> kind in order)
  }

  function TroubleAfter(status: string, latest: map<OperationKind, Operation>, order: seq<OperationKind>,
          merged: bool): Trouble
    requires forall kind :: kind in order ==> kind in latest
  {
    if order == [] then Trouble(status, false, false)
    else
      var n := |order| - 1;
      TroubleStep(TroubleAfter(status, latest, order[..n], merged), order[n], latest[order[n]].state, merged)
  }

  /** What the visited operations come to. */
  function TroubleOf(r: Repository, order: seq<OperationKind>): Trouble
    requires Visits(order, Latest(r.operations))
  {
    TroubleAfter(StatusAfter(r, r.operations), Latest(r.operations), order, AchievedMerge(r.operations))
  }

  function JudgeWith(r: Repository, merged: bool, t: Trouble, accepted: bool): Judgement {
    var disposition :=
      if merged then Merged
      else if t.status == "applied_locally" then AppliedLocally
      else if r.closed && !t.uncertain && !r.apply.Uncertain? && !r.apply.WritingApply? then ClosedOff
      else StillPending;
    var status :=
      match disposition
      case Merged => "delivered"
      case ClosedOff => "closed"
      case _ => t.status;
    var needsReview := !accepted && !r.closed && !disposition.Merged? && !disposition.AppliedLocally?;
    Judgement(disposition, if needsReview then "result_review" else status, t.cleanupFailed, needsReview)
  }

  function Judge(r: Repository, order: seq<OperationKind>, accepted: bool): Judgement
    requires Visits(order, Latest(r.operations))
  {
    if r.changed == 0 then
      if r.closed then Judgement(UnchangedClosed, "closed", false, false) else Judgement(Unchanged, "no_change", false, false)
    else JudgeWith(r, AchievedMerge(r.operations), TroubleOf(r, order), accepted)
  }

  lemma {:induction false} LatestKinds(ops: seq<Operation>)
    ensures forall kind :: kind in Latest(ops) ==> Latest(ops)[kind].kind == kind && Latest(ops)[kind] in ops
  {
    if ops != [] { LatestKinds(ops[..|ops| - 1]); }
  }

  method FoldOperations(r: Repository) returns (status: string, merged: bool, latest: map<OperationKind, Operation>)
    ensures status == StatusAfter(r, r.operations) && latest == Latest(r.operations) && merged == AchievedMerge(r.operations)
  {
    hide StatusStep, MergeProof, InitialStatus;
    status, merged, latest := InitialStatus(r), false, map[];
    for k := 0 to |r.operations|
      invariant status == StatusAfter(r, r.operations[..k]) && latest == Latest(r.operations[..k])
      invariant merged <==> exists i :: 0 <= i < k && MergeProof(r.operations[i])
    {
      var op := r.operations[k];
      assert r.operations[..k + 1][..k] == r.operations[..k];
      if op.kind !in latest || op.updated >= latest[op.kind].updated { latest := latest[op.kind := op]; }
      status, merged := StatusStep(status, op), merged || MergeProof(op);
    }
    assert r.operations[..|r.operations|] == r.operations;
  }

  /** Visits the map in whatever order it comes. */
  method VisitLatest(status: string, latest: map<OperationKind, Operation>, merged: bool)
      returns (t: Trouble, ghost order: seq<OperationKind>)
    ensures Visits(order, latest) && t == TroubleAfter(status, latest, order, merged)
  {
    hide TroubleStep;
    t, order := Trouble(status, false, false), [];
    var kinds := latest.Keys;
    while kinds != {}
      invariant kinds <= latest.Keys && (forall kind :: kind in order <==> kind in latest && kind !in kinds)
      invariant forall i, j :: 0 <= i < j < |order| ==> order[i] != order[j]
      invariant t == TroubleAfter(status, latest, order, merged)
    {
      var kind :| kind in kinds;
      t := TroubleStep(t, kind, latest[kind].state, merged);
      assert (order + [kind])[..|order|] == order;
      order, kinds := order + [kind], kinds - {kind};
    }
  }

  /** A judgement the repository may get, for some order of visiting its operations. */
  ghost predicate MayBeJudged(r: Repository, accepted: bool, j: Judgement) {
    exists order :: Visits(order, Latest(r.operations)) && j == Judge(r, order, accepted)
  }

  method JudgeRepository(r: Repository, accepted: bool) returns (j: Judgement, ghost order: seq<OperationKind>)
    ensures MayBeJudged(r, accepted, j)
    ensures Visits(order, Latest(r.operations)) && j == Judge(r, order, accepted)
  {
    hide StatusAfter, Latest, TroubleAfter, AchievedMerge;
    if r.changed == 0 {
      order := SomeOrder(Latest(r.operations).Keys);
      return if r.closed then Judgement(UnchangedClosed, "closed", false, false) else Judgement(Unchanged, "no_change", false, false), order;
    }
    var status, merged, latest := FoldOperations(r);
    var t;
    t, order := VisitLatest(status, latest, merged);
    var disposition := StillPending;
    status := t.status;
    if merged {
      disposition, status := Merged, "delivered";
    } else if status == "applied_locally" {
      disposition := AppliedLocally;
    } else if r.closed && !t.uncertain && !r.apply.Uncertain? && !r.apply.WritingApply? {
      disposition, status := ClosedOff, "closed";
    }
    var needsReview := !accepted && !r.closed && !disposition.Merged? && !disposition.AppliedLocally?;
    if needsReview { status := "result_review"; }
    j := Judgement(disposition, status, t.cleanupFailed, needsReview);
  }

  lemma {:induction false} SomeOrder(kinds: set<OperationKind>) returns (order: seq<OperationKind>)
    ensures (forall i, j :: 0 <= i < j < |order| ==> order[i] != order[j]) && forall kind :: kind in order <==> kind in kinds
    decreases |kinds|
  {
    if kinds == {} { return []; }
    var kind :| kind in kinds;
    var rest := SomeOrder(kinds - {kind});
    order := rest + [kind];
  }

  // ---- What a judgement means ----------------------------------------------------------------

  lemma {:induction false} AppliedFromStart(r: Repository, ops: seq<Operation>)
    ensures StatusAfter(r, ops) == "applied_locally" ==> r.apply.Applied?
  {
    if ops != [] { AppliedFromStart(r, ops[..|ops| - 1]); }
  }

  lemma {:induction false} TroubleKeepsApplied(status: string, latest: map<OperationKind, Operation>,
          order: seq<OperationKind>, merged: bool)
    requires forall kind :: kind in order ==> kind in latest
    ensures TroubleAfter(status, latest, order, merged).status == "applied_locally" ==> status == "applied_locally"
  {
    if order != [] { TroubleKeepsApplied(status, latest, order[..|order| - 1], merged); }
  }

  /** Whatever order the operations are visited in. */
  lemma JudgementMeans(r: Repository, order: seq<OperationKind>, accepted: bool)
    requires Visits(order, Latest(r.operations))
    ensures var d := Judge(r, order, accepted).disposition;
            ((d.Unchanged? || d.UnchangedClosed?) <==> r.changed == 0) &&
            (d.Merged? <==> r.changed != 0 && exists i :: 0 <= i < |r.operations| && MergeProof(r.operations[i])) &&
            (d.AppliedLocally? ==> r.apply.Applied?) &&
            (d.ClosedOff? || d.UnchangedClosed? ==> r.closed)
  {
    AppliedFromStart(r, r.operations);
    TroubleKeepsApplied(StatusAfter(r, r.operations), Latest(r.operations), order, AchievedMerge(r.operations));
  }

  predicate Troubled(latest: map<OperationKind, Operation>, kind: OperationKind) {
    kind in latest && !kind.Cleanup? && Bad(latest[kind].state)
  }

  /** Two kinds of unfinished delivery are in trouble, in different ways. */
  predicate Ambivalent(r: Repository) {
    var latest := Latest(r.operations);
    !AchievedMerge(r.operations) &&
    exists a, b :: a in latest && b in latest && Troubled(latest, a) && Troubled(latest, b) && latest[a].state != latest[b].state
  }

  predicate SomeTrouble(latest: map<OperationKind, Operation>, order: seq<OperationKind>) {
    exists k :: 0 <= k < |order| && Troubled(latest, order[k])
  }

  /** Without merge, the status after visiting an order is that of the troubled kinds, when they agree. */
  lemma {:induction false} TroubleDecides(status: string, latest: map<OperationKind, Operation>,
          order: seq<OperationKind>, state: OperationState)
    requires forall kind :: kind in order ==> kind in latest
    requires Bad(state) && forall kind :: Troubled(latest, kind) ==> latest[kind].state == state
    ensures var t := TroubleAfter(status, latest, order, false);
            if SomeTrouble(latest, order) then t.status == BadStatus(state) && t.uncertain == !state.OperationFailed?
            else t.status == status && !t.uncertain
  {
    if order != [] {
      var n := |order| - 1;
      TroubleDecides(status, latest, order[..n], state);
      assert SomeTrouble(latest, order) <==> SomeTrouble(latest, order[..n]) || Troubled(latest, order[n]) by {
        assert forall k :: 0 <= k < n ==> order[..n][k] == order[k];
      }
    }
  }

  lemma {:induction false} CleanupDecides(status: string, latest: map<OperationKind, Operation>,
          order: seq<OperationKind>, merged: bool)
    requires forall kind :: kind in order ==> kind in latest
    requires forall i, j :: 0 <= i < j < |order| ==> order[i] != order[j]
    ensures TroubleAfter(status, latest, order, merged).cleanupFailed <==>
              Cleanup in order && Bad(latest[Cleanup].state) && !latest[Cleanup].state.WritingOperation?
  {
    if order != [] {
      var n := |order| - 1;
      assert order[n] in order && forall kind :: kind in order[..n] ==> kind in order;
      CleanupDecides(status, latest, order[..n], merged);
      assert forall kind :: kind in order ==> kind in order[..n] || kind == order[n];
      assert order[n] !in order[..n];
    }
  }

  lemma {:induction false} MergedIgnoresTrouble(status: string, latest: map<OperationKind, Operation>,
          order: seq<OperationKind>)
    requires forall kind :: kind in order ==> kind in latest
    ensures TroubleAfter(status, latest, order, true).status == status && !TroubleAfter(status, latest, order, true).uncertain
  {
    if order != [] { MergedIgnoresTrouble(status, latest, order[..|order| - 1]); }
  }

  lemma SameTrouble(latest: map<OperationKind, Operation>, order: seq<OperationKind>, order': seq<OperationKind>)
    requires Visits(order, latest) && Visits(order', latest) && SomeTrouble(latest, order)
    ensures SomeTrouble(latest, order')
  {
    var k :| 0 <= k < |order| && Troubled(latest, order[k]);
    assert order[k] in order && order[k] in order';
    var j :| 0 <= j < |order'| && order'[j] == order[k];
    assert Troubled(latest, order'[j]);
  }

  /** Some state that every troubled kind is in. */
  lemma CommonTrouble(r: Repository) returns (state: OperationState)
    requires !Ambivalent(r) && !AchievedMerge(r.operations)
    ensures Bad(state) && forall kind :: Troubled(Latest(r.operations), kind) ==> Latest(r.operations)[kind].state == state
  {
    var latest := Latest(r.operations);
    state := OperationFailed;
    if kind :| Troubled(latest, kind) { state := latest[kind].state; }
  }

  lemma TroubleIsOne(r: Repository, order: seq<OperationKind>, order': seq<OperationKind>)
    requires Visits(order, Latest(r.operations)) && Visits(order', Latest(r.operations)) && !Ambivalent(r)
    ensures TroubleOf(r, order) == TroubleOf(r, order')
  {
    hide StatusAfter, Latest, Bad, Troubled, SomeTrouble, TroubleAfter;
    var latest, status, merged := Latest(r.operations), StatusAfter(r, r.operations), AchievedMerge(r.operations);
    CleanupDecides(status, latest, order, merged);
    CleanupDecides(status, latest, order', merged);
    if merged {
      MergedIgnoresTrouble(status, latest, order);
      MergedIgnoresTrouble(status, latest, order');
    } else {
      var state := CommonTrouble(r);
      TroubleDecides(status, latest, order, state);
      TroubleDecides(status, latest, order', state);
      if SomeTrouble(latest, order) { SameTrouble(latest, order, order'); }
      if SomeTrouble(latest, order') { SameTrouble(latest, order', order); }
    }
  }

  /** Unless the repository is ambivalent, every order of visiting its operations gives the same judgement. */
  lemma OrderDoesNotMatter(r: Repository, order: seq<OperationKind>, order': seq<OperationKind>, accepted: bool)
    requires Visits(order, Latest(r.operations)) && Visits(order', Latest(r.operations)) && !Ambivalent(r)
    ensures Judge(r, order, accepted) == Judge(r, order', accepted)
  {
    TroubleIsOne(r, order, order');
  }

  /** No delivery operation but a cleanup is being written or awaits recovery. */
  predicate NoPendingDelivery(ops: seq<Operation>) {
    forall i :: 0 <= i < |ops| && !ops[i].kind.Cleanup? ==> !ops[i].state.WritingOperation? && !ops[i].state.RecoveryNeeded?
  }

  /** Closing waits for pending operations, and a closed repository is only ever cleaned up. */
  predicate QuietOnceClosed(r: Repository) { r.closed ==> NoPendingDelivery(r.operations) }

  lemma {:induction false} AppliedUnlessTroubled(status: string, latest: map<OperationKind, Operation>,
          order: seq<OperationKind>)
    requires forall kind :: kind in order ==> kind in latest
    ensures TroubleAfter(status, latest, order, false).status == "applied_locally" <==>
              status == "applied_locally" && !SomeTrouble(latest, order)
  {
    if order != [] {
      var n := |order| - 1;
      AppliedUnlessTroubled(status, latest, order[..n]);
      assert SomeTrouble(latest, order) <==> SomeTrouble(latest, order[..n]) || Troubled(latest, order[n]) by {
        assert forall k :: 0 <= k < n ==> order[..n][k] == order[k];
      }
    }
  }

  lemma QuietIsUnambivalent(r: Repository)
    requires NoPendingDelivery(r.operations)
    ensures !Ambivalent(r)
  {
    LatestKinds(r.operations);
    var latest := Latest(r.operations);
    forall kind | Troubled(latest, kind)
      ensures latest[kind].state.OperationFailed?
    {
      assert latest[kind] in r.operations;
    }
  }

  lemma OpenDisposition(r: Repository, order: seq<OperationKind>, order': seq<OperationKind>, accepted: bool)
    requires Visits(order, Latest(r.operations)) && Visits(order', Latest(r.operations)) && !r.closed && !AchievedMerge(r.operations)
    ensures Judge(r, order, accepted).(status := "") == Judge(r, order', accepted).(status := "")
  {
    hide StatusAfter, Latest, Bad, Troubled, SomeTrouble, TroubleAfter;
    var latest, status := Latest(r.operations), StatusAfter(r, r.operations);
    CleanupDecides(status, latest, order, false);
    CleanupDecides(status, latest, order', false);
    AppliedUnlessTroubled(status, latest, order);
    AppliedUnlessTroubled(status, latest, order');
    if SomeTrouble(latest, order) { SameTrouble(latest, order, order'); }
    if SomeTrouble(latest, order') { SameTrouble(latest, order', order); }
  }

  /** The order of visiting decides nothing but the status shown, once closing has kept its guard. */
  lemma OrderDecidesStatusOnly(r: Repository, order: seq<OperationKind>, order': seq<OperationKind>, accepted: bool)
    requires Visits(order, Latest(r.operations)) && Visits(order', Latest(r.operations)) && QuietOnceClosed(r)
    ensures Judge(r, order, accepted).(status := "") == Judge(r, order', accepted).(status := "")
  {
    hide Latest, TroubleOf, Judge, Ambivalent;
    if r.closed {
      QuietIsUnambivalent(r);
      OrderDoesNotMatter(r, order, order', accepted);
    } else if AchievedMerge(r.operations) {
      MergedIsUnambivalent(r);
      OrderDoesNotMatter(r, order, order', accepted);
    } else {
      OpenDisposition(r, order, order', accepted);
    }
  }

  lemma MergedIsUnambivalent(r: Repository)
    requires AchievedMerge(r.operations)
    ensures !Ambivalent(r)
  {
  }

  lemma OrderEndingWith(r: Repository, last: OperationKind) returns (order: seq<OperationKind>)
    requires !AchievedMerge(r.operations) && Troubled(Latest(r.operations), last)
    ensures Visits(order, Latest(r.operations))
    ensures TroubleOf(r, order).status == BadStatus(Latest(r.operations)[last].state)
    ensures TroubleOf(r, order).uncertain == !Latest(r.operations)[last].state.OperationFailed?
  {
    hide Latest, StatusAfter, AchievedMerge;
    var latest := Latest(r.operations);
    var rest := SomeOrder(latest.Keys - {last});
    order := rest + [last];
    assert order[..|order| - 1] == rest;
    assert forall kind :: kind in order <==> kind in rest || kind == last;
  }

  /** An ambivalent repository is judged by whichever kind comes last: two orders disagree. */
  lemma OrderMatters(r: Repository) returns (order: seq<OperationKind>, order': seq<OperationKind>)
    requires Ambivalent(r)
    ensures Visits(order, Latest(r.operations)) && Visits(order', Latest(r.operations))
    ensures TroubleOf(r, order).status != TroubleOf(r, order').status
  {
    hide Latest, TroubleOf, AchievedMerge;
    var latest := Latest(r.operations);
    var a, b :| Troubled(latest, a) && Troubled(latest, b) && latest[a].state != latest[b].state;
    order := OrderEndingWith(r, a);
    order' := OrderEndingWith(r, b);
  }

  // ---- Exactly where a repository stands -----------------------------------------------------

  /** An operation whose success says where delivery is: a push, or a pull request seen open or closed. */
  predicate Locates(op: Operation) {
    op.state.Succeeded? && (op.kind.Push? || ((op.kind.PullRequest? || op.kind.Merge?) && (op.pr.PROpen? || op.pr.PRClosed?)))
  }

  function Location(op: Operation): string {
    if op.kind.Push? then "pending_pr" else if op.pr.PROpen? then "pending_merge" else "pr_closed"
  }

  predicate LastLocates(ops: seq<Operation>, k: nat) {
    k < |ops| && Locates(ops[k]) && forall i :: k < i < |ops| ==> !Locates(ops[i])
  }

  predicate Committed(ops: seq<Operation>) { exists i :: 0 <= i < |ops| && ops[i].kind.Commit? && ops[i].state.Succeeded? }

  /** Before delivery is located anywhere: what applying came to, or the first step that is due. */
  predicate AtStart(r: Repository, committed: bool, status: string) {
    match r.apply
    case Applied => status == "applied_locally"
    case Uncertain => status == "apply_uncertain"
    case Conflicting => status == "apply_conflict"
    case WritingApply => status == "apply_writing"
    case NotApplied =>
      status == if !r.mode.TaskBranch? then "pending_apply" else if committed then "pending_push" else "pending_commit"
  }

  predicate Commits(op: Operation) { op.kind.Commit? && op.state.Succeeded? }

  lemma StartStays(r: Repository, committed: bool, status: string, op: Operation)
    requires AtStart(r, committed, status) && !Locates(op)
    ensures AtStart(r, committed || Commits(op), StatusStep(status, op))
  {
  }

  lemma CommittedStep(ops: seq<Operation>)
    requires ops != []
    ensures Committed(ops) <==> Committed(ops[..|ops| - 1]) || Commits(ops[|ops| - 1])
  {
    var n := |ops| - 1;
    assert forall i :: 0 <= i < n ==> ops[..n][i] == ops[i];
    if Committed(ops[..n]) {
      var i :| 0 <= i < n && ops[..n][i].kind.Commit? && ops[..n][i].state.Succeeded?;
      assert ops[i].kind.Commit?;
    }
    if Committed(ops) {
      var i :| 0 <= i < |ops| && ops[i].kind.Commit? && ops[i].state.Succeeded?;
      assert i < n ==> ops[..n][i].kind.Commit?;
    }
  }

  lemma NothingCommitted(r: Repository)
    ensures AtStart(r, Committed([]), InitialStatus(r))
  {
  }

  /** The status that successful operations lead to: that of the last one that locates delivery, or the start. */
  lemma {:induction false} StatusMeans(r: Repository, ops: seq<Operation>)
    ensures forall k: nat :: LastLocates(ops, k) ==> StatusAfter(r, ops) == Location(ops[k])
    ensures (forall i :: 0 <= i < |ops| ==> !Locates(ops[i])) ==> AtStart(r, Committed(ops), StatusAfter(r, ops))
  {
    hide Locates, Location, StatusStep, AtStart, Committed, Commits, InitialStatus;
    if ops == [] {
      NothingCommitted(r);
    } else {
      var n := |ops| - 1;
      StatusMeans(r, ops[..n]);
      assert forall i :: 0 <= i < n ==> ops[..n][i] == ops[i];
      StatusMoves(StatusAfter(r, ops[..n]), ops[n]);
      LocatedKept(StatusAfter(r, ops[..n]), ops[n]);
      forall k: nat | LastLocates(ops, k)
        ensures StatusAfter(r, ops) == Location(ops[k])
      {
        if k < n {
          assert LastLocates(ops[..n], k);
          LocationPending(ops[k]);
        }
      }
      if forall i :: 0 <= i < |ops| ==> !Locates(ops[i]) {
        CommittedStep(ops);
        StartStays(r, Committed(ops[..n]), StatusAfter(r, ops[..n]), ops[n]);
      }
    }
  }

  lemma LocatedKept(status: string, op: Operation)
    ensures status != "pending_commit" && !Locates(op) ==> StatusStep(status, op) == status
  {
  }

  lemma LocationPending(op: Operation)
    ensures Location(op) != "pending_commit"
  {
  }

  lemma StatusMoves(status: string, op: Operation)
    ensures StatusStep(status, op) ==
            if Locates(op) then Location(op)
            else if op.kind.Commit? && op.state.Succeeded? && status == "pending_commit" then "pending_push" else status
  {
  }

  /** The latest operation of a kind: none made later, and none listed later among those made at the same time. */
  predicate IsLatest(ops: seq<Operation>, k: nat) {
    k < |ops| &&
    (forall i :: 0 <= i < k && ops[i].kind == ops[k].kind ==> ops[i].updated <= ops[k].updated) &&
    (forall i :: k < i < |ops| && ops[i].kind == ops[k].kind ==> ops[i].updated < ops[k].updated)
  }

  predicate OfKind(ops: seq<Operation>, kind: OperationKind) { exists i :: 0 <= i < |ops| && ops[i].kind == kind }

  ghost predicate HasLatest(ops: seq<Operation>, kind: OperationKind, op: Operation) {
    exists k: nat :: IsLatest(ops, k) && ops[k] == op && op.kind == kind
  }

  lemma LatestKept(rest: seq<Operation>, op: Operation, kind: OperationKind, old': Operation)
    requires HasLatest(rest, kind, old') && (op.kind != kind || op.updated < old'.updated)
    ensures HasLatest(rest + [op], kind, old')
  {
    var k: nat :| IsLatest(rest, k) && rest[k] == old' && old'.kind == kind;
    var ops := rest + [op];
    assert forall i :: 0 <= i < |rest| ==> ops[i] == rest[i];
    assert IsLatest(ops, k);
  }

  lemma LatestReplaced(rest: seq<Operation>, op: Operation, old': Operation)
    requires HasLatest(rest, op.kind, old') && op.updated >= old'.updated
    ensures HasLatest(rest + [op], op.kind, op)
  {
    var k: nat :| IsLatest(rest, k) && rest[k] == old' && old'.kind == op.kind;
    var ops := rest + [op];
    forall i | 0 <= i < |rest| && ops[i].kind == op.kind
      ensures ops[i].updated <= op.updated
    {
      assert ops[i] == rest[i] && (i < k || i == k || i > k);
    }
    assert IsLatest(ops, |rest|) && ops[|rest|] == op;
  }

  lemma LatestFirst(rest: seq<Operation>, op: Operation)
    requires !OfKind(rest, op.kind)
    ensures HasLatest(rest + [op], op.kind, op)
  {
    var ops := rest + [op];
    assert forall i :: 0 <= i < |rest| ==> ops[i] == rest[i];
    assert IsLatest(ops, |rest|) && ops[|rest|] == op;
  }

  lemma OfKindStep(rest: seq<Operation>, op: Operation, kind: OperationKind)
    ensures OfKind(rest + [op], kind) <==> OfKind(rest, kind) || op.kind == kind
  {
    var ops := rest + [op];
    assert forall i :: 0 <= i < |rest| ==> ops[i] == rest[i];
    assert ops[|rest|] == op;
    if OfKind(rest, kind) {
      var i :| 0 <= i < |rest| && rest[i].kind == kind;
      assert ops[i].kind == kind;
    }
  }

  /** The table holds exactly the latest operation of each kind there is. */
  lemma {:induction false} LatestMeans(ops: seq<Operation>)
    ensures forall kind :: kind in Latest(ops) <==> OfKind(ops, kind)
    ensures forall kind :: kind in Latest(ops) ==> HasLatest(ops, kind, Latest(ops)[kind])
  {
    hide OfKind, HasLatest;
    if ops == [] {
      NoKinds();
    } else {
      var n := |ops| - 1;
      var rest, op := ops[..n], ops[n];
      var before, latest := Latest(rest), Latest(ops);
      LatestMeans(rest);
      assert ops == rest + [op];
      forall kind
        ensures kind in latest <==> OfKind(ops, kind)
        ensures kind in latest ==> HasLatest(ops, kind, latest[kind])
      {
        OfKindStep(rest, op, kind);
        if kind == op.kind && kind !in before {
          LatestFirst(rest, op);
        } else if kind == op.kind && op.updated >= before[kind].updated {
          LatestReplaced(rest, op, before[kind]);
        } else if kind in before {
          LatestKept(rest, op, kind, before[kind]);
        }
      }
    }
  }

  lemma NoKinds()
    ensures forall kind :: !OfKind([], kind)
  {
  }

  /** Some kind of delivery, cleanup aside, failed, was cut off, or is being written, when it was last tried. */
  predicate InTrouble(r: Repository) { exists kind :: kind in Latest(r.operations) && Troubled(Latest(r.operations), kind) }

  /** It was applied where it is, and nothing of a delivery happened beyond committing. */
  predicate StandsApplied(r: Repository) {
    r.apply.Applied? && (forall i :: 0 <= i < |r.operations| ==> !Locates(r.operations[i])) && !InTrouble(r)
  }

  lemma AllVisited(r: Repository, order: seq<OperationKind>)
    requires Visits(order, Latest(r.operations))
    ensures SomeTrouble(Latest(r.operations), order) <==> InTrouble(r)
  {
    hide Latest, Troubled;
    var latest := Latest(r.operations);
    if kind :| kind in latest && Troubled(latest, kind) {
      assert kind in order;
      var k :| 0 <= k < |order| && order[k] == kind;
      assert Troubled(latest, order[k]);
    }
    if k :| 0 <= k < |order| && Troubled(latest, order[k]) { assert order[k] in order; }
  }

  lemma AppliedMeans(r: Repository, order: seq<OperationKind>)
    requires Visits(order, Latest(r.operations)) && !AchievedMerge(r.operations)
    ensures TroubleOf(r, order).status == "applied_locally" <==> StandsApplied(r)
  {
    hide Latest, Visits, AchievedMerge, InTrouble, Locates, Location;
    StatusMeans(r, r.operations);
    AllVisited(r, order);
    VisitsKnown(order, Latest(r.operations));
    AppliedUnlessTroubled(StatusAfter(r, r.operations), Latest(r.operations), order);
    if exists i :: 0 <= i < |r.operations| && Locates(r.operations[i]) {
      var k := LastLocating(r.operations);
      LocationNames(r.operations[k]);
    }
  }

  lemma VisitsKnown(order: seq<OperationKind>, latest: map<OperationKind, Operation>)
    requires Visits(order, latest)
    ensures forall kind :: kind in order ==> kind in latest
  {
  }

  lemma LocationNames(op: Operation)
    ensures Location(op) != "applied_locally"
  {
  }

  lemma {:induction false} LastLocating(ops: seq<Operation>) returns (k: nat)
    requires exists i :: 0 <= i < |ops| && Locates(ops[i])
    ensures LastLocates(ops, k)
  {
    hide Locates;
    var n := |ops| - 1;
    if Locates(ops[n]) {
      k := n;
    } else {
      var i :| 0 <= i < |ops| && Locates(ops[i]);
      assert ops[..n][i] == ops[i];
      k := LastLocating(ops[..n]);
      assert forall j :: 0 <= j < n ==> ops[..n][j] == ops[j];
    }
  }

  /** Nothing of the delivery may still be under way, as far as is known. */
  predicate Certain(r: Repository) { !r.apply.Uncertain? && !r.apply.WritingApply? }

  /**
   Where a changed repository stands, in every order of visiting: merged with proof, or else applied and
   nothing more, or else closed if nothing may be under way, or else pending.
   */
  lemma DispositionMeans(r: Repository, order: seq<OperationKind>, accepted: bool)
    requires Visits(order, Latest(r.operations)) && QuietOnceClosed(r)
    ensures var j, merged := Judge(r, order, accepted), exists i :: 0 <= i < |r.operations| && MergeProof(r.operations[i]);
            (j.disposition.Unchanged? <==> r.changed == 0 && !r.closed) && (j.disposition.UnchangedClosed? <==> r.changed == 0 && r.closed) &&
            (j.disposition.Merged? <==> r.changed != 0 && merged) &&
            (j.disposition.AppliedLocally? <==> r.changed != 0 && !merged && StandsApplied(r)) &&
            (j.disposition.ClosedOff? <==> r.changed != 0 && !merged && !StandsApplied(r) && r.closed && Certain(r)) &&
            (j.disposition.StillPending? <==> r.changed != 0 && !merged && !StandsApplied(r) && !(r.closed && Certain(r))) &&
            (j.needsReview <==> r.changed != 0 && !accepted && !r.closed && !merged && !StandsApplied(r)) &&
            (j.cleanupFailed <==>
               r.changed != 0 && Cleanup in Latest(r.operations) &&
               (Latest(r.operations)[Cleanup].state.OperationFailed? || Latest(r.operations)[Cleanup].state.RecoveryNeeded?))
  {
    hide Latest, StatusAfter, StandsApplied, Troubled, TroubleAfter, SomeTrouble;
    if r.changed != 0 {
      var latest, status, merged := Latest(r.operations), StatusAfter(r, r.operations), AchievedMerge(r.operations);
      CleanupDecides(status, latest, order, merged);
      if !merged {
        AppliedMeans(r, order);
        if r.closed { QuietIsCertain(r, order); }
      }
    }
  }

  lemma QuietIsCertain(r: Repository, order: seq<OperationKind>)
    requires Visits(order, Latest(r.operations)) && NoPendingDelivery(r.operations) && !AchievedMerge(r.operations)
    ensures !TroubleOf(r, order).uncertain
  {
    hide StatusAfter, SomeTrouble, TroubleAfter, AchievedMerge;
    LatestKinds(r.operations);
    var latest := Latest(r.operations);
    forall kind | Troubled(latest, kind)
      ensures latest[kind].state == OperationFailed
    {
      assert latest[kind] in r.operations;
    }
    TroubleDecides(StatusAfter(r, r.operations), latest, order, OperationFailed);
  }

  /** The status shown of a changed repository whose operations, if any are in trouble, are in the same kind of trouble. */
  lemma ShownStatus(r: Repository, order: seq<OperationKind>, accepted: bool, state: OperationState)
    requires Visits(order, Latest(r.operations)) && r.changed != 0 && Bad(state)
    requires forall kind :: Troubled(Latest(r.operations), kind) ==> Latest(r.operations)[kind].state == state
    ensures var j := Judge(r, order, accepted);
            j.status == if j.needsReview then "result_review"
                        else if j.disposition.Merged? then "delivered"
                        else if j.disposition.AppliedLocally? then "applied_locally"
                        else if j.disposition.ClosedOff? then "closed"
                        else if !InTrouble(r) then StatusAfter(r, r.operations)
                        else if state.OperationFailed? then "delivery_failed"
                        else if state.RecoveryNeeded? then "delivery_recovery_required"
                        else "delivery_writing"
  {
    hide Latest, StatusAfter, TroubleAfter, SomeTrouble, Troubled, AchievedMerge, InTrouble, Visits;
    AllVisited(r, order);
    VisitsKnown(order, Latest(r.operations));
    if !AchievedMerge(r.operations) { TroubleDecides(StatusAfter(r, r.operations), Latest(r.operations), order, state); }
  }
}
