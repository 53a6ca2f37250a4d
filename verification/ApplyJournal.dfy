/**
 The multi-repository apply journal. Writes to several repositories cannot be atomic, so each
 repository has a durable journal entry; an apply call may stop, fail or crash after any of the
 changes below, and people may edit the repositories at any time.

 A repository's content stands for its digest (digests are injective); 0 is the zero digest.
 */
module ApplyJournal {
  import opened Common

  datatype Status = Planned | Preflight | Writing | Uncertain | Conflict | Applied

  datatype Inspection = Inspection(digest: nat, applicable: bool, alreadyApplied: bool)

  datatype Evidence = Evidence(noChanges: bool, inspection: Inspection, postState: nat)

  datatype Step = Step(sequence: nat, status: Status, evidence: Evidence)

  const NO_INSPECTION := Inspection(0, false, false)
  const NO_EVIDENCE := Evidence(false, NO_INSPECTION, 0)
  const PLANNED := Step(1, Planned, NO_EVIDENCE)

  /** What the user changed is known per repository, as is whether its delivery was already committed. */
  datatype Plan = Plan(changed: seq<bool>, committed: seq<bool>)

  /** An inspection that accepted a repository, and the call that made it. */
  datatype Pass = Pass(call: nat, inspection: Inspection)

  /**
   `base[i]` is the content repository i had before a write by an apply call, for as long as the
   content differs from it; `passed[i]` is its latest accepting inspection not yet used for a write.
   `busy` says that a call holds the lock of the Run, which closing takes as well; `writing` is the
   repository that call has marked last as being written.
   */
  datatype World = World(
    recorded: bool, steps: seq<Step>, content: seq<nat>, closure: Option<set<nat>>,
    base: seq<Option<nat>>, passed: seq<Option<Pass>>, call: nat, busy: bool, writing: Option<nat>)

  predicate Marked(s: Status) { s.Writing? || s.Uncertain? }

  predicate Shaped(p: Plan, w: World) {
    var n := |p.changed|;
    |p.committed| == n && |w.content| == n && |w.base| == n && |w.passed| == n &&
    (if w.recorded then |w.steps| == n else w.steps == []) &&
    (forall i :: 0 <= i < n ==> w.content[i] != 0)
  }

  /** Repositories an apply call still has to write. */
  predicate Remaining(p: Plan, w: World, i: nat)
    requires Shaped(p, w) && w.recorded && i < |p.changed|
  {
    p.changed[i] && !w.steps[i].status.Applied?
  }

  predicate ModifiedByApply(p: Plan, w: World, i: nat)
    requires Shaped(p, w) && i < |p.changed|
  {
    w.base[i].Some?
  }

  // ---- The durable and physical changes ------------------------------------------------------

  /** A person, or anything else outside apply, changes a repository. */
  predicate EditStep(p: Plan, w: World, w': World, i: nat, c: nat)
    requires Shaped(p, w)
  {
    i < |p.changed| && c != 0 &&
    w' == w.(content := w.content[i := c], base := w.base[i := if w.base[i] == Some(c) then None else w.base[i]])
  }

  predicate OpenStep(p: Plan, w: World, w': World)
    requires Shaped(p, w)
  {
    w.busy && !w.recorded && w' == w.(recorded := true, steps := seq(|p.changed|, _ => PLANNED))
  }

  /** A call takes the lock and goes on only if nothing of the Run is closed. */
  predicate BeginCallStep(w: World, w': World) { !w.busy && w.closure.None? && w' == w.(call := w.call + 1, busy := true, writing := None) }

  /** The call returns, fails or dies, and the lock is free. */
  predicate EndCallStep(w: World, w': World) { w.busy && w' == w.(busy := false) }

  /** Repository i was inspected as it is and accepted; after an interrupted write only its earlier content is accepted. */
  predicate PassedStep(p: Plan, w: World, w': World, i: nat, seen: Inspection)
    requires Shaped(p, w)
  {
    w.busy && w.recorded && i < |p.changed| && !w.steps[i].status.Applied? && seen.applicable && seen.digest == w.content[i] && seen.digest != 0 &&
    (Marked(w.steps[i].status) ==> seen.digest == w.steps[i].evidence.inspection.digest) &&
    w' == w.(passed := w.passed[i := Some(Pass(w.call, seen))])
  }

  predicate PassedNow(p: Plan, w: World, i: nat, seen: Inspection)
    requires Shaped(p, w) && i < |p.changed|
  {
    w.passed[i] == Some(Pass(w.call, seen))
  }

  /** Which entry may follow which; the store adds the sequence check and refuses closed and applied entries. */
  predicate MayFollow(p: Plan, w: World, i: nat, next: Step)
    requires Shaped(p, w) && w.recorded && i < |p.changed|
  {
    var was := w.steps[i];
    var status := next.status;
    if !p.changed[i] then status.Applied? && next.evidence.noChanges
    else
      !next.evidence.noChanges &&
      match status
      case Planned => false
      case Preflight =>
        PassedNow(p, w, i, next.evidence.inspection) && next.evidence.inspection.digest != 0
      case Writing =>
        was.status.Preflight? && next.evidence.inspection == was.evidence.inspection &&
        (forall j :: 0 <= j < |p.changed| && Remaining(p, w, j) ==>
           i <= j && w.steps[j].status.Preflight? && PassedNow(p, w, j, w.steps[j].evidence.inspection))
      case Uncertain => Marked(was.status) && next.evidence.inspection == was.evidence.inspection
      case Conflict => !Marked(was.status) || (was.status.Writing? && PassedNow(p, w, i, was.evidence.inspection))
      case Applied =>
        Marked(was.status) && next.evidence.inspection == was.evidence.inspection && next.evidence.postState != 0
  }

  predicate AppendStep(p: Plan, w: World, w': World, i: nat, next: Step)
    requires Shaped(p, w)
  {
    w.busy && w.recorded && i < |p.changed| && !w.steps[i].status.Applied? &&
    !(w.closure.Some? && i in w.closure.value) &&
    next.sequence == w.steps[i].sequence + 1 && MayFollow(p, w, i, next) &&
    w' == w.(steps := w.steps[i := next], writing := if next.status.Writing? then Some(i) else w.writing)
  }

  /** The write itself follows the marker in the same call, and only while the target still has the inspected content. */
  predicate TargetStep(p: Plan, w: World, w': World, i: nat, c: nat)
    requires Shaped(p, w)
  {
    w.busy && w.recorded && i < |p.changed| && w.writing == Some(i) && w.steps[i].status.Writing? && PassedNow(p, w, i, w.steps[i].evidence.inspection) &&
    w.content[i] == w.steps[i].evidence.inspection.digest && c != 0 &&
    w' == w.(content := w.content[i := c], passed := w.passed[i := None],
             base := w.base[i := if c == w.content[i] then None else Some(w.content[i])])
  }

  function ClosedIds(p: Plan, w: World): set<nat>
    requires Shaped(p, w)
  {
    set i: nat | i < |p.changed| && !p.committed[i] && !(w.recorded && w.steps[i].status.Applied?)
  }

  predicate CloseStep(p: Plan, w: World, w': World)
    requires Shaped(p, w)
  {
    !w.busy && w.closure.None? && (w.recorded ==> forall i :: 0 <= i < |p.changed| ==> !Marked(w.steps[i].status)) &&
    ClosedIds(p, w) != {} && w' == w.(closure := Some(ClosedIds(p, w)))
  }

  datatype Change =
    | Edited(i: nat, c: nat)
    | Opened
    | CallBegan
    | CallEnded
    | PassedPreflight(i: nat, seen: Inspection)
    | Appended(i: nat, next: Step)
    | TargetWritten(i: nat, c: nat)
    | Closed

  predicate Changes(p: Plan, w: World, ch: Change, w': World)
    requires Shaped(p, w)
  {
    match ch
    case Edited(i, c) => EditStep(p, w, w', i, c)
    case Opened => OpenStep(p, w, w')
    case CallBegan => BeginCallStep(w, w')
    case CallEnded => EndCallStep(w, w')
    case PassedPreflight(i, seen) => PassedStep(p, w, w', i, seen)
    case Appended(i, next) => AppendStep(p, w, w', i, next)
    case TargetWritten(i, c) => TargetStep(p, w, w', i, c)
    case Closed => CloseStep(p, w, w')
  }

  predicate Fresh(p: Plan, w: World) {
    Shaped(p, w) && !w.recorded && w.closure.None? && w.call == 0 && !w.busy && w.writing.None? &&
    (forall i :: 0 <= i < |p.changed| ==> w.base[i].None? && w.passed[i].None?)
  }

  /** Every history of one result: any calls, failures, crashes, edits and closings. */
  ghost predicate History(p: Plan, worlds: seq<World>, changes: seq<Change>) {
    |worlds| == |changes| + 1 && Fresh(p, worlds[0]) &&
    (forall k :: 0 <= k < |worlds| ==> Shaped(p, worlds[k])) &&
    (forall k :: 0 <= k < |changes| ==> Changes(p, worlds[k], changes[k], worlds[k + 1]))
  }

  // ---- Invariant -----------------------------------------------------------------------------

  /** Changed repositories are applied in order: everything changed before an applied one is applied. */
  predicate AppliedPrefix(p: Plan, w: World)
    requires Shaped(p, w)
  {
    w.recorded ==>
      forall i, j :: 0 <= i < j < |p.changed| && p.changed[i] && p.changed[j] && w.steps[j].status.Applied? ==>
        w.steps[i].status.Applied?
  }

  /** A marked repository is the first changed one that is not applied. */
  predicate MarkedIsNext(p: Plan, w: World)
    requires Shaped(p, w)
  {
    w.recorded ==>
      forall i :: 0 <= i < |p.changed| && Marked(w.steps[i].status) ==>
        p.changed[i] && forall j :: 0 <= j < i && p.changed[j] ==> w.steps[j].status.Applied?
  }

  predicate WritesAreMarked(p: Plan, w: World)
    requires Shaped(p, w)
  {
    forall i :: 0 <= i < |p.changed| && w.base[i].Some? ==>
      w.recorded && (Marked(w.steps[i].status) || w.steps[i].status.Applied?) && w.content[i] != w.base[i].value &&
      w.steps[i].evidence.inspection.digest == w.base[i].value
  }

  predicate MarkedCarriesDigest(p: Plan, w: World)
    requires Shaped(p, w)
  {
    w.recorded ==> forall i :: 0 <= i < |p.changed| && (Marked(w.steps[i].status) || w.steps[i].status.Preflight?) ==>
      w.steps[i].evidence.inspection.digest != 0
  }

  predicate UnchangedNeverWritten(p: Plan, w: World)
    requires Shaped(p, w)
  {
    w.recorded ==> forall i :: 0 <= i < |p.changed| && !p.changed[i] ==> w.steps[i].status.Planned? || w.steps[i].status.Applied?
  }

  predicate EvidenceHonest(p: Plan, w: World)
    requires Shaped(p, w)
  {
    w.recorded ==> forall i :: 0 <= i < |p.changed| && w.steps[i].status.Applied? ==> w.steps[i].evidence.noChanges == !p.changed[i]
  }

  predicate ClosureConsistent(p: Plan, w: World)
    requires Shaped(p, w)
  {
    w.closure.Some? ==>
      (forall i :: i in w.closure.value ==> i < |p.changed| && !(w.recorded && (w.steps[i].status.Applied? || Marked(w.steps[i].status))))
  }

  predicate PassMeansIntact(p: Plan, w: World)
    requires Shaped(p, w)
  {
    forall i :: 0 <= i < |p.changed| && w.passed[i].Some? ==>
      w.passed[i].value.call <= w.call && (w.passed[i].value.call == w.call ==> w.base[i].None?)
  }

  predicate Sound(p: Plan, w: World) {
    Shaped(p, w) && (w.busy ==> w.closure.None?) && PassMeansIntact(p, w) && AppliedPrefix(p, w) && MarkedIsNext(p, w) && WritesAreMarked(p, w) && MarkedCarriesDigest(p, w) &&
    UnchangedNeverWritten(p, w) && EvidenceHonest(p, w) && ClosureConsistent(p, w)
  }

  lemma AppendPreserves(p: Plan, w: World, w': World, i: nat, next: Step)
    requires Sound(p, w) && AppendStep(p, w, w', i, next)
    ensures Sound(p, w')
  {
    assert forall j :: 0 <= j < |p.changed| && j != i ==> w'.steps[j] == w.steps[j];
    if next.status.Applied? && p.changed[i] {
      assert Marked(w.steps[i].status);
    }
    if next.status.Writing? {
      forall j | 0 <= j < i && p.changed[j]
        ensures w.steps[j].status.Applied?
      {
        assert !Remaining(p, w, j);
      }
    }
  }

  lemma ChangePreserves(p: Plan, w: World, ch: Change, w': World)
    requires Sound(p, w) && Changes(p, w, ch, w')
    ensures Sound(p, w')
  {
    if ch.Appended? {
      AppendPreserves(p, w, w', ch.i, ch.next);
    }
  }

  lemma {:induction false} HistorySound(p: Plan, worlds: seq<World>, changes: seq<Change>, k: nat)
    requires History(p, worlds, changes) && k < |worlds|
    ensures Sound(p, worlds[k])
  {
    if k > 0 {
      HistorySound(p, worlds, changes, k - 1);
      ChangePreserves(p, worlds[k - 1], changes[k - 1], worlds[k]);
    }
  }

  // ---- Main results --------------------------------------------------------------------------

  /** At every moment: an exact applied prefix, at most one interrupted repository and it is the next one,
      its entry names the content to return to, and nothing apply modified goes unmarked. */
  lemma JournalExplainsPrefix(p: Plan, worlds: seq<World>, changes: seq<Change>, k: nat)
    requires History(p, worlds, changes) && k < |worlds|
    ensures AppliedPrefix(p, worlds[k]) && MarkedIsNext(p, worlds[k]) && MarkedCarriesDigest(p, worlds[k])
    ensures worlds[k].recorded ==>
              forall i, j :: 0 <= i < j < |p.changed| ==>
                !(Marked(worlds[k].steps[i].status) && Marked(worlds[k].steps[j].status))
    ensures forall i: nat :: i < |p.changed| && ModifiedByApply(p, worlds[k], i) ==>
              worlds[k].recorded && (Marked(worlds[k].steps[i].status) || worlds[k].steps[i].status.Applied?) &&
              worlds[k].steps[i].evidence.inspection.digest == worlds[k].base[i].value
  {
    HistorySound(p, worlds, changes, k);
  }

  /** In step m, repository i was marked as being written, it being the first of all that remained, and all these passed. */
  predicate MarkedIn(p: Plan, w: World, ch: Change, i: nat)
    requires Shaped(p, w)
  {
    w.recorded && i < |p.changed| && ch.Appended? && ch.i == i && ch.next.status.Writing? &&
    forall j :: 0 <= j < |p.changed| && Remaining(p, w, j) ==>
      i <= j && w.steps[j].status.Preflight? && PassedNow(p, w, j, w.steps[j].evidence.inspection)
  }

  /** The same call is running in all worlds from the m-th to the k-th. */
  predicate SameCall(worlds: seq<World>, m: nat, k: nat) {
    m <= k < |worlds| && forall n :: m <= n <= k ==> worlds[n].busy && worlds[n].call == worlds[k].call
  }

  /** The running call marked its repository itself. */
  lemma {:induction false} CallMarked(p: Plan, worlds: seq<World>, changes: seq<Change>, k: nat) returns (m: nat)
    requires History(p, worlds, changes) && k < |worlds| && worlds[k].busy && worlds[k].writing.Some?
    ensures m < k && MarkedIn(p, worlds[m], changes[m], worlds[k].writing.value) && SameCall(worlds, m, k)
  {
    hide MarkedIn, Changes, Shaped;
    assert k > 0;
    assert Changes(p, worlds[k - 1], changes[k - 1], worlds[k]);
    WritingStep(p, worlds[k - 1], changes[k - 1], worlds[k]);
    m := k - 1;
    if !MarkedIn(p, worlds[m], changes[m], worlds[k].writing.value) { m := CallMarked(p, worlds, changes, k - 1); }
  }

  lemma WritingStep(p: Plan, w: World, ch: Change, w': World)
    requires Shaped(p, w) && Changes(p, w, ch, w') && w'.busy && w'.writing.Some?
    ensures w.busy && w.call == w'.call
    ensures MarkedIn(p, w, ch, w'.writing.value) || w.writing == w'.writing
  {
    if ch.Appended? && ch.next.status.Writing? { MarkIsGuarded(p, w, w', ch.i, ch.next); }
  }

  lemma MarkIsGuarded(p: Plan, w: World, w': World, i: nat, next: Step)
    requires Shaped(p, w) && AppendStep(p, w, w', i, next) && next.status.Writing?
    ensures MarkedIn(p, w, Appended(i, next), i)
  {
  }

  /**
   Whenever a target is written, the same call has marked it before, and at that moment every repository
   still to be written had passed preflight in this very call, and this one was the first of them.
   */
  lemma WriteNeedsFullPreflight(p: Plan, worlds: seq<World>, changes: seq<Change>, k: nat) returns (m: nat)
    requires History(p, worlds, changes) && k < |changes| && changes[k].TargetWritten?
    ensures m < k && MarkedIn(p, worlds[m], changes[m], changes[k].i) && SameCall(worlds, m, k)
  {
    assert Changes(p, worlds[k], changes[k], worlds[k + 1]);
    m := CallMarked(p, worlds, changes, k);
  }

  /** "applied" is absorbing, and entries only ever gain sequence numbers. */
  lemma {:induction false} AppliedIsAbsorbing(p: Plan, worlds: seq<World>, changes: seq<Change>, k: nat, j: nat, i: nat)
    requires History(p, worlds, changes) && k <= j < |worlds| && i < |p.changed| && worlds[k].recorded
    ensures worlds[j].recorded && worlds[k].steps[i].sequence <= worlds[j].steps[i].sequence
    ensures worlds[k].steps[i].sequence == worlds[j].steps[i].sequence ==> worlds[j].steps[i] == worlds[k].steps[i]
    ensures worlds[k].steps[i].status.Applied? ==> worlds[j].steps[i] == worlds[k].steps[i]
    decreases j
  {
    if k < j {
      AppliedIsAbsorbing(p, worlds, changes, k, j - 1, i);
      assert Changes(p, worlds[j - 1], changes[j - 1], worlds[j]);
    }
  }

  /**
   Once closed, always closed: no call gets past its first check, no repository gains an entry, is passed
   or written, and whatever happens later is done by people. No closed repository was or becomes applied.
   */
  lemma {:induction false} ClosureFreezesApply(p: Plan, worlds: seq<World>, changes: seq<Change>, k: nat, j: nat)
    requires History(p, worlds, changes) && k <= j < |worlds| && worlds[k].closure.Some?
    ensures worlds[j].closure == worlds[k].closure && worlds[j].recorded == worlds[k].recorded && worlds[j].steps == worlds[k].steps
    ensures worlds[j].call == worlds[k].call && !worlds[j].busy && worlds[j].passed == worlds[k].passed
    ensures forall m :: k <= m < j ==> changes[m].Edited?
    ensures worlds[k].recorded ==>
              forall i: nat :: i in worlds[k].closure.value ==> i < |p.changed| && !worlds[j].steps[i].status.Applied?
    decreases j
  {
    HistorySound(p, worlds, changes, k);
    if k < j {
      ClosureFreezesApply(p, worlds, changes, k, j - 1);
      assert Changes(p, worlds[j - 1], changes[j - 1], worlds[j]);
    }
  }

  /**
   Closing splits the entries exactly, for ever after: a repository is closed if and only if it was neither
   committed nor is applied, and no write is left interrupted.
   */
  lemma ClosureSplitsExactly(p: Plan, worlds: seq<World>, changes: seq<Change>, k: nat, j: nat)
    requires History(p, worlds, changes) && k < |changes| && changes[k].Closed? && k < j < |worlds|
    ensures worlds[j].recorded ==> forall i :: 0 <= i < |p.changed| ==> !Marked(worlds[j].steps[i].status)
    ensures worlds[j].closure.Some?
    ensures forall i: nat :: i < |p.changed| ==>
              (i in worlds[j].closure.value <==>
               !(p.committed[i] || (worlds[j].recorded && worlds[j].steps[i].status.Applied?)))
  {
    assert Changes(p, worlds[k], changes[k], worlds[k + 1]);
    ClosureFreezesApply(p, worlds, changes, k + 1, j);
  }

  lemma HistoryExtends(p: Plan, worlds: seq<World>, changes: seq<Change>, ch: Change, w': World)
    requires History(p, worlds, changes) && Changes(p, worlds[|changes|], ch, w')
    ensures History(p, worlds + [w'], changes + [ch])
  {
    HistorySound(p, worlds, changes, |changes|);
    ChangePreserves(p, worlds[|changes|], ch, w');
  }
}
