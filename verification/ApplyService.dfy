/**
 Applying an accepted result to its repositories, and closing what is left of it.

 Store failures, crashes, cancellation, edits by people and whatever the target answers are
 nondeterministic choices. A call that is interrupted anywhere simply returns; the journal and the
 repositories stay as they are at that point.
 */
module ApplyService {
  import opened Common
  import opened ApplyJournal

  datatype ApplyError = ResultClosed | VersionConflict | InvalidCommand | EvidenceUnavailable | Interrupted | TaskCloseFailed

  datatype CloseError = CloseVersionConflict | CloseEvidenceUnavailable | CloseBlocked | NothingEligible

  datatype ViewStatus = ViewPending | ViewConflict | ViewRecoveryRequired | ViewPartial | ViewApplied

  datatype WriteOutcome = Written(postState: nat) | Rejected | WriteFailed

  datatype EntryStatus = Eligible | Retained

  function CountApplied(steps: seq<Step>, changedOnly: bool): nat {
    if steps == [] then 0
    else
      var last := steps[|steps| - 1];
      CountApplied(steps[..|steps| - 1], changedOnly) +
      (if last.status.Applied? && (changedOnly ==> !last.evidence.noChanges) then 1 else 0)
  }

  predicate SomeStatus(steps: seq<Step>, marked: bool) {
    exists i :: 0 <= i < |steps| && (if marked then Marked(steps[i].status) else steps[i].status.Conflict?)
  }

  function Projection(steps: seq<Step>): ViewStatus {
    if steps != [] && CountApplied(steps, false) == |steps| then ViewApplied
    else if CountApplied(steps, true) > 0 then ViewPartial
    else if SomeStatus(steps, true) then ViewRecoveryRequired
    else if SomeStatus(steps, false) then ViewConflict
    else ViewPending
  }

  method ProjectStatus(steps: seq<Step>) returns (r: ViewStatus)
    ensures r == Projection(steps)
  {
    var applied, completed, uncertain, conflict := 0, 0, false, false;
    for k := 0 to |steps|
      invariant completed == CountApplied(steps[..k], false) && applied == CountApplied(steps[..k], true)
      invariant uncertain == SomeStatus(steps[..k], true) && conflict == SomeStatus(steps[..k], false)
    {
      assert steps[..k + 1][..k] == steps[..k];
      assert forall i :: 0 <= i < k ==> steps[..k + 1][i] == steps[..k][i];
      if steps[k].status.Applied? {
        completed := completed + 1;
        if !steps[k].evidence.noChanges { applied := applied + 1; }
      }
      if Marked(steps[k].status) { uncertain := true; assert Marked(steps[..k + 1][k].status); }
      if steps[k].status.Conflict? { conflict := true; assert steps[..k + 1][k].status.Conflict?; }
    }
    assert steps[..|steps|] == steps;
    if |steps| > 0 && completed == |steps| { return ViewApplied; }
    if applied > 0 { return ViewPartial; }
    if uncertain { return ViewRecoveryRequired; }
    if conflict { return ViewConflict; }
    return ViewPending;
  }

  lemma {:induction false} CountAppliedBounds(steps: seq<Step>, changedOnly: bool)
    ensures CountApplied(steps, changedOnly) <= |steps|
    ensures CountApplied(steps, changedOnly) == |steps| <==>
              forall i :: 0 <= i < |steps| ==> steps[i].status.Applied? && (changedOnly ==> !steps[i].evidence.noChanges)
    ensures CountApplied(steps, changedOnly) > 0 <==>
              exists i :: 0 <= i < |steps| && steps[i].status.Applied? && (changedOnly ==> !steps[i].evidence.noChanges)
  {
    if steps != [] {
      var k := |steps| - 1;
      CountAppliedBounds(steps[..k], changedOnly);
      assert forall i :: 0 <= i < k ==> steps[i] == steps[..k][i];
    }
  }

  /**
   What the one-word status tells a reader. Once a repository with changes is applied it is partial until all are,
   and so hides an interrupted write or a conflict; before that, interruption outranks conflict.
   */
  lemma ProjectionMeaning(p: Plan, w: World)
    requires Sound(p, w) && w.recorded
    ensures Projection(w.steps).ViewApplied? <==> |p.changed| > 0 && forall i :: 0 <= i < |p.changed| ==> w.steps[i].status.Applied?
    ensures Projection(w.steps).ViewPartial? <==>
              (exists i :: 0 <= i < |p.changed| && p.changed[i] && w.steps[i].status.Applied?) &&
              (exists i :: 0 <= i < |p.changed| && !w.steps[i].status.Applied?)
    ensures Projection(w.steps).ViewRecoveryRequired? <==>
              (exists i :: 0 <= i < |p.changed| && Marked(w.steps[i].status)) &&
              forall i :: 0 <= i < |p.changed| && p.changed[i] ==> !w.steps[i].status.Applied?
    ensures Projection(w.steps).ViewConflict? <==>
              (exists i :: 0 <= i < |p.changed| && w.steps[i].status.Conflict?) &&
              forall i :: 0 <= i < |p.changed| ==> !Marked(w.steps[i].status) && (p.changed[i] ==> !w.steps[i].status.Applied?)
    ensures Projection(w.steps).ViewPending? <==>
              (|p.changed| > 0 ==> exists i :: 0 <= i < |p.changed| && !w.steps[i].status.Applied?) &&
              forall i :: 0 <= i < |p.changed| ==>
                !Marked(w.steps[i].status) && !w.steps[i].status.Conflict? && (p.changed[i] ==> !w.steps[i].status.Applied?)
  {
    CountAppliedBounds(w.steps, false);
    CountAppliedBounds(w.steps, true);
    forall i | 0 <= i < |p.changed| && w.steps[i].status.Applied?
      ensures w.steps[i].evidence.noChanges == !p.changed[i]
    {
    }
    if i :| 0 <= i < |p.changed| && p.changed[i] && w.steps[i].status.Applied? { assert !w.steps[i].evidence.noChanges; }
    assert SomeStatus(w.steps, true) <==> exists i :: 0 <= i < |p.changed| && Marked(w.steps[i].status);
    assert SomeStatus(w.steps, false) <==> exists i :: 0 <= i < |p.changed| && w.steps[i].status.Conflict?;
  }

  /** The repository is done, or was accepted by the running call with this inspection. */
  predicate Cleared(changed: bool, step: Step, pass: Option<Pass>, call: nat, inspection: Inspection) {
    step.status.Applied? ||
    (changed && step.status.Preflight? && step.evidence.inspection == inspection && pass == Some(Pass(call, inspection)))
  }

  /** Some repository explains why the call did not apply everything. */
  predicate Stopped(steps: seq<Step>) {
    exists k :: 0 <= k < |steps| && (steps[k].status.Uncertain? || steps[k].status.Conflict?)
  }

  /** What the target answered about one repository. */
  datatype Look = Look(failed: bool, seen: Inspection)

  /** The target's answers, in the order in which they were given. */
  datatype Answer = Looked(i: nat, look: Look) | Wrote(i: nat, outcome: WriteOutcome)

  function LooksIn(looks: seq<Option<Look>>): seq<Answer> {
    if looks == [] then []
    else
      var n := |looks| - 1;
      LooksIn(looks[..n]) + match looks[n] case None => [] case Some(look) => [Looked(n, look)]
  }

  function WritesIn(outcomes: seq<Option<WriteOutcome>>): seq<Answer> {
    if outcomes == [] then []
    else
      var n := |outcomes| - 1;
      WritesIn(outcomes[..n]) + match outcomes[n] case None => [] case Some(outcome) => [Wrote(n, outcome)]
  }

  lemma LookAdded(looks: seq<Option<Look>>, i: nat, look: Option<Look>)
    requires i < |looks|
    ensures LooksIn(looks[i := look][..i + 1]) == LooksIn(looks[..i]) + match look case None => [] case Some(l) => [Looked(i, l)]
  {
    assert looks[i := look][..i + 1][..i] == looks[..i];
  }

  lemma WriteAdded(outcomes: seq<Option<WriteOutcome>>, i: nat, outcome: Option<WriteOutcome>)
    requires i < |outcomes|
    ensures WritesIn(outcomes[i := outcome][..i + 1]) == WritesIn(outcomes[..i]) + match outcome case None => [] case Some(o) => [Wrote(i, o)]
  {
    assert outcomes[i := outcome][..i + 1][..i] == outcomes[..i];
  }

  lemma {:induction false} NoWritesIn(outcomes: seq<Option<WriteOutcome>>, i: nat)
    requires i <= |outcomes| && forall k :: i <= k < |outcomes| ==> outcomes[k].None?
    ensures WritesIn(outcomes) == WritesIn(outcomes[..i])
  {
    if i == |outcomes| {
      assert outcomes[..i] == outcomes;
    } else {
      var n := |outcomes| - 1;
      assert outcomes[..n][..i] == outcomes[..i];
      NoWritesIn(outcomes[..n], i);
    }
  }

  /** After an interrupted write the target may find it complete. */
  predicate Recognised(before: Step, look: Look) { Marked(before.status) && !look.failed && look.seen.alreadyApplied }

  /** Why nothing may be written: no answer, a refusal, or other content than an interrupted write began from. */
  predicate Hinders(before: Step, look: Look) {
    !Recognised(before, look) &&
    (look.failed || !look.seen.applicable || (Marked(before.status) && look.seen.digest != before.evidence.inspection.digest))
  }

  predicate LooksHinder(before: seq<Step>, looks: seq<Option<Look>>) {
    exists k :: 0 <= k < |looks| && k < |before| && looks[k].Some? && Hinders(before[k], looks[k].value)
  }

  /** What preflight leaves of a repository: a recognised write is applied, a hindrance is named, the rest is cleared. */
  predicate Concluded(changed: bool, before: Step, look: Option<Look>, after: Step) {
    if before.status.Applied? then look.None? && after == before
    else if !changed then look.None? && after.status.Applied? && after.evidence.noChanges
    else
      look.Some? &&
      if Recognised(before, look.value) then after.status.Applied? && after.evidence.postState == look.value.seen.digest
      else if Hinders(before, look.value) then (if Marked(before.status) then after.status.Uncertain? else after.status.Conflict?)
      else after.status.Preflight? && after.evidence.inspection == look.value.seen
  }

  predicate Proven(outcome: WriteOutcome) { outcome.Written? && outcome.postState != 0 }

  /** What the second loop leaves of a repository, given what the target answered when it was written. */
  predicate Settled(before: Step, outcome: Option<WriteOutcome>, after: Step) {
    match outcome
    case None => after == before
    case Some(Rejected) => before.status.Preflight? && after.status.Conflict?
    case Some(o) =>
      before.status.Preflight? &&
      if Proven(o) then after.status.Applied? && after.evidence.postState == o.postState else after.status.Uncertain?
  }

  /** Writing stops at the first answer that does not prove the write. */
  predicate StoppedAt(before: seq<Step>, outcomes: seq<Option<WriteOutcome>>, after: seq<Step>, n: nat) {
    |before| == |outcomes| == |after| && n <= |after| &&
    (forall k :: 0 <= k < |after| ==> Settled(before[k], outcomes[k], after[k])) &&
    (forall k :: 0 <= k < n ==> after[k].status.Applied?) && (forall k :: n < k < |after| ==> outcomes[k].None?) &&
    (n < |after| ==> outcomes[n].Some? && !Proven(outcomes[n].value))
  }

  /**
   One call from beginning to end: the journal it found, what the target answered when it looked, the journal
   after preflight, what the target answered when it wrote, and where writing ended.
   */
  datatype Course = Course(before: seq<Step>, looks: seq<Option<Look>>, middle: seq<Step>, outcomes: seq<Option<WriteOutcome>>, end: nat)

  predicate Explains(p: Plan, c: Course, after: seq<Step>) {
    |c.before| == |c.looks| == |c.middle| == |p.changed| == |after| &&
    (forall k :: 0 <= k < |after| ==> Concluded(p.changed[k], c.before[k], c.looks[k], c.middle[k])) &&
    if LooksHinder(c.before, c.looks) then after == c.middle && |c.outcomes| == |after| && (forall k :: 0 <= k < |after| ==> c.outcomes[k].None?)
    else StoppedAt(c.middle, c.outcomes, after, c.end)
  }

  /** An entry has its trouble from a hindrance preflight saw, or from a write that was not proven. */
  predicate Caused(c: Course, k: nat)
    requires k < |c.before| == |c.looks| == |c.outcomes|
  {
    (c.looks[k].Some? && Hinders(c.before[k], c.looks[k].value)) || (c.outcomes[k].Some? && !Proven(c.outcomes[k].value))
  }

  /**
   A call leaves everything applied exactly when nothing it was told is in the way, and any entry it leaves
   uncertain or in conflict is so for what the target said about that very repository in this call.
   */
  lemma CourseDecides(p: Plan, c: Course, after: seq<Step>)
    requires Explains(p, c, after)
    ensures (forall k :: 0 <= k < |after| ==> after[k].status.Applied?) <==> forall k :: 0 <= k < |after| ==> !Caused(c, k)
    ensures forall k :: 0 <= k < |after| && (after[k].status.Uncertain? || after[k].status.Conflict?) ==> Caused(c, k)
    ensures forall k :: 0 <= k < |after| && Caused(c, k) ==> after[k].status.Uncertain? || after[k].status.Conflict?
    ensures forall k :: 0 <= k < |after| ==> !after[k].status.Writing?
  {
    forall k | 0 <= k < |after|
      ensures after[k].status.Uncertain? || after[k].status.Conflict? <==> Caused(c, k)
      ensures !after[k].status.Writing?
    {
      assert Concluded(p.changed[k], c.before[k], c.looks[k], c.middle[k]);
      if !LooksHinder(c.before, c.looks) { assert Settled(c.middle[k], c.outcomes[k], after[k]); }
    }
    if LooksHinder(c.before, c.looks) {
      var k :| 0 <= k < |c.looks| && k < |c.before| && c.looks[k].Some? && Hinders(c.before[k], c.looks[k].value);
      assert Caused(c, k) && !after[k].status.Applied?;
    } else if c.end < |after| {
      assert Caused(c, c.end) && !after[c.end].status.Applied?;
    }
  }

  lemma NoAnswers()
    ensures LooksIn([]) == [] && WritesIn([]) == []
  {
  }

  lemma PreflightMeans(p: Plan, before: seq<Step>, looks: seq<Option<Look>>, after: seq<Step>)
    requires |p.changed| == |before| == |looks| == |after|
    requires forall k :: 0 <= k < |after| ==> Concluded(p.changed[k], before[k], looks[k], after[k])
    ensures forall k :: 0 <= k < |after| ==> !after[k].status.Writing?
    ensures LooksHinder(before, looks) ==> Stopped(after)
  {
    hide Concluded, Hinders;
    forall k | 0 <= k < |after| { ConcludedMeans(p.changed[k], before[k], looks[k], after[k]); }
  }

  lemma WritesMean(before: seq<Step>, outcomes: seq<Option<WriteOutcome>>, after: seq<Step>, n: nat)
    requires StoppedAt(before, outcomes, after, n) && forall k :: 0 <= k < |before| ==> !before[k].status.Writing?
    ensures forall k :: 0 <= k < |after| ==> !after[k].status.Writing?
    ensures Stopped(after) || forall k :: 0 <= k < |after| ==> after[k].status.Applied?
  {
    hide Settled;
    forall k | 0 <= k < |after|
      ensures !after[k].status.Writing?
    {
      SettledKeeps(before[k], outcomes[k], after[k]);
    }
    if n < |after| { SettledMeans(before[n], outcomes[n], after[n]); }
  }

  lemma SettledKeeps(before: Step, outcome: Option<WriteOutcome>, after: Step)
    requires Settled(before, outcome, after) && !before.status.Writing?
    ensures !after.status.Writing?
  {
  }

  lemma ClearedOwn(changed: bool, step: Step, pass: Option<Pass>, call: nat, inspection: Inspection)
    requires Cleared(changed, step, pass, call, inspection)
    ensures Cleared(changed, step, pass, call, step.evidence.inspection)
  {
  }

  lemma ClearedMeans(changed: bool, step: Step, pass: Option<Pass>, call: nat, inspection: Inspection)
    requires Cleared(changed, step, pass, call, inspection)
    ensures !step.status.Writing?
  {
  }

  lemma ConcludedMeans(changed: bool, before: Step, look: Option<Look>, after: Step)
    requires Concluded(changed, before, look, after)
    ensures !after.status.Writing?
    ensures look.Some? && Hinders(before, look.value) ==> after.status.Uncertain? || after.status.Conflict?
  {
  }

  lemma NothingSettled(steps: seq<Step>)
    ensures forall k :: 0 <= k < |steps| ==> Settled(steps[k], None, steps[k])
  {
  }

  lemma SettledMeans(before: Step, outcome: Option<WriteOutcome>, after: Step)
    requires Settled(before, outcome, after) && outcome.Some?
    ensures if Proven(outcome.value) then after.status.Applied? else after.status.Uncertain? || after.status.Conflict?
  {
  }

  class ResultApply {
    const plan: Plan
    var recorded: bool
    var steps: seq<Step>
    var content: seq<nat>
    var closure: Option<set<nat>>
    var taskClosed: bool
    ghost var busy: bool  // a call holds the lock of the Run
    ghost var writing: Option<nat>
    ghost var told: seq<Answer>  // whatever the target answered so far
    ghost var base: seq<Option<nat>>
    ghost var passed: seq<Option<Pass>>
    ghost var call: nat
    ghost var faults: nat  // store failures, crashes and cancellations so far
    ghost var worlds: seq<World>
    ghost var changes: seq<Change>

    ghost function Now(): World
      reads this
    {
      World(recorded, steps, content, closure, base, passed, call, busy, writing)
    }

    /** The object is the end of a history of permitted changes. */
    ghost predicate Valid()
      reads this
    {
      Shaped(plan, Now()) && History(plan, worlds, changes) && worlds[|changes|] == Now() && (busy ==> closure.None?)
    }

    constructor (plan: Plan, content: seq<nat>)
      requires |plan.changed| == |plan.committed| == |content| && forall i :: 0 <= i < |content| ==> content[i] != 0
      ensures Valid() && this.plan == plan && this.content == content && !recorded && closure == None && !busy && !taskClosed
    {
      this.plan, this.recorded, this.steps, this.content, this.closure := plan, false, [], content, None;
      var n := |content|;
      base, passed, call, faults, busy, writing, taskClosed, told := seq(n, _ => None), seq(n, _ => None), 0, 0, false, None, false, [];
      worlds := [World(false, [], content, None, seq(n, _ => None), seq(n, _ => None), 0, false, None)];
      changes := [];
    }

    /** Appends the present state to the history. */
    ghost method Note(ch: Change)
      requires History(plan, worlds, changes) && Changes(plan, worlds[|changes|], ch, Now()) && (busy ==> closure.None?)
      modifies this`worlds, this`changes
      ensures Valid() && worlds == old(worlds) + [Now()] && changes == old(changes) + [ch]
    {
      HistoryExtends(plan, worlds, changes, ch, Now());
      worlds, changes := worlds + [Now()], changes + [ch];
    }

    /** People, and other programs, may do anything to the repositories at any time. */
    method OutsideEdits()
      requires Valid()
      modifies this`content, this`base, this`worlds, this`changes
      ensures Valid() && old(worlds) <= worlds
    {
      var rounds: nat := *;
      while rounds > 0
        invariant Valid() && old(worlds) <= worlds
      {
        var i: nat, c: nat := *, *;
        if i < |plan.changed| && c != 0 {
          ghost var was := base[i];
          content, base := content[i := c], base[i := if base[i] == Some(c) then None else base[i]];
          Note(Edited(i, c));
        }
        rounds := rounds - 1;
      }
    }

    /** One journal transaction; it may fail. The store would refuse a closed entry, but no call runs on a closed result. */
    method Append(i: nat, next: Step) returns (ok: bool)
      requires Valid() && busy && recorded && i < |steps| && !steps[i].status.Applied?
      requires next.sequence == steps[i].sequence + 1 && MayFollow(plan, Now(), i, next)
      modifies this`steps, this`writing, this`faults, this`worlds, this`changes
      ensures Valid() && old(worlds) <= worlds && old(faults) <= faults
      ensures ok ==> steps == old(steps)[i := next] && faults == old(faults)
      ensures ok && next.status.Writing? ==> writing == Some(i)
      ensures !ok ==> steps == old(steps) && faults > old(faults)
    {
      ok := *;
      if ok {
        steps, writing := steps[i := next], if next.status.Writing? then Some(i) else writing;
        Note(Appended(i, next));
      } else {
        faults := faults + 1;
      }
    }

    method Save(i: nat, status: Status, evidence: Evidence) returns (ok: bool)
      requires Valid() && busy && recorded && i < |steps| && !steps[i].status.Applied?
      requires MayFollow(plan, Now(), i, Step(steps[i].sequence + 1, status, evidence))
      modifies this`steps, this`writing, this`faults, this`worlds, this`changes
      ensures Valid() && old(worlds) <= worlds && old(faults) <= faults
      ensures ok ==> steps == old(steps)[i := Step(old(steps)[i].sequence + 1, status, evidence)] && faults == old(faults)
      ensures ok && status.Writing? ==> writing == Some(i)
      ensures !ok ==> steps == old(steps) && faults > old(faults)
    {
      ok := Append(i, Step(steps[i].sequence + 1, status, evidence));
    }

    /**
     The target reports the content it finds, or recognises an interrupted write as complete. What it
     accepts is noted; after an interrupted write it accepts only the content from before that write.
     */
    method Inspect(i: nat) returns (failed: bool, seen: Inspection)
      requires Valid() && busy && recorded && i < |steps| && !steps[i].status.Applied?
      modifies this`passed, this`told, this`worlds, this`changes
      ensures Valid() && old(worlds) <= worlds && told == old(told) + [Looked(i, Look(failed, seen))]
      ensures seen.digest != 0
      ensures forall j :: 0 <= j < |passed| && j != i ==> passed[j] == old(passed)[j]
      ensures !failed && seen.applicable && (Marked(steps[i].status) ==> seen.digest == steps[i].evidence.inspection.digest) ==>
                PassedNow(plan, Now(), i, seen)
    {
      failed := *;
      var applicable, alreadyApplied := *, *;
      seen := Inspection(content[i], applicable, alreadyApplied);
      told := told + [Looked(i, Look(failed, seen))];
      if !failed && applicable && (Marked(steps[i].status) ==> seen.digest == steps[i].evidence.inspection.digest) {
        passed := passed[i := Some(Pass(call, seen))];
        Note(PassedPreflight(i, seen));
      }
    }

    /** The target writes only onto the inspected content, and "rejected" means it wrote nothing. */
    method Write(i: nat, inspected: Inspection) returns (outcome: WriteOutcome)
      requires Valid() && busy && recorded && i < |steps| && steps[i].status.Writing? && writing == Some(i)
      requires PassedNow(plan, Now(), i, inspected) && steps[i].evidence.inspection == inspected
      modifies this`content, this`base, this`passed, this`told, this`worlds, this`changes
      ensures Valid() && old(worlds) <= worlds && told == old(told) + [Wrote(i, outcome)]
      ensures outcome.Rejected? ==> passed == old(passed)
      ensures forall j :: 0 <= j < |passed| && j != i ==> passed[j] == old(passed)[j]
    {
      outcome := Rejected;
      var attempt: bool, result: nat := *, *;
      if attempt && content[i] == inspected.digest && result != 0 {
        content, base, passed :=
          content[i := result], base[i := if result == content[i] then None else Some(content[i])], passed[i := None];
        Note(TargetWritten(i, result));
        var proven: bool := *;
        outcome := if proven then Written(result) else WriteFailed;
      } else {
        var answer: nat := *;
        outcome := if answer == 0 then Rejected else if answer == 1 then WriteFailed else Written(0);
      }
      told := told + [Wrote(i, outcome)];
    }

    /** Plans every repository in one transaction unless that was done before. */
    method EnsureRecorded() returns (ok: bool)
      requires Valid() && busy
      modifies this`recorded, this`steps, this`faults, this`worlds, this`changes
      ensures Valid() && old(worlds) <= worlds && old(faults) <= faults
      ensures ok ==> recorded && faults == old(faults) && steps == if old(recorded) then old(steps) else seq(|plan.changed|, _ => PLANNED)
      ensures !ok ==> recorded == old(recorded) && steps == old(steps) && faults > old(faults)
    {
      ok := true;
      if !recorded {
        ok := *;
        if ok {
          recorded, steps := true, seq(|plan.changed|, _ => PLANNED);
          Note(Opened);
        } else {
          faults := faults + 1;
        }
      }
    }

    /** What an inspection of a changed, remaining repository leads to. */
    method Judge(i: nat, failed: bool, seen: Inspection) returns (ok: bool, blocks: bool)
      requires Valid() && busy && recorded && i < |steps| && plan.changed[i] && !steps[i].status.Applied? && seen.digest != 0
      requires !failed && seen.applicable && (Marked(steps[i].status) ==> seen.digest == steps[i].evidence.inspection.digest) ==>
                 PassedNow(plan, Now(), i, seen)
      modifies this`steps, this`writing, this`faults, this`worlds, this`changes
      ensures Valid() && old(worlds) <= worlds && old(faults) <= faults
      ensures forall j :: 0 <= j < |steps| && j != i ==> steps[j] == old(steps)[j]
      ensures !ok ==> faults > old(faults)
      ensures ok ==> faults == old(faults) && Concluded(true, old(steps)[i], Some(Look(failed, seen)), steps[i])
      ensures ok ==> (blocks <==> Hinders(old(steps)[i], Look(failed, seen)))
      ensures ok && !blocks ==> Cleared(true, steps[i], passed[i], call, seen)
    {
      blocks := false;
      var prior, marked := steps[i].evidence.inspection, Marked(steps[i].status);
      if !failed && seen.alreadyApplied && marked {
        ok := Save(i, Applied, Evidence(false, prior, seen.digest));
      } else if failed || !seen.applicable {
        ok := Save(i, if marked then Uncertain else Conflict, Evidence(false, prior, 0));
        blocks := true;
      } else if marked && seen.digest != prior.digest {
        ok := Save(i, Uncertain, Evidence(false, prior, 0));
        blocks := true;
      } else {
        ok := Save(i, Preflight, Evidence(false, seen, 0));
      }
    }

    /** One round of the first loop. */
    method PreflightOne(i: nat) returns (ok: bool, blocks: bool, seen: Inspection, ghost look: Option<Look>)
      requires Valid() && busy && recorded && i < |steps|
      modifies this`steps, this`writing, this`content, this`base, this`passed, this`told, this`faults, this`worlds, this`changes
      ensures Valid() && old(worlds) <= worlds && old(faults) <= faults
      ensures forall j :: 0 <= j < |steps| && j != i ==> steps[j] == old(steps)[j] && passed[j] == old(passed)[j]
      ensures !ok ==> faults > old(faults)
      ensures ok ==> faults == old(faults) && Concluded(plan.changed[i], old(steps)[i], look, steps[i])
      ensures ok ==> (blocks <==> look.Some? && Hinders(old(steps)[i], look.value))
      ensures ok ==> told == old(told) + match look case None => [] case Some(l) => [Looked(i, l)]
      ensures ok && !blocks ==> Cleared(plan.changed[i], steps[i], passed[i], call, seen)
    {
      OutsideEdits();
      ok, blocks, seen, look := true, false, NO_INSPECTION, None;
      if steps[i].status.Applied? { return; }
      if !plan.changed[i] {
        ok := Save(i, Applied, Evidence(true, NO_INSPECTION, 0));
        return;
      }
      var failed;
      failed, seen := Inspect(i);
      look := Some(Look(failed, seen));
      OutsideEdits();
      ok, blocks := Judge(i, failed, seen);
    }

    /**
     Every remaining repository is inspected before any is written. Nothing may be written exactly when what
     the target answered about one of them hinders it; whatever it answered is concluded in the journal.
     */
    method PreflightAll() returns (ok: bool, blocked: bool, inspections: seq<Inspection>, ghost looks: seq<Option<Look>>)
      requires Valid() && busy && recorded
      modifies this`steps, this`writing, this`content, this`base, this`passed, this`told, this`faults, this`worlds, this`changes
      ensures Valid() && old(worlds) <= worlds && old(faults) <= faults && |inspections| == |plan.changed| == |looks|
      ensures !ok ==> faults > old(faults)
      ensures ok ==> faults == old(faults) && (blocked <==> LooksHinder(old(steps), looks)) && told == old(told) + LooksIn(looks)
      ensures ok ==> forall k :: 0 <= k < |steps| ==> Concluded(plan.changed[k], old(steps)[k], looks[k], steps[k])
      ensures ok ==> (forall k :: 0 <= k < |steps| ==> !steps[k].status.Writing?) && (blocked ==> Stopped(steps))
      ensures ok && !blocked ==> forall k :: 0 <= k < |steps| ==> Cleared(plan.changed[k], steps[k], passed[k], call, inspections[k])
    {
      hide Concluded, Hinders, LooksIn, Cleared, ApplyJournal.History;
      StepsMatch();
      NoAnswers();
      inspections, looks := seq(|plan.changed|, _ => NO_INSPECTION), seq(|plan.changed|, _ => None);
      blocked := false;
      for i := 0 to |plan.changed|
        invariant Valid() && old(worlds) <= worlds && faults == old(faults) && |inspections| == |plan.changed| == |looks|
        invariant forall k :: i <= k < |steps| ==> steps[k] == old(steps)[k] && looks[k].None?
        invariant told == old(told) + LooksIn(looks[..i])
        invariant forall k :: 0 <= k < i ==> Concluded(plan.changed[k], old(steps)[k], looks[k], steps[k])
        invariant blocked <==> exists k :: 0 <= k < i && looks[k].Some? && Hinders(old(steps)[k], looks[k].value)
        invariant !blocked ==> forall k :: 0 <= k < i ==> Cleared(plan.changed[k], steps[k], passed[k], call, inspections[k])
      {
        var blocks, seen;
        ghost var look;
        ok, blocks, seen, look := PreflightOne(i);
        if !ok { return; }
        LookAdded(looks, i, look);
        looks := looks[i := look];
        if blocks {
          blocked := true;
        } else {
          inspections := inspections[i := seen];
        }
      }
      assert looks[..|looks|] == looks;
      PreflightMeans(plan, old(steps), looks, steps);
      ok := true;
    }

    /** The journal entry that follows an attempted write. */
    method Settle(i: nat, inspected: Inspection, outcome: WriteOutcome) returns (ok: bool, stopped: bool)
      requires Valid() && busy && recorded && i < |steps| && plan.changed[i] && steps[i].status.Writing? && steps[i].evidence.inspection == inspected
      requires outcome.Rejected? ==> PassedNow(plan, Now(), i, inspected)
      modifies this`steps, this`writing, this`faults, this`worlds, this`changes
      ensures Valid() && old(worlds) <= worlds && old(faults) <= faults
      ensures forall j :: 0 <= j < |steps| && j != i ==> steps[j] == old(steps)[j]
      ensures !ok ==> faults > old(faults)
      ensures ok ==> faults == old(faults) && (stopped <==> !Proven(outcome))
      ensures ok ==> if outcome.Rejected? then steps[i].status.Conflict?
                     else if Proven(outcome) then steps[i].status.Applied? && steps[i].evidence.postState == outcome.postState
                     else steps[i].status.Uncertain?
    {
      stopped := true;
      match outcome {
        case Rejected =>
          ok := Save(i, Conflict, Evidence(false, inspected, 0));
        case WriteFailed =>
          ok := Save(i, Uncertain, Evidence(false, inspected, 0));
        case Written(postState) =>
          if postState == 0 {
            ok := Save(i, Uncertain, Evidence(false, inspected, 0));
          } else {
            ok := Save(i, Applied, Evidence(false, inspected, postState));
            stopped := false;
          }
      }
    }

    /** The marker of the next write; nothing else changes. */
    method MarkWriting(i: nat, inspected: Inspection) returns (ok: bool)
      requires Valid() && busy && recorded && i < |steps| && steps[i].status.Preflight? && plan.changed[i]
      requires steps[i].evidence.inspection == inspected && PassedNow(plan, Now(), i, inspected)
      requires forall j :: 0 <= j < |steps| && Remaining(plan, Now(), j) ==>
                 i <= j && steps[j].status.Preflight? && PassedNow(plan, Now(), j, steps[j].evidence.inspection)
      modifies this`steps, this`writing, this`faults, this`worlds, this`changes
      ensures Valid() && old(worlds) <= worlds && old(faults) <= faults
      ensures ok ==> steps == old(steps)[i := Step(old(steps)[i].sequence + 1, Writing, Evidence(false, inspected, 0))] && writing == Some(i)
      ensures ok ==> faults == old(faults)
      ensures !ok ==> steps == old(steps) && faults > old(faults)
    {
      ok := Save(i, Writing, Evidence(false, inspected, 0));
    }

    /** One round of the second loop: the marker is durable before the target is touched. */
    method WriteOne(i: nat, inspected: Inspection) returns (ok: bool, stopped: bool, ghost outcome: Option<WriteOutcome>)
      requires Valid() && busy && recorded && i < |steps| && steps[i].status.Preflight? && plan.changed[i]
      requires steps[i].evidence.inspection == inspected && PassedNow(plan, Now(), i, inspected)
      requires forall j :: 0 <= j < |steps| && Remaining(plan, Now(), j) ==>
                 i <= j && steps[j].status.Preflight? && PassedNow(plan, Now(), j, steps[j].evidence.inspection)
      modifies this`steps, this`writing, this`content, this`base, this`passed, this`told, this`faults, this`worlds, this`changes
      ensures Valid() && old(worlds) <= worlds && old(faults) <= faults
      ensures forall j :: 0 <= j < |steps| && j != i ==> steps[j] == old(steps)[j] && passed[j] == old(passed)[j]
      ensures !ok ==> faults > old(faults)
      ensures ok ==> faults == old(faults) && outcome.Some? && Settled(old(steps)[i], outcome, steps[i])
      ensures ok ==> (stopped <==> !Proven(outcome.value)) && told == old(told) + [Wrote(i, outcome.value)]
    {
      hide ApplyJournal.History, ApplyJournal.MayFollow;
      stopped, outcome := true, None;
      ok := MarkWriting(i, inspected);
      if !ok { return; }
      OutsideEdits();
      var answer := Write(i, inspected);
      OutsideEdits();
      ok, stopped := Settle(i, inspected, answer);
      outcome := Some(answer);
    }

    /** One round of the second loop. */
    method WriteRound(i: nat, inspected: Inspection) returns (ok: bool, stopped: bool, ghost outcome: Option<WriteOutcome>)
      requires Valid() && busy && recorded && i < |steps|
      requires Cleared(plan.changed[i], steps[i], passed[i], call, inspected)
      requires forall k :: 0 <= k < i ==> steps[k].status.Applied?
      requires forall k :: i <= k < |steps| ==> Cleared(plan.changed[k], steps[k], passed[k], call, steps[k].evidence.inspection)
      modifies this`steps, this`writing, this`content, this`base, this`passed, this`told, this`faults, this`worlds, this`changes
      ensures Valid() && old(worlds) <= worlds && old(faults) <= faults
      ensures forall j :: 0 <= j < |steps| && j != i ==> steps[j] == old(steps)[j] && passed[j] == old(passed)[j]
      ensures !ok ==> faults > old(faults)
      ensures ok ==> faults == old(faults) && Settled(old(steps)[i], outcome, steps[i])
      ensures ok ==> (stopped <==> outcome.Some? && !Proven(outcome.value)) && (!stopped ==> steps[i].status.Applied?)
      ensures ok ==> told == old(told) + match outcome case None => [] case Some(o) => [Wrote(i, o)]
    {
      OutsideEdits();
      ok, stopped, outcome := true, false, None;
      if steps[i].status.Applied? { return; }
      var cancelled: bool := *;
      if cancelled {
        faults := faults + 1;
        return false, stopped, None;
      }
      ok, stopped, outcome := WriteOne(i, inspected);
    }

    /** Writes in order and stops at the first answer that does not prove the write; with none, everything is applied. */
    method WriteAll(inspections: seq<Inspection>) returns (ok: bool, ghost outcomes: seq<Option<WriteOutcome>>, ghost end: nat)
      requires Valid() && busy && recorded && |inspections| == |plan.changed|
      requires forall k :: 0 <= k < |steps| ==> Cleared(plan.changed[k], steps[k], passed[k], call, inspections[k])
      modifies this`steps, this`writing, this`content, this`base, this`passed, this`told, this`faults, this`worlds, this`changes
      ensures Valid() && old(worlds) <= worlds && old(faults) <= faults
      ensures !ok ==> faults > old(faults)
      ensures ok ==> faults == old(faults) && StoppedAt(old(steps), outcomes, steps, end) && told == old(told) + WritesIn(outcomes)
      ensures ok ==> forall k :: 0 <= k < |steps| ==> !steps[k].status.Writing?
      ensures ok ==> Stopped(steps) || forall k :: 0 <= k < |steps| ==> steps[k].status.Applied?
    {
      hide Settled, Cleared, WritesIn, ApplyJournal.History;
      StepsMatch();
      NoAnswers();
      outcomes, end := seq(|plan.changed|, _ => None), 0;
      NothingSettled(steps);
      forall k | 0 <= k < |steps| { ClearedMeans(plan.changed[k], steps[k], passed[k], call, inspections[k]); }
      for i := 0 to |plan.changed|
        invariant Valid() && old(worlds) <= worlds && faults == old(faults) && |outcomes| == |plan.changed|
        invariant told == old(told) + WritesIn(outcomes[..i])
        invariant forall k :: 0 <= k < i ==> steps[k].status.Applied? && Settled(old(steps)[k], outcomes[k], steps[k])
        invariant forall k :: i <= k < |steps| ==> steps[k] == old(steps)[k] && outcomes[k].None?
        invariant forall k :: i <= k < |steps| ==> Cleared(plan.changed[k], steps[k], passed[k], call, inspections[k])
      {
        end := i;
        forall k | i <= k < |steps| { ClearedOwn(plan.changed[k], steps[k], passed[k], call, inspections[k]); }
        var stopped;
        ghost var outcome;
        ok, stopped, outcome := WriteRound(i, inspections[i]);
        if !ok { return; }
        WriteAdded(outcomes, i, outcome);
        outcomes := outcomes[i := outcome];
        if stopped {
          NoWritesIn(outcomes, i + 1);
          WritesMean(old(steps), outcomes, steps, i);
          return;
        }
      }
      assert outcomes[..|outcomes|] == outcomes;
      ok, end := true, |plan.changed|;
      WritesMean(old(steps), outcomes, steps, end);
    }

    /** What a call does between its first checks and the Task. */
    method RunCall() returns (r: Result<ViewStatus, ApplyError>, ghost course: Course)
      requires Valid() && busy
      modifies this`recorded, this`steps, this`writing, this`content, this`base, this`passed, this`told, this`faults, this`worlds, this`changes
      ensures Valid() && old(worlds) <= worlds && old(faults) <= faults
      ensures r.Err? ==> r.error.Interrupted? && faults > old(faults)
      ensures r.Ok? ==> faults == old(faults) && recorded && Explains(plan, course, steps) && r.value == Projection(steps)
      ensures r.Ok? ==> told == old(told) + LooksIn(course.looks) + WritesIn(course.outcomes)
      ensures r.Ok? ==> course.before == if old(recorded) then old(steps) else seq(|plan.changed|, _ => PLANNED)
    {
      hide Concluded, Hinders, Projection, StoppedAt;
      course := Course([], [], [], [], 0);
      var ok := EnsureRecorded();
      if !ok { return Err(Interrupted), course; }
      course := course.(before := steps);
      var blocked, inspections;
      ghost var looks, outcomes, end;
      ok, blocked, inspections, looks := PreflightAll();
      if !ok { return Err(Interrupted), course; }
      outcomes, end := seq(|plan.changed|, _ => None), 0;
      ghost var middle := steps;
      NoWritesIn(outcomes, 0);
      if !blocked {
        ok, outcomes, end := WriteAll(inspections);
        if !ok { return Err(Interrupted), course; }
      }
      course := Course(course.before, looks, middle, outcomes, end);
      StepsMatch();
      var status := ProjectStatus(steps);
      r := Ok(status);
    }

    lemma StepsMatch()
      requires Valid() && recorded
      ensures |steps| == |plan.changed|
    {
    }

    ghost method Begin()
      requires Valid() && !busy && closure.None?
      modifies this`call, this`busy, this`writing, this`worlds, this`changes
      ensures Valid() && busy && old(worlds) <= worlds
    {
      call, busy, writing := call + 1, true, None;
      Note(CallBegan);
    }

    ghost method End()
      requires Valid() && busy
      modifies this`busy, this`worlds, this`changes
      ensures Valid() && !busy && old(worlds) <= worlds
    {
      busy := false;
      Note(CallEnded);
    }

    /** Closes the Task of a result that is applied everywhere, unless the store fails. */
    method CloseTask() returns (r: Result<ViewStatus, ApplyError>)
      requires Valid() && recorded && Projection(steps).ViewApplied? && !taskClosed
      modifies this`taskClosed
      ensures Valid() && r == if taskClosed then Ok(ViewApplied) else Err(TaskCloseFailed)
      ensures AllApplied()
    {
      CountAppliedBounds(steps, false);
      taskClosed := *;
      r := if taskClosed then Ok(ViewApplied) else Err(TaskCloseFailed);
    }

    predicate AllApplied()
      reads this
    {
      recorded && Projection(steps).ViewApplied? && forall k :: 0 <= k < |steps| ==> steps[k].status.Applied?
    }

    /**
     `versionMatches`, `accepted` and `bound` stand for the checks against the Run and its accepted review.
     The call waits for the lock of the Run. A Task closes only when everything is applied, which may fail.
     */
    method ApplyResourceResult(versionMatches: bool, accepted: bool,
            bound: bool) returns (r: Result<ViewStatus, ApplyError>, ghost course: Option<Course>)
      requires Valid() && !busy
      modifies this
      ensures Valid() && !busy && old(worlds) <= worlds && closure == old(closure)
      ensures old(closure).Some? ==> r == Err(ResultClosed)
      ensures old(closure).Some? || !versionMatches || !accepted || !bound ==> r.Err? && Now() == old(Now()) && taskClosed == old(taskClosed)
      ensures r.Err? ==> r.error.Interrupted? ==> faults > old(faults)
      ensures old(closure).None? ==>
                (r == Err(VersionConflict) <==> !versionMatches) && (r == Err(InvalidCommand) <==> versionMatches && !accepted) &&
                (r == Err(EvidenceUnavailable) <==> versionMatches && accepted && !bound)
      ensures r.Ok? ==> Stopped(steps) || forall k :: 0 <= k < |steps| ==> steps[k].status.Applied?
      ensures r.Ok? ==> recorded && r.value == Projection(steps) && forall k :: 0 <= k < |steps| ==> !steps[k].status.Writing?
      ensures old(closure).None? && versionMatches && accepted && bound ==> course.Some? || faults > old(faults)
      ensures r.Ok? || r == Err(TaskCloseFailed) ==> course.Some?
      ensures course.Some? ==>
                faults == old(faults) && Explains(plan, course.value, steps) &&
                told == old(told) + LooksIn(course.value.looks) + WritesIn(course.value.outcomes) &&
                course.value.before == (if old(recorded) then old(steps) else seq(|plan.changed|, _ => PLANNED)) &&
                (AllApplied() <==> |steps| > 0 && forall k :: 0 <= k < |steps| ==> !Caused(course.value, k))
      ensures r.Ok? && r.value.ViewApplied? ==> taskClosed
      ensures r == Err(TaskCloseFailed) ==> AllApplied() && !taskClosed
      ensures old(taskClosed) ==> taskClosed
      ensures taskClosed && !old(taskClosed) ==> AllApplied() && r == Ok(ViewApplied)
    {
      hide ApplyJournal.History, ApplyJournal.Shaped, Projection, Explains, Caused;
      course := None;
      if closure.Some? { return Err(ResultClosed), None; }
      if !versionMatches { return Err(VersionConflict), None; }
      if !accepted { return Err(InvalidCommand), None; }
      if !bound { return Err(EvidenceUnavailable), None; }
      Begin();
      ghost var c;
      r, c := RunCall();
      if r.Ok? {
        course := Some(c);
        CourseEnds(c);
      }
      if r == Ok(ViewApplied) && !taskClosed { r := CloseTask(); }
      End();
    }

    lemma CourseEnds(c: Course)
      requires Valid() && recorded && Explains(plan, c, steps)
      ensures |c.before| == |c.looks| == |c.outcomes| == |steps|
      ensures AllApplied() <==> |steps| > 0 && forall k :: 0 <= k < |steps| ==> !Caused(c, k)
      ensures Stopped(steps) || forall k :: 0 <= k < |steps| ==> steps[k].status.Applied?
      ensures forall k :: 0 <= k < |steps| ==> !steps[k].status.Writing?
      ensures AllApplied() <==> Projection(steps).ViewApplied?
    {
      hide ApplyJournal.History, Concluded, Settled;
      CourseDecides(plan, c, steps);
      CountAppliedBounds(steps, false);
    }

    /** `versionMatches` and `bound` as above; `blockedElsewhere` is work outside this journal that is active or uncertain. */
    method CloseResult(versionMatches: bool, bound: bool,
            blockedElsewhere: bool) returns (r: Result<set<nat>, CloseError>)
      requires Valid() && !busy
      modifies this`closure, this`worlds, this`changes
      ensures Valid() && old(worlds) <= worlds && old(faults) <= faults
      ensures r.Ok? ==> closure == Some(r.value) && (old(closure).None? ==> r.value == ClosedIds(plan, old(Now())))
      ensures r.Err? ==> closure == old(closure)
      ensures recorded && (exists i :: 0 <= i < |steps| && Marked(steps[i].status)) ==> r == Err(CloseBlocked)
      ensures old(closure).None? && r.Ok? ==> recorded ==> forall i :: 0 <= i < |steps| ==> !Marked(steps[i].status)
      ensures var marked := recorded && exists i :: 0 <= i < |steps| && Marked(steps[i].status);
              var blocked := marked || (old(closure).None? && blockedElsewhere);
              (r == Err(CloseBlocked) <==> blocked) && (r == Err(CloseVersionConflict) <==> !blocked && !versionMatches) &&
              (r == Err(CloseEvidenceUnavailable) <==> !blocked && versionMatches && !bound) &&
              (r == Err(NothingEligible) <==> !blocked && versionMatches && bound && old(closure).None? && ClosedIds(plan, old(Now())) == {})
    {
      if closure.None? && blockedElsewhere { return Err(CloseBlocked); }
      var entries := seq(|plan.changed|, _ => Eligible);
      for i := 0 to |plan.changed|
        invariant |entries| == |plan.changed|
        invariant forall k :: 0 <= k < |entries| ==> entries[k] == if k < i && plan.committed[k] then Retained else Eligible
      {
        if plan.committed[i] { entries := entries[i := Retained]; }
      }
      for i := 0 to |steps|
        invariant |entries| == |plan.changed|
        invariant forall k :: 0 <= k < i ==> !Marked(steps[k].status)
        invariant forall k :: 0 <= k < |entries| ==>
                    entries[k] == if plan.committed[k] || (k < i && steps[k].status.Applied?) then Retained else Eligible
      {
        if Marked(steps[i].status) { return Err(CloseBlocked); }
        if steps[i].status.Applied? { entries := entries[i := Retained]; }
      }
      if !versionMatches { return Err(CloseVersionConflict); }
      if !bound { return Err(CloseEvidenceUnavailable); }
      if closure.Some? { return Ok(closure.value); }
      var ids: set<nat> := set k: nat | k < |entries| && entries[k].Eligible?;
      assert ids == ClosedIds(plan, Now());
      if ids == {} { return Err(NothingEligible); }
      closure := Some(ids);
      Note(Closed);
      return Ok(ids);
    }
  }
}
