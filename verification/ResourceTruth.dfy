/** What a derived check result means, and whom the agent's words can influence. */
module ResourceTruth {
  import opened Common
  import opened PatchModel
  import opened ResourceAuthority
  import opened ResourceSelection
  import opened ResourceChecks

  // ---- Correlation ---------------------------------------------------------------------------

  /** `end` closes the call that `start` opened for check `a`, and no other event carries that identity. */
  predicate Correlated(events: seq<Event>, a: Authority, call: string, start: nat, end: nat, selected: seq<Authority>,
          lib: Library) {
    start < end < |events| && CommandStart(events[start], lib) && CallStart(events[start], call, lib) && CallEnd(events[end], call, lib) &&
    Starts(events, call, lib) == 1 && Ends(events, call, lib) == 1 && Matching(events[start].tool.value, selected, lib) == [a]
  }

  lemma {:induction false} EndCounted(events: seq<Event>, e: nat, call: string, lib: Library)
    requires e < |events| && CallEnd(events[e], call, lib)
    ensures Ends(events, call, lib) >= 1
    ensures forall t :: e < t < |events| && CallEnd(events[t], call, lib) ==> Ends(events, call, lib) >= 2
  {
    var n := |events| - 1;
    if e < n {
      EndCounted(events[..n], e, call, lib);
      assert forall t :: e < t < n ==> events[..n][t] == events[t];
    }
  }

  lemma {:induction false} ActiveUntilEnd(events: seq<Event>, start: nat, k: nat, call: string, lib: Library)
    requires start < k <= |events| && CommandStart(events[start], lib) && events[start].tool.value.call == call && !Ambiguous(events, call, lib)
    requires forall t :: start < t < k ==> !CallStart(events[t], call, lib) && !CallEnd(events[t], call, lib)
    ensures ActiveAt(events, k, call, lib) == Some(start)
  {
    if k > start + 1 { ActiveUntilEnd(events, start, k - 1, call, lib); }
  }

  /** An end counts for a check exactly when it is correlated with a start of that check. */
  lemma EndsCorrelate(events: seq<Event>, e: nat, a: Authority, start: nat, selected: seq<Authority>, lib: Library)
    requires e < |events| && events[e].ToolEnd? && events[e].tool.Some?
    ensures var tool := events[e].tool.value;
            Correlated(events, a, tool.call, start, e, selected, lib) <==>
              Touch(events, e, selected, lib).Some? && Touch(events, e, selected, lib).value.authority == a &&
              Touch(events, e, selected, lib).value.observation.Ended? && Touch(events, e, selected, lib).value.observation.start == start
    ensures Touch(events, e, selected, lib).Some? ==>
              var o, tool := Touch(events, e, selected, lib).value.observation, events[e].tool.value;
              o.Ended? && o.call == tool.call && o.end == e && o.exitCode == tool.exitCode && o.toolError == tool.toolError
  {
    hide Matching;
    var call := events[e].tool.value.call;
    if Touch(events, e, selected, lib).Some? {
      var s := ActiveAt(events, e, call, lib).value;
      StartCounted(events, s, call, lib);
      EndCounted(events, e, call, lib);
      var matches := Matching(events[s].tool.value, selected, lib);
      assert matches == [matches[0]];
    }
    if Correlated(events, a, call, start, e, selected, lib) {
      forall t | start < t < e
        ensures !CallStart(events[t], call, lib) && !CallEnd(events[t], call, lib)
      {
        StartCounted(events, start, call, lib);
        if CallEnd(events[t], call, lib) { EndCounted(events, t, call, lib); }
      }
      ActiveUntilEnd(events, start, e, call, lib);
    }
  }

  lemma {:induction false} LatestIsTouch(events: seq<Event>, k: nat, a: Authority, selected: seq<Authority>,
          lib: Library)
    requires k <= |events| && Latest(events, k, a, selected, lib).Ended?
    ensures var o := Latest(events, k, a, selected, lib);
            o.end < k && events[o.end].ToolEnd? && events[o.end].tool.Some? && Touch(events, o.end, selected, lib) == Some(Invocation(a, o))
  {
    hide Matched, ActiveAt, Ambiguous;
    match Touch(events, k - 1, selected, lib)
    case Some(Invocation(b, o)) =>
      if a == b { TouchEnds(events, k - 1, selected, lib); } else { LatestIsTouch(events, k - 1, a, selected, lib); }
    case None => LatestIsTouch(events, k - 1, a, selected, lib);
  }

  lemma TouchEnds(events: seq<Event>, e: nat, selected: seq<Authority>, lib: Library)
    requires e < |events| && Touch(events, e, selected, lib).Some? && Touch(events, e, selected, lib).value.observation.Ended?
    ensures Touch(events, e, selected, lib).value.observation.end == e && events[e].ToolEnd? && events[e].tool.Some?
  {
  }

  lemma {:induction false} ChecksAt(order: seq<Authority>, selected: seq<Authority>, events: seq<Event>,
          table: Fingerprints, lib: Library, k: nat)
    requires k < |order|
    ensures |Checks(order, selected, events, table, lib)| == |order|
    ensures Checks(order, selected, events, table, lib)[k] ==
            Finalized(order[k], Latest(events, |events|, order[k], selected, lib), events, table, lib)
  {
    hide Finalized, Latest;
    ChecksLength(order, selected, events, table, lib);
    var n := |order| - 1;
    if k < n {
      ChecksLength(order[..n], selected, events, table, lib);
      ChecksAt(order[..n], selected, events, table, lib, k);
    }
  }

  lemma {:induction false} ChecksLength(order: seq<Authority>, selected: seq<Authority>, events: seq<Event>,
          table: Fingerprints, lib: Library)
    ensures |Checks(order, selected, events, table, lib)| == |order|
  {
    if order != [] { ChecksLength(order[..|order| - 1], selected, events, table, lib); }
  }

  // ---- Passing -------------------------------------------------------------------------------

  /** The provider reports no error, and either an exit code of zero or, without one, success. */
  predicate CallSucceeded(tool: Tool) {
    tool.toolError != Some(true) && (tool.exitCode == Some(0) || (tool.exitCode.None? && tool.toolError == Some(false)))
  }

  /** The provider reports an error or any other exit code. */
  predicate CallFailed(tool: Tool) { tool.toolError == Some(true) || (tool.exitCode.Some? && tool.exitCode.value != 0) }

  /** The contents right after the event were observed and are the contents at the end. */
  predicate ContentFinal(table: Fingerprints, repo: string, end: nat, events: nat) {
    (repo, end + 1) in table && (repo, events) in table && table[(repo, end + 1)] == table[(repo, events)] != ""
  }

  predicate ProvenPass(view: View, events: seq<Event>, table: Fingerprints, selected: seq<Authority>, lib: Library) {
    view.observation.Ended? &&
    var o := view.observation;
    Correlated(events, view.authority, o.call, o.start, o.end, selected, lib) && CallSucceeded(events[o.end].tool.value) &&
    events[o.end].tool.value.exitCode == o.exitCode && events[o.end].tool.value.toolError == o.toolError &&
    ContentFinal(table, view.authority.repo, o.end, |events|)
  }

  lemma PassedCheckProven(a: Authority, selected: seq<Authority>, events: seq<Event>, table: Fingerprints, lib: Library)
    requires Finalized(a, Latest(events, |events|, a, selected, lib), events, table, lib).status.Pass?
    ensures ProvenPass(Finalized(a, Latest(events, |events|, a, selected, lib), events, table, lib), events, table, selected, lib)
  {
    hide Touch, Correlated, MayHaveChanged;
    var o := Latest(events, |events|, a, selected, lib);
    LatestIsTouch(events, |events|, a, selected, lib);
    EndsCorrelate(events, o.end, a, o.start, selected, lib);
  }

  /**
   PASS is sound over the whole stream: some check counts, and every one of them was started and then
   ended under an identity used for nothing else, succeeded, and left contents that are still final.
   */
  lemma PassIsProven(i: nat, resources: seq<Resource>, frozen: seq<seq<Authority>>, events: seq<Event>,
          table: Fingerprints, lib: Library)
    requires |frozen| == |resources| && i < |resources|
    requires DerivationFor(i, resources, frozen, events, table, lib).status.Pass?
    ensures var d, s := DerivationFor(i, resources, frozen, events, table, lib), Selected(resources, frozen, events, lib);
            d.checks != [] && d.invalid.None? && |d.checks| == |OrderFor(i, resources, frozen, s)| &&
            forall k :: 0 <= k < |d.checks| ==>
              d.checks[k].authority == OrderFor(i, resources, frozen, s)[k] &&
              ProvenPass(d.checks[k], events, table, SelectedChecks(resources, frozen, s), lib)
  {
    hide ProvenPass, Selected, SelectedChecks, OrderFor, Latest;
    var s := Selected(resources, frozen, events, lib);
    var order, selected := OrderFor(i, resources, frozen, s), SelectedChecks(resources, frozen, s);
    var checks := Checks(order, selected, events, table, lib);
    ChecksLength(order, selected, events, table, lib);
    forall k | 0 <= k < |checks|
      ensures checks[k].authority == order[k] && ProvenPass(checks[k], events, table, selected, lib)
    {
      ChecksAt(order, selected, events, table, lib, k);
      assert checks[k].status.Pass?;
      PassedCheckProven(order[k], selected, events, table, lib);
    }
  }

  // ---- Exactly when a repository passes or fails ---------------------------------------------

  /** Event `e` ends a call that stands for check `a` alone. */
  ghost predicate EndsCheck(events: seq<Event>, e: nat, a: Authority, selected: seq<Authority>, lib: Library) {
    e < |events| && events[e].ToolEnd? && events[e].tool.Some? &&
    exists start: nat :: Correlated(events, a, events[e].tool.value.call, start, e, selected, lib)
  }

  /** Event `e` starts a command that stands for check `a` alone. */
  predicate StartsCheck(events: seq<Event>, e: nat, a: Authority, selected: seq<Authority>, lib: Library) {
    e < |events| && CommandStart(events[e], lib) && Matching(events[e].tool.value, selected, lib) == [a]
  }

  /** It is the last thing the first k events show about the check: the check is neither started nor ended again. */
  ghost predicate LastEndWithin(events: seq<Event>, e: nat, k: nat, a: Authority, selected: seq<Authority>, lib: Library) {
    e < k <= |events| && EndsCheck(events, e, a, selected, lib) &&
    forall t :: e < t < k ==> !StartsCheck(events, t, a, selected, lib) && !EndsCheck(events, t, a, selected, lib)
  }

  ghost predicate LastEnd(events: seq<Event>, e: nat, a: Authority, selected: seq<Authority>, lib: Library) {
    LastEndWithin(events, e, |events|, a, selected, lib)
  }

  lemma TouchMeans(events: seq<Event>, e: nat, a: Authority, selected: seq<Authority>, lib: Library)
    requires e < |events|
    ensures Touch(events, e, selected, lib).Some? && Touch(events, e, selected, lib).value.authority == a <==>
              StartsCheck(events, e, a, selected, lib) || EndsCheck(events, e, a, selected, lib)
    ensures Touch(events, e, selected, lib).Some? ==>
              (Touch(events, e, selected, lib).value.observation.Ended? <==> !CommandStart(events[e], lib))
  {
    if CommandStart(events[e], lib) {
      var matches := Matching(events[e].tool.value, selected, lib);
      assert |matches| == 1 ==> matches == [matches[0]];
    } else if events[e].ToolEnd? && events[e].tool.Some? {
      hide Touch, Correlated;
      if Touch(events, e, selected, lib).Some? {
        EndsCorrelate(events, e, a, Touch(events, e, selected, lib).value.observation.start, selected, lib);
      }
      if EndsCheck(events, e, a, selected, lib) {
        var start: nat :| Correlated(events, a, events[e].tool.value.call, start, e, selected, lib);
        EndsCorrelate(events, e, a, start, selected, lib);
      }
    }
  }

  /** The latest observation of a check is an end exactly when the last thing shown about it is that end. */
  lemma {:induction false} LatestMeans(events: seq<Event>, k: nat, a: Authority, selected: seq<Authority>, lib: Library)
    requires k <= |events|
    ensures var o := Latest(events, k, a, selected, lib); o.Ended? ==> LastEndWithin(events, o.end, k, a, selected, lib)
    ensures forall e: nat :: LastEndWithin(events, e, k, a, selected, lib) ==>
              Latest(events, k, a, selected, lib).Ended? && Latest(events, k, a, selected, lib).end == e
  {
    hide Touch, StartsCheck, EndsCheck;
    if k > 0 {
      TouchMeans(events, k - 1, a, selected, lib);
      EndsAtItself(events, k - 1, a, selected, lib);
      LatestMeans(events, k - 1, a, selected, lib);
      forall e: nat | LastEndWithin(events, e, k, a, selected, lib)
        ensures Latest(events, k, a, selected, lib).Ended? && Latest(events, k, a, selected, lib).end == e
      {
        if e < k - 1 { assert LastEndWithin(events, e, k - 1, a, selected, lib); }
      }
    }
  }

  lemma EndsAtItself(events: seq<Event>, e: nat, a: Authority, selected: seq<Authority>, lib: Library)
    requires e < |events|
    ensures Touch(events, e, selected, lib).Some? && Touch(events, e, selected, lib).value.observation.Ended? ==>
              Touch(events, e, selected, lib).value.observation.end == e
    ensures EndsCheck(events, e, a, selected, lib) ==> !CommandStart(events[e], lib)
    ensures StartsCheck(events, e, a, selected, lib) ==> CommandStart(events[e], lib)
  {
  }

  /** `name` is the first component of the directory. */
  predicate FirstComponent(directory: string, name: string) { '/' !in name && (directory == name || name + "/" <= directory) }

  lemma {:induction false} FirstOfSplit(directory: string, name: string)
    ensures FirstComponent(directory, name) <==> Split(directory, '/')[0] == name
  {
    var first := Split(directory, '/')[0];
    FirstIsComponent(directory);
    if FirstComponent(directory, name) {
      SplitPrepend(name, directory[if directory == name then |name| else |name| + 1..], '/');
      assert directory == name || directory == name + ['/'] + directory[|name| + 1..];
    }
  }

  lemma {:induction false} FirstIsComponent(directory: string)
    ensures FirstComponent(directory, Split(directory, '/')[0])
  {
    if directory != [] {
      FirstIsComponent(directory[1..]);
      var rest := Split(directory[1..], '/')[0];
      assert directory == [directory[0]] + directory[1..];
      if directory[0] != '/' {
        assert Split(directory, '/')[0] == [directory[0]] + rest;
        assert rest + "/" <= directory[1..] ==> [directory[0]] + rest + "/" <= directory;
      }
    }
  }

  /** The command is known to run inside another repository. */
  ghost predicate RunsElsewhere(repo: string, command: string, lib: Library) {
    exists o, name :: lib.normalize(command) == Some(o) && o.explicitDirectory && FirstComponent(o.directory, name) &&
      lib.validName(name) && !lib.validLocator(repo, name)
  }

  /** The written path is known to lie inside another repository. */
  ghost predicate WritesElsewhere(repo: string, path: string, lib: Library) {
    exists name :: lib.pathRepository(path) == Some(name) && !lib.validLocator(repo, name)
  }

  /** Only commands and writes touch repositories, and all of them may that are not known to be about another one. */
  lemma MayTouchMeans(repo: string, e: Event, lib: Library)
    ensures MayTouch(repo, e, lib) <==>
              e.ToolStart? && e.tool.Some? &&
              var tool := e.tool.value;
              if lib.commandTool(tool.name) then !RunsElsewhere(repo, tool.command, lib)
              else lib.writeTool(tool.name) && !WritesElsewhere(repo, tool.path, lib)
  {
    hide FirstComponent, Split, Join;
    if e.ToolStart? && e.tool.Some? && lib.commandTool(e.tool.value.name) {
      var n := lib.normalize(e.tool.value.command);
      if n.Some? {
        var first := Split(n.value.directory, '/')[0];
        FirstOfSplit(n.value.directory, first);
        forall name ensures FirstComponent(n.value.directory, name) <==> name == first { FirstOfSplit(n.value.directory, name); }
      }
    }
  }

  ghost predicate CheckFailed(a: Authority, events: seq<Event>, selected: seq<Authority>, lib: Library) {
    exists e: nat :: LastEnd(events, e, a, selected, lib) && CallFailed(events[e].tool.value)
  }

  ghost predicate CheckPassed(a: Authority, events: seq<Event>, table: Fingerprints, selected: seq<Authority>, lib: Library) {
    exists e: nat :: LastEnd(events, e, a, selected, lib) && CallSucceeded(events[e].tool.value) && ContentFinal(table, a.repo, e, |events|)
  }

  ghost predicate CheckVerified(a: Authority, events: seq<Event>, table: Fingerprints, selected: seq<Authority>, lib: Library) {
    exists e: nat :: LastEnd(events, e, a, selected, lib) && ContentFinal(table, a.repo, e, |events|)
  }

  /** The contents after the event are not known to be final, and something may have changed them or they are known to differ. */
  ghost predicate ContentDrifted(events: seq<Event>, table: Fingerprints, repo: string, end: nat, lib: Library) {
    !ContentFinal(table, repo, end, |events|) &&
    ((exists t :: end < t < |events| && MayTouch(repo, events[t], lib)) ||
     ((repo, end + 1) in table && (repo, |events|) in table && table[(repo, end + 1)] != "" && table[(repo, |events|)] != "" &&
      table[(repo, end + 1)] != table[(repo, |events|)]))
  }

  ghost predicate CheckStale(a: Authority, events: seq<Event>, table: Fingerprints, selected: seq<Authority>, lib: Library) {
    exists e: nat :: LastEnd(events, e, a, selected, lib) && ContentDrifted(events, table, a.repo, e, lib)
  }

  lemma CheckDecided(a: Authority, events: seq<Event>, table: Fingerprints, selected: seq<Authority>, lib: Library)
    ensures var view := Finalized(a, Latest(events, |events|, a, selected, lib), events, table, lib);
            (view.status.Fail? <==> CheckFailed(a, events, selected, lib)) &&
            (view.status.Pass? <==> CheckPassed(a, events, table, selected, lib)) &&
            (view.verified <==> CheckVerified(a, events, table, selected, lib)) &&
            (view.stale <==> CheckStale(a, events, table, selected, lib))
  {
    hide Touch, Correlated, MayTouch, StartsCheck, LastEndWithin;
    var o := Latest(events, |events|, a, selected, lib);
    var view := Finalized(a, o, events, table, lib);
    LatestMeans(events, |events|, a, selected, lib);
    if o.Ended? {
      LatestIsTouch(events, |events|, a, selected, lib);
      EndsCorrelate(events, o.end, a, o.start, selected, lib);
      var tool := events[o.end].tool.value;
      assert LastEnd(events, o.end, a, selected, lib);
      assert view.status.Fail? <==> CallFailed(tool);
      assert view.verified <==> ContentFinal(table, a.repo, o.end, |events|);
      assert view.status.Pass? <==> CallSucceeded(tool) && view.verified;
      assert view.stale <==> ContentDrifted(events, table, a.repo, o.end, lib);
      forall e: nat | LastEnd(events, e, a, selected, lib)
        ensures e == o.end
      {
      }
    } else {
      forall e: nat
        ensures !LastEnd(events, e, a, selected, lib)
      {
      }
    }
  }

  /**
   With a valid selection a repository fails exactly when the last correlated end of one of its checks
   reports an error or an exit code other than zero, and passes exactly when it has checks and the last such end of
   each reports success over contents that are still final. With an invalid one it is unknown, and the reason is given.
   */
  lemma StatusIsDecided(i: nat, resources: seq<Resource>, frozen: seq<seq<Authority>>, events: seq<Event>,
          table: Fingerprints, lib: Library)
    requires |frozen| == |resources| && i < |resources|
    ensures var d, s := DerivationFor(i, resources, frozen, events, table, lib), Selected(resources, frozen, events, lib);
            var order, selected := OrderFor(i, resources, frozen, s), SelectedChecks(resources, frozen, s);
            var repo := resources[i].repo;
            if repo in s.invalid then d.invalid == Some(s.invalid[repo]) && d.status.Unknown? && !d.verified && !d.noApplicable
            else
              d.invalid.None? && (d.noApplicable <==> repo in s.noApplicable) &&
              (d.status.Fail? <==> exists k :: 0 <= k < |order| && CheckFailed(order[k], events, selected, lib)) &&
              (d.status.Pass? <==> order != [] && forall k :: 0 <= k < |order| ==> CheckPassed(order[k], events, table, selected, lib)) &&
              (d.verified <==> order != [] && forall k :: 0 <= k < |order| ==> CheckVerified(order[k], events, table, selected, lib))
    ensures var d, s := DerivationFor(i, resources, frozen, events, table, lib), Selected(resources, frozen, events, lib);
            var order, selected := OrderFor(i, resources, frozen, s), SelectedChecks(resources, frozen, s);
            |d.checks| == |order| &&
            forall k :: 0 <= k < |order| ==> (d.checks[k].stale <==> CheckStale(order[k], events, table, selected, lib))
  {
    hide Selected, SelectedChecks, OrderFor, Latest, CheckFailed, CheckPassed, CheckVerified, CheckStale, Finalized;
    var s := Selected(resources, frozen, events, lib);
    var order, selected := OrderFor(i, resources, frozen, s), SelectedChecks(resources, frozen, s);
    var checks := Checks(order, selected, events, table, lib);
    ChecksLength(order, selected, events, table, lib);
    forall k | 0 <= k < |order|
      ensures checks[k].status.Fail? <==> CheckFailed(order[k], events, selected, lib)
      ensures checks[k].status.Pass? <==> CheckPassed(order[k], events, table, selected, lib)
      ensures checks[k].verified <==> CheckVerified(order[k], events, table, selected, lib)
      ensures checks[k].stale <==> CheckStale(order[k], events, table, selected, lib)
    {
      ChecksAt(order, selected, events, table, lib, k);
      CheckDecided(order[k], events, table, selected, lib);
    }
    StatusOfAll(checks);
  }

  lemma StatusOfAll(checks: seq<View>)
    ensures Aggregate(checks).Fail? <==> exists k :: 0 <= k < |checks| && checks[k].status.Fail?
    ensures Aggregate(checks).Pass? <==> checks != [] && forall k :: 0 <= k < |checks| ==> checks[k].status.Pass?
  {
    if Aggregate(checks).Pass? {
      forall k | 0 <= k < |checks|
        ensures checks[k].status.Pass?
      {
        assert !checks[k].status.Fail? && !checks[k].status.Unknown?;
      }
    }
  }

  /** The aggregate is the worst status of any check, whatever their order. */
  lemma AggregateIsWorst(checks: seq<View>, reordered: seq<View>)
    requires checks != []
    ensures forall i :: 0 <= i < |checks| ==> Rank(checks[i].status) <= Rank(Aggregate(checks))
    ensures exists i :: 0 <= i < |checks| && checks[i].status == Aggregate(checks)
    ensures multiset(checks) == multiset(reordered) ==> Aggregate(reordered) == Aggregate(checks)
  {
    if Aggregate(checks).Pass? { assert checks[0].status == Aggregate(checks); }
    if multiset(checks) == multiset(reordered) {
      assert forall i :: 0 <= i < |checks| ==> checks[i] in multiset(reordered);
      assert forall i :: 0 <= i < |reordered| ==> reordered[i] in multiset(checks);
      assert reordered != [] by { assert checks[0] in multiset(reordered); }
    }
  }

  // ---- Completed checks are invocations ------------------------------------------------------

  lemma {:induction false} EndedTouchListed(events: seq<Event>, k: nat, e: nat, selected: seq<Authority>, lib: Library)
    requires e < k <= |events| && Touch(events, e, selected, lib).Some? && Touch(events, e, selected, lib).value.observation.Ended?
    ensures Touch(events, e, selected, lib).value in EndedCalls(events, k, selected, lib)
  {
    hide Touch;
    if e < k - 1 { EndedTouchListed(events, k - 1, e, selected, lib); }
  }

  lemma {:induction false} ListedIsFinalized(list: seq<Invocation>, x: Invocation, events: seq<Event>,
          table: Fingerprints, lib: Library)
    requires x in list
    ensures Finalized(x.authority, x.observation, events, table, lib) in FinalizedAll(list, x.authority.repo, events, table, lib)
  {
    hide Finalized;
    var n := |list| - 1;
    if list[n] != x {
      assert x in list[..n];
      ListedIsFinalized(list[..n], x, events, table, lib);
    }
  }

  /** Whatever is selected for a repository is a check of that repository. */
  lemma OrderBelongs(i: nat, resources: seq<Resource>, frozen: seq<seq<Authority>>, events: seq<Event>, lib: Library)
    requires Settled(resources, frozen, lib) && i < |resources|
    ensures forall a :: a in OrderFor(i, resources, frozen, Selected(resources, frozen, events, lib)) ==> a.repo == resources[i].repo
  {
    hide Selected;
    SelectionConfined(resources, frozen, events, lib);
  }

  /** A completed check is one of the invocations shown, field for field. */
  lemma CompletedChecksAreInvocations(i: nat, resources: seq<Resource>, frozen: seq<seq<Authority>>,
          events: seq<Event>, table: Fingerprints, lib: Library, k: nat)
    requires Settled(resources, frozen, lib) && i < |resources|
    requires var d := DerivationFor(i, resources, frozen, events, table, lib); k < |d.checks| && d.checks[k].observation.Ended?
    ensures var d := DerivationFor(i, resources, frozen, events, table, lib); d.checks[k] in d.invocations
  {
    hide Selected, SelectedChecks, OrderFor, Touch;
    var s := Selected(resources, frozen, events, lib);
    var order, selected := OrderFor(i, resources, frozen, s), SelectedChecks(resources, frozen, s);
    ChecksLength(order, selected, events, table, lib);
    ChecksAt(order, selected, events, table, lib, k);
    OrderBelongs(i, resources, frozen, events, lib);
    assert order[k] in order;
    var o := Latest(events, |events|, order[k], selected, lib);
    LatestIsTouch(events, |events|, order[k], selected, lib);
    EndedTouchListed(events, |events|, o.end, selected, lib);
    ListedIsFinalized(EndedCalls(events, |events|, selected, lib), Invocation(order[k], o), events, table, lib);
  }

  // ---- The invocations shown -----------------------------------------------------------------

  /** The view shows the correlated call that event `e` ends, and judges it by what the event reports. */
  ghost predicate Shows(v: View, repo: string, events: seq<Event>, table: Fingerprints, selected: seq<Authority>, lib: Library) {
    v.authority.repo == repo && v.observation.Ended? &&
    var o := v.observation;
    Correlated(events, v.authority, o.call, o.start, o.end, selected, lib) && events[o.end].tool.Some? &&
    var tool := events[o.end].tool.value;
    o.exitCode == tool.exitCode && o.toolError == tool.toolError && (v.status.Fail? <==> CallFailed(tool)) &&
    (v.status.Pass? <==> CallSucceeded(tool) && ContentFinal(table, repo, o.end, |events|)) &&
    (v.verified <==> ContentFinal(table, repo, o.end, |events|)) && (v.stale <==> ContentDrifted(events, table, repo, o.end, lib))
  }

  /** In the order of their ends, each end once. */
  predicate Rising(views: seq<View>, before: nat) {
    (forall k :: 0 <= k < |views| ==> views[k].observation.Ended? && views[k].observation.end < before) &&
    forall j, k :: 0 <= j < k < |views| ==> views[j].observation.end < views[k].observation.end
  }

  lemma {:induction false} FinalizedAppend(list: seq<Invocation>, more: seq<Invocation>, repo: string, events: seq<Event>,
          table: Fingerprints, lib: Library)
    ensures FinalizedAll(list + more, repo, events, table, lib) ==
            FinalizedAll(list, repo, events, table, lib) + FinalizedAll(more, repo, events, table, lib)
  {
    hide Finalized;
    if more == [] {
      assert list + more == list;
    } else {
      var n := |more| - 1;
      assert (list + more)[..|list + more| - 1] == list + more[..n];
      FinalizedAppend(list, more[..n], repo, events, table, lib);
    }
  }

  lemma FinalizedOne(x: Invocation, repo: string, events: seq<Event>, table: Fingerprints, lib: Library)
    ensures FinalizedAll([x], repo, events, table, lib) ==
            if x.authority.repo == repo then [Finalized(x.authority, x.observation, events, table, lib)] else []
  {
    hide Finalized;
    assert [x][..0] == [];
  }

  lemma TouchShows(e: nat, repo: string, events: seq<Event>, table: Fingerprints, selected: seq<Authority>, lib: Library)
    requires e < |events| && Touch(events, e, selected, lib).Some?
    requires Touch(events, e, selected, lib).value.observation.Ended? && Touch(events, e, selected, lib).value.authority.repo == repo
    ensures var x := Touch(events, e, selected, lib).value; var v := Finalized(x.authority, x.observation, events, table, lib);
            Shows(v, repo, events, table, selected, lib) && v.observation.Ended? && v.observation.end == e && v.authority == x.authority
  {
    hide Touch, Correlated, MayTouch;
    var x := Touch(events, e, selected, lib).value;
    TouchEnds(events, e, selected, lib);
    EndsCorrelate(events, e, x.authority, x.observation.start, selected, lib);
  }

  /** Every correlated end among the first `k` events is shown. */
  ghost predicate AllShown(views: seq<View>, k: int, repo: string, events: seq<Event>, selected: seq<Authority>, lib: Library) {
    forall e: nat, a: Authority, call: string, start: nat :: e < k && a.repo == repo && Correlated(events, a, call, start, e, selected, lib) ==> Has(views, a, e)
  }

  predicate Has(views: seq<View>, a: Authority, e: nat) {
    exists k :: 0 <= k < |views| && views[k].authority == a && views[k].observation.Ended? && views[k].observation.end == e
  }

  ghost predicate AreShown(views: seq<View>, repo: string, events: seq<Event>, table: Fingerprints, selected: seq<Authority>, lib: Library) {
    forall k :: 0 <= k < |views| ==> Shows(views[k], repo, events, table, selected, lib)
  }

  lemma CorrelatedTouches(e: nat, a: Authority, call: string, start: nat, events: seq<Event>, selected: seq<Authority>, lib: Library)
    requires e < |events| && Correlated(events, a, call, start, e, selected, lib)
    ensures Touch(events, e, selected, lib).Some? && Touch(events, e, selected, lib).value.authority == a
    ensures Touch(events, e, selected, lib).value.observation.Ended?
  {
    hide Touch;
    EndsCorrelate(events, e, a, start, selected, lib);
  }

  lemma HasMore(views: seq<View>, more: seq<View>, a: Authority, e: nat)
    ensures Has(views, a, e) || Has(more, a, e) ==> Has(views + more, a, e)
  {
    var all := views + more;
    if k :| 0 <= k < |views| && views[k].authority == a && views[k].observation.Ended? && views[k].observation.end == e {
      assert all[k] == views[k];
    } else if k :| 0 <= k < |more| && more[k].authority == a && more[k].observation.Ended? && more[k].observation.end == e {
      assert all[|views| + k] == more[k];
    }
  }

  /** One more event: at most one more view, of that event. */
  lemma ShownStep(views: seq<View>, more: seq<View>, k: nat, repo: string, events: seq<Event>, table: Fingerprints,
          selected: seq<Authority>, lib: Library)
    requires Rising(views, k) && AreShown(views, repo, events, table, selected, lib) && AllShown(views, k, repo, events, selected, lib)
    requires |more| <= 1 && AreShown(more, repo, events, table, selected, lib) && (more != [] ==> more[0].observation.Ended? && more[0].observation.end == k)
    requires forall a: Authority, call: string, start: nat :: a.repo == repo && Correlated(events, a, call, start, k, selected, lib) ==> Has(more, a, k)
    ensures Rising(views + more, k + 1) && AreShown(views + more, repo, events, table, selected, lib) && AllShown(views + more, k + 1, repo, events, selected, lib)
  {
    hide Has, Shows, Correlated;
    var all := views + more;
    assert forall j :: 0 <= j < |all| ==> all[j] == if j < |views| then views[j] else more[j - |views|];
    forall e: nat, a: Authority, call: string, start: nat | e < k + 1 && a.repo == repo && Correlated(events, a, call, start, e, selected, lib)
      ensures Has(all, a, e)
    {
      HasMore(views, more, a, e);
    }
  }

  lemma {:induction false} ShownUpTo(k: nat, repo: string, events: seq<Event>, table: Fingerprints, selected: seq<Authority>,
          lib: Library)
    requires k <= |events|
    ensures var views := FinalizedAll(EndedCalls(events, k, selected, lib), repo, events, table, lib);
            Rising(views, k) && AreShown(views, repo, events, table, selected, lib) && AllShown(views, k, repo, events, selected, lib)
  {
    hide Touch, Correlated, Shows, Finalized, FinalizedAll, Rising, AreShown, AllShown;
    if k == 0 {
      NothingShown(repo, events, table, selected, lib);
    } else {
      ShownUpTo(k - 1, repo, events, table, selected, lib);
      var list := EndedCalls(events, k - 1, selected, lib);
      var more := ShownNow(k - 1, repo, events, table, selected, lib);
      var views := FinalizedAll(list, repo, events, table, lib);
      assert views + [] == views && list + [] == list;
      ShownStep(views, more, k - 1, repo, events, table, selected, lib);
    }
  }

  lemma NothingShown(repo: string, events: seq<Event>, table: Fingerprints, selected: seq<Authority>, lib: Library)
    ensures var views := FinalizedAll([], repo, events, table, lib);
            Rising(views, 0) && AreShown(views, repo, events, table, selected, lib) && AllShown(views, 0, repo, events, selected, lib)
  {
  }

  /** What event `k` adds to the views. */
  lemma ShownNow(k: nat, repo: string, events: seq<Event>, table: Fingerprints, selected: seq<Authority>, lib: Library)
      returns (more: seq<View>)
    requires k < |events|
    ensures FinalizedAll(EndedCalls(events, k + 1, selected, lib), repo, events, table, lib) ==
            FinalizedAll(EndedCalls(events, k, selected, lib), repo, events, table, lib) + more
    ensures |more| <= 1 && AreShown(more, repo, events, table, selected, lib) && (more != [] ==> more[0].observation.Ended? && more[0].observation.end == k)
    ensures forall a: Authority, call: string, start: nat :: a.repo == repo && Correlated(events, a, call, start, k, selected, lib) ==> Has(more, a, k)
  {
    hide Touch, Correlated, Shows, Finalized, FinalizedAll;
    var list, touch := EndedCalls(events, k, selected, lib), Touch(events, k, selected, lib);
    more := [];
    if touch.Some? && touch.value.observation.Ended? {
      FinalizedAppend(list, [touch.value], repo, events, table, lib);
      FinalizedOne(touch.value, repo, events, table, lib);
      if touch.value.authority.repo == repo {
        TouchShows(k, repo, events, table, selected, lib);
        more := [Finalized(touch.value.authority, touch.value.observation, events, table, lib)];
        assert more[0].observation.end == k;
      }
    } else {
      assert list + [] == list;
    }
    assert FinalizedAll(list, repo, events, table, lib) + [] == FinalizedAll(list, repo, events, table, lib);
    forall a: Authority, call: string, start: nat | a.repo == repo && Correlated(events, a, call, start, k, selected, lib)
      ensures Has(more, a, k)
    {
      CorrelatedTouches(k, a, call, start, events, selected, lib);
      assert more[0].authority == a;
    }
  }

  /** The invocations shown for a repository are exactly the correlated ends of its checks, in the order of the ends. */
  lemma InvocationsAreTheEnds(i: nat, resources: seq<Resource>, frozen: seq<seq<Authority>>, events: seq<Event>,
          table: Fingerprints, lib: Library)
    requires |frozen| == |resources| && i < |resources|
    ensures var d := DerivationFor(i, resources, frozen, events, table, lib);
            var selected := SelectedChecks(resources, frozen, Selected(resources, frozen, events, lib));
            Rising(d.invocations, |events|) && AreShown(d.invocations, resources[i].repo, events, table, selected, lib) &&
            AllShown(d.invocations, |events|, resources[i].repo, events, selected, lib)
  {
    hide Selected, SelectedChecks, OrderFor, EndedCalls, FinalizedAll, Rising, AreShown, AllShown, Checks;
    ShownUpTo(|events|, resources[i].repo, events, table, SelectedChecks(resources, frozen, Selected(resources, frozen, events, lib)), lib);
  }
}
