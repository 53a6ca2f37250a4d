/**
 What the agent writes cannot change the derived checks of a repository whose policy is fixed: the
 proposals it makes for other repositories join the same matching, but never match the same commands.
 */
module ResourceNonInterference {
  import opened Common
  import opened ResourceAuthority
  import opened ResourceSelection
  import opened ResourceChecks

  /** The two streams differ only in what the agent's messages say. */
  predicate SameButMessages(a: seq<Event>, b: seq<Event>) {
    |a| == |b| && forall k :: 0 <= k < |a| ==> a[k] == b[k] || (a[k].Message? && b[k].Message?)
  }

  ghost predicate DistinctLocators(resources: seq<Resource>) {
    LocatorsAreNames(resources) && forall i, j :: 0 <= i < j < |resources| ==> resources[i].locator != resources[j].locator
  }

  // ---- Other repositories never match --------------------------------------------------------

  ghost predicate Foreign(a: Authority, r: Resource,
          lib: Library) { WellFormed(a, lib) && a.repo != r.repo && a.locator != r.locator }

  ghost predicate AllForeign(list: seq<Authority>, r: Resource,
          lib: Library) { forall a :: a in list ==> Foreign(a, r, lib) }

  ghost predicate AllOwn(list: seq<Authority>, r: Resource,
          lib: Library) { forall a :: a in list ==> Belongs(a, r) && WellFormed(a, lib) }

  ghost predicate Surrounds(selected: seq<Authority>, before: seq<Authority>, own: seq<Authority>,
          after: seq<Authority>, r: Resource, lib: Library) {
    selected == before + own + after && AllForeign(before, r, lib) && AllForeign(after, r, lib) && AllOwn(own, r, lib)
  }

  lemma ForeignNeverMatch(tool: Tool, own: seq<Authority>, other: seq<Authority>, r: Resource, lib: Library)
    requires Injective(lib) && AllForeign(other, r, lib) && AllOwn(own, r, lib) && Matching(tool, own, lib) != []
    ensures Matching(tool, other, lib) == []
  {
    hide Matches;
    var a := Matching(tool, own, lib)[0];
    assert a in Matching(tool, own, lib);
    forall b | b in other
      ensures !Matches(tool, b, lib)
    {
      if Matches(tool, b, lib) { OneCommandOneLocator(tool, a, b, lib); }
    }
    NoneMatch(tool, other, lib);
  }

  /** Whatever a command stands for among the own checks, it stands for among all of them. */
  lemma MatchingSurrounded(tool: Tool, selected: seq<Authority>, before: seq<Authority>, own: seq<Authority>,
          after: seq<Authority>, r: Resource, lib: Library)
    requires Injective(lib) && Surrounds(selected, before, own, after, r, lib)
    ensures Matching(tool, own, lib) != [] ==> Matching(tool, selected, lib) == Matching(tool, own, lib)
    ensures Matching(tool, own, lib) == [] ==> forall a :: a in Matching(tool, selected, lib) ==> a.repo != r.repo
  {
    hide Matches, WellFormed;
    MatchingAppend(tool, before + own, after, lib);
    MatchingAppend(tool, before, own, lib);
    if Matching(tool, own, lib) != [] {
      ForeignNeverMatch(tool, own, before, r, lib);
      ForeignNeverMatch(tool, own, after, r, lib);
    } else {
      forall a | a in Matching(tool, selected, lib)
        ensures a.repo != r.repo
      {
        assert a in Matching(tool, before, lib) || a in Matching(tool, after, lib);
      }
    }
  }

  /** What an event says about one repository. */
  function About(i: Option<Invocation>, repo: string): Option<Invocation> {
    match i case None => None case Some(x) => if x.authority.repo == repo then i else None
  }

  lemma MatchedAbout(e: Event, selected: seq<Authority>, before: seq<Authority>, own: seq<Authority>,
          after: seq<Authority>, r: Resource, lib: Library)
    requires Injective(lib) && Surrounds(selected, before, own, after, r, lib) && CommandStart(e, lib)
    ensures Matched(e, own, lib).Some? ==> Matched(e, own, lib).value.repo == r.repo && Matched(e, selected, lib) == Matched(e, own, lib)
    ensures Matched(e, own, lib).None? ==> Matched(e, selected, lib).None? || Matched(e, selected, lib).value.repo != r.repo
  {
    var mine, all := Matching(e.tool.value, own, lib), Matching(e.tool.value, selected, lib);
    MatchingSurrounded(e.tool.value, selected, before, own, after, r, lib);
    assert |mine| == 1 ==> mine[0] in mine;
    assert |all| == 1 ==> all[0] in all;
  }

  lemma TouchAbout(events: seq<Event>, e: nat, selected: seq<Authority>, before: seq<Authority>, own: seq<Authority>,
          after: seq<Authority>, r: Resource, lib: Library)
    requires Injective(lib) && Surrounds(selected, before, own, after, r, lib) && e < |events|
    ensures About(Touch(events, e, selected, lib), r.repo) == Touch(events, e, own, lib)
  {
    hide Matched, Ambiguous, Surrounds;
    if CommandStart(events[e], lib) {
      MatchedAbout(events[e], selected, before, own, after, r, lib);
    } else if events[e].ToolEnd? && events[e].tool.Some? && !lib.blank(events[e].tool.value.call) {
      var s := ActiveAt(events, e, events[e].tool.value.call, lib);
      if s.Some? { MatchedAbout(events[s.value], selected, before, own, after, r, lib); }
    }
  }

  lemma {:induction false} LatestAbout(events: seq<Event>, k: nat, a: Authority, selected: seq<Authority>,
          before: seq<Authority>, own: seq<Authority>, after: seq<Authority>, r: Resource, lib: Library)
    requires Injective(lib) && Surrounds(selected, before, own, after, r, lib) && k <= |events| && a.repo == r.repo
    ensures Latest(events, k, a, selected, lib) == Latest(events, k, a, own, lib)
  {
    hide Touch, Surrounds;
    if k > 0 {
      TouchAbout(events, k - 1, selected, before, own, after, r, lib);
      LatestAbout(events, k - 1, a, selected, before, own, after, r, lib);
    }
  }

  lemma {:induction false} FinalizedAppend(a: seq<Invocation>, b: seq<Invocation>, repo: string, events: seq<Event>,
          table: Fingerprints, lib: Library)
    ensures FinalizedAll(a + b, repo, events, table, lib) == FinalizedAll(a, repo, events, table, lib) + FinalizedAll(b, repo, events, table, lib)
  {
    hide Finalized;
    if b == [] {
      assert a + b == a;
    } else {
      var n := |b| - 1;
      assert (a + b)[..|a + b| - 1] == a + b[..n] && (a + b)[|a + b| - 1] == b[n];
      FinalizedAppend(a, b[..n], repo, events, table, lib);
    }
  }

  function LastEnded(touch: Option<Invocation>): seq<Invocation> {
    if touch.Some? && touch.value.observation.Ended? then [touch.value] else []
  }

  lemma EndedStep(events: seq<Event>, k: nat, selected: seq<Authority>, lib: Library)
    requires 0 < k <= |events|
    ensures EndedCalls(events, k, selected, lib) == EndedCalls(events, k - 1, selected, lib) + LastEnded(Touch(events, k - 1, selected, lib))
  {
    hide Touch;
  }

  lemma LastAbout(all: Option<Invocation>, mine: Option<Invocation>, repo: string, events: seq<Event>,
          table: Fingerprints, lib: Library)
    requires About(all, repo) == mine
    ensures FinalizedAll(LastEnded(all), repo, events, table, lib) == FinalizedAll(LastEnded(mine), repo, events, table, lib)
  {
    hide Finalized;
    if all.Some? { assert [all.value][..0] == []; }
  }

  lemma {:induction false} EndedAbout(events: seq<Event>, k: nat, table: Fingerprints, selected: seq<Authority>,
          before: seq<Authority>, own: seq<Authority>, after: seq<Authority>, r: Resource, lib: Library)
    requires Injective(lib) && Surrounds(selected, before, own, after, r, lib) && k <= |events|
    ensures FinalizedAll(EndedCalls(events, k, selected, lib), r.repo, events, table, lib) ==
            FinalizedAll(EndedCalls(events, k, own, lib), r.repo, events, table, lib)
  {
    hide Touch, Surrounds, Finalized, FinalizedAll, About, LastEnded;
    if k > 0 {
      hide EndedCalls;
      var all, mine := Touch(events, k - 1, selected, lib), Touch(events, k - 1, own, lib);
      EndedAbout(events, k - 1, table, selected, before, own, after, r, lib);
      TouchAbout(events, k - 1, selected, before, own, after, r, lib);
      LastAbout(all, mine, r.repo, events, table, lib);
      EndedStep(events, k, selected, lib);
      EndedStep(events, k, own, lib);
      FinalizedAppend(EndedCalls(events, k - 1, selected, lib), LastEnded(all), r.repo, events, table, lib);
      FinalizedAppend(EndedCalls(events, k - 1, own, lib), LastEnded(mine), r.repo, events, table, lib);
    }
  }

  lemma {:induction false} ChecksAbout(order: seq<Authority>, table: Fingerprints, events: seq<Event>,
          selected: seq<Authority>, before: seq<Authority>, own: seq<Authority>, after: seq<Authority>, r: Resource,
          lib: Library)
    requires Injective(lib) && Surrounds(selected, before, own, after, r, lib) && forall a :: a in order ==> a.repo == r.repo
    ensures Checks(order, selected, events, table, lib) == Checks(order, own, events, table, lib)
  {
    hide Surrounds, Finalized, Latest;
    if order != [] {
      var n := |order| - 1;
      ChecksAbout(order[..n], table, events, selected, before, own, after, r, lib);
      assert order[n] in order;
      LatestAbout(events, |events|, order[n], selected, before, own, after, r, lib);
    }
  }

  // ---- The selected checks surround the own ones ---------------------------------------------

  lemma OthersForeign(a: Authority, i: nat, j: nat, resources: seq<Resource>, lib: Library)
    requires DistinctLocators(resources) && DistinctRepositories(resources) && i < |resources| && j < |resources| && i != j
    requires WellFormed(a, lib) && Belongs(a, resources[j])
    ensures Foreign(a, resources[i], lib)
  {
  }

  lemma {:induction false} NamedSurround(i: nat, n: nat, resources: seq<Resource>, frozen: seq<seq<Authority>>,
          lib: Library)
      returns (before: seq<Authority>, after: seq<Authority>)
    requires Settled(resources, frozen, lib) && DistinctLocators(resources) && i < |resources| && n <= |resources|
    ensures AllForeign(before, resources[i], lib) && AllForeign(after, resources[i], lib) && (i >= n ==> after == [])
    ensures NamedChecks(resources[..n], frozen[..n]) == before + (if i < n && resources[i].mode.Named? then frozen[i] else []) + after
  {
    hide WellFormed, Foreign;
    if n == 0 { return [], []; }
    before, after := NamedSurround(i, n - 1, resources, frozen, lib);
    assert resources[..n][..n - 1] == resources[..n - 1] && frozen[..n][..n - 1] == frozen[..n - 1];
    if n - 1 != i && resources[n - 1].mode.Named? {
      var last := frozen[n - 1];
      forall a | a in last
        ensures Foreign(a, resources[i], lib)
      {
        OthersForeign(a, i, n - 1, resources, lib);
      }
      if i < n - 1 {
        ghost var own := if resources[i].mode.Named? then frozen[i] else [];
        assert before + own + after + last == before + own + (after + last);
        after := after + last;
      } else {
        assert before + [] + [] + last == before + last + [] + [];
        before := before + last;
      }
    }
  }

  lemma {:induction false} AutoForeign(i: nat, n: nat, resources: seq<Resource>, s: Selection, lib: Library)
    requires Confined(s, resources, lib) && DistinctLocators(resources) && DistinctRepositories(resources)
    requires i < |resources| && n <= |resources| && !resources[i].mode.Auto?
    ensures AllForeign(AutoChecks(resources[..n], s), resources[i], lib)
  {
    if n > 0 {
      AutoForeign(i, n - 1, resources, s, lib);
      assert resources[..n][..n - 1] == resources[..n - 1];
      forall a | a in OrderOf(s, resources[n - 1].repo)
        ensures Foreign(a, resources[i], lib)
      {
        var j :| 0 <= j < |resources| && resources[j].mode.Auto? && resources[j].repo == resources[n - 1].repo && Belongs(a, resources[j]);
        OthersForeign(a, i, j, resources, lib);
      }
    }
  }

  lemma OwnOrder(i: nat, resources: seq<Resource>, frozen: seq<seq<Authority>>, s: Selection, lib: Library)
    requires Settled(resources, frozen, lib) && Confined(s, resources, lib) && i < |resources| && !resources[i].mode.Auto?
    ensures OrderFor(i, resources, frozen, s) == (if resources[i].mode.Named? then frozen[i] else [])
    ensures AllOwn(OrderFor(i, resources, frozen, s), resources[i], lib)
    ensures InInvalid(s, resources[i].repo).None? && resources[i].repo !in s.noApplicable
    ensures InSource(s, resources[i].repo) == Some(if resources[i].mode.Named? then FrozenNamed else ExplicitNone)
  {
    hide OfAuto, WellFormed;
    assert resources[i].repo !in AutoRepositories(resources);
    PolicyOf(resources, i);
    var own := if resources[i].mode.Named? then frozen[i] else [];
    assert own + [] == own;
  }

  lemma SelectedSurround(i: nat, resources: seq<Resource>, frozen: seq<seq<Authority>>, s: Selection, lib: Library)
      returns (before: seq<Authority>, after: seq<Authority>)
    requires Settled(resources, frozen, lib) && Confined(s, resources, lib) && DistinctLocators(resources)
    requires i < |resources| && !resources[i].mode.Auto?
    ensures Surrounds(SelectedChecks(resources, frozen, s), before, OrderFor(i, resources, frozen, s), after, resources[i], lib)
  {
    hide Confined, Foreign, OrderFor, WellFormed, Belongs;
    var after';
    before, after' := NamedSurround(i, |resources|, resources, frozen, lib);
    AutoForeign(i, |resources|, resources, s, lib);
    assert resources[..|resources|] == resources && frozen[..|frozen|] == frozen;
    after := after' + AutoChecks(resources, s);
    OwnOrder(i, resources, frozen, s, lib);
    var own := OrderFor(i, resources, frozen, s);
    assert before + own + after' + AutoChecks(resources, s) == before + own + after;
  }

  // ---- Messages do not matter ----------------------------------------------------------------

  lemma {:induction false} CountsAgree(a: seq<Event>, b: seq<Event>, call: string, lib: Library)
    requires SameButMessages(a, b)
    ensures Starts(a, call, lib) == Starts(b, call, lib) && Ends(a, call, lib) == Ends(b, call, lib)
  {
    if a != [] { CountsAgree(a[..|a| - 1], b[..|b| - 1], call, lib); }
  }

  lemma {:induction false} ActiveAgree(a: seq<Event>, b: seq<Event>, k: nat, call: string, lib: Library)
    requires SameButMessages(a, b) && k <= |a|
    ensures ActiveAt(a, k, call, lib) == ActiveAt(b, k, call, lib)
  {
    hide Starts, Ends;
    CountsAgree(a, b, call, lib);
    if k > 0 { ActiveAgree(a, b, k - 1, call, lib); }
  }

  lemma TouchAgree(a: seq<Event>, b: seq<Event>, e: nat, selected: seq<Authority>, lib: Library)
    requires SameButMessages(a, b) && e < |a|
    ensures Touch(a, e, selected, lib) == Touch(b, e, selected, lib)
  {
    hide Starts, Ends, Matched;
    if a[e] == b[e] && (a[e].ToolStart? || a[e].ToolEnd?) && a[e].tool.Some? {
      CountsAgree(a, b, a[e].tool.value.call, lib);
      ActiveAgree(a, b, e, a[e].tool.value.call, lib);
    }
  }

  lemma {:induction false} LatestAgree(a: seq<Event>, b: seq<Event>, k: nat, check: Authority,
          selected: seq<Authority>, lib: Library)
    requires SameButMessages(a, b) && k <= |a|
    ensures Latest(a, k, check, selected, lib) == Latest(b, k, check, selected, lib)
  {
    hide Touch;
    if k > 0 {
      TouchAgree(a, b, k - 1, selected, lib);
      LatestAgree(a, b, k - 1, check, selected, lib);
    }
  }

  lemma {:induction false} EndedAgree(a: seq<Event>, b: seq<Event>, k: nat, selected: seq<Authority>, lib: Library)
    requires SameButMessages(a, b) && k <= |a|
    ensures EndedCalls(a, k, selected, lib) == EndedCalls(b, k, selected, lib)
  {
    hide Touch;
    if k > 0 {
      TouchAgree(a, b, k - 1, selected, lib);
      EndedAgree(a, b, k - 1, selected, lib);
    }
  }

  lemma FinalizedAgree(a: seq<Event>, b: seq<Event>, check: Authority, o: Observation, table: Fingerprints,
          lib: Library)
    requires SameButMessages(a, b)
    ensures Finalized(check, o, a, table, lib) == Finalized(check, o, b, table, lib)
  {
    hide MayTouch;
    if o.Ended? {
      forall i | o.end < i < |a|
        ensures MayTouch(check.repo, a[i], lib) <==> MayTouch(check.repo, b[i], lib)
      {
        if a[i] != b[i] { MessagesTouchNothing(check.repo, a[i], lib); MessagesTouchNothing(check.repo, b[i], lib); }
      }
    }
  }

  lemma MessagesTouchNothing(repo: string, e: Event, lib: Library)
    requires e.Message?
    ensures !MayTouch(repo, e, lib)
  {
  }

  lemma {:induction false} FinalizedAllAgree(a: seq<Event>, b: seq<Event>, list: seq<Invocation>, repo: string,
          table: Fingerprints, lib: Library)
    requires SameButMessages(a, b)
    ensures FinalizedAll(list, repo, a, table, lib) == FinalizedAll(list, repo, b, table, lib)
  {
    hide Finalized, SameButMessages;
    if list != [] {
      var last := list[|list| - 1];
      FinalizedAllAgree(a, b, list[..|list| - 1], repo, table, lib);
      FinalizedAgree(a, b, last.authority, last.observation, table, lib);
    }
  }

  lemma {:induction false} ChecksAgree(a: seq<Event>, b: seq<Event>, order: seq<Authority>, selected: seq<Authority>,
          table: Fingerprints, lib: Library)
    requires SameButMessages(a, b)
    ensures Checks(order, selected, a, table, lib) == Checks(order, selected, b, table, lib)
  {
    hide Finalized, Latest;
    if order != [] {
      var n := |order| - 1;
      ChecksAgree(a, b, order[..n], selected, table, lib);
      LatestAgree(a, b, |a|, order[n], selected, lib);
      FinalizedAgree(a, b, order[n], Latest(a, |a|, order[n], selected, lib), table, lib);
    }
  }

  /** The derivation of a fixed policy, computed from the repository's own checks alone. */
  lemma OwnDerivation(i: nat, resources: seq<Resource>, frozen: seq<seq<Authority>>, events: seq<Event>,
          table: Fingerprints, lib: Library)
    requires Settled(resources, frozen, lib) && DistinctLocators(resources) && Injective(lib) && i < |resources| && !resources[i].mode.Auto?
    ensures var own := if resources[i].mode.Named? then frozen[i] else [];
            var checks := Checks(own, own, events, table, lib);
            DerivationFor(i, resources, frozen, events, table, lib) ==
            Derivation(resources[i].repo, resources[i].mode, Some(if resources[i].mode.Named? then FrozenNamed else ExplicitNone), false, None,
                       Aggregate(checks), AllVerified(checks), checks,
                       FinalizedAll(EndedCalls(events, |events|, own, lib), resources[i].repo, events, table, lib))
  {
    hide Selected, SelectedChecks, OrderFor, DistinctLocators, Injective, Confined, Checks, Surrounds;
    SelectionConfined(resources, frozen, events, lib);
    var s := Selected(resources, frozen, events, lib);
    var own, selected := OrderFor(i, resources, frozen, s), SelectedChecks(resources, frozen, s);
    OwnOrder(i, resources, frozen, s, lib);
    var before, after := SelectedSurround(i, resources, frozen, s, lib);
    ChecksAbout(own, table, events, selected, before, own, after, resources[i], lib);
    EndedAbout(events, |events|, table, selected, before, own, after, resources[i], lib);
  }

  /** No assistant message, however it reads, changes the derivation of a named or check-free repository. */
  lemma MessagesDoNotInterfere(i: nat, resources: seq<Resource>, events: seq<Event>, events': seq<Event>,
          table: Fingerprints, lib: Library)
    requires Frozen(resources, lib).Some? && DistinctLocators(resources) && Injective(lib) && SameButMessages(events, events')
    requires i < |resources| && !resources[i].mode.Auto?
    ensures |Frozen(resources, lib).value| == |resources|
    ensures var frozen := Frozen(resources, lib).value;
            DerivationFor(i, resources, frozen, events, table, lib) == DerivationFor(i, resources, frozen, events', table, lib)
  {
    hide FreezeAll, DerivationFor, Checks, DistinctLocators, Injective, SameButMessages, Settled;
    var frozen := Frozen(resources, lib).value;
    FrozenAreSettled(resources, lib);
    OwnDerivation(i, resources, frozen, events, table, lib);
    OwnDerivation(i, resources, frozen, events', table, lib);
    var own := if resources[i].mode.Named? then frozen[i] else [];
    ChecksAgree(events, events', own, own, table, lib);
    SameLengths(events, events');
    EndedAgree(events, events', |events|, own, lib);
    FinalizedAllAgree(events, events', EndedCalls(events, |events|, own, lib), resources[i].repo, table, lib);
  }

  lemma FrozenAreSettled(resources: seq<Resource>, lib: Library)
    requires Frozen(resources, lib).Some? && DistinctLocators(resources)
    ensures |Frozen(resources, lib).value| == |resources| && Settled(resources, Frozen(resources, lib).value, lib)
  {
    FrozenSettled(resources, lib);
  }

  lemma SameLengths(a: seq<Event>, b: seq<Event>)
    requires SameButMessages(a, b)
    ensures |a| == |b|
  {
  }
}
