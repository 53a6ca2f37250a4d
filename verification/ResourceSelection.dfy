/** Which checks count for repositories whose policy leaves the choice to the agent. */
module ResourceSelection {
  import opened Common
  import opened ResourceAuthority

  datatype Source = FrozenNamed | ExplicitNone | AgentProposed | CandidateExecution

  datatype Reason = InvalidBlock | InvalidSelection | AmbiguousCandidate | ExecutedAfterNone

  datatype Selection = Selection(
    order: map<string, seq<Authority>>, noApplicable: set<string>, source: map<string, Source>, invalid: map<string, Reason>)

  const COMMAND_LIMIT := 64
  const NAME_LIMIT := 256
  const REASON_LIMIT := 2048

  function OrderOf(s: Selection, repo: string): seq<Authority> { if repo in s.order then s.order[repo] else [] }

  // ---- Proposed checks -----------------------------------------------------------------------

  function WithDigest(authorities: seq<Authority>, digest: string, lib: Library): (r: seq<Authority>)
    ensures forall a :: a in r ==> a in authorities && SemanticDigest(a, lib) == digest
  {
    if authorities == [] then []
    else (if SemanticDigest(authorities[0], lib) == digest then [authorities[0]] else []) + WithDigest(authorities[1..], digest, lib)
  }

  predicate DirectoryProven(directory: string, r: Resource) {
    directory == "." || (exists i :: 0 <= i < |r.commands| && r.commands[i].directory == directory) || directory in r.preparation
  }

  predicate CanonicalProposal(p: Proposal, r: Resource, lib: Library) {
    lib.plainText(lib.trim(p.name), NAME_LIMIT) &&
    p.command == lib.trim(p.command) && p.directory == lib.trim(p.directory) && p.directory != "" && DirectoryProven(p.directory, r)
  }

  /** The frozen candidate the proposal repeats, or else a new authority; None when it is not acceptable. */
  function Propose(p: Proposal, r: Resource, frozen: seq<Authority>, seen: set<string>,
          lib: Library): Option<(Authority, string)> {
    if !CanonicalProposal(p, r, lib) then None
    else
      match lib.parse(p.command)
      case None => None
      case Some(argv) =>
        var command := CheckCommand("proposal", lib.trim(p.name), 1, "agent_proposed", argv, p.directory);
        match NewAuthority(r.repo, r.mode, command, r.locator, lib)
        case None => None
        case Some(probe) =>
          var digest := SemanticDigest(probe, lib);
          var same := WithDigest(frozen, digest, lib);
          if digest in seen || |same| > 1 then None
          else if |same| == 1 then Some((same[0], digest))
          else
            match NewAuthority(r.repo, r.mode, command.(id := lib.proposalID(r.repo, digest)), r.locator, lib)
            case None => None
            case Some(a) => Some((a, digest))
  }

  function ProposeAll(ps: seq<Proposal>, r: Resource, frozen: seq<Authority>, seen: set<string>,
          lib: Library): Option<seq<Authority>> {
    if ps == [] then Some([])
    else
      match Propose(ps[0], r, frozen, seen, lib)
      case None => None
      case Some((a, digest)) =>
        match ProposeAll(ps[1..], r, frozen, seen + {digest}, lib)
        case None => None
        case Some(rest) => Some([a] + rest)
  }

  method CheckProposals(ps: seq<Proposal>, r: Resource, frozen: seq<Authority>,
          lib: Library) returns (order: Option<seq<Authority>>)
    ensures order == ProposeAll(ps, r, frozen, {}, lib)
  {
    hide Propose;
    var done: seq<Authority>, seen: set<string> := [], {};
    ghost var whole := ProposeAll(ps, r, frozen, {}, lib);
    assert ps[0..] == ps && (whole.Some? ==> [] + whole.value == whole.value);
    for k := 0 to |ps|
      invariant ProposeAll(ps, r, frozen, {}, lib) ==
                match ProposeAll(ps[k..], r, frozen, seen, lib) case None => None case Some(rest) => Some(done + rest)
    {
      assert ps[k..][1..] == ps[k + 1..];
      var next := Propose(ps[k], r, frozen, seen, lib);
      if next.None? { return None; }
      var (a, digest) := next.value;
      AppendFirst(done, a, ProposeAll(ps[k + 1..], r, frozen, seen + {digest}, lib));
      done, seen := done + [a], seen + {digest};
    }
    assert ps[|ps|..] == [] && done + [] == done;
    order := Some(done);
  }

  lemma AppendFirst(done: seq<Authority>, a: Authority, rest: Option<seq<Authority>>)
    ensures rest.Some? ==> done + ([a] + rest.value) == done + [a] + rest.value
  {
  }

  /** Position of the automatic resource of that name. */
  function AutoIndex(resources: seq<Resource>, repo: string): (r: Option<nat>)
    ensures r.Some? ==> r.value < |resources| && resources[r.value].repo == repo && resources[r.value].mode.Auto?
    ensures r.None? ==> forall i :: 0 <= i < |resources| && resources[i].mode.Auto? ==> resources[i].repo != repo
  {
    if resources == [] then None
    else if resources[|resources| - 1].repo == repo && resources[|resources| - 1].mode.Auto? then Some(|resources| - 1)
    else AutoIndex(resources[..|resources| - 1], repo)
  }

  function SelectRepository(p: RepositoryProposal, r: Resource, frozen: seq<Authority>, total: nat,
          lib: Library): Option<seq<Authority>> {
    if !lib.plainText(lib.trim(p.explanation), REASON_LIMIT) then None
    else if p.noApplicable then if p.checks == [] then Some([]) else None
    else if p.checks == [] || total + |p.checks| > COMMAND_LIMIT then None
    else ProposeAll(p.checks, r, frozen, {}, lib)
  }

  /** Every repository of the block, each once and automatic; None when any part is not acceptable. */
  function SelectAll(ps: seq<RepositoryProposal>, resources: seq<Resource>, frozen: seq<seq<Authority>>, lib: Library)
      : Option<(map<string, seq<Authority>>, nat)>
    requires |frozen| == |resources|
  {
    if ps == [] then Some((map[], 0))
    else
      var last := ps[|ps| - 1];
      match SelectAll(ps[..|ps| - 1], resources, frozen, lib)
      case None => None
      case Some((order, total)) =>
        match AutoIndex(resources, last.repo)
        case None => None
        case Some(i) =>
          if last.repo in order then None
          else
            match SelectRepository(last, resources[i], frozen[i], total, lib)
            case None => None
            case Some(checks) => Some((order[last.repo := checks], total + |last.checks|))
  }

  function Validated(ps: seq<RepositoryProposal>, resources: seq<Resource>, frozen: seq<seq<Authority>>, lib: Library)
      : Option<map<string, seq<Authority>>>
    requires |frozen| == |resources|
  {
    if ps == [] || |ps| > REPOSITORY_LIMIT then None
    else match SelectAll(ps, resources, frozen, lib) case None => None case Some((order, _)) => Some(order)
  }

  lemma {:induction false} SelectAllFails(ps: seq<RepositoryProposal>, resources: seq<Resource>,
          frozen: seq<seq<Authority>>, lib: Library, k: nat)
    requires |frozen| == |resources| && k <= |ps| && SelectAll(ps[..k], resources, frozen, lib).None?
    ensures SelectAll(ps, resources, frozen, lib).None?
  {
    if k < |ps| {
      assert ps[..|ps| - 1][..k] == ps[..k];
      SelectAllFails(ps[..|ps| - 1], resources, frozen, lib, k);
    } else {
      assert ps[..k] == ps;
    }
  }

  method ValidateSelection(ps: seq<RepositoryProposal>, resources: seq<Resource>, frozen: seq<seq<Authority>>,
          lib: Library)
      returns (selected: Option<map<string, seq<Authority>>>)
    requires |frozen| == |resources|
    ensures selected == Validated(ps, resources, frozen, lib)
  {
    hide ProposeAll, AutoIndex;
    if ps == [] || |ps| > REPOSITORY_LIMIT { return None; }
    var order: map<string, seq<Authority>>, total: nat := map[], 0;
    for k := 0 to |ps|
      invariant SelectAll(ps[..k], resources, frozen, lib) == Some((order, total))
    {
      assert ps[..k + 1][..k] == ps[..k];
      if SelectAll(ps[..k + 1], resources, frozen, lib).None? { SelectAllFails(ps, resources, frozen, lib, k + 1); }
      var p := ps[k];
      var i := AutoIndex(resources, p.repo);
      if i.None? || p.repo in order || !lib.plainText(lib.trim(p.explanation), REASON_LIMIT) { return None; }
      if p.noApplicable {
        if p.checks != [] { return None; }
        order := order[p.repo := []];
        continue;
      }
      if p.checks == [] || total + |p.checks| > COMMAND_LIMIT { return None; }
      var checks := CheckProposals(p.checks, resources[i.value], frozen[i.value], lib);
      if checks.None? { return None; }
      order, total := order[p.repo := checks.value], total + |p.checks|;
    }
    assert ps[..|ps|] == ps;
    selected := Some(order);
  }

  // ---- The start of the selection ------------------------------------------------------------

  /** Only the last message of the agent counts. */
  function FinalBlock(events: seq<Event>, lib: Library): Block {
    if events == [] then NoBlock
    else if events[|events| - 1].Message? then lib.read(events[|events| - 1].payload)
    else FinalBlock(events[..|events| - 1], lib)
  }

  function AutoRepositories(resources: seq<Resource>): set<string> { set i | 0 <= i < |resources| && resources[i].mode.Auto? :: resources[i].repo }

  function Policies(resources: seq<Resource>): map<string, Source> {
    if resources == [] then map[]
    else
      var last := resources[|resources| - 1];
      var before := Policies(resources[..|resources| - 1]);
      match last.mode
      case Named => before[last.repo := FrozenNamed]
      case NoChecks => before[last.repo := ExplicitNone]
      case Auto => before
  }

  function NoApplicable(ps: seq<RepositoryProposal>): set<string> { set i | 0 <= i < |ps| && ps[i].noApplicable :: ps[i].repo }

  function Started(resources: seq<Resource>, frozen: seq<seq<Authority>>, block: Block, lib: Library): Selection
    requires |frozen| == |resources|
  {
    var policies := Policies(resources);
    match block
    case NoBlock => Selection(map[], {}, policies, map[])
    case BadBlock => Selection(map[], {}, policies, map repo | repo in AutoRepositories(resources) :: InvalidBlock)
    case SelectionBlock(ps) =>
      match Validated(ps, resources, frozen, lib)
      case None => Selection(map[], {}, policies, map repo | repo in AutoRepositories(resources) :: InvalidSelection)
      case Some(order) => Selection(order, NoApplicable(ps), policies + map repo | repo in order :: AgentProposed, map[])
  }

  // ---- Candidates that were run --------------------------------------------------------------

  predicate CommandStart(e: Event, lib: Library) {
    e.ToolStart? && e.tool.Some? && lib.commandTool(e.tool.value.name) && !lib.blank(e.tool.value.call)
  }

  function Invalidate(s: Selection, matches: seq<Authority>): Selection {
    if matches == [] then s
    else
      var before := Invalidate(s, matches[..|matches| - 1]);
      var repo := matches[|matches| - 1].repo;
      before.(invalid := before.invalid[repo := AmbiguousCandidate], noApplicable := before.noApplicable - {repo})
  }

  function Executed(s: Selection, a: Authority): Selection {
    var s' := if a.repo in s.noApplicable then s.(invalid := s.invalid[a.repo := ExecutedAfterNone], noApplicable := s.noApplicable - {a.repo}) else s;
    if a in OrderOf(s, a.repo) then s'
    else
      s'.(order := s'.order[a.repo := OrderOf(s, a.repo) + [a]],
          source := if a.repo in s'.source then s'.source else s'.source[a.repo := CandidateExecution])
  }

  function ObserveEvent(s: Selection, e: Event, candidates: seq<Authority>, lib: Library): Selection {
    if !CommandStart(e, lib) then s
    else
      var matches := Matching(e.tool.value, candidates, lib);
      if |matches| > 1 then Invalidate(s, matches) else if |matches| == 1 then Executed(s, matches[0]) else s
  }

  function ObserveAll(s: Selection, events: seq<Event>, candidates: seq<Authority>, lib: Library): Selection {
    if events == [] then s
    else ObserveEvent(ObserveAll(s, events[..|events| - 1], candidates, lib), events[|events| - 1], candidates, lib)
  }

  function Candidates(resources: seq<Resource>, frozen: seq<seq<Authority>>): seq<Authority>
    requires |frozen| == |resources|
  {
    if resources == [] then []
    else
      var n := |resources| - 1;
      Candidates(resources[..n], frozen[..n]) + if resources[n].mode.Auto? then frozen[n] else []
  }

  function Selected(resources: seq<Resource>, frozen: seq<seq<Authority>>, events: seq<Event>, lib: Library): Selection
    requires |frozen| == |resources|
  {
    ObserveAll(Started(resources, frozen, FinalBlock(events, lib), lib), events, Candidates(resources, frozen), lib)
  }

  method FinalSelection(events: seq<Event>, lib: Library) returns (block: Block)
    ensures block == FinalBlock(events, lib)
  {
    var found, payload := false, "";
    for k := 0 to |events|
      invariant FinalBlock(events[..k], lib) == if found then lib.read(payload) else NoBlock
    {
      assert events[..k + 1][..k] == events[..k];
      if events[k].Message? { found, payload := true, events[k].payload; }
    }
    assert events[..|events|] == events;
    block := if found then lib.read(payload) else NoBlock;
  }

  method InvalidateAll(s: Selection, matches: seq<Authority>) returns (r: Selection)
    ensures r == Invalidate(s, matches)
  {
    r := s;
    for k := 0 to |matches|
      invariant r == Invalidate(s, matches[..k])
    {
      assert matches[..k + 1][..k] == matches[..k];
      var repo := matches[k].repo;
      r := r.(invalid := r.invalid[repo := AmbiguousCandidate], noApplicable := r.noApplicable - {repo});
    }
    assert matches[..|matches|] == matches;
  }

  method ScanResources(resources: seq<Resource>, frozen: seq<seq<Authority>>)
      returns (source: map<string, Source>, auto: set<string>, candidates: seq<Authority>)
    requires |frozen| == |resources|
    ensures source == Policies(resources) && auto == AutoRepositories(resources) && candidates == Candidates(resources, frozen)
  {
    source, auto, candidates := map[], {}, [];
    for k := 0 to |resources|
      invariant source == Policies(resources[..k]) && auto == AutoRepositories(resources[..k])
      invariant candidates == Candidates(resources[..k], frozen[..k])
    {
      assert resources[..k + 1][..k] == resources[..k] && frozen[..k + 1][..k] == frozen[..k];
      assert AutoRepositories(resources[..k + 1]) == auto + if resources[k].mode.Auto? then {resources[k].repo} else {} by {
        assert forall i :: 0 <= i < k ==> resources[..k + 1][i] == resources[..k][i];
        assert resources[..k + 1][k] == resources[k];
      }
      match resources[k].mode {
        case Named => source := source[resources[k].repo := FrozenNamed];
        case NoChecks => source := source[resources[k].repo := ExplicitNone];
        case Auto =>
          auto := auto + {resources[k].repo};
          candidates := candidates + frozen[k];
      }
    }
    assert resources[..|resources|] == resources && frozen[..|frozen|] == frozen;
  }

  method DeriveAutoSelection(resources: seq<Resource>, frozen: seq<seq<Authority>>, events: seq<Event>,
          lib: Library) returns (s: Selection)
    requires |frozen| == |resources|
    ensures s == Selected(resources, frozen, events, lib)
  {
    hide Matching, Validated, Policies, Candidates, FinalBlock;
    var source, auto, candidates := ScanResources(resources, frozen);
    var block := FinalSelection(events, lib);
    s := Selection(map[], {}, source, map[]);
    match block {
      case NoBlock =>
      case BadBlock => s := s.(invalid := map repo | repo in auto :: InvalidBlock);
      case SelectionBlock(ps) =>
        var selected := ValidateSelection(ps, resources, frozen, lib);
        if selected.None? {
          s := s.(invalid := map repo | repo in auto :: InvalidSelection);
        } else {
          s := Selection(selected.value, NoApplicable(ps), source + map repo | repo in selected.value :: AgentProposed, map[]);
        }
    }
    ghost var started := s;
    for k := 0 to |events|
      invariant s == ObserveAll(started, events[..k], candidates, lib)
    {
      assert events[..k + 1][..k] == events[..k];
      if CommandStart(events[k], lib) {
        var matches, _ := MatchStart(events[k].tool.value, candidates, lib);
        if |matches| > 1 {
          s := InvalidateAll(s, matches);
        } else if |matches| == 1 {
          var a, before := matches[0], OrderOf(s, matches[0].repo);
          if a.repo in s.noApplicable {
            s := s.(invalid := s.invalid[a.repo := ExecutedAfterNone], noApplicable := s.noApplicable - {a.repo});
          }
          if a !in before {
            s := s.(order := s.order[a.repo := before + [a]]);
            if a.repo !in s.source { s := s.(source := s.source[a.repo := CandidateExecution]); }
          }
        }
      }
    }
    assert events[..|events|] == events;
  }

  // ---- What the agent can reach --------------------------------------------------------------

  ghost predicate Settled(resources: seq<Resource>, frozen: seq<seq<Authority>>, lib: Library) {
    |frozen| == |resources| && DistinctRepositories(resources) && LocatorsAreNames(resources) &&
    forall i :: 0 <= i < |resources| ==> forall a :: a in frozen[i] ==> Belongs(a, resources[i]) && WellFormed(a, lib)
  }

  lemma FrozenSettled(resources: seq<Resource>, lib: Library)
    requires Frozen(resources, lib).Some? && LocatorsAreNames(resources)
    ensures Settled(resources, Frozen(resources, lib).value, lib)
  {
    FreezeAllLength(resources, lib);
    forall i | 0 <= i < |resources| { FreezeAllBelong(resources, lib, i); }
  }

  ghost predicate OfAuto(a: Authority, repo: string, resources: seq<Resource>, lib: Library) {
    WellFormed(a, lib) && exists i :: 0 <= i < |resources| && resources[i].mode.Auto? && resources[i].repo == repo && Belongs(a, resources[i])
  }

  ghost predicate OrderOfAuto(order: map<string, seq<Authority>>, resources: seq<Resource>, lib: Library) {
    forall repo :: repo in order ==> repo in AutoRepositories(resources) && forall a :: a in order[repo] ==> OfAuto(a, repo, resources, lib)
  }

  /** Everything the agent's messages and commands may influence concerns automatic repositories. */
  ghost predicate Confined(s: Selection, resources: seq<Resource>, lib: Library) {
    var auto := AutoRepositories(resources);
    OrderOfAuto(s.order, resources, lib) && s.noApplicable <= auto && s.invalid.Keys <= auto &&
    forall repo :: repo !in auto ==>
      (repo in s.source <==> repo in Policies(resources)) && (repo in s.source ==> s.source[repo] == Policies(resources)[repo])
  }

  lemma {:induction false} ProposedBelong(ps: seq<Proposal>, r: Resource, frozen: seq<Authority>, seen: set<string>,
          lib: Library)
    requires ProposeAll(ps, r, frozen, seen, lib).Some? && '/' !in r.locator
    requires forall a :: a in frozen ==> Belongs(a, r) && WellFormed(a, lib)
    ensures forall a :: a in ProposeAll(ps, r, frozen, seen, lib).value ==> Belongs(a, r) && WellFormed(a, lib)
  {
    if ps != [] {
      var (a, digest) := Propose(ps[0], r, frozen, seen, lib).value;
      var same := WithDigest(frozen, digest, lib);
      assert |same| == 1 ==> same[0] in same;
      ProposedBelong(ps[1..], r, frozen, seen + {digest}, lib);
    }
  }

  lemma {:induction false} SelectedAreAuto(ps: seq<RepositoryProposal>, resources: seq<Resource>,
          frozen: seq<seq<Authority>>, lib: Library)
    requires Settled(resources, frozen, lib) && SelectAll(ps, resources, frozen, lib).Some?
    ensures OrderOfAuto(SelectAll(ps, resources, frozen, lib).value.0, resources, lib)
    ensures forall k :: 0 <= k < |ps| ==> ps[k].repo in AutoRepositories(resources)
  {
    hide ProposeAll;
    if ps != [] {
      var last, rest := ps[|ps| - 1], ps[..|ps| - 1];
      SelectedAreAuto(rest, resources, frozen, lib);
      var i := AutoIndex(resources, last.repo).value;
      if last.checks != [] { ProposedBelong(last.checks, resources[i], frozen[i], {}, lib); }
      assert resources[i].repo in AutoRepositories(resources);
      assert forall k :: 0 <= k < |rest| ==> ps[k] == rest[k];
    }
  }

  lemma {:induction false} PolicyOf(resources: seq<Resource>, i: nat)
    requires i < |resources| && DistinctRepositories(resources)
    ensures resources[i].mode.Auto? ==> resources[i].repo !in Policies(resources)
    ensures !resources[i].mode.Auto? ==>
              resources[i].repo in Policies(resources) &&
              Policies(resources)[resources[i].repo] == if resources[i].mode.Named? then FrozenNamed else ExplicitNone
  {
    var n := |resources| - 1;
    if i < n {
      PolicyOf(resources[..n], i);
    } else {
      PoliciesOnly(resources[..n], resources[n].repo);
    }
  }

  lemma {:induction false} PoliciesOnly(resources: seq<Resource>, repo: string)
    requires forall i :: 0 <= i < |resources| ==> resources[i].repo != repo
    ensures repo !in Policies(resources)
  {
    if resources != [] { PoliciesOnly(resources[..|resources| - 1], repo); }
  }

  lemma StartConfined(resources: seq<Resource>, frozen: seq<seq<Authority>>, block: Block, lib: Library)
    requires Settled(resources, frozen, lib)
    ensures Confined(Started(resources, frozen, block, lib), resources, lib)
  {
    hide SelectAll;
    if block.SelectionBlock? && Validated(block.repositories, resources, frozen, lib).Some? {
      SelectedAreAuto(block.repositories, resources, frozen, lib);
    }
  }

  lemma {:induction false} CandidatesAreAuto(resources: seq<Resource>, frozen: seq<seq<Authority>>, lib: Library,
          n: nat)
    requires Settled(resources, frozen, lib) && n <= |resources|
    ensures forall a :: a in Candidates(resources[..n], frozen[..n]) ==> OfAuto(a, a.repo, resources, lib) && a.repo in AutoRepositories(resources)
  {
    if n > 0 {
      CandidatesAreAuto(resources, frozen, lib, n - 1);
      assert resources[..n][..n - 1] == resources[..n - 1] && frozen[..n][..n - 1] == frozen[..n - 1];
      var last := frozen[n - 1];
      assert forall a :: a in last ==> Belongs(a, resources[n - 1]);
    }
  }

  lemma {:induction false} InvalidateConfined(s: Selection, matches: seq<Authority>, resources: seq<Resource>,
          lib: Library)
    requires Confined(s, resources, lib) && forall a :: a in matches ==> a.repo in AutoRepositories(resources)
    ensures Confined(Invalidate(s, matches), resources, lib)
  {
    if matches != [] { InvalidateConfined(s, matches[..|matches| - 1], resources, lib); }
  }

  lemma ExecutedConfined(s: Selection, a: Authority, resources: seq<Resource>, lib: Library)
    requires Confined(s, resources, lib) && OfAuto(a, a.repo, resources, lib) && a.repo in AutoRepositories(resources)
    ensures Confined(Executed(s, a), resources, lib)
  {
    hide OfAuto;
  }

  lemma {:induction false} ObserveConfined(s: Selection, events: seq<Event>, candidates: seq<Authority>,
          resources: seq<Resource>, lib: Library)
    requires Confined(s, resources, lib)
    requires forall a :: a in candidates ==> OfAuto(a, a.repo, resources, lib) && a.repo in AutoRepositories(resources)
    ensures Confined(ObserveAll(s, events, candidates, lib), resources, lib)
  {
    hide Confined, OfAuto;
    if events != [] {
      var n := |events| - 1;
      var before := ObserveAll(s, events[..n], candidates, lib);
      ObserveConfined(s, events[..n], candidates, resources, lib);
      if CommandStart(events[n], lib) {
        var matches := Matching(events[n].tool.value, candidates, lib);
        if |matches| > 1 { InvalidateConfined(before, matches, resources, lib); }
        if |matches| == 1 {
          assert matches[0] in matches;
          ExecutedConfined(before, matches[0], resources, lib);
        }
      }
    }
  }

  /** Whatever the agent says or runs, a named or check-free repository keeps its frozen policy. */
  lemma SelectionConfined(resources: seq<Resource>, frozen: seq<seq<Authority>>, events: seq<Event>, lib: Library)
    requires Settled(resources, frozen, lib)
    ensures Confined(Selected(resources, frozen, events, lib), resources, lib)
  {
    StartConfined(resources, frozen, FinalBlock(events, lib), lib);
    CandidatesAreAuto(resources, frozen, lib, |resources|);
    assert resources[..|resources|] == resources && frozen[..|resources|] == frozen;
    ObserveConfined(Started(resources, frozen, FinalBlock(events, lib), lib), events, Candidates(resources, frozen), resources, lib);
  }

  /** Some command of the agent stands for this candidate and no other. */
  predicate RunAlone(c: Authority, events: seq<Event>, candidates: seq<Authority>, lib: Library) {
    exists k :: 0 <= k < |events| && Alone(c, events[k], candidates, lib)
  }

  lemma {:induction false} InvalidateKeepsOrder(s: Selection, matches: seq<Authority>)
    ensures Invalidate(s, matches).order == s.order
  {
    if matches != [] { InvalidateKeepsOrder(s, matches[..|matches| - 1]); }
  }

  predicate Alone(c: Authority, e: Event, candidates: seq<Authority>, lib: Library) {
    CommandStart(e, lib) && Matching(e.tool.value, candidates, lib) == [c]
  }

  lemma RunAloneStep(c: Authority, events: seq<Event>, candidates: seq<Authority>, lib: Library)
    requires events != []
    ensures RunAlone(c, events, candidates, lib) <==>
              RunAlone(c, events[..|events| - 1], candidates, lib) || Alone(c, events[|events| - 1], candidates, lib)
  {
    var rest := events[..|events| - 1];
    assert forall k :: 0 <= k < |rest| ==> rest[k] == events[k];
    if k :| 0 <= k < |rest| && Alone(c, rest[k], candidates, lib) { assert Alone(c, events[k], candidates, lib); }
  }

  lemma EventOrder(s: Selection, e: Event, candidates: seq<Authority>, lib: Library, c: Authority)
    ensures c in OrderOf(ObserveEvent(s, e, candidates, lib), c.repo) <==> c in OrderOf(s, c.repo) || Alone(c, e, candidates, lib)
  {
    if CommandStart(e, lib) {
      var matches := Matching(e.tool.value, candidates, lib);
      if |matches| > 1 { InvalidateKeepsOrder(s, matches); }
      if |matches| == 1 { assert matches == [matches[0]]; }
    }
  }

  lemma {:induction false} ObservedIff(s: Selection, events: seq<Event>, candidates: seq<Authority>, lib: Library,
          c: Authority)
    ensures c in OrderOf(ObserveAll(s, events, candidates, lib), c.repo) <==> c in OrderOf(s, c.repo) || RunAlone(c, events, candidates, lib)
  {
    hide RunAlone, Alone, ObserveEvent, OrderOf;
    if events != [] {
      var n := |events| - 1;
      ObservedIff(s, events[..n], candidates, lib, c);
      RunAloneStep(c, events, candidates, lib);
      EventOrder(ObserveAll(s, events[..n], candidates, lib), events[n], candidates, lib, c);
    } else {
      NeverRunAlone(c, candidates, lib);
    }
  }

  lemma NeverRunAlone(c: Authority, candidates: seq<Authority>, lib: Library)
    ensures !RunAlone(c, [], candidates, lib)
  {
  }

  /** An automatic candidate counts exactly when it was proposed, or run by a command standing for it alone. */
  lemma CandidateCountsIff(resources: seq<Resource>, frozen: seq<seq<Authority>>, events: seq<Event>, lib: Library,
          c: Authority)
    requires |frozen| == |resources|
    ensures c in OrderOf(Selected(resources, frozen, events, lib), c.repo) <==>
              c in OrderOf(Started(resources, frozen, FinalBlock(events, lib), lib), c.repo) ||
              RunAlone(c, events, Candidates(resources, frozen), lib)
  {
    ObservedIff(Started(resources, frozen, FinalBlock(events, lib), lib), events, Candidates(resources, frozen), lib, c);
  }
}
