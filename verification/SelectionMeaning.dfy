/** What an acceptable selection is, what it becomes, and what the agent's commands make of it. */
module SelectionMeaning {
  import opened Common
  import opened ResourceAuthority
  import opened ResourceSelection

  // ---- One proposed check --------------------------------------------------------------------

  /** The proposal is plain text, canonical, and runs where the frozen policy already runs something. */
  ghost predicate Acceptable(p: Proposal, r: Resource, lib: Library) {
    lib.plainText(lib.trim(p.name), 256) && lib.trim(p.command) == p.command && lib.trim(p.directory) == p.directory &&
    p.directory != "" &&
    (p.directory == "." || p.directory in r.preparation || exists c :: c in r.commands && c.directory == p.directory)
  }

  function Invocation(argv: seq<string>, where: string, lib: Library): Option<string> {
    match (lib.canonical(["cd", where]), lib.canonical(argv))
    case (Some(cd), Some(text)) => Some(cd + " && " + text)
    case _ => None
  }

  /** The canonical invocation exists and is recognised as just this command in just this directory. */
  ghost predicate Recognised(argv: seq<string>, where: string, lib: Library) {
    Invocation(argv, where, lib).Some? && lib.normalize(Invocation(argv, where, lib).value) == Some(Observed(argv, where, true))
  }

  function Identity(argv: seq<string>, where: string, lib: Library): string { lib.digest(lib.semantic(argv, where)) }

  /** The candidate is the only one of that identity. */
  ghost predicate OnlyOne(frozen: seq<Authority>, identity: string, a: Authority, lib: Library) {
    exists i :: OnlyAt(frozen, identity, a, i, lib)
  }

  ghost predicate OnlyAt(frozen: seq<Authority>, identity: string, a: Authority, i: int, lib: Library) {
    0 <= i < |frozen| && frozen[i] == a && forall j :: 0 <= j < |frozen| ==> (SemanticDigest(frozen[j], lib) == identity <==> j == i)
  }

  ghost predicate NoneOf(frozen: seq<Authority>, identity: string, lib: Library) {
    forall j :: 0 <= j < |frozen| ==> SemanticDigest(frozen[j], lib) != identity
  }

  /** The check a new proposal becomes. */
  function Fresh(p: Proposal, r: Resource, argv: seq<string>, lib: Library): Authority
    requires Invocation(argv, Directory(r.locator, p.directory), lib).Some?
  {
    var where := Directory(r.locator, p.directory);
    Authority(r.repo, r.locator, r.mode,
      CheckCommand(lib.proposalID(r.repo, Identity(argv, where, lib)), lib.trim(p.name), 1, "agent_proposed", argv, p.directory),
      Invocation(argv, where, lib).value)
  }

  /** The proposal stands for this check: the one frozen candidate it repeats, or a new one. */
  ghost predicate Stands(p: Proposal, r: Resource, frozen: seq<Authority>, a: Authority, lib: Library) {
    Acceptable(p, r, lib) && lib.parse(p.command).Some? &&
    var argv, where := lib.parse(p.command).value, Directory(r.locator, p.directory);
    Recognised(argv, where, lib) &&
    var identity := Identity(argv, where, lib);
    OnlyOne(frozen, identity, a, lib) || (NoneOf(frozen, identity, lib) && a == Fresh(p, r, argv, lib))
  }

  lemma {:induction false} WithDigestNone(frozen: seq<Authority>, digest: string, lib: Library)
    ensures WithDigest(frozen, digest, lib) == [] <==> NoneOf(frozen, digest, lib)
  {
    if frozen != [] {
      var rest := frozen[1..];
      WithDigestNone(rest, digest, lib);
      assert forall j :: 0 < j < |frozen| ==> frozen[j] == rest[j - 1];
      if NoneOf(rest, digest, lib) && SemanticDigest(frozen[0], lib) != digest {
        assert NoneOf(frozen, digest, lib);
      }
      if NoneOf(frozen, digest, lib) {
        assert forall j :: 0 <= j < |rest| ==> rest[j] == frozen[j + 1];
      }
    }
  }

  lemma OnlyHead(frozen: seq<Authority>, digest: string, a: Authority, lib: Library)
    requires frozen != [] && SemanticDigest(frozen[0], lib) == digest
    ensures OnlyOne(frozen, digest, a, lib) <==> a == frozen[0] && NoneOf(frozen[1..], digest, lib)
  {
    hide SemanticDigest;
    var rest := frozen[1..];
    assert forall j :: 0 < j < |frozen| ==> frozen[j] == rest[j - 1];
    assert forall j :: 0 <= j < |rest| ==> rest[j] == frozen[j + 1];
    if a == frozen[0] && NoneOf(rest, digest, lib) { assert OnlyAt(frozen, digest, a, 0, lib); }
  }

  lemma OnlyLater(frozen: seq<Authority>, digest: string, a: Authority, lib: Library)
    requires frozen != [] && SemanticDigest(frozen[0], lib) != digest
    ensures OnlyOne(frozen, digest, a, lib) <==> OnlyOne(frozen[1..], digest, a, lib)
  {
    hide SemanticDigest;
    var rest := frozen[1..];
    assert forall j :: 0 < j < |frozen| ==> frozen[j] == rest[j - 1];
    assert forall j :: 0 <= j < |rest| ==> rest[j] == frozen[j + 1];
    if i :| OnlyAt(rest, digest, a, i, lib) { assert OnlyAt(frozen, digest, a, i + 1, lib); }
    if i :| OnlyAt(frozen, digest, a, i, lib) { assert OnlyAt(rest, digest, a, i - 1, lib); }
  }

  lemma {:induction false} WithDigestOne(frozen: seq<Authority>, digest: string, a: Authority, lib: Library)
    ensures WithDigest(frozen, digest, lib) == [a] <==> OnlyOne(frozen, digest, a, lib)
  {
    hide SemanticDigest, OnlyOne, NoneOf;
    if frozen == [] {
      NoneInEmpty(digest, a, lib);
    } else if SemanticDigest(frozen[0], lib) == digest {
      WithDigestNone(frozen[1..], digest, lib);
      OnlyHead(frozen, digest, a, lib);
      assert [frozen[0]] + [] == [frozen[0]];
    } else {
      WithDigestOne(frozen[1..], digest, a, lib);
      OnlyLater(frozen, digest, a, lib);
      assert [] + WithDigest(frozen[1..], digest, lib) == WithDigest(frozen[1..], digest, lib);
    }
  }

  lemma NoneInEmpty(digest: string, a: Authority, lib: Library)
    ensures !OnlyOne([], digest, a, lib)
  {
  }

  lemma NewMeans(repo: string, mode: Mode, command: CheckCommand, locator: string, lib: Library)
    ensures var where := Directory(locator, command.directory);
            NewAuthority(repo, mode, command, locator, lib) ==
            if Recognised(command.argv, where, lib) then Some(Authority(repo, locator, mode, command, Invocation(command.argv, where, lib).value)) else None
  {
  }

  /** A proposal is taken exactly for the check it stands for, if that was not proposed before. */
  lemma ProposalStands(p: Proposal, r: Resource, frozen: seq<Authority>, seen: set<string>, a: Authority, lib: Library)
    ensures Propose(p, r, frozen, seen, lib) == Some((a, SemanticDigest(a, lib))) <==>
              Stands(p, r, frozen, a, lib) && SemanticDigest(a, lib) !in seen
    ensures Propose(p, r, frozen, seen, lib).Some? ==>
              var (a, digest) := Propose(p, r, frozen, seen, lib).value; digest == SemanticDigest(a, lib)
  {
    hide NewAuthority, OnlyOne, NoneOf, Recognised;
    if CanonicalProposal(p, r, lib) && lib.parse(p.command).Some? {
      var argv, where := lib.parse(p.command).value, Directory(r.locator, p.directory);
      var command := CheckCommand("proposal", lib.trim(p.name), 1, "agent_proposed", argv, p.directory);
      var identity := Identity(argv, where, lib);
      NewMeans(r.repo, r.mode, command, r.locator, lib);
      NewMeans(r.repo, r.mode, command.(id := lib.proposalID(r.repo, identity)), r.locator, lib);
      var same := WithDigest(frozen, identity, lib);
      WithDigestNone(frozen, identity, lib);
      WithDigestOne(frozen, identity, a, lib);
      assert |same| > 0 ==> same[0] in same;
      assert |same| == 1 ==> same == [same[0]];
    }
  }

  // ---- All checks proposed for one repository ------------------------------------------------

  /** One check for each proposal, in order, no two of one identity. */
  ghost predicate AllStand(ps: seq<Proposal>, r: Resource, frozen: seq<Authority>, order: seq<Authority>, lib: Library) {
    |order| == |ps| && (forall k :: 0 <= k < |ps| ==> Stands(ps[k], r, frozen, order[k], lib)) &&
    (forall j, k :: 0 <= j < k < |order| ==> SemanticDigest(order[j], lib) != SemanticDigest(order[k], lib))
  }

  ghost predicate Unseen(order: seq<Authority>, seen: set<string>, lib: Library) {
    forall k :: 0 <= k < |order| ==> SemanticDigest(order[k], lib) !in seen
  }

  lemma AllStandStep(ps: seq<Proposal>, r: Resource, frozen: seq<Authority>, order: seq<Authority>, seen: set<string>,
          lib: Library)
    requires ps != [] && order != []
    ensures AllStand(ps, r, frozen, order, lib) && Unseen(order, seen, lib) <==>
              Stands(ps[0], r, frozen, order[0], lib) && SemanticDigest(order[0], lib) !in seen &&
              AllStand(ps[1..], r, frozen, order[1..], lib) && Unseen(order[1..], seen + {SemanticDigest(order[0], lib)}, lib)
  {
    hide Stands, SemanticDigest;
    var rest, later := ps[1..], order[1..];
    assert forall k :: 0 <= k < |rest| ==> rest[k] == ps[k + 1];
    assert forall k :: 0 <= k < |later| ==> later[k] == order[k + 1];
    assert forall k :: 0 < k < |ps| ==> ps[k] == rest[k - 1];
    assert forall k :: 0 < k < |order| ==> order[k] == later[k - 1];
  }

  lemma {:induction false} ProposalsStand(ps: seq<Proposal>, r: Resource, frozen: seq<Authority>, seen: set<string>,
          order: seq<Authority>, lib: Library)
    ensures ProposeAll(ps, r, frozen, seen, lib) == Some(order) <==> AllStand(ps, r, frozen, order, lib) && Unseen(order, seen, lib)
  {
    hide Propose, Stands, SemanticDigest;
    if ps != [] {
      var next := Propose(ps[0], r, frozen, seen, lib);
      if next.Some? { ProposalStands(ps[0], r, frozen, seen, next.value.0, lib); }
      if order != [] {
        var digest := SemanticDigest(order[0], lib);
        ProposalStands(ps[0], r, frozen, seen, order[0], lib);
        ProposalsStand(ps[1..], r, frozen, seen + {digest}, order[1..], lib);
        AllStandStep(ps, r, frozen, order, seen, lib);
        assert order == [order[0]] + order[1..];
      }
    }
  }

  // ---- The whole selection -------------------------------------------------------------------

  function TotalChecks(ps: seq<RepositoryProposal>): nat { if ps == [] then 0 else TotalChecks(ps[..|ps| - 1]) + |ps[|ps| - 1].checks| }

  /** The last automatic resource of that name. */
  ghost predicate IsAutomatic(resources: seq<Resource>, repo: string, i: int) {
    0 <= i < |resources| && resources[i].repo == repo && resources[i].mode.Auto? &&
    forall j :: i < j < |resources| && resources[j].mode.Auto? ==> resources[j].repo != repo
  }

  /** The part of one repository: a reason in plain text, and either checks that all stand for one or none at all. */
  ghost predicate PartHolds(p: RepositoryProposal, resources: seq<Resource>, frozen: seq<seq<Authority>>,
          checks: seq<Authority>, lib: Library)
    requires |frozen| == |resources|
  {
    lib.plainText(lib.trim(p.explanation), 2048) && (p.noApplicable <==> p.checks == []) &&
    exists i :: IsAutomatic(resources, p.repo, i) && AllStand(p.checks, resources[i], frozen[i], checks, lib)
  }

  predicate Mentions(ps: seq<RepositoryProposal>, repo: string) { exists k :: 0 <= k < |ps| && ps[k].repo == repo }

  /** Each repository once, at most 64 checks in all, and the table holds what each part stands for. */
  ghost predicate Selects(ps: seq<RepositoryProposal>, resources: seq<Resource>, frozen: seq<seq<Authority>>,
          order: map<string, seq<Authority>>, lib: Library)
    requires |frozen| == |resources|
  {
    TotalChecks(ps) <= 64 && (forall j, k :: 0 <= j < k < |ps| ==> ps[j].repo != ps[k].repo) &&
    (forall repo :: repo in order ==> Mentions(ps, repo)) &&
    (forall k :: 0 <= k < |ps| ==> ps[k].repo in order && PartHolds(ps[k], resources, frozen, order[ps[k].repo], lib))
  }

  lemma {:induction false} AutoIndexMeans(resources: seq<Resource>, repo: string, i: int)
    ensures IsAutomatic(resources, repo, i) <==> AutoIndex(resources, repo).Some? && AutoIndex(resources, repo).value == i
  {
    if resources != [] {
      var n := |resources| - 1;
      AutoIndexMeans(resources[..n], repo, i);
      assert forall j :: 0 <= j < n ==> resources[..n][j] == resources[j];
      if AutoIndex(resources, repo).Some? {
        var last := resources[n];
        assert last.repo == repo && last.mode.Auto? ==> IsAutomatic(resources, repo, n);
      }
    }
  }

  /** What is done with one part, given the number of checks before it. */
  lemma PartIsSelected(p: RepositoryProposal, resources: seq<Resource>, frozen: seq<seq<Authority>>, total: nat,
          checks: seq<Authority>, lib: Library)
    requires |frozen| == |resources| && total <= 64
    ensures (AutoIndex(resources, p.repo).Some? &&
             SelectRepository(p, resources[AutoIndex(resources, p.repo).value], frozen[AutoIndex(resources, p.repo).value], total, lib) == Some(checks)) <==>
              PartHolds(p, resources, frozen, checks, lib) && total + |p.checks| <= 64
  {
    hide AllStand, AutoIndex, IsAutomatic, ProposeAll;
    match AutoIndex(resources, p.repo) {
      case None =>
        forall i ensures !IsAutomatic(resources, p.repo, i) { AutoIndexMeans(resources, p.repo, i); }
      case Some(n) =>
        forall i ensures IsAutomatic(resources, p.repo, i) <==> i == n { AutoIndexMeans(resources, p.repo, i); }
        ProposalsStand(p.checks, resources[n], frozen[n], {}, checks, lib);
        NoneSeen(checks, lib);
        if p.checks == [] { NothingStands(resources[n], frozen[n], checks, lib); }
    }
  }

  lemma NoneSeen(order: seq<Authority>, lib: Library)
    ensures Unseen(order, {}, lib)
  {
  }

  lemma NothingStands(r: Resource, frozen: seq<Authority>, order: seq<Authority>, lib: Library)
    ensures AllStand([], r, frozen, order, lib) <==> order == []
  {
  }

  lemma MentionsStep(ps: seq<RepositoryProposal>, repo: string)
    requires ps != []
    ensures Mentions(ps, repo) <==> Mentions(ps[..|ps| - 1], repo) || ps[|ps| - 1].repo == repo
  {
    var rest := ps[..|ps| - 1];
    if k :| 0 <= k < |rest| && rest[k].repo == repo { assert ps[k].repo == repo; }
    if k :| 0 <= k < |ps| && ps[k].repo == repo { assert k < |rest| ==> rest[k].repo == repo; }
  }

  lemma SelectsBefore(ps: seq<RepositoryProposal>, resources: seq<Resource>, frozen: seq<seq<Authority>>,
          order: map<string, seq<Authority>>, lib: Library)
    requires |frozen| == |resources| && ps != [] && Selects(ps, resources, frozen, order, lib)
    ensures var last := ps[|ps| - 1]; var rest := ps[..|ps| - 1];
            Selects(rest, resources, frozen, order - {last.repo}, lib) && TotalChecks(rest) + |last.checks| <= 64 &&
            last.repo in order && PartHolds(last, resources, frozen, order[last.repo], lib)
  {
    hide PartHolds, Mentions;
    var n := |ps| - 1;
    var rest, before := ps[..n], order - {ps[n].repo};
    assert forall k :: 0 <= k < n ==> rest[k] == ps[k];
    forall repo | repo in before ensures Mentions(rest, repo) { MentionsStep(ps, repo); }
    forall k | 0 <= k < n ensures rest[k].repo in before && PartHolds(rest[k], resources, frozen, before[rest[k].repo], lib) {
      assert ps[k].repo in order && ps[k].repo != ps[n].repo;
    }
  }

  lemma SelectsAfter(ps: seq<RepositoryProposal>, resources: seq<Resource>, frozen: seq<seq<Authority>>,
          before: map<string, seq<Authority>>, checks: seq<Authority>, lib: Library)
    requires |frozen| == |resources| && ps != []
    requires Selects(ps[..|ps| - 1], resources, frozen, before, lib)
    requires ps[|ps| - 1].repo !in before && TotalChecks(ps[..|ps| - 1]) + |ps[|ps| - 1].checks| <= 64
    requires PartHolds(ps[|ps| - 1], resources, frozen, checks, lib)
    ensures Selects(ps, resources, frozen, before[ps[|ps| - 1].repo := checks], lib)
  {
    hide PartHolds, Mentions;
    var n := |ps| - 1;
    var rest, order := ps[..n], before[ps[n].repo := checks];
    assert forall k :: 0 <= k < n ==> rest[k] == ps[k];
    forall repo | repo in order ensures Mentions(ps, repo) { MentionsStep(ps, repo); }
    forall k | 0 <= k < |ps| ensures ps[k].repo in order && PartHolds(ps[k], resources, frozen, order[ps[k].repo], lib) {
      if k < n { assert rest[k].repo in before; }
    }
    forall j, k | 0 <= j < k < |ps| ensures ps[j].repo != ps[k].repo {
      assert rest[j].repo in before;
      if k < n { assert rest[j].repo != rest[k].repo; }
    }
  }

  lemma SelectsFew(ps: seq<RepositoryProposal>, resources: seq<Resource>, frozen: seq<seq<Authority>>,
          order: map<string, seq<Authority>>, lib: Library)
    requires |frozen| == |resources| && Selects(ps, resources, frozen, order, lib)
    ensures TotalChecks(ps) <= 64
  {
  }

  lemma {:induction false} SelectAllSelects(ps: seq<RepositoryProposal>, resources: seq<Resource>, frozen: seq<seq<Authority>>,
          lib: Library)
    requires |frozen| == |resources| && SelectAll(ps, resources, frozen, lib).Some?
    ensures var (order, total) := SelectAll(ps, resources, frozen, lib).value; Selects(ps, resources, frozen, order, lib) && total == TotalChecks(ps)
  {
    hide PartHolds, Selects, SelectRepository, AutoIndex;
    if ps == [] {
      NothingSelected(resources, frozen, lib);
    } else {
      var last, rest := ps[|ps| - 1], ps[..|ps| - 1];
      SelectAllSelects(rest, resources, frozen, lib);
      var (before, total) := SelectAll(rest, resources, frozen, lib).value;
      SelectsFew(rest, resources, frozen, before, lib);
      var i := AutoIndex(resources, last.repo).value;
      var checks := SelectRepository(last, resources[i], frozen[i], total, lib).value;
      PartIsSelected(last, resources, frozen, total, checks, lib);
      SelectsAfter(ps, resources, frozen, before, checks, lib);
    }
  }

  lemma NothingSelected(resources: seq<Resource>, frozen: seq<seq<Authority>>, lib: Library)
    requires |frozen| == |resources|
    ensures Selects([], resources, frozen, map[], lib)
  {
  }

  lemma NothingElse(resources: seq<Resource>, frozen: seq<seq<Authority>>, order: map<string, seq<Authority>>, lib: Library)
    requires |frozen| == |resources| && Selects([], resources, frozen, order, lib)
    ensures order == map[]
  {
    assert forall repo :: repo in order ==> Mentions([], repo);
  }

  lemma {:induction false} SelectsAreSelected(ps: seq<RepositoryProposal>, resources: seq<Resource>, frozen: seq<seq<Authority>>,
          order: map<string, seq<Authority>>, lib: Library)
    requires |frozen| == |resources| && Selects(ps, resources, frozen, order, lib)
    ensures SelectAll(ps, resources, frozen, lib) == Some((order, TotalChecks(ps)))
  {
    hide PartHolds, SelectRepository, AutoIndex, Selects;
    if ps == [] {
      NothingElse(resources, frozen, order, lib);
    } else {
      var last, rest := ps[|ps| - 1], ps[..|ps| - 1];
      SelectsBefore(ps, resources, frozen, order, lib);
      var before := order - {last.repo};
      SelectsAreSelected(rest, resources, frozen, before, lib);
      PartIsSelected(last, resources, frozen, TotalChecks(rest), order[last.repo], lib);
      assert before[last.repo := order[last.repo]] == order;
    }
  }

  /**
   A selection is accepted, and gives this table, if and only if it has one to sixteen repositories, each
   once and automatic, each with its reason, with checks that all stand for one or with none, and at most
   64 checks in all.
   */
  lemma SelectionAccepted(ps: seq<RepositoryProposal>, resources: seq<Resource>, frozen: seq<seq<Authority>>,
          order: map<string, seq<Authority>>, lib: Library)
    requires |frozen| == |resources|
    ensures Validated(ps, resources, frozen, lib) == Some(order) <==> 1 <= |ps| <= 16 && Selects(ps, resources, frozen, order, lib)
  {
    hide Selects, SelectAll;
    if SelectAll(ps, resources, frozen, lib).Some? { SelectAllSelects(ps, resources, frozen, lib); }
    if Selects(ps, resources, frozen, order, lib) { SelectsAreSelected(ps, resources, frozen, order, lib); }
  }

  // ---- The start of the selection ------------------------------------------------------------

  /** Some table holds what the block selects. */
  ghost predicate Sound(ps: seq<RepositoryProposal>, resources: seq<Resource>, frozen: seq<seq<Authority>>, lib: Library)
    requires |frozen| == |resources|
  {
    1 <= |ps| <= 16 && exists order :: Selects(ps, resources, frozen, order, lib)
  }

  ghost predicate Proposed(repo: string, block: Block, resources: seq<Resource>, frozen: seq<seq<Authority>>, lib: Library)
    requires |frozen| == |resources|
  {
    block.SelectionBlock? && Sound(block.repositories, resources, frozen, lib) && Mentions(block.repositories, repo)
  }

  /** The block says that none of the repository's checks apply. */
  ghost predicate Waived(repo: string, block: Block, resources: seq<Resource>, frozen: seq<seq<Authority>>, lib: Library)
    requires |frozen| == |resources|
  {
    block.SelectionBlock? && Sound(block.repositories, resources, frozen, lib) &&
    exists k :: 0 <= k < |block.repositories| && block.repositories[k].repo == repo && block.repositories[k].noApplicable
  }

  ghost predicate Refused(block: Block, resources: seq<Resource>, frozen: seq<seq<Authority>>, lib: Library)
    requires |frozen| == |resources|
  {
    block.BadBlock? || (block.SelectionBlock? && !Sound(block.repositories, resources, frozen, lib))
  }

  function RefusedFor(block: Block): Reason { if block.BadBlock? then InvalidBlock else InvalidSelection }

  lemma FinalBlockMeans(events: seq<Event>, i: nat, lib: Library)
    requires i < |events| && events[i].Message? && forall j :: i < j < |events| ==> !events[j].Message?
    ensures FinalBlock(events, lib) == lib.read(events[i].payload)
    decreases |events|
  {
    if i < |events| - 1 { FinalBlockMeans(events[..|events| - 1], i, lib); }
  }

  lemma {:induction false} NoMessageNoBlock(events: seq<Event>, lib: Library)
    requires forall j :: 0 <= j < |events| ==> !events[j].Message?
    ensures FinalBlock(events, lib) == NoBlock
  {
    if events != [] { NoMessageNoBlock(events[..|events| - 1], lib); }
  }

  lemma SoundIff(ps: seq<RepositoryProposal>, resources: seq<Resource>, frozen: seq<seq<Authority>>, lib: Library)
    requires |frozen| == |resources|
    ensures Validated(ps, resources, frozen, lib).Some? <==> Sound(ps, resources, frozen, lib)
  {
    hide Validated, Selects;
    var v := Validated(ps, resources, frozen, lib);
    if v.Some? { SelectionAccepted(ps, resources, frozen, v.value, lib); }
    if Sound(ps, resources, frozen, lib) {
      var order :| Selects(ps, resources, frozen, order, lib);
      SelectionAccepted(ps, resources, frozen, order, lib);
    }
  }

  lemma SelectsMentioned(ps: seq<RepositoryProposal>, resources: seq<Resource>, frozen: seq<seq<Authority>>,
          order: map<string, seq<Authority>>, repo: string, lib: Library)
    requires |frozen| == |resources| && Selects(ps, resources, frozen, order, lib)
    ensures repo in order <==> Mentions(ps, repo)
  {
    hide PartHolds;
  }

  /** How the selection of an automatic repository starts: from the last message, and nothing else. */
  lemma StartMeans(resources: seq<Resource>, frozen: seq<seq<Authority>>, block: Block, lib: Library, i: nat)
    requires |frozen| == |resources| && DistinctRepositories(resources) && i < |resources| && resources[i].mode.Auto?
    ensures var s := Started(resources, frozen, block, lib); var repo := resources[i].repo;
            (repo in s.invalid <==> Refused(block, resources, frozen, lib)) &&
            (repo in s.invalid ==> s.invalid[repo] == RefusedFor(block)) &&
            (repo in s.noApplicable <==> Waived(repo, block, resources, frozen, lib)) &&
            (repo in s.source <==> Proposed(repo, block, resources, frozen, lib)) &&
            (repo in s.source ==> s.source[repo] == AgentProposed) &&
            (repo in s.order <==> Proposed(repo, block, resources, frozen, lib))
  {
    hide Validated, Selects, Sound, Policies, Mentions;
    PolicyOf(resources, i);
    assert resources[i].repo in AutoRepositories(resources);
    if block.SelectionBlock? {
      var ps := block.repositories;
      SoundIff(ps, resources, frozen, lib);
      var v := Validated(ps, resources, frozen, lib);
      if v.Some? {
        SelectionAccepted(ps, resources, frozen, v.value, lib);
        SelectsMentioned(ps, resources, frozen, v.value, resources[i].repo, lib);
      }
    }
  }

  // ---- What the commands change --------------------------------------------------------------

  function MatchedBy(e: Event, candidates: seq<Authority>, lib: Library): seq<Authority> {
    if CommandStart(e, lib) then Matching(e.tool.value, candidates, lib) else []
  }

  /** A command stood for several candidates, one of them of this repository. */
  predicate Clashes(repo: string, e: Event, candidates: seq<Authority>, lib: Library) {
    |MatchedBy(e, candidates, lib)| > 1 && exists a :: a in MatchedBy(e, candidates, lib) && a.repo == repo
  }

  predicate RunsOne(repo: string, e: Event, candidates: seq<Authority>, lib: Library) {
    |MatchedBy(e, candidates, lib)| == 1 && MatchedBy(e, candidates, lib)[0].repo == repo
  }

  predicate Clashed(repo: string, events: seq<Event>, candidates: seq<Authority>, lib: Library) {
    exists k :: 0 <= k < |events| && Clashes(repo, events[k], candidates, lib)
  }

  predicate RanOne(repo: string, events: seq<Event>, candidates: seq<Authority>, lib: Library) {
    exists k :: 0 <= k < |events| && RunsOne(repo, events[k], candidates, lib)
  }

  lemma ClashedStep(repo: string, events: seq<Event>, candidates: seq<Authority>, lib: Library)
    requires events != []
    ensures Clashed(repo, events, candidates, lib) <==>
              Clashed(repo, events[..|events| - 1], candidates, lib) || Clashes(repo, events[|events| - 1], candidates, lib)
    ensures RanOne(repo, events, candidates, lib) <==>
              RanOne(repo, events[..|events| - 1], candidates, lib) || RunsOne(repo, events[|events| - 1], candidates, lib)
  {
    hide Clashes, RunsOne;
    var rest := events[..|events| - 1];
    assert forall k :: 0 <= k < |rest| ==> rest[k] == events[k];
    if k :| 0 <= k < |rest| && Clashes(repo, rest[k], candidates, lib) { assert Clashes(repo, events[k], candidates, lib); }
    if k :| 0 <= k < |rest| && RunsOne(repo, rest[k], candidates, lib) { assert RunsOne(repo, events[k], candidates, lib); }
  }

  lemma {:induction false} InvalidateMeans(s: Selection, matches: seq<Authority>, repo: string)
    ensures var s' := Invalidate(s, matches); var hit := exists a :: a in matches && a.repo == repo;
            s'.order == s.order && s'.source == s.source && (repo in s'.noApplicable <==> repo in s.noApplicable && !hit) &&
            (repo in s'.invalid <==> repo in s.invalid || hit) &&
            (repo in s'.invalid ==> s'.invalid[repo] == if hit then AmbiguousCandidate else s.invalid[repo])
  {
    if matches != [] {
      var n := |matches| - 1;
      InvalidateMeans(s, matches[..n], repo);
      assert forall a :: a in matches <==> a in matches[..n] || a == matches[n] by { assert matches == matches[..n] + [matches[n]]; }
    }
  }

  /** Without a source nothing of the repository was chosen. */
  predicate Listed(s: Selection, repo: string) { repo !in s.source ==> OrderOf(s, repo) == [] }

  /** What one event does to what is said of a repository. */
  ghost predicate Turns(repo: string, s: Selection, s': Selection, clash: bool, run: bool) {
    (repo in s'.invalid <==> repo in s.invalid || clash || (repo in s.noApplicable && run)) &&
    (repo in s'.invalid ==>
       s'.invalid[repo] == if clash then AmbiguousCandidate else if repo in s.noApplicable && run then ExecutedAfterNone else s.invalid[repo]) &&
    (repo in s'.noApplicable <==> repo in s.noApplicable && !clash && !run) &&
    (repo in s'.source <==> repo in s.source || run) &&
    (repo in s'.source ==> s'.source[repo] == if repo in s.source then s.source[repo] else CandidateExecution) && Listed(s', repo)
  }

  lemma EventTurns(s: Selection, e: Event, candidates: seq<Authority>, lib: Library, repo: string)
    requires Listed(s, repo)
    ensures Turns(repo, s, ObserveEvent(s, e, candidates, lib), Clashes(repo, e, candidates, lib), RunsOne(repo, e, candidates, lib))
  {
    hide Matching, Invalidate;
    var matches := MatchedBy(e, candidates, lib);
    if |matches| > 1 { InvalidateMeans(s, matches, repo); }
  }

  /** A clash is final: whatever runs later, the repository's checks are ambiguous. */
  lemma {:induction false} RunsTurn(s: Selection, events: seq<Event>, candidates: seq<Authority>, lib: Library, repo: string)
    requires Listed(s, repo)
    ensures Turns(repo, s, ObserveAll(s, events, candidates, lib), Clashed(repo, events, candidates, lib), RanOne(repo, events, candidates, lib))
  {
    hide ObserveEvent, Clashes, RunsOne;
    if events != [] {
      var n := |events| - 1;
      RunsTurn(s, events[..n], candidates, lib, repo);
      ClashedStep(repo, events, candidates, lib);
      EventTurns(ObserveAll(s, events[..n], candidates, lib), events[n], candidates, lib, repo);
    }
  }

  lemma {:induction false} CandidatesMean(resources: seq<Resource>, frozen: seq<seq<Authority>>, a: Authority)
    requires |frozen| == |resources|
    ensures a in Candidates(resources, frozen) <==> exists i :: 0 <= i < |resources| && resources[i].mode.Auto? && a in frozen[i]
  {
    if resources != [] {
      var n := |resources| - 1;
      CandidatesMean(resources[..n], frozen[..n], a);
      assert forall i :: 0 <= i < n ==> resources[..n][i] == resources[i] && frozen[..n][i] == frozen[i];
    }
  }

  // ---- The selection of an automatic repository ----------------------------------------------

  /** Everything said of an automatic repository, in terms of the last message and the commands observed. */
  lemma SelectionMeans(resources: seq<Resource>, frozen: seq<seq<Authority>>, events: seq<Event>, lib: Library, i: nat)
    requires |frozen| == |resources| && DistinctRepositories(resources) && i < |resources| && resources[i].mode.Auto?
    ensures var s := Selected(resources, frozen, events, lib); var repo, block := resources[i].repo, FinalBlock(events, lib);
            var candidates := Candidates(resources, frozen);
            var clash, run := Clashed(repo, events, candidates, lib), RanOne(repo, events, candidates, lib);
            var refused, waived := Refused(block, resources, frozen, lib), Waived(repo, block, resources, frozen, lib);
            var proposed := Proposed(repo, block, resources, frozen, lib);
            (repo in s.invalid <==> refused || clash || (waived && run)) &&
            (repo in s.invalid ==> s.invalid[repo] == if clash then AmbiguousCandidate else if waived && run then ExecutedAfterNone else RefusedFor(block)) &&
            (repo in s.noApplicable <==> waived && !clash && !run) && (repo in s.source <==> proposed || run) &&
            (repo in s.source ==> s.source[repo] == if proposed then AgentProposed else CandidateExecution)
  {
    hide Started, Clashed, RanOne, Refused, Waived, Proposed, ObserveAll, Candidates, FinalBlock;
    var block := FinalBlock(events, lib);
    StartMeans(resources, frozen, block, lib, i);
    RunsTurn(Started(resources, frozen, block, lib), events, Candidates(resources, frozen), lib, resources[i].repo);
  }

  // ---- The order of the checks ---------------------------------------------------------------

  /** One candidate was run before the other ever was. */
  ghost predicate RunBefore(a: Authority, b: Authority, events: seq<Event>, candidates: seq<Authority>, lib: Library) {
    exists k :: 0 <= k < |events| && Alone(a, events[k], candidates, lib) && !RunAlone(b, events[..k + 1], candidates, lib)
  }

  /** The later checks of the repository were run and not chosen at the start; they stand in the order of their first runs. */
  ghost predicate AddedInOrder(repo: string, start: seq<Authority>, later: seq<Authority>, events: seq<Event>,
          candidates: seq<Authority>, lib: Library) {
    (forall k :: 0 <= k < |later| ==> later[k] !in start && later[k].repo == repo && RunAlone(later[k], events, candidates, lib)) &&
    forall j, k :: 0 <= j < k < |later| ==> later[j] != later[k] && RunBefore(later[j], later[k], events, candidates, lib)
  }

  lemma RunBeforeStays(a: Authority, b: Authority, events: seq<Event>, candidates: seq<Authority>, lib: Library)
    requires events != [] && RunBefore(a, b, events[..|events| - 1], candidates, lib)
    ensures RunBefore(a, b, events, candidates, lib)
  {
    hide Alone, RunAlone;
    var rest := events[..|events| - 1];
    var k :| 0 <= k < |rest| && Alone(a, rest[k], candidates, lib) && !RunAlone(b, rest[..k + 1], candidates, lib);
    assert rest[..k + 1] == events[..k + 1] && rest[k] == events[k];
  }

  lemma RunBeforeNow(a: Authority, b: Authority, events: seq<Event>, candidates: seq<Authority>, lib: Library)
    requires events != [] && RunAlone(a, events[..|events| - 1], candidates, lib) && !RunAlone(b, events[..|events| - 1], candidates, lib)
    ensures RunBefore(a, b, events, candidates, lib)
  {
    hide Alone;
    var rest := events[..|events| - 1];
    var k :| 0 <= k < |rest| && Alone(a, rest[k], candidates, lib);
    assert forall j :: 0 <= j < k + 1 ==> events[..k + 1][j] == rest[j];
    assert rest[k] == events[k];
  }

  lemma EventAdds(s: Selection, e: Event, candidates: seq<Authority>, lib: Library, repo: string)
    ensures var before, after := OrderOf(s, repo), OrderOf(ObserveEvent(s, e, candidates, lib), repo);
            var matches := MatchedBy(e, candidates, lib);
            after == if RunsOne(repo, e, candidates, lib) && matches[0] !in before then before + [matches[0]] else before
  {
    hide Matching;
    if CommandStart(e, lib) && |Matching(e.tool.value, candidates, lib)| > 1 {
      InvalidateKeepsOrder(s, Matching(e.tool.value, candidates, lib));
    }
  }

  lemma AddedStays(repo: string, start: seq<Authority>, later: seq<Authority>, events: seq<Event>,
          candidates: seq<Authority>, lib: Library)
    requires events != [] && AddedInOrder(repo, start, later, events[..|events| - 1], candidates, lib)
    ensures AddedInOrder(repo, start, later, events, candidates, lib)
  {
    hide RunAlone, RunBefore;
    forall k | 0 <= k < |later| ensures RunAlone(later[k], events, candidates, lib) { RunAloneStep(later[k], events, candidates, lib); }
    forall j, k | 0 <= j < k < |later| ensures RunBefore(later[j], later[k], events, candidates, lib) {
      RunBeforeStays(later[j], later[k], events, candidates, lib);
    }
  }

  lemma AddedNow(repo: string, start: seq<Authority>, later: seq<Authority>, c: Authority, events: seq<Event>,
          candidates: seq<Authority>, lib: Library)
    requires events != [] && AddedInOrder(repo, start, later, events[..|events| - 1], candidates, lib)
    requires c !in start && c.repo == repo && Alone(c, events[|events| - 1], candidates, lib)
    requires !RunAlone(c, events[..|events| - 1], candidates, lib)
    ensures AddedInOrder(repo, start, later + [c], events, candidates, lib)
  {
    hide RunAlone, RunBefore, Alone;
    var both := later + [c];
    AddedStays(repo, start, later, events, candidates, lib);
    RunAloneStep(c, events, candidates, lib);
    forall j | 0 <= j < |later| ensures later[j] != c && RunBefore(later[j], c, events, candidates, lib) {
      RunBeforeNow(later[j], c, events, candidates, lib);
    }
    forall j, k | 0 <= j < k < |both| ensures both[j] != both[k] && RunBefore(both[j], both[k], events, candidates, lib) {
      assert both[j] == later[j];
    }
  }

  /** Running candidates only adds checks at the end, each once, in the order in which they were first run. */
  lemma {:induction false} OrderGrows(s: Selection, events: seq<Event>, candidates: seq<Authority>, lib: Library, repo: string)
    ensures var start, now := OrderOf(s, repo), OrderOf(ObserveAll(s, events, candidates, lib), repo);
            start <= now && AddedInOrder(repo, start, now[|start|..], events, candidates, lib)
  {
    hide AddedInOrder, RunAlone, Alone, ObserveEvent, OrderOf;
    var start := OrderOf(s, repo);
    if events == [] {
      assert start[|start|..] == [];
      NothingAdded(repo, start, candidates, lib);
    } else {
      var n := |events| - 1;
      var before := ObserveAll(s, events[..n], candidates, lib);
      var was := OrderOf(before, repo);
      OrderGrows(s, events[..n], candidates, lib, repo);
      EventAdds(before, events[n], candidates, lib, repo);
      AddedStays(repo, start, was[|start|..], events, candidates, lib);
      if RunsOne(repo, events[n], candidates, lib) && MatchedBy(events[n], candidates, lib)[0] !in was {
        var c := MatchedBy(events[n], candidates, lib)[0];
        OneRunIsAlone(repo, events[n], candidates, lib);
        ObservedIff(s, events[..n], candidates, lib, c);
        AddedNow(repo, start, was[|start|..], c, events, candidates, lib);
        assert (was + [c])[|start|..] == was[|start|..] + [c];
      }
    }
  }

  lemma NothingAdded(repo: string, start: seq<Authority>, candidates: seq<Authority>, lib: Library)
    ensures AddedInOrder(repo, start, [], [], candidates, lib)
  {
  }

  lemma OneRunIsAlone(repo: string, e: Event, candidates: seq<Authority>, lib: Library)
    requires RunsOne(repo, e, candidates, lib)
    ensures Alone(MatchedBy(e, candidates, lib)[0], e, candidates, lib)
  {
    hide Matching;
    var m := MatchedBy(e, candidates, lib);
    assert m == [m[0]];
  }
}
