/**
 Which declared check an observed tool command is. Repositories are told apart by the directory the
 command runs in, whose first component is the repository's workspace locator.
 */
module ResourceAuthority {
  import opened Common
  import opened PatchModel

  datatype Mode = Named | Auto | NoChecks

  datatype Role = WriteRole | ReferenceRole | UnknownRole

  datatype CheckCommand = CheckCommand(id: string, name: string, version: nat, source: string, argv: seq<string>, directory: string)

  datatype Resource = Resource(
    repo: string, locator: string, role: Role, mode: Mode, commands: seq<CheckCommand>, preparation: seq<string>)

  /** A check that may be recognised: a command of one repository and its exact canonical invocation. */
  datatype Authority = Authority(repo: string, locator: string, mode: Mode, command: CheckCommand, expected: string)

  datatype Observed = Observed(argv: seq<string>, directory: string, explicitDirectory: bool)

  /** Fields of a tool event; the two optional ones may be absent. */
  datatype Tool = Tool(
    name: string, call: string, command: string, digest: string, resourceDigest: string, path: string,
    exitCode: Option<int>, toolError: Option<bool>)

  /** The body of a tool event is absent when it cannot be decoded. */
  datatype Event = ToolStart(tool: Option<Tool>) | ToolEnd(tool: Option<Tool>) | Message(payload: string) | OtherEvent

  datatype Proposal = Proposal(name: string, command: string, directory: string)

  datatype RepositoryProposal = RepositoryProposal(repo: string, checks: seq<Proposal>, noApplicable: bool, explanation: string)

  datatype Block = NoBlock | BadBlock | SelectionBlock(repositories: seq<RepositoryProposal>)

  /** Text functions defined elsewhere. */
  datatype Library = Library(
    blank: string -> bool,
    trim: string -> string,
    lower: string -> string,
    commandTool: string -> bool,
    writeTool: string -> bool,
    validDigest: string -> bool,
    validName: string -> bool,
    validLocator: (string, string) -> bool,
    parse: string -> Option<seq<string>>,
    canonical: seq<string> -> Option<string>,
    normalize: string -> Option<Observed>,
    semantic: (seq<string>, string) -> string,
    digest: string -> string,
    pathRepository: string -> Option<string>,
    plainText: (string, nat) -> bool,
    proposalID: (string, string) -> string,
    read: string -> Block)

  /** What is assumed of the digests: no two inputs share one. */
  ghost predicate Injective(lib: Library) {
    (forall a, b :: lib.digest(a) == lib.digest(b) ==> a == b) &&
    (forall argv, cwd, argv', cwd' :: lib.semantic(argv, cwd) == lib.semantic(argv', cwd') ==> argv == argv' && cwd == cwd')
  }

  function Directory(locator: string, directory: string): string {
    if directory == "." then locator else locator + "/" + directory
  }

  function Cwd(a: Authority): string { Directory(a.locator, a.command.directory) }

  function NewAuthority(repo: string, mode: Mode, command: CheckCommand, locator: string,
          lib: Library): Option<Authority> {
    var observedDir := Directory(locator, command.directory);
    match (lib.canonical(command.argv), lib.canonical(["cd", observedDir]))
    case (Some(text), Some(cd)) =>
      var expected := cd + " && " + text;
      if lib.normalize(expected) == Some(Observed(command.argv, observedDir, true)) then Some(Authority(repo, locator, mode, command, expected))
      else None
    case _ => None
  }

  /** The canonical invocation of an authority is recognised as that invocation. */
  predicate WellFormed(a: Authority, lib: Library) {
    lib.normalize(a.expected) == Some(Observed(a.command.argv, Cwd(a), true)) && '/' !in a.locator
  }

  function SemanticDigest(a: Authority, lib: Library): string { lib.digest(lib.semantic(a.command.argv, Cwd(a))) }

  /** The first path component and the rest, `.` when there is none. */
  function SplitDirectory(directory: string, lib: Library): Option<(string, string)> {
    var parts := Split(directory, '/');
    if !lib.validName(parts[0]) then None
    else Some((parts[0], if |parts| > 1 then Join(parts[1..], '/') else "."))
  }

  predicate MatchesObserved(o: Observed, a: Authority, lib: Library) {
    o.explicitDirectory && SplitDirectory(o.directory, lib) == Some((a.locator, a.command.directory)) && a.command.argv == o.argv
  }

  function CommandDigest(tool: Tool, lib: Library): string { lib.lower(lib.trim(tool.digest)) }

  predicate Matches(tool: Tool, a: Authority, lib: Library) {
    var digest := CommandDigest(tool, lib);
    if tool.resourceDigest != "" then
      lib.validDigest(tool.resourceDigest) && lib.validDigest(digest) && SemanticDigest(a, lib) == tool.resourceDigest
    else
      var normalized := lib.normalize(tool.command);
      if digest != "" then
        lib.validDigest(digest) &&
        if normalized.Some? && lib.digest(tool.command) == digest then MatchesObserved(normalized.value, a, lib)
        else lib.digest(a.expected) == digest
      else normalized.Some? && MatchesObserved(normalized.value, a, lib)
  }

  function Matching(tool: Tool, authorities: seq<Authority>, lib: Library): (r: seq<Authority>)
    ensures forall a :: a in r <==> a in authorities && Matches(tool, a, lib)
  {
    if authorities == [] then []
    else (if Matches(tool, authorities[0], lib) then [authorities[0]] else []) + Matching(tool, authorities[1..], lib)
  }

  lemma {:induction false} MatchingAppend(tool: Tool, a: seq<Authority>, b: seq<Authority>, lib: Library)
    ensures Matching(tool, a + b, lib) == Matching(tool, a, lib) + Matching(tool, b, lib)
  {
    if a == [] {
      assert a + b == b;
    } else {
      assert (a + b)[1..] == a[1..] + b;
      MatchingAppend(tool, a[1..], b, lib);
    }
  }

  method Filter(tool: Tool, authorities: seq<Authority>, lib: Library,
          test: Authority -> bool) returns (matches: seq<Authority>)
    requires forall a :: a in authorities ==> (test(a) <==> Matches(tool, a, lib))
    ensures matches == Matching(tool, authorities, lib)
  {
    hide Matches;
    matches := [];
    for k := 0 to |authorities|
      invariant matches == Matching(tool, authorities[..k], lib)
    {
      assert authorities[..k + 1] == authorities[..k] + [authorities[k]];
      MatchingAppend(tool, authorities[..k], [authorities[k]], lib);
      assert [authorities[k]][1..] == [];
      if test(authorities[k]) { matches := matches + [authorities[k]]; }
    }
    assert authorities[..|authorities|] == authorities;
  }

  lemma {:induction false} NoneMatch(tool: Tool, authorities: seq<Authority>, lib: Library)
    requires forall a :: a in authorities ==> !Matches(tool, a, lib)
    ensures Matching(tool, authorities, lib) == []
  {
    if authorities != [] { NoneMatch(tool, authorities[1..], lib); }
  }

  /** The authorities an observed start stands for, and the digest recorded with it. */
  method MatchStart(tool: Tool, authorities: seq<Authority>, lib: Library) returns (matches: seq<Authority>,
          digest: string)
    ensures matches == Matching(tool, authorities, lib) && digest == CommandDigest(tool, lib)
  {
    digest := lib.lower(lib.trim(tool.digest));
    if tool.resourceDigest != "" {
      if !lib.validDigest(tool.resourceDigest) || !lib.validDigest(digest) {
        NoneMatch(tool, authorities, lib);
        return [], digest;
      }
      matches := Filter(tool, authorities, lib, a => SemanticDigest(a, lib) == tool.resourceDigest);
      return;
    }
    var normalized := lib.normalize(tool.command);
    if digest != "" {
      if !lib.validDigest(digest) {
        NoneMatch(tool, authorities, lib);
        return [], digest;
      }
      if normalized.Some? && lib.digest(tool.command) == digest {
        matches := Filter(tool, authorities, lib, a => MatchesObserved(normalized.value, a, lib));
        return;
      }
      matches := Filter(tool, authorities, lib, (a: Authority) => lib.digest(a.expected) == digest);
      return;
    }
    if normalized.None? {
      NoneMatch(tool, authorities, lib);
      return [], digest;
    }
    matches := Filter(tool, authorities, lib, a => MatchesObserved(normalized.value, a, lib));
  }

  // ---- One command, one repository -----------------------------------------------------------

  lemma LocatorIsFirst(a: Authority)
    requires '/' !in a.locator
    ensures Split(Cwd(a), '/')[0] == a.locator
  {
    SplitPrepend(a.locator, a.command.directory, '/');
    if a.command.directory != "." { assert Cwd(a) == a.locator + ['/'] + a.command.directory; }
  }

  /** An observed command never stands for checks of two repositories. */
  lemma OneCommandOneLocator(tool: Tool, a: Authority, b: Authority, lib: Library)
    requires Injective(lib) && WellFormed(a, lib) && WellFormed(b, lib)
    requires Matches(tool, a, lib) && Matches(tool, b, lib)
    ensures a.locator == b.locator
  {
    LocatorIsFirst(a);
    LocatorIsFirst(b);
    if tool.resourceDigest != "" {
      assert lib.semantic(a.command.argv, Cwd(a)) == lib.semantic(b.command.argv, Cwd(b));
      assert Cwd(a) == Cwd(b);
    }
  }

  // ---- The frozen checks ---------------------------------------------------------------------

  predicate ValidCommands(commands: seq<CheckCommand>) {
    (forall i :: 0 <= i < |commands| ==>
      var c := commands[i];
      c.id != "" && c.name != "" && c.version != 0 && c.source != "" && c.directory != "") &&
    (forall i, j :: 0 <= i < j < |commands| ==> commands[i].id != commands[j].id)
  }

  predicate ValidResource(r: Resource, lib: Library) {
    lib.validLocator(r.repo, r.locator) && !r.role.UnknownRole? &&
    (r.mode.NoChecks? ==> r.commands == []) && (r.mode.Named? ==> r.commands != [])
  }

  /** One authority for each command, in order, or None when one of them is not acceptable. */
  function FreezeCommands(r: Resource, commands: seq<CheckCommand>, lib: Library): Option<seq<Authority>> {
    if commands == [] then Some([])
    else
      match (NewAuthority(r.repo, r.mode, commands[0], r.locator, lib), FreezeCommands(r, commands[1..], lib))
      case (Some(a), Some(rest)) => Some([a] + rest)
      case _ => None
  }

  const REPOSITORY_LIMIT := 16

  function FreezeAll(resources: seq<Resource>, lib: Library): Option<seq<seq<Authority>>> {
    if resources == [] then Some([])
    else if !ValidResource(resources[0], lib) || !ValidCommands(resources[0].commands) then None
    else
      match (FreezeCommands(resources[0], resources[0].commands, lib), FreezeAll(resources[1..], lib))
      case (Some(a), Some(rest)) => Some([a] + rest)
      case _ => None
  }

  predicate DistinctRepositories(resources: seq<Resource>) {
    forall i, j :: 0 <= i < j < |resources| ==> resources[i].repo != resources[j].repo
  }

  /** The checks of every resource, in resource order. */
  function Frozen(resources: seq<Resource>, lib: Library): Option<seq<seq<Authority>>> {
    if resources == [] || |resources| > REPOSITORY_LIMIT || !DistinctRepositories(resources) then None
    else FreezeAll(resources, lib)
  }

  predicate Belongs(a: Authority, r: Resource) { a.repo == r.repo && a.locator == r.locator }

  /** A locator is one path component. */
  ghost predicate LocatorsAreNames(resources: seq<Resource>) {
    forall i :: 0 <= i < |resources| ==> '/' !in resources[i].locator
  }

  lemma {:induction false} FreezeCommandsBelong(r: Resource, commands: seq<CheckCommand>, lib: Library)
    requires FreezeCommands(r, commands, lib).Some? && '/' !in r.locator
    ensures var f := FreezeCommands(r, commands, lib).value;
            |f| == |commands| && forall k :: 0 <= k < |f| ==> Belongs(f[k], r) && WellFormed(f[k], lib) && f[k].command == commands[k]
  {
    if commands != [] { FreezeCommandsBelong(r, commands[1..], lib); }
  }

  lemma {:induction false} FreezeAllBelong(resources: seq<Resource>, lib: Library, i: nat)
    requires FreezeAll(resources, lib).Some? && LocatorsAreNames(resources) && i < |resources|
    ensures var f := FreezeAll(resources, lib).value;
            |f| == |resources| && |f[i]| == |resources[i].commands| &&
            forall a :: a in f[i] ==> Belongs(a, resources[i]) && WellFormed(a, lib)
  {
    if i == 0 {
      FreezeCommandsBelong(resources[0], resources[0].commands, lib);
      FreezeAllLength(resources, lib);
    } else {
      FreezeAllBelong(resources[1..], lib, i - 1);
    }
  }

  lemma {:induction false} FreezeAllLength(resources: seq<Resource>, lib: Library)
    requires FreezeAll(resources, lib).Some?
    ensures |FreezeAll(resources, lib).value| == |resources|
  {
    if resources != [] { FreezeAllLength(resources[1..], lib); }
  }
}
