/** Check results derived from the tool events of one Attempt and from proven repository contents. */
module ResourceChecks {
  import opened Common
  import opened ResourceAuthority
  import opened ResourceSelection

  datatype Status = Fail | Unknown | Pass

  /** What the events show about a check, as of its latest start or end. */
  datatype Observation =
    | NotObserved
    | Duplicated
    | Pending(call: string, digest: string, start: nat)
    | Ended(call: string, digest: string, start: nat, end: nat, exitCode: Option<int>, toolError: Option<bool>)

  datatype Invocation = Invocation(authority: Authority, observation: Observation)

  datatype View = View(
    authority: Authority, observation: Observation, observed: Status, status: Status,
    content: string, final: string, verified: bool, stale: bool)

  datatype Derivation = Derivation(
    repo: string, mode: Mode, source: Option<Source>, noApplicable: bool, invalid: Option<Reason>,
    status: Status, verified: bool, checks: seq<View>, invocations: seq<View>)

  datatype FingerprintObservation = FingerprintObservation(afterEvent: int, repo: string, fingerprint: string)

  datatype DeriveError = InvalidAuthority | InvalidFingerprint | ConflictingFingerprint

  type Fingerprints = map<(string, nat), string>

  // ---- Tool calls ----------------------------------------------------------------------------

  predicate CallStart(e: Event, call: string, lib: Library) {
    e.ToolStart? && e.tool.Some? && e.tool.value.call == call && !lib.blank(call)
  }

  predicate CallEnd(e: Event, call: string, lib: Library) {
    e.ToolEnd? && e.tool.Some? && e.tool.value.call == call && !lib.blank(call)
  }

  function Starts(events: seq<Event>, call: string, lib: Library): nat {
    if events == [] then 0 else Starts(events[..|events| - 1], call, lib) + if CallStart(events[|events| - 1], call, lib) then 1 else 0
  }

  function Ends(events: seq<Event>, call: string, lib: Library): nat {
    if events == [] then 0 else Ends(events[..|events| - 1], call, lib) + if CallEnd(events[|events| - 1], call, lib) then 1 else 0
  }

  /** A started call whose identity occurs again as a start, or more than once as an end. */
  predicate Ambiguous(events: seq<Event>, call: string, lib: Library) {
    Starts(events, call, lib) > 1 || (Starts(events, call, lib) == 1 && Ends(events, call, lib) > 1)
  }

  function Tally(counts: map<string, nat>, call: string): nat { if call in counts then counts[call] else 0 }

  method AmbiguousCalls(events: seq<Event>, lib: Library) returns (ambiguous: set<string>)
    ensures forall call :: call in ambiguous <==> Ambiguous(events, call, lib)
  {
    var starts: map<string, nat>, ends: map<string, nat> := map[], map[];
    for k := 0 to |events|
      invariant forall call :: Tally(starts, call) == Starts(events[..k], call, lib)
      invariant forall call :: Tally(ends, call) == Ends(events[..k], call, lib)
      invariant forall call :: call in starts ==> starts[call] > 0
    {
      assert events[..k + 1][..k] == events[..k];
      match events[k] {
        case ToolStart(Some(tool)) => if !lib.blank(tool.call) { starts := starts[tool.call := Tally(starts, tool.call) + 1]; }
        case ToolEnd(Some(tool)) => if !lib.blank(tool.call) { ends := ends[tool.call := Tally(ends, tool.call) + 1]; }
        case _ =>
      }
    }
    assert events[..|events|] == events;
    ambiguous := set call | call in starts && (starts[call] > 1 || Tally(ends, call) > 1);
  }

  /** The check a start stands for, when it stands for exactly one. */
  function Matched(e: Event, selected: seq<Authority>, lib: Library): Option<Authority>
    requires CommandStart(e, lib)
  {
    var matches := Matching(e.tool.value, selected, lib);
    if |matches| == 1 then Some(matches[0]) else None
  }

  /** The start of `call` that no end has closed within the first `k` events. */
  function ActiveAt(events: seq<Event>, k: nat, call: string, lib: Library): (r: Option<nat>)
    requires k <= |events|
    ensures r.Some? ==> r.value < k && CommandStart(events[r.value], lib) && CallStart(events[r.value], call, lib)
    ensures r.Some? ==> !Ambiguous(events, call, lib)
  {
    if k == 0 then None
    else if CommandStart(events[k - 1], lib) && events[k - 1].tool.value.call == call && !Ambiguous(events, call, lib) then Some(k - 1)
    else if CallEnd(events[k - 1], call, lib) then None
    else ActiveAt(events, k - 1, call, lib)
  }

  /** The check that event `e` says something about, and what. */
  function Touch(events: seq<Event>, e: nat, selected: seq<Authority>, lib: Library): Option<Invocation>
    requires e < |events|
  {
    var event := events[e];
    if CommandStart(event, lib) then
      var call := event.tool.value.call;
      match Matched(event, selected, lib)
      case None => None
      case Some(a) =>
        Some(Invocation(a, if Ambiguous(events, call, lib) then Duplicated else Pending(call, CommandDigest(event.tool.value, lib), e)))
    else if event.ToolEnd? && event.tool.Some? && !lib.blank(event.tool.value.call) then
      var tool := event.tool.value;
      match ActiveAt(events, e, tool.call, lib)
      case None => None
      case Some(s) =>
        match Matched(events[s], selected, lib)
        case None => None
        case Some(a) => Some(Invocation(a, Ended(tool.call, CommandDigest(events[s].tool.value, lib), s, e, tool.exitCode, tool.toolError)))
    else None
  }

  function Latest(events: seq<Event>, k: nat, a: Authority, selected: seq<Authority>, lib: Library): Observation
    requires k <= |events|
  {
    if k == 0 then NotObserved
    else
      match Touch(events, k - 1, selected, lib)
      case Some(Invocation(b, o)) => if a == b then o else Latest(events, k - 1, a, selected, lib)
      case None => Latest(events, k - 1, a, selected, lib)
  }

  function EndedCalls(events: seq<Event>, k: nat, selected: seq<Authority>, lib: Library): seq<Invocation>
    requires k <= |events|
  {
    if k == 0 then []
    else
      EndedCalls(events, k - 1, selected, lib) +
      match Touch(events, k - 1, selected, lib)
      case Some(i) => if i.observation.Ended? then [i] else []
      case None => []
  }

  // ---- The event loop ------------------------------------------------------------------------

  /** A started call; without an authority it can never count. */
  datatype Start = Start(authority: Option<Authority>, digest: string, at: nat)

  function StartRecord(events: seq<Event>, s: nat, selected: seq<Authority>, lib: Library): Start
    requires s < |events| && CommandStart(events[s], lib)
  {
    match Matched(events[s], selected, lib)
    case None => Start(None, "", s)
    case Some(a) => Start(Some(a), CommandDigest(events[s].tool.value, lib), s)
  }

  ghost predicate ActiveExact(active: map<string, Start>, events: seq<Event>, k: nat, selected: seq<Authority>,
          lib: Library)
    requires k <= |events|
  {
    (forall call :: call in active <==> ActiveAt(events, k, call, lib).Some?) &&
    (forall call :: call in active ==> active[call] == StartRecord(events, ActiveAt(events, k, call, lib).value, selected, lib))
  }

  lemma {:induction false} StartCounted(events: seq<Event>, s: nat, call: string, lib: Library)
    requires s < |events| && CallStart(events[s], call, lib)
    ensures Starts(events, call, lib) >= 1
    ensures forall t :: s < t < |events| && CallStart(events[t], call, lib) ==> Starts(events, call, lib) >= 2
  {
    var n := |events| - 1;
    if s < n {
      StartCounted(events[..n], s, call, lib);
      assert forall t :: s < t < n ==> events[..n][t] == events[t];
    }
  }

  /** A call identity that is not ambiguous is never started while it is active. */
  lemma NeverActiveTwice(events: seq<Event>, k: nat, lib: Library)
    requires k < |events| && CommandStart(events[k], lib) && !Ambiguous(events, events[k].tool.value.call, lib)
    ensures ActiveAt(events, k, events[k].tool.value.call, lib).None?
  {
    var call := events[k].tool.value.call;
    var s := ActiveAt(events, k, call, lib);
    if s.Some? { StartCounted(events, s.value, call, lib); }
  }

  lemma ActiveStays(events: seq<Event>, k: nat, call: string, lib: Library)
    requires k < |events|
    requires !(CommandStart(events[k], lib) && events[k].tool.value.call == call && !Ambiguous(events, call, lib))
    requires !CallEnd(events[k], call, lib)
    ensures ActiveAt(events, k + 1, call, lib) == ActiveAt(events, k, call, lib)
  {
  }

  lemma StartActivates(events: seq<Event>, k: nat, active: map<string, Start>, selected: seq<Authority>, lib: Library)
    requires k < |events| && CommandStart(events[k], lib) && ActiveExact(active, events, k, selected, lib)
    ensures var call := events[k].tool.value.call;
            if Ambiguous(events, call, lib) then ActiveExact(active, events, k + 1, selected, lib)
            else ActiveExact(active[call := StartRecord(events, k, selected, lib)], events, k + 1, selected, lib)
  {
    hide Matched, Ambiguous, CommandStart;
    StartEndsNothing(events, k, "", lib);
    var start := events[k].tool.value.call;
    forall call | call != start || Ambiguous(events, call, lib)
      ensures ActiveAt(events, k + 1, call, lib) == ActiveAt(events, k, call, lib)
    {
      StartEndsNothing(events, k, call, lib);
      ActiveStays(events, k, call, lib);
    }
  }

  lemma StartEndsNothing(events: seq<Event>, k: nat, call: string, lib: Library)
    requires k < |events| && CommandStart(events[k], lib)
    ensures !CallEnd(events[k], call, lib) && events[k].ToolStart? && events[k].tool.Some?
  {
  }

  lemma EndCloses(events: seq<Event>, k: nat, active: map<string, Start>, selected: seq<Authority>, lib: Library)
    requires k < |events| && events[k].ToolEnd? && events[k].tool.Some? && !lib.blank(events[k].tool.value.call)
    requires ActiveExact(active, events, k, selected, lib)
    ensures ActiveExact(map call | call in active && call != events[k].tool.value.call :: active[call], events, k + 1, selected, lib)
  {
    hide Matched, Ambiguous;
    var end := events[k].tool.value.call;
    assert CallEnd(events[k], end, lib) && !CommandStart(events[k], lib);
    forall call | call != end
      ensures ActiveAt(events, k + 1, call, lib) == ActiveAt(events, k, call, lib)
    {
      ActiveStays(events, k, call, lib);
    }
  }

  lemma NotActive(events: seq<Event>, k: nat, active: map<string, Start>, selected: seq<Authority>, lib: Library)
    requires k < |events| && CommandStart(events[k], lib) && !Ambiguous(events, events[k].tool.value.call, lib)
    requires ActiveExact(active, events, k, selected, lib)
    ensures events[k].tool.value.call !in active
  {
    NeverActiveTwice(events, k, lib);
  }

  method ObserveStart(events: seq<Event>, k: nat, selected: seq<Authority>, ambiguous: set<string>, lib: Library,
                      active: map<string, Start>, states: map<Authority, Observation>)
      returns (active': map<string, Start>, states': map<Authority, Observation>)
    requires k < |events| && CommandStart(events[k], lib)
    requires forall call :: call in ambiguous <==> Ambiguous(events, call, lib)
    requires ActiveExact(active, events, k, selected, lib)
    ensures ActiveExact(active', events, k + 1, selected, lib)
    ensures states' == match Touch(events, k, selected, lib)
                       case Some(i) => states[i.authority := i.observation]
                       case None => states
  {
    hide Matching, Ambiguous, ActiveExact, ActiveAt;
    StartActivates(events, k, active, selected, lib);
    var tool := events[k].tool.value;
    var matches, digest := MatchStart(tool, selected, lib);
    active', states' := active, states;
    if tool.call in ambiguous {
      if |matches| == 1 { states' := states[matches[0] := Duplicated]; }
      return;
    }
    NotActive(events, k, active, selected, lib);
    if tool.call in active {
      // The call would be marked ambiguous here, but an active call is never started again.
      assert false;
    } else if |matches| != 1 {
      active' := active[tool.call := Start(None, "", k)];
    } else {
      states' := states[matches[0] := Pending(tool.call, digest, k)];
      active' := active[tool.call := Start(Some(matches[0]), digest, k)];
    }
  }

  method ObserveEnd(events: seq<Event>, k: nat, selected: seq<Authority>, lib: Library, active: map<string, Start>,
                    states: map<Authority, Observation>, invocations: seq<Invocation>)
      returns (active': map<string, Start>, states': map<Authority, Observation>, invocations': seq<Invocation>)
    requires k < |events| && events[k].ToolEnd? && events[k].tool.Some? && !lib.blank(events[k].tool.value.call)
    requires ActiveExact(active, events, k, selected, lib)
    ensures ActiveExact(active', events, k + 1, selected, lib)
    ensures match Touch(events, k, selected, lib)
            case Some(i) => i.observation.Ended? && states' == states[i.authority := i.observation] && invocations' == invocations + [i]
            case None => states' == states && invocations' == invocations
  {
    hide Matched, Ambiguous;
    EndCloses(events, k, active, selected, lib);
    var tool := events[k].tool.value;
    states', invocations' := states, invocations;
    active' := map call | call in active && call != tool.call :: active[call];
    if tool.call in active && active[tool.call].authority.Some? {
      var start := active[tool.call];
      var observation := Ended(tool.call, start.digest, start.at, k, tool.exitCode, tool.toolError);
      states' := states[start.authority.value := observation];
      invocations' := invocations + [Invocation(start.authority.value, observation)];
    }
  }

  method ObserveAllEvents(events: seq<Event>, selected: seq<Authority>, lib: Library)
      returns (states: map<Authority, Observation>, invocations: seq<Invocation>)
    ensures forall a :: a in selected ==> a in states && states[a] == Latest(events, |events|, a, selected, lib)
    ensures invocations == EndedCalls(events, |events|, selected, lib)
  {
    hide Touch, ActiveAt, Ambiguous, CommandStart;
    states := map a | a in selected :: NotObserved;
    invocations := [];
    var active: map<string, Start> := map[];
    var ambiguous := AmbiguousCalls(events, lib);
    NothingActive(events, selected, lib);
    for k := 0 to |events|
      invariant forall a :: a in selected ==> a in states && states[a] == Latest(events, k, a, selected, lib)
      invariant invocations == EndedCalls(events, k, selected, lib)
      invariant ActiveExact(active, events, k, selected, lib)
    {
      var e := events[k];
      if CommandStart(e, lib) {
        StartTouch(events, k, selected, lib);
        active, states := ObserveStart(events, k, selected, ambiguous, lib, active, states);
      } else if e.ToolEnd? && e.tool.Some? && !lib.blank(e.tool.value.call) {
        active, states, invocations := ObserveEnd(events, k, selected, lib, active, states, invocations);
      } else {
        Untouched(events, k, active, selected, lib);
      }
    }
  }

  lemma NothingActive(events: seq<Event>, selected: seq<Authority>, lib: Library)
    ensures ActiveExact(map[], events, 0, selected, lib)
  {
  }

  lemma StartTouch(events: seq<Event>, k: nat, selected: seq<Authority>, lib: Library)
    requires k < |events| && CommandStart(events[k], lib)
    ensures Touch(events, k, selected, lib).Some? ==> !Touch(events, k, selected, lib).value.observation.Ended?
  {
  }

  lemma Untouched(events: seq<Event>, k: nat, active: map<string, Start>, selected: seq<Authority>, lib: Library)
    requires k < |events| && !CommandStart(events[k], lib)
    requires !(events[k].ToolEnd? && events[k].tool.Some? && !lib.blank(events[k].tool.value.call))
    requires ActiveExact(active, events, k, selected, lib)
    ensures Touch(events, k, selected, lib).None? && ActiveExact(active, events, k + 1, selected, lib)
  {
    hide Ambiguous;
  }

  // ---- Proven contents -----------------------------------------------------------------------

  predicate ValidFingerprint(o: FingerprintObservation, resources: seq<Resource>, events: nat, lib: Library) {
    (exists i :: 0 <= i < |resources| && resources[i].repo == o.repo) && 0 <= o.afterEvent <= events &&
    lib.validDigest(lib.lower(lib.trim(o.fingerprint)))
  }

  predicate Conflicting(a: FingerprintObservation, b: FingerprintObservation, lib: Library) {
    a.repo == b.repo && a.afterEvent == b.afterEvent && lib.lower(lib.trim(a.fingerprint)) != lib.lower(lib.trim(b.fingerprint))
  }

  predicate Says(o: FingerprintObservation, repo: string, after: nat, fingerprint: string, lib: Library) {
    o.repo == repo && o.afterEvent == after && lib.lower(lib.trim(o.fingerprint)) == fingerprint
  }

  /** The table holds exactly what the observations say. */
  ghost predicate Tabulates(table: Fingerprints, observations: seq<FingerprintObservation>, lib: Library) {
    (forall repo, after :: (repo, after) in table ==>
      exists i :: 0 <= i < |observations| && Says(observations[i], repo, after, table[(repo, after)], lib)) &&
    forall i :: 0 <= i < |observations| && 0 <= observations[i].afterEvent ==>
      (observations[i].repo, observations[i].afterEvent as nat) in table &&
      table[(observations[i].repo, observations[i].afterEvent as nat)] == lib.lower(lib.trim(observations[i].fingerprint))
  }

  /** Accepted exactly when every observation is valid and no two disagree. */
  method NormalizeFingerprints(resources: seq<Resource>, events: nat, observations: seq<FingerprintObservation>,
          lib: Library)
      returns (r: Result<Fingerprints, DeriveError>)
    ensures r.Ok? <==> (forall i :: 0 <= i < |observations| ==> ValidFingerprint(observations[i], resources, events, lib)) &&
                       (forall i, j :: 0 <= i < j < |observations| ==> !Conflicting(observations[i], observations[j], lib))
    ensures r.Ok? ==> Tabulates(r.value, observations, lib)
  {
    hide Tabulates, ValidFingerprint, Conflicting;
    NothingTabulated(lib);
    var known := set i | 0 <= i < |resources| :: resources[i].repo;
    var table: Fingerprints := map[];
    for k := 0 to |observations|
      invariant forall i :: 0 <= i < k ==> ValidFingerprint(observations[i], resources, events, lib)
      invariant forall i, j :: 0 <= i < j < k ==> !Conflicting(observations[i], observations[j], lib)
      invariant Tabulates(table, observations[..k], lib)
    {
      var o := observations[k];
      var fingerprint := lib.lower(lib.trim(o.fingerprint));
      ValidMeans(observations, resources, events, lib);
      if o.repo !in known || o.afterEvent < 0 || o.afterEvent > events || !lib.validDigest(fingerprint) { return Err(InvalidFingerprint); }
      TabulateStep(table, observations, k, lib);
      if (o.repo, o.afterEvent as nat) in table && table[(o.repo, o.afterEvent as nat)] != fingerprint {
        return Err(ConflictingFingerprint);
      }
      table := table[(o.repo, o.afterEvent as nat) := fingerprint];
    }
    assert observations[..|observations|] == observations;
    r := Ok(table);
  }

  lemma ValidMeans(observations: seq<FingerprintObservation>, resources: seq<Resource>, events: nat, lib: Library)
    ensures forall k :: 0 <= k < |observations| ==>
              var o := observations[k];
              (ValidFingerprint(o, resources, events, lib) <==>
                 o.repo in (set i | 0 <= i < |resources| :: resources[i].repo) && 0 <= o.afterEvent <= events &&
                 lib.validDigest(lib.lower(lib.trim(o.fingerprint))))
  {
  }

  lemma NothingTabulated(lib: Library)
    ensures Tabulates(map[], [], lib)
  {
  }

  lemma TabulateStep(table: Fingerprints, observations: seq<FingerprintObservation>, k: nat, lib: Library)
    requires k < |observations| && 0 <= observations[k].afterEvent && Tabulates(table, observations[..k], lib)
    requires forall i :: 0 <= i < k ==> 0 <= observations[i].afterEvent
    ensures var o := observations[k];
            var key, fingerprint := (o.repo, o.afterEvent as nat), lib.lower(lib.trim(o.fingerprint));
            if key in table && table[key] != fingerprint then exists i :: 0 <= i < k && Conflicting(observations[i], o, lib)
            else Tabulates(table[key := fingerprint], observations[..k + 1], lib) &&
                 forall i :: 0 <= i < k ==> !Conflicting(observations[i], o, lib)
  {
    var o, before, after := observations[k], observations[..k], observations[..k + 1];
    var key, fingerprint := (o.repo, o.afterEvent as nat), lib.lower(lib.trim(o.fingerprint));
    assert forall i :: 0 <= i < k ==> before[i] == observations[i] && after[i] == observations[i];
    if key in table && table[key] != fingerprint {
      var i :| 0 <= i < |before| && Says(before[i], o.repo, o.afterEvent as nat, table[key], lib);
      assert Conflicting(observations[i], o, lib);
    } else {
      var table' := table[key := fingerprint];
      forall repo, at | (repo, at) in table'
        ensures exists i :: 0 <= i < |after| && Says(after[i], repo, at, table'[(repo, at)], lib)
      {
        if (repo, at) == key {
          assert Says(after[k], repo, at, table'[(repo, at)], lib);
        } else {
          var i :| 0 <= i < |before| && Says(before[i], repo, at, table[(repo, at)], lib);
          assert Says(after[i], repo, at, table'[(repo, at)], lib);
        }
      }
      forall i | 0 <= i < k
        ensures !Conflicting(observations[i], o, lib)
      {
        assert (before[i].repo, before[i].afterEvent as nat) in table;
      }
    }
  }

  // ---- Final results -------------------------------------------------------------------------

  predicate MayTouch(repo: string, e: Event, lib: Library) {
    e.ToolStart? && e.tool.Some? &&
    var tool := e.tool.value;
    if lib.commandTool(tool.name) then
      match lib.normalize(tool.command)
      case None => true
      case Some(o) => !o.explicitDirectory || (match SplitDirectory(o.directory, lib) case None => true case Some((name, _)) => lib.validLocator(repo, name))
    else
      lib.writeTool(tool.name) && match lib.pathRepository(tool.path) case None => true case Some(name) => lib.validLocator(repo, name)
  }

  predicate MayHaveChanged(repo: string, end: nat, events: seq<Event>, lib: Library) {
    exists i :: end < i < |events| && MayTouch(repo, events[i], lib)
  }

  method ChangedAfter(repo: string, end: nat, events: seq<Event>, lib: Library) returns (changed: bool)
    ensures changed <==> MayHaveChanged(repo, end, events, lib)
  {
    hide MayTouch;
    if end + 1 >= |events| { return false; }
    for index := end + 1 to |events|
      invariant forall i :: end < i < index ==> !MayTouch(repo, events[i], lib)
    {
      if MayTouch(repo, events[index], lib) { return true; }
    }
    changed := false;
  }

  function Outcome(exitCode: Option<int>, toolError: Option<bool>): Status {
    if toolError == Some(true) then Fail
    else if exitCode == Some(0) then Pass
    else if exitCode.Some? then Fail
    else if toolError == Some(false) then Pass
    else Unknown
  }

  function At(table: Fingerprints, repo: string,
          after: nat): string { if (repo, after) in table then table[(repo, after)] else "" }

  /** The final view of a check: only an observation whose contents are still the final ones can pass. */
  function Finalized(a: Authority, o: Observation, events: seq<Event>, table: Fingerprints, lib: Library): View {
    if !o.Ended? then View(a, o, Unknown, Unknown, "", "", false, false)
    else
      var observed := Outcome(o.exitCode, o.toolError);
      var content, final := At(table, a.repo, o.end + 1), At(table, a.repo, |events|);
      var verified := content != "" && content == final;
      var stale := !verified && (MayHaveChanged(a.repo, o.end, events, lib) || (content != "" && final != "" && content != final));
      var status := match observed case Fail => Fail case Pass => if verified then Pass else Unknown case Unknown => Unknown;
      View(a, o, observed, status, content, final, verified, stale)
  }

  method Finalize(a: Authority, o: Observation, events: seq<Event>, table: Fingerprints,
          lib: Library) returns (view: View)
    ensures view == Finalized(a, o, events, table, lib)
  {
    view := View(a, o, Unknown, Unknown, "", "", false, false);
    if o.Ended? {
      var changed := ChangedAfter(a.repo, o.end, events, lib);
      view := view.(observed := Outcome(o.exitCode, o.toolError), content := At(table, a.repo, o.end + 1), final := At(table, a.repo, |events|));
      view := view.(verified := view.content != "" && view.content == view.final);
      view := view.(stale := !view.verified && (changed || (view.content != "" && view.final != "" && view.content != view.final)));
      match view.observed {
        case Fail => view := view.(status := Fail);
        case Pass => view := view.(status := if view.verified then Pass else Unknown);
        case Unknown =>
      }
    }
  }

  function FinalizedAll(list: seq<Invocation>, repo: string, events: seq<Event>, table: Fingerprints,
          lib: Library): seq<View> {
    if list == [] then []
    else
      var last := list[|list| - 1];
      FinalizedAll(list[..|list| - 1], repo, events, table, lib) +
      if last.authority.repo == repo then [Finalized(last.authority, last.observation, events, table, lib)] else []
  }

  function Checks(order: seq<Authority>, selected: seq<Authority>, events: seq<Event>, table: Fingerprints,
          lib: Library): seq<View> {
    if order == [] then []
    else
      var n := |order| - 1;
      Checks(order[..n], selected, events, table, lib) +
      [Finalized(order[n], Latest(events, |events|, order[n], selected, lib), events, table, lib)]
  }

  function Rank(s: Status): nat { match s case Pass => 0 case Unknown => 1 case Fail => 2 }

  /** Fail over Unknown over Pass; nothing at all is Unknown. */
  function Aggregate(checks: seq<View>): Status {
    if exists i :: 0 <= i < |checks| && checks[i].status.Fail? then Fail
    else if checks == [] || exists i :: 0 <= i < |checks| && checks[i].status.Unknown? then Unknown
    else Pass
  }

  predicate AllVerified(checks: seq<View>) { checks != [] && forall i :: 0 <= i < |checks| ==> checks[i].verified }

  method AggregateChecks(checks: seq<View>) returns (status: Status, verified: bool)
    ensures status == Aggregate(checks) && verified == AllVerified(checks)
  {
    if checks == [] { return Unknown, false; }
    status, verified := Pass, true;
    for k := 0 to |checks|
      invariant status.Fail? <==> exists i :: 0 <= i < k && checks[i].status.Fail?
      invariant !status.Fail? ==> (status.Unknown? <==> exists i :: 0 <= i < k && checks[i].status.Unknown?)
      invariant verified <==> forall i :: 0 <= i < k ==> checks[i].verified
    {
      if checks[k].status.Fail? {
        status := Fail;
      } else if checks[k].status.Unknown? && !status.Fail? {
        status := Unknown;
      }
      verified := verified && checks[k].verified;
    }
  }

  function InSource(s: Selection,
          repo: string): Option<Source> { if repo in s.source then Some(s.source[repo]) else None }
  function InInvalid(s: Selection,
          repo: string): Option<Reason> { if repo in s.invalid then Some(s.invalid[repo]) else None }

  /** The checks of resource `i`: its frozen ones when they are named, otherwise those selected for it. */
  function OrderFor(i: nat, resources: seq<Resource>, frozen: seq<seq<Authority>>, s: Selection): seq<Authority>
    requires |frozen| == |resources| && i < |resources|
  {
    (if resources[i].mode.Named? then frozen[i] else []) + OrderOf(s, resources[i].repo)
  }

  function NamedChecks(resources: seq<Resource>, frozen: seq<seq<Authority>>): seq<Authority>
    requires |frozen| == |resources|
  {
    if resources == [] then []
    else
      var n := |resources| - 1;
      NamedChecks(resources[..n], frozen[..n]) + if resources[n].mode.Named? then frozen[n] else []
  }

  function AutoChecks(resources: seq<Resource>, s: Selection): seq<Authority> {
    if resources == [] then [] else AutoChecks(resources[..|resources| - 1], s) + OrderOf(s, resources[|resources| - 1].repo)
  }

  /** Everything an observed command is compared with. */
  function SelectedChecks(resources: seq<Resource>, frozen: seq<seq<Authority>>, s: Selection): seq<Authority>
    requires |frozen| == |resources|
  {
    NamedChecks(resources, frozen) + AutoChecks(resources, s)
  }

  function DerivationFor(i: nat, resources: seq<Resource>, frozen: seq<seq<Authority>>, events: seq<Event>,
          table: Fingerprints, lib: Library): Derivation
    requires |frozen| == |resources| && i < |resources|
  {
    var s := Selected(resources, frozen, events, lib);
    var selected := SelectedChecks(resources, frozen, s);
    var r := resources[i];
    var checks := Checks(OrderFor(i, resources, frozen, s), selected, events, table, lib);
    var invocations := FinalizedAll(EndedCalls(events, |events|, selected, lib), r.repo, events, table, lib);
    var invalid := InInvalid(s, r.repo);
    if invalid.Some? then Derivation(r.repo, r.mode, InSource(s, r.repo), false, invalid, Unknown, false, checks, invocations)
    else Derivation(r.repo, r.mode, InSource(s, r.repo), r.repo in s.noApplicable, None, Aggregate(checks), AllVerified(checks), checks, invocations)
  }

  method DeriveOne(i: nat, resources: seq<Resource>, frozen: seq<seq<Authority>>, events: seq<Event>,
          table: Fingerprints, lib: Library,
                   s: Selection, selected: seq<Authority>, states: map<Authority, Observation>, ended: seq<Invocation>) returns (d: Derivation)
    requires |frozen| == |resources| && i < |resources|
    requires s == Selected(resources, frozen, events, lib) && selected == SelectedChecks(resources, frozen, s)
    requires forall a :: a in OrderFor(i, resources, frozen, s) ==> a in states && states[a] == Latest(events, |events|, a, selected, lib)
    requires ended == EndedCalls(events, |events|, selected, lib)
    ensures d == DerivationFor(i, resources, frozen, events, table, lib)
  {
    hide Selected, SelectedChecks, OrderFor, Finalized, Latest, EndedCalls, Aggregate, AllVerified;
    var repo, order := resources[i].repo, OrderFor(i, resources, frozen, s);
    var checks: seq<View>, invocations: seq<View> := [], [];
    for k := 0 to |order|
      invariant checks == Checks(order[..k], selected, events, table, lib)
    {
      assert order[..k + 1][..k] == order[..k] && order[k] in order;
      var view := Finalize(order[k], states[order[k]], events, table, lib);
      checks := checks + [view];
    }
    for k := 0 to |ended|
      invariant invocations == FinalizedAll(ended[..k], repo, events, table, lib)
    {
      assert ended[..k + 1][..k] == ended[..k];
      if ended[k].authority.repo == repo {
        var view := Finalize(ended[k].authority, ended[k].observation, events, table, lib);
        invocations := invocations + [view];
      }
    }
    assert order[..|order|] == order && ended[..|ended|] == ended;
    var status, verified := AggregateChecks(checks);
    d := Derivation(repo, resources[i].mode, InSource(s, repo), repo in s.noApplicable, None, status, verified, checks, invocations);
    var invalid := InInvalid(s, repo);
    if invalid.Some? { d := d.(invalid := invalid, noApplicable := false, status := Unknown, verified := false); }
  }

  lemma {:induction false} OrdersSelected(resources: seq<Resource>, frozen: seq<seq<Authority>>, s: Selection, i: nat)
    requires |frozen| == |resources| && i < |resources|
    ensures forall a :: a in OrderFor(i, resources, frozen, s) ==> a in SelectedChecks(resources, frozen, s)
  {
    hide OrderOf;
    var n := |resources| - 1;
    if i < n {
      OrdersSelected(resources[..n], frozen[..n], s, i);
      assert OrderFor(i, resources[..n], frozen[..n], s) == OrderFor(i, resources, frozen, s);
      forall a | a in SelectedChecks(resources[..n], frozen[..n], s)
        ensures a in SelectedChecks(resources, frozen, s)
      {
        if a in NamedChecks(resources[..n], frozen[..n]) { assert a in NamedChecks(resources, frozen); }
      }
    }
  }

  method DeriveResourceChecks(resources: seq<Resource>, events: seq<Event>, observations: seq<FingerprintObservation>,
          lib: Library)
      returns (r: Result<seq<Derivation>, DeriveError>, ghost table: Fingerprints)
    ensures r.Ok? ==> Frozen(resources, lib).Some? && |Frozen(resources, lib).value| == |resources| && Tabulates(table, observations, lib)
    ensures r.Ok? <==> Frozen(resources, lib).Some? &&
                       (forall i :: 0 <= i < |observations| ==> ValidFingerprint(observations[i], resources, |events|, lib)) &&
                       (forall i, j :: 0 <= i < j < |observations| ==> !Conflicting(observations[i], observations[j], lib))
    ensures r.Ok? ==> |r.value| == |resources| && forall i :: 0 <= i < |resources| ==>
              r.value[i] == DerivationFor(i, resources, Frozen(resources, lib).value, events, table, lib)
  {
    hide FreezeAll, Selected, SelectedChecks, OrderFor, DerivationFor, Tabulates, ValidFingerprint, Conflicting,
         EndedCalls, Latest;
    table := map[];
    var frozen := Frozen(resources, lib);
    if frozen.None? { return Err(InvalidAuthority), table; }
    FreezeAllLength(resources, lib);
    var fingerprints := NormalizeFingerprints(resources, |events|, observations, lib);
    if fingerprints.Err? { return Err(fingerprints.error), table; }
    table := fingerprints.value;
    var s := DeriveAutoSelection(resources, frozen.value, events, lib);
    var selected := SelectedChecks(resources, frozen.value, s);
    var states, ended := ObserveAllEvents(events, selected, lib);
    var result: seq<Derivation> := [];
    for i := 0 to |resources|
      invariant |result| == i && forall j :: 0 <= j < i ==> result[j] == DerivationFor(j, resources, frozen.value, events, table, lib)
    {
      OrdersSelected(resources, frozen.value, s, i);
      var d := DeriveOne(i, resources, frozen.value, events, fingerprints.value, lib, s, selected, states, ended);
      result := result + [d];
    }
    r := Ok(result);
  }
}
