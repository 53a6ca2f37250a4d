/** Command evidence and criterion checks against the contract they must cover. */
module ReviewEvidence {
  import opened Common

  datatype Command = Command(id: string, argv: seq<string>)
  datatype Criterion = Criterion(id: string, commandIDs: seq<string>)
  datatype Document = Document(commands: seq<Command>, criteria: seq<Criterion>)
  datatype Evidence = Evidence(id: string, commandID: string, argv: seq<string>, workspace: string, criteria: seq<string>)
  datatype Check = Check(criterion: string, trusted: bool, evidenceIDs: seq<string>)

  // ---- Equal as collections ------------------------------------------------------------------

  function Count(counts: map<string, int>, s: string): int { if s in counts then counts[s] else 0 }

  lemma SameSize(a: multiset<string>, b: multiset<string>)
    requires a <= b && |a| == |b|
    ensures a == b
  {
    assert b == a + (b - a);
    assert |b - a| == 0;
  }

  lemma TooMany(left: seq<string>, right: seq<string>, k: nat)
    requires k < |right| && multiset(right[..k + 1])[right[k]] > multiset(left)[right[k]]
    ensures multiset(left) != multiset(right)
  {
    assert right == right[..k + 1] + right[k + 1..];
    assert multiset(right)[right[k]] >= multiset(right[..k + 1])[right[k]];
  }

  lemma CountStep(s: seq<string>, k: nat)
    requires k < |s|
    ensures multiset(s[..k + 1]) == multiset(s[..k]) + multiset{s[k]}
  {
    assert s[..k + 1] == s[..k] + [s[k]];
  }

  method CountEach(values: seq<string>) returns (counts: map<string, int>)
    ensures forall s :: Count(counts, s) == multiset(values)[s]
  {
    counts := map[];
    for k := 0 to |values|
      invariant forall s :: Count(counts, s) == multiset(values[..k])[s]
    {
      CountStep(values, k);
      counts := counts[values[k] := Count(counts, values[k]) + 1];
    }
    assert values[..|values|] == values;
  }

  method SameStringSet(left: seq<string>, right: seq<string>) returns (same: bool)
    ensures same <==> multiset(left) == multiset(right)
  {
    if |left| != |right| {
      assert |multiset(left)| == |left| && |multiset(right)| == |right|;
      return false;
    }
    var counts := CountEach(left);
    assert right[..|right|] == right;
    for k := 0 to |right|
      invariant forall s :: Count(counts, s) + multiset(right[..k])[s] == multiset(left)[s]
      invariant forall s :: multiset(right[..k])[s] <= multiset(left)[s]
    {
      CountStep(right, k);
      counts := counts[right[k] := Count(counts, right[k]) - 1];
      if counts[right[k]] < 0 {
        TooMany(left, right, k);
        return false;
      }
    }
    SameSize(multiset(right), multiset(left));
    same := true;
  }

  // ---- What the contract says ----------------------------------------------------------------

  /** Later commands of the same id replace earlier ones. */
  function Authority(commands: seq<Command>, id: string): Option<Command> {
    if commands == [] then None
    else if commands[|commands| - 1].id == id then Some(commands[|commands| - 1])
    else Authority(commands[..|commands| - 1], id)
  }

  function EvidenceByID(evidence: seq<Evidence>, id: string): Option<Evidence> {
    if evidence == [] then None
    else if evidence[|evidence| - 1].id == id then Some(evidence[|evidence| - 1])
    else EvidenceByID(evidence[..|evidence| - 1], id)
  }

  function Repeat(criterion: string, commandIDs: seq<string>, id: string): seq<string> {
    if commandIDs == [] then []
    else
      Repeat(criterion, commandIDs[..|commandIDs| - 1], id) +
      if commandIDs[|commandIDs| - 1] == id then [criterion] else []
  }

  /** The criteria bound to a command, once for every time a criterion names it. */
  function Expected(criteria: seq<Criterion>, id: string): seq<string> {
    if criteria == [] then []
    else
      var last := criteria[|criteria| - 1];
      Expected(criteria[..|criteria| - 1], id) + Repeat(last.id, last.commandIDs, id)
  }

  function CriterionIDs(criteria: seq<Criterion>): set<string> { set i | 0 <= i < |criteria| :: criteria[i].id }
  function EvidencedIDs(evidence: seq<Evidence>): set<string> { set i | 0 <= i < |evidence| :: evidence[i].commandID }
  function CheckedIDs(checks: seq<Check>): set<string> { set i | 0 <= i < |checks| :: checks[i].criterion }

  predicate Matches(document: Document, e: Evidence, workspace: string) {
    var authority := Authority(document.commands, e.commandID);
    authority.Some? && authority.value.argv == e.argv && e.workspace == workspace &&
    multiset(Expected(document.criteria, e.commandID)) == multiset(e.criteria)
  }

  predicate Cites(evidence: seq<Evidence>, check: Check, evidenceID: string) {
    var e := EvidenceByID(evidence, evidenceID);
    e.Some? && check.criterion in e.value.criteria
  }

  predicate Sound(document: Document, evidence: seq<Evidence>, check: Check) {
    check.criterion in CriterionIDs(document.criteria) && check.trusted &&
    forall k :: 0 <= k < |check.evidenceIDs| ==> Cites(evidence, check, check.evidenceIDs[k])
  }

  predicate DistinctCommands(evidence: seq<Evidence>) {
    forall i, j :: 0 <= i < j < |evidence| ==> evidence[i].commandID != evidence[j].commandID
  }

  predicate DistinctCriteria(checks: seq<Check>) {
    forall i, j :: 0 <= i < j < |checks| ==> checks[i].criterion != checks[j].criterion
  }

  predicate Accepted(document: Document, checks: seq<Check>, evidence: seq<Evidence>, workspace: string) {
    |checks| == |document.criteria| && |evidence| == |document.commands| &&
    (forall i :: 0 <= i < |evidence| ==> Matches(document, evidence[i], workspace)) && DistinctCommands(evidence) &&
    (forall i :: 0 <= i < |checks| ==> Sound(document, evidence, checks[i])) && DistinctCriteria(checks) &&
    |CheckedIDs(checks)| == |CriterionIDs(document.criteria)|
  }

  // ---- The check -----------------------------------------------------------------------------

  method IndexCommands(commands: seq<Command>) returns (authority: map<string, Command>)
    ensures forall id :: id in authority <==> Authority(commands, id).Some?
    ensures forall id :: id in authority ==> Authority(commands, id) == Some(authority[id])
  {
    authority := map[];
    for k := 0 to |commands|
      invariant forall id :: id in authority <==> Authority(commands[..k], id).Some?
      invariant forall id :: id in authority ==> Authority(commands[..k], id) == Some(authority[id])
    {
      assert commands[..k + 1][..k] == commands[..k];
      authority := authority[commands[k].id := commands[k]];
    }
    assert commands[..|commands|] == commands;
  }

  function Bound(expected: map<string, seq<string>>,
          id: string): seq<string> { if id in expected then expected[id] else [] }

  lemma BindStep(bound: map<string, seq<string>>, expected: map<string, seq<string>>, criterion: Criterion, j: nat)
    requires j < |criterion.commandIDs|
    requires forall id :: Bound(bound, id) == Bound(expected, id) + Repeat(criterion.id, criterion.commandIDs[..j], id)
    ensures var key := criterion.commandIDs[j];
            forall id :: Bound(bound[key := Bound(bound, key) + [criterion.id]], id) ==
                         Bound(expected, id) + Repeat(criterion.id, criterion.commandIDs[..j + 1], id)
  {
    var ids, key := criterion.commandIDs, criterion.commandIDs[j];
    assert ids[..j + 1][..j] == ids[..j];
    forall id
      ensures Bound(bound[key := Bound(bound, key) + [criterion.id]], id) == Bound(expected, id) + Repeat(criterion.id, ids[..j + 1], id)
    {
      var before := Repeat(criterion.id, ids[..j], id);
      assert Repeat(criterion.id, ids[..j + 1], id) == before + if id == key then [criterion.id] else [];
      assert Bound(expected, id) + before + [criterion.id] == Bound(expected, id) + (before + [criterion.id]);
      assert before + [] == before;
    }
  }

  method BindCriterion(expected: map<string, seq<string>>,
          criterion: Criterion) returns (bound: map<string, seq<string>>)
    ensures forall id :: Bound(bound, id) == Bound(expected, id) + Repeat(criterion.id, criterion.commandIDs, id)
  {
    bound := expected;
    var ids := criterion.commandIDs;
    NothingRepeated(expected, criterion);
    hide Repeat, Bound;
    for j := 0 to |ids|
      invariant forall id :: Bound(bound, id) == Bound(expected, id) + Repeat(criterion.id, ids[..j], id)
    {
      BindStep(bound, expected, criterion, j);
      bound := bound[ids[j] := Bound(bound, ids[j]) + [criterion.id]];
    }
    assert ids[..|ids|] == ids;
  }

  lemma NothingRepeated(expected: map<string, seq<string>>, criterion: Criterion)
    ensures forall id :: Bound(expected, id) == Bound(expected, id) + Repeat(criterion.id, criterion.commandIDs[..0], id)
  {
  }

  lemma CriterionStep(criteria: seq<Criterion>, k: nat)
    requires k < |criteria|
    ensures CriterionIDs(criteria[..k + 1]) == CriterionIDs(criteria[..k]) + {criteria[k].id}
    ensures criteria[..k + 1][..k] == criteria[..k]
  {
    var a, b := criteria[..k], criteria[..k + 1];
    assert forall i :: 0 <= i < k ==> b[i] == a[i];
    assert b[k] == criteria[k];
  }

  method IndexCriteria(criteria: seq<Criterion>) returns (ids: set<string>, expected: map<string, seq<string>>)
    ensures ids == CriterionIDs(criteria)
    ensures forall id :: Bound(expected, id) == Expected(criteria, id)
  {
    hide CriterionIDs, Repeat, Bound;
    ids, expected := {}, map[];
    NothingBound(criteria);
    for k := 0 to |criteria|
      invariant ids == CriterionIDs(criteria[..k])
      invariant forall id :: Bound(expected, id) == Expected(criteria[..k], id)
    {
      CriterionStep(criteria, k);
      ids := ids + {criteria[k].id};
      expected := BindCriterion(expected, criteria[k]);
    }
    assert criteria[..|criteria|] == criteria;
  }

  lemma NothingBound(criteria: seq<Criterion>)
    ensures CriterionIDs(criteria[..0]) == {} && forall id :: Bound(map[], id) == Expected(criteria[..0], id)
  {
  }

  lemma EvidencedStep(evidence: seq<Evidence>, k: nat)
    requires k < |evidence|
    ensures EvidencedIDs(evidence[..k + 1]) == EvidencedIDs(evidence[..k]) + {evidence[k].commandID}
    ensures DistinctCommands(evidence[..k + 1]) <==> DistinctCommands(evidence[..k]) && evidence[k].commandID !in EvidencedIDs(evidence[..k])
    ensures !DistinctCommands(evidence[..k + 1]) ==> !DistinctCommands(evidence)
  {
    var a, b := evidence[..k], evidence[..k + 1];
    assert forall i :: 0 <= i < k ==> b[i] == a[i];
    assert b[k] == evidence[k];
    assert forall i :: 0 <= i < |b| ==> b[i] == evidence[i];
  }

  lemma CheckedStep(checks: seq<Check>, k: nat)
    requires k < |checks|
    ensures CheckedIDs(checks[..k + 1]) == CheckedIDs(checks[..k]) + {checks[k].criterion}
    ensures DistinctCriteria(checks[..k + 1]) <==> DistinctCriteria(checks[..k]) && checks[k].criterion !in CheckedIDs(checks[..k])
    ensures !DistinctCriteria(checks[..k + 1]) ==> !DistinctCriteria(checks)
  {
    var a, b := checks[..k], checks[..k + 1];
    assert forall i :: 0 <= i < k ==> b[i] == a[i];
    assert b[k] == checks[k];
    assert forall i :: 0 <= i < |b| ==> b[i] == checks[i];
  }

  method MatchOne(document: Document, authority: map<string, Command>, expected: map<string, seq<string>>,
          e: Evidence, workspace: string)
      returns (ok: bool)
    requires forall id :: id in authority <==> Authority(document.commands, id).Some?
    requires forall id :: id in authority ==> Authority(document.commands, id) == Some(authority[id])
    requires forall id :: Bound(expected, id) == Expected(document.criteria, id)
    ensures ok <==> Matches(document, e, workspace)
  {
    hide Authority, Expected;
    if e.commandID !in authority || authority[e.commandID].argv != e.argv || e.workspace != workspace { return false; }
    ok := SameStringSet(Bound(expected, e.commandID), e.criteria);
  }

  method CheckEvidence(document: Document, evidence: seq<Evidence>, workspace: string)
      returns (ok: bool, criteria: set<string>, byID: map<string, Evidence>)
    ensures ok <==> (forall i :: 0 <= i < |evidence| ==> Matches(document, evidence[i], workspace)) && DistinctCommands(evidence)
    ensures criteria == CriterionIDs(document.criteria)
    ensures ok ==> forall id :: id in byID <==> EvidenceByID(evidence, id).Some?
    ensures ok ==> forall id :: id in byID ==> EvidenceByID(evidence, id) == Some(byID[id])
  {
    hide Authority, Expected, Matches;
    var authority := IndexCommands(document.commands);
    var expected;
    criteria, expected := IndexCriteria(document.criteria);
    byID := map[];
    var seen: set<string> := {};
    for k := 0 to |evidence|
      invariant forall i :: 0 <= i < k ==> Matches(document, evidence[i], workspace)
      invariant seen == EvidencedIDs(evidence[..k]) && DistinctCommands(evidence[..k])
      invariant forall id :: id in byID <==> EvidenceByID(evidence[..k], id).Some?
      invariant forall id :: id in byID ==> EvidenceByID(evidence[..k], id) == Some(byID[id])
    {
      var e := evidence[k];
      EvidencedStep(evidence, k);
      assert evidence[..k + 1][..k] == evidence[..k];
      var matches := MatchOne(document, authority, expected, e, workspace);
      if !matches || e.commandID in seen { return false, criteria, byID; }
      seen, byID := seen + {e.commandID}, byID[e.id := e];
    }
    assert evidence[..|evidence|] == evidence;
    ok := true;
  }

  method CheckCitations(evidence: seq<Evidence>, byID: map<string, Evidence>, check: Check) returns (ok: bool)
    requires forall id :: id in byID <==> EvidenceByID(evidence, id).Some?
    requires forall id :: id in byID ==> EvidenceByID(evidence, id) == Some(byID[id])
    ensures ok <==> forall k :: 0 <= k < |check.evidenceIDs| ==> Cites(evidence, check, check.evidenceIDs[k])
  {
    hide EvidenceByID;
    for k := 0 to |check.evidenceIDs|
      invariant forall i :: 0 <= i < k ==> Cites(evidence, check, check.evidenceIDs[i])
    {
      var id := check.evidenceIDs[k];
      if id !in byID || check.criterion !in byID[id].criteria {
        assert !Cites(evidence, check, check.evidenceIDs[k]);
        return false;
      }
    }
    ok := true;
  }

  method ValidReviewEvidence(document: Document, checks: seq<Check>, evidence: seq<Evidence>,
          workspace: string) returns (ok: bool)
    ensures ok <==> Accepted(document, checks, evidence, workspace)
  {
    if |checks| != |document.criteria| || |evidence| != |document.commands| { return false; }
    var matched, criteria, byID := CheckEvidence(document, evidence, workspace);
    if !matched { return false; }
    var seen: set<string> := {};
    for k := 0 to |checks|
      invariant forall i :: 0 <= i < k ==> Sound(document, evidence, checks[i])
      invariant seen == CheckedIDs(checks[..k]) && DistinctCriteria(checks[..k])
    {
      CheckedStep(checks, k);
      var check := checks[k];
      if check.criterion !in criteria || !check.trusted {
        assert !Sound(document, evidence, checks[k]);
        return false;
      }
      var cited := CheckCitations(evidence, byID, check);
      if check.criterion in seen || !cited { return false; }
      seen := seen + {check.criterion};
    }
    assert checks[..|checks|] == checks;
    ok := |seen| == |criteria|;
  }

  // ---- What acceptance means -----------------------------------------------------------------

  /** Exactly one element of the sequence of ids is `id`. */
  predicate Once(ids: seq<string>, id: string) {
    exists i :: 0 <= i < |ids| && ids[i] == id && forall j :: 0 <= j < |ids| && ids[j] == id ==> j == i
  }

  function Ids(document: Document): seq<string> { seq(|document.commands|, i requires 0 <= i < |document.commands| => document.commands[i].id) }
  function CriterionList(document: Document): seq<string> { seq(|document.criteria|, i requires 0 <= i < |document.criteria| => document.criteria[i].id) }
  function Evidenced(evidence: seq<Evidence>): seq<string> { seq(|evidence|, i requires 0 <= i < |evidence| => evidence[i].commandID) }
  function Checked(checks: seq<Check>): seq<string> { seq(|checks|, i requires 0 <= i < |checks| => checks[i].criterion) }

  predicate Distinct(ids: seq<string>) { forall i, j :: 0 <= i < j < |ids| ==> ids[i] != ids[j] }

  function Elements(ids: seq<string>): set<string> { set i | 0 <= i < |ids| :: ids[i] }

  lemma {:induction false} ElementsBound(ids: seq<string>)
    ensures |Elements(ids)| <= |ids|
    ensures |Elements(ids)| == |ids| <==> Distinct(ids)
  {
    if ids != [] {
      var n := |ids| - 1;
      var rest := ids[..n];
      ElementsBound(rest);
      assert forall i :: 0 <= i < n ==> rest[i] == ids[i];
      assert Elements(ids) == Elements(rest) + {ids[n]};
      if ids[n] in Elements(rest) {
        var i :| 0 <= i < n && rest[i] == ids[n];
        assert ids[i] == ids[n];
      } else {
        assert |Elements(ids)| == |Elements(rest)| + 1;
        assert forall i :: 0 <= i < n ==> rest[i] in Elements(rest);
      }
    }
  }

  lemma SubsetOfSameSize(a: set<string>, b: set<string>)
    requires a <= b && |a| >= |b|
    ensures a == b
  {
    assert b == a + (b - a);
    assert |b - a| == 0;
  }

  /** As many distinct ids as places, all taken from the other list: both lists are the same, each id once. */
  lemma Pigeonhole(ids: seq<string>, places: seq<string>)
    requires Distinct(ids) && |ids| == |places| && forall i :: 0 <= i < |ids| ==> ids[i] in places
    ensures Distinct(places)
    ensures forall i :: 0 <= i < |places| ==> Once(ids, places[i])
    ensures forall i :: 0 <= i < |ids| ==> Once(places, ids[i])
  {
    ElementsBound(ids);
    ElementsBound(places);
    assert Elements(ids) <= Elements(places);
    SubsetOfSameSize(Elements(ids), Elements(places));
    forall i | 0 <= i < |places|
      ensures Once(ids, places[i])
    {
      assert places[i] in Elements(ids);
      var k :| 0 <= k < |ids| && ids[k] == places[i];
      assert forall j :: 0 <= j < |ids| && ids[j] == places[i] ==> j == k;
    }
    forall i | 0 <= i < |ids|
      ensures Once(places, ids[i])
    {
      assert ids[i] in Elements(places);
      var k :| 0 <= k < |places| && places[k] == ids[i];
      assert forall j :: 0 <= j < |places| && places[j] == ids[i] ==> j == k;
    }
  }

  lemma {:induction false} ExpectedMeans(criteria: seq<Criterion>, id: string, c: string)
    ensures c in Expected(criteria, id) <==> exists i :: 0 <= i < |criteria| && criteria[i].id == c && id in criteria[i].commandIDs
  {
    if criteria != [] {
      var n := |criteria| - 1;
      var rest := criteria[..n];
      ExpectedMeans(rest, id, c);
      RepeatMeans(criteria[n].id, criteria[n].commandIDs, id, c);
      assert forall i :: 0 <= i < n ==> rest[i] == criteria[i];
      if c in Expected(criteria, id) && c !in Repeat(criteria[n].id, criteria[n].commandIDs, id) {
        var i :| 0 <= i < n && rest[i].id == c && id in rest[i].commandIDs;
        assert criteria[i].id == c;
      }
      if i :| 0 <= i < |criteria| && criteria[i].id == c && id in criteria[i].commandIDs {
        assert i < n ==> rest[i].id == c && id in rest[i].commandIDs;
      }
    }
  }

  lemma {:induction false} RepeatMeans(criterion: string, commandIDs: seq<string>, id: string, c: string)
    ensures c in Repeat(criterion, commandIDs, id) <==> c == criterion && id in commandIDs
  {
    if commandIDs != [] {
      var n := |commandIDs| - 1;
      RepeatMeans(criterion, commandIDs[..n], id, c);
      assert commandIDs == commandIDs[..n] + [commandIDs[n]];
    }
  }

  lemma {:induction false} AuthorityMeans(commands: seq<Command>, id: string)
    ensures Authority(commands, id).Some? <==> exists i :: 0 <= i < |commands| && commands[i].id == id
    ensures Authority(commands, id).Some? ==> exists i :: 0 <= i < |commands| && commands[i].id == id && Authority(commands, id) == Some(commands[i])
  {
    if commands != [] && commands[|commands| - 1].id != id {
      var rest := commands[..|commands| - 1];
      AuthorityMeans(rest, id);
      assert forall i :: 0 <= i < |rest| ==> rest[i] == commands[i];
      if i :| 0 <= i < |commands| && commands[i].id == id { assert rest[i].id == id; }
    } else if commands != [] {
      assert commands[|commands| - 1].id == id;
    }
  }

  lemma {:induction false} EvidenceByIDMeans(evidence: seq<Evidence>, id: string)
    ensures EvidenceByID(evidence, id).Some? ==> exists i :: 0 <= i < |evidence| && evidence[i].id == id && EvidenceByID(evidence, id) == Some(evidence[i])
  {
    if evidence != [] && evidence[|evidence| - 1].id != id {
      var rest := evidence[..|evidence| - 1];
      EvidenceByIDMeans(rest, id);
      assert forall i :: 0 <= i < |rest| ==> rest[i] == evidence[i];
    } else if evidence != [] {
      assert evidence[|evidence| - 1].id == id;
    }
  }

  predicate OneToOne(a: seq<string>, b: seq<string>) {
    (forall i :: 0 <= i < |b| ==> Once(a, b[i])) && (forall i :: 0 <= i < |a| ==> Once(b, a[i]))
  }

  /** The evidence was produced by a command of the contract, for the criteria the contract binds to it. */
  predicate Answers(document: Document, e: Evidence, workspace: string) {
    (exists j :: 0 <= j < |document.commands| && document.commands[j].id == e.commandID && document.commands[j].argv == e.argv) &&
    e.workspace == workspace && multiset(Expected(document.criteria, e.commandID)) == multiset(e.criteria)
  }

  predicate Supported(evidence: seq<Evidence>, check: Check) {
    check.trusted && forall k :: 0 <= k < |check.evidenceIDs| ==> Cites(evidence, check, check.evidenceIDs[k])
  }

  lemma OneToOneCounts(a: seq<string>, b: seq<string>)
    requires OneToOne(a, b)
    ensures Distinct(a) && Distinct(b) && |a| == |b| && Elements(a) == Elements(b)
  {
    forall i, j | 0 <= i < j < |a|
      ensures a[i] != a[j]
    {
      assert Once(b, a[i]);
      var k :| 0 <= k < |b| && b[k] == a[i];
      assert Once(a, b[k]);
    }
    forall i, j | 0 <= i < j < |b|
      ensures b[i] != b[j]
    {
      assert Once(a, b[i]);
      var k :| 0 <= k < |a| && a[k] == b[i];
      assert Once(b, a[k]);
    }
    forall x
      ensures x in Elements(a) <==> x in Elements(b)
    {
      if x in Elements(a) {
        var i :| 0 <= i < |a| && a[i] == x;
        assert Once(b, a[i]);
      }
      if x in Elements(b) {
        var i :| 0 <= i < |b| && b[i] == x;
        assert Once(a, b[i]);
      }
    }
    assert Elements(a) == Elements(b);
    ElementsBound(a);
    ElementsBound(b);
  }

  lemma MatchesAnswers(document: Document, e: Evidence, workspace: string)
    requires Distinct(Ids(document))
    ensures Matches(document, e, workspace) <==> Answers(document, e, workspace)
  {
    AuthorityMeans(document.commands, e.commandID);
    if j :| 0 <= j < |document.commands| && document.commands[j].id == e.commandID && document.commands[j].argv == e.argv {
      var i :| 0 <= i < |document.commands| && document.commands[i].id == e.commandID &&
               Authority(document.commands, e.commandID) == Some(document.commands[i]);
      assert Ids(document)[i] == Ids(document)[j];
    }
  }

  lemma CommandsCovered(document: Document, evidence: seq<Evidence>, workspace: string)
    ensures |evidence| == |document.commands| && DistinctCommands(evidence) &&
            (forall i :: 0 <= i < |evidence| ==> Matches(document, evidence[i], workspace))
            <==> OneToOne(Evidenced(evidence), Ids(document)) && (forall i :: 0 <= i < |evidence| ==> Answers(document, evidence[i], workspace))
  {
    hide Matches, Answers, Once;
    var used, ids := Evidenced(evidence), Ids(document);
    if |evidence| == |document.commands| && DistinctCommands(evidence) && (forall i :: 0 <= i < |evidence| ==> Matches(document, evidence[i], workspace)) {
      forall i | 0 <= i < |used|
        ensures used[i] in ids
      {
        MatchNames(document, evidence[i], workspace);
      }
      Pigeonhole(used, ids);
      forall i | 0 <= i < |evidence| { MatchesAnswers(document, evidence[i], workspace); }
    }
    if OneToOne(used, ids) && (forall i :: 0 <= i < |evidence| ==> Answers(document, evidence[i], workspace)) {
      OneToOneCounts(used, ids);
      forall i | 0 <= i < |evidence| { MatchesAnswers(document, evidence[i], workspace); }
      assert forall i :: 0 <= i < |evidence| ==> used[i] == evidence[i].commandID;
    }
  }

  lemma MatchNames(document: Document, e: Evidence, workspace: string)
    requires Matches(document, e, workspace)
    ensures e.commandID in Ids(document)
  {
    AuthorityMeans(document.commands, e.commandID);
    var i :| 0 <= i < |document.commands| && document.commands[i].id == e.commandID;
    assert Ids(document)[i] == e.commandID;
  }

  lemma SetsOfLists(document: Document, checks: seq<Check>)
    ensures CriterionIDs(document.criteria) == Elements(CriterionList(document)) && CheckedIDs(checks) == Elements(Checked(checks))
  {
    var list, checked := CriterionList(document), Checked(checks);
    assert forall i :: 0 <= i < |list| ==> list[i] == document.criteria[i].id;
    assert forall i :: 0 <= i < |checked| ==> checked[i] == checks[i].criterion;
  }

  lemma CriteriaCovered(document: Document, checks: seq<Check>, evidence: seq<Evidence>)
    ensures |checks| == |document.criteria| && DistinctCriteria(checks) && |CheckedIDs(checks)| == |CriterionIDs(document.criteria)| &&
            (forall i :: 0 <= i < |checks| ==> Sound(document, evidence, checks[i]))
            <==> OneToOne(Checked(checks), CriterionList(document)) && (forall i :: 0 <= i < |checks| ==> Supported(evidence, checks[i]))
  {
    hide Cites, Once;
    var checked, list := Checked(checks), CriterionList(document);
    SetsOfLists(document, checks);
    assert forall i :: 0 <= i < |checks| ==> checked[i] == checks[i].criterion;
    if |checks| == |document.criteria| && DistinctCriteria(checks) && (forall i :: 0 <= i < |checks| ==> Sound(document, evidence, checks[i])) {
      assert forall i :: 0 <= i < |checks| ==> checked[i] in Elements(list);
      assert forall i :: 0 <= i < |checks| ==> Supported(evidence, checks[i]);
      Pigeonhole(checked, list);
    }
    if OneToOne(checked, list) && (forall i :: 0 <= i < |checks| ==> Supported(evidence, checks[i])) {
      OneToOneCounts(checked, list);
      assert forall i :: 0 <= i < |checks| ==> checked[i] in Elements(checked);
    }
  }

  /**
   Accepting is exactly covering: command evidence and contract commands stand in one-to-one
   correspondence, and so do checks and criteria. Unique contract ids are a consequence, not a premise.
   */
  lemma AcceptedIsExactCover(document: Document, checks: seq<Check>, evidence: seq<Evidence>, workspace: string)
    ensures Accepted(document, checks, evidence, workspace) <==>
              OneToOne(Evidenced(evidence), Ids(document)) && OneToOne(Checked(checks), CriterionList(document)) &&
              (forall i :: 0 <= i < |evidence| ==> Answers(document, evidence[i], workspace)) &&
              (forall i :: 0 <= i < |checks| ==> Supported(evidence, checks[i]))
    ensures Accepted(document, checks, evidence, workspace) ==> Distinct(Ids(document)) && Distinct(CriterionList(document))
  {
    hide Matches, Answers, Sound, Supported, OneToOne;
    CommandsCovered(document, evidence, workspace);
    CriteriaCovered(document, checks, evidence);
    if Accepted(document, checks, evidence, workspace) {
      OneToOneCounts(Evidenced(evidence), Ids(document));
      OneToOneCounts(Checked(checks), CriterionList(document));
    }
  }

  /** Whatever an accepted check cites is evidence of a command its own criterion names. */
  lemma CitationsAreBound(document: Document, checks: seq<Check>, evidence: seq<Evidence>, workspace: string, i: nat,
          k: nat)
    requires Accepted(document, checks, evidence, workspace) && i < |checks| && k < |checks[i].evidenceIDs|
    ensures exists e, c ::
              0 <= e < |evidence| && 0 <= c < |document.criteria| && evidence[e].id == checks[i].evidenceIDs[k] &&
              document.criteria[c].id == checks[i].criterion && evidence[e].commandID in document.criteria[c].commandIDs
  {
    hide Expected, Authority, EvidenceByID, DistinctCommands, DistinctCriteria, CheckedIDs, CriterionIDs;
    var id := checks[i].evidenceIDs[k];
    assert Sound(document, evidence, checks[i]);
    assert Cites(evidence, checks[i], id);
    EvidenceByIDMeans(evidence, id);
    var e :| 0 <= e < |evidence| && evidence[e].id == id && EvidenceByID(evidence, id) == Some(evidence[e]);
    assert Matches(document, evidence[e], workspace);
    assert checks[i].criterion in multiset(evidence[e].criteria);
    assert checks[i].criterion in Expected(document.criteria, evidence[e].commandID);
    ExpectedMeans(document.criteria, evidence[e].commandID, checks[i].criterion);
  }

  // ---- What acceptance proves of the records that can exist -----------------------------------

  /** What constructing a check guarantees: it is trusted and cites evidence, each id once. */
  predicate Constructed(check: Check) { check.trusted && check.evidenceIDs != [] && Distinct(check.evidenceIDs) }

  /** What constructing command evidence guarantees: it is bound to criteria, to each once. */
  predicate BoundOnce(e: Evidence) { e.criteria != [] && Distinct(e.criteria) }

  /** Evidence `e`, cited by check `i`, comes from a command of the contract that the criterion names. */
  predicate Proves(document: Document, checks: seq<Check>, evidence: seq<Evidence>, workspace: string, criterion: Criterion, i: nat, e: nat) {
    i < |checks| && e < |evidence| &&
    checks[i].criterion == criterion.id && checks[i].trusted && evidence[e].id in checks[i].evidenceIDs &&
    evidence[e].commandID in criterion.commandIDs && criterion.id in evidence[e].criteria &&
    Answers(document, evidence[e], workspace)
  }

  ghost predicate Proven(document: Document, checks: seq<Check>, evidence: seq<Evidence>, workspace: string, criterion: Criterion) {
    exists i: nat, e: nat :: Proves(document, checks, evidence, workspace, criterion, i, e)
  }

  predicate NamedBySome(document: Document, command: Command) {
    exists c :: 0 <= c < |document.criteria| && command.id in document.criteria[c].commandIDs
  }

  predicate NamedAtMostOnce(criterion: Criterion, id: string) {
    forall j, k :: 0 <= j < k < |criterion.commandIDs| && criterion.commandIDs[j] == id ==> criterion.commandIDs[k] != id
  }

  /**
   Every criterion of an accepted document has a trusted check that cites evidence of a command which
   that very criterion names and the contract contains. In particular no criterion without commands is accepted.
   */
  lemma AcceptedCriteriaAreProven(document: Document, checks: seq<Check>, evidence: seq<Evidence>, workspace: string)
    requires Accepted(document, checks, evidence, workspace)
    requires forall i :: 0 <= i < |checks| ==> Constructed(checks[i])
    ensures forall c :: 0 <= c < |document.criteria| ==> Proven(document, checks, evidence, workspace, document.criteria[c])
    ensures forall c :: 0 <= c < |document.criteria| ==> document.criteria[c].commandIDs != []
  {
    hide Accepted, OneToOne, Answers, Supported;
    AcceptedIsExactCover(document, checks, evidence, workspace);
    forall c | 0 <= c < |document.criteria|
      ensures Proven(document, checks, evidence, workspace, document.criteria[c])
      ensures document.criteria[c].commandIDs != []
    {
      var i := CheckOf(document, checks, c);
      CriterionIsProven(document, checks, evidence, workspace, c, i);
    }
  }

  lemma CheckOf(document: Document, checks: seq<Check>, c: nat) returns (i: nat)
    requires OneToOne(Checked(checks), CriterionList(document)) && c < |document.criteria|
    ensures i < |checks| && checks[i].criterion == document.criteria[c].id
  {
    assert Once(Checked(checks), CriterionList(document)[c]);
    i :| 0 <= i < |checks| && Checked(checks)[i] == CriterionList(document)[c];
  }

  lemma CriterionIsProven(document: Document, checks: seq<Check>, evidence: seq<Evidence>, workspace: string, c: nat,
          i: nat)
    requires Accepted(document, checks, evidence, workspace) && Distinct(CriterionList(document))
    requires c < |document.criteria| && i < |checks| && checks[i].criterion == document.criteria[c].id && Constructed(checks[i])
    requires forall e :: 0 <= e < |evidence| ==> Answers(document, evidence[e], workspace)
    ensures Proven(document, checks, evidence, workspace, document.criteria[c]) && document.criteria[c].commandIDs != []
  {
    hide Accepted, Answers;
    CitationsAreBound(document, checks, evidence, workspace, i, 0);
    var e, d :| 0 <= e < |evidence| && 0 <= d < |document.criteria| && evidence[e].id == checks[i].evidenceIDs[0] &&
                document.criteria[d].id == checks[i].criterion && evidence[e].commandID in document.criteria[d].commandIDs;
    assert CriterionList(document)[d] == CriterionList(document)[c];
    AnswersForCriterion(document, evidence[e], workspace, c);
    assert Proves(document, checks, evidence, workspace, document.criteria[c], i, e);
  }

  lemma AnswersForCriterion(document: Document, e: Evidence, workspace: string, c: nat)
    requires Answers(document, e, workspace) && c < |document.criteria| && e.commandID in document.criteria[c].commandIDs
    ensures document.criteria[c].id in e.criteria
  {
    ExpectedMeans(document.criteria, e.commandID, document.criteria[c].id);
    assert document.criteria[c].id in multiset(Expected(document.criteria, e.commandID));
  }

  /** Every command of an accepted contract is named by a criterion, and by none twice. */
  lemma AcceptedCommandsServe(document: Document, checks: seq<Check>, evidence: seq<Evidence>, workspace: string)
    requires Accepted(document, checks, evidence, workspace)
    requires forall e :: 0 <= e < |evidence| ==> BoundOnce(evidence[e])
    ensures forall j :: 0 <= j < |document.commands| ==> NamedBySome(document, document.commands[j])
    ensures forall j, c :: 0 <= j < |document.commands| && 0 <= c < |document.criteria| ==>
                             NamedAtMostOnce(document.criteria[c], document.commands[j].id)
  {
    hide Accepted, OneToOne, Answers, Supported, NamedAtMostOnce, NamedBySome;
    AcceptedIsExactCover(document, checks, evidence, workspace);
    forall j | 0 <= j < |document.commands|
      ensures NamedBySome(document, document.commands[j])
      ensures forall c :: 0 <= c < |document.criteria| ==> NamedAtMostOnce(document.criteria[c], document.commands[j].id)
    {
      var e := EvidenceOf(document, evidence, j);
      CommandServes(document, evidence[e], workspace, j);
    }
  }

  lemma EvidenceOf(document: Document, evidence: seq<Evidence>, j: nat) returns (e: nat)
    requires OneToOne(Evidenced(evidence), Ids(document)) && j < |document.commands|
    ensures e < |evidence| && evidence[e].commandID == document.commands[j].id
  {
    assert Once(Evidenced(evidence), Ids(document)[j]);
    e :| 0 <= e < |evidence| && Evidenced(evidence)[e] == Ids(document)[j];
  }

  lemma CommandServes(document: Document, e: Evidence, workspace: string, j: nat)
    requires j < |document.commands| && e.commandID == document.commands[j].id && Answers(document, e, workspace) && BoundOnce(e)
    ensures NamedBySome(document, document.commands[j])
    ensures forall c :: 0 <= c < |document.criteria| ==> NamedAtMostOnce(document.criteria[c], document.commands[j].id)
  {
    var expected := Expected(document.criteria, e.commandID);
    assert e.criteria[0] in multiset(e.criteria);
    assert e.criteria[0] in expected;
    ExpectedMeans(document.criteria, e.commandID, e.criteria[0]);
    forall c | 0 <= c < |document.criteria|
      ensures NamedAtMostOnce(document.criteria[c], e.commandID)
    {
      var criterion := document.criteria[c];
      DistinctHasOne(e.criteria, criterion.id);
      ExpectedCounts(document.criteria, e.commandID, c);
      RepeatCounts(criterion, e.commandID);
    }
  }

  lemma {:induction false} DistinctHasOne(ids: seq<string>, id: string)
    requires Distinct(ids)
    ensures multiset(ids)[id] <= 1
  {
    if ids != [] {
      var n := |ids| - 1;
      DistinctHasOne(ids[..n], id);
      assert ids == ids[..n] + [ids[n]];
      assert id in ids[..n] ==> exists k :: 0 <= k < n && ids[k] == id;
    }
  }

  lemma {:induction false} ExpectedCounts(criteria: seq<Criterion>, id: string, c: nat)
    requires c < |criteria|
    ensures multiset(Expected(criteria, id))[criteria[c].id] >= multiset(Repeat(criteria[c].id, criteria[c].commandIDs, id))[criteria[c].id]
  {
    var n := |criteria| - 1;
    if c < n { ExpectedCounts(criteria[..n], id, c); }
  }

  lemma {:induction false} RepeatCounts(criterion: Criterion, id: string)
    requires multiset(Repeat(criterion.id, criterion.commandIDs, id))[criterion.id] <= 1
    ensures NamedAtMostOnce(criterion, id)
    decreases |criterion.commandIDs|
  {
    var ids := criterion.commandIDs;
    if ids != [] {
      var n := |ids| - 1;
      var rest := Criterion(criterion.id, ids[..n]);
      RepeatCounts(rest, id);
      RepeatMeans(criterion.id, ids[..n], id, criterion.id);
      assert forall k :: 0 <= k < n ==> ids[k] == rest.commandIDs[k];
    }
  }
}
