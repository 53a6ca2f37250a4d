/**
 Display hunks derived from an edit script. The script itself comes from the diff algorithm, of which
 only this is assumed: its old side is the text before and its new side the text after.
 */
module DiffProjection {
  import opened Common
  import opened PatchModel

  datatype EditKind = Equal | Delete | Insert

  datatype Edit = Edit(kind: EditKind, line: string)

  datatype Range = Range(start: nat, end: nat)

  const CONTEXT_LINES := 3

  function OldSide(edits: seq<Edit>): seq<string> {
    if edits == [] then [] else (if edits[0].kind.Insert? then [] else [edits[0].line]) + OldSide(edits[1..])
  }

  function NewSide(edits: seq<Edit>): seq<string> {
    if edits == [] then [] else (if edits[0].kind.Delete? then [] else [edits[0].line]) + NewSide(edits[1..])
  }

  function Min(a: int, b: int): int { if a < b then a else b }
  function Max(a: int, b: int): int { if a < b then b else a }

  // ---- Context ranges ------------------------------------------------------------------------

  predicate Changed(edits: seq<Edit>, i: int) { 0 <= i < |edits| && !edits[i].kind.Equal? }

  function Around(index: nat, n: nat, context: nat): Range {
    Range(Max(0, index - context), Max(0, Min(n, index + context + 1)))
  }

  /** Extends `current` by the changed positions that touch it, and opens a new range at the first that does not. */
  function MergeRanges(changed: seq<nat>, current: Range, n: nat, context: nat): (r: seq<Range>)
    ensures r != [] && r[0].start == current.start
  {
    if changed == [] then [current]
    else
      var next := Around(changed[0], n, context);
      if next.start <= current.end then MergeRanges(changed[1..], Range(current.start, Max(current.end, next.end)), n, context)
      else [current] + MergeRanges(changed[1..], next, n, context)
  }

  function ChangedIndexes(edits: seq<Edit>): seq<nat> {
    if edits == [] then []
    else
      var n := |edits| - 1;
      ChangedIndexes(edits[..n]) + if edits[n].kind.Equal? then [] else [n]
  }

  lemma {:induction false} ChangedIndexesExact(edits: seq<Edit>)
    ensures forall k :: 0 <= k < |ChangedIndexes(edits)| ==> Changed(edits, ChangedIndexes(edits)[k])
    ensures forall k, j :: 0 <= k < j < |ChangedIndexes(edits)| ==> ChangedIndexes(edits)[k] < ChangedIndexes(edits)[j]
    ensures forall i :: Changed(edits, i) ==> i in ChangedIndexes(edits)
  {
    if edits != [] {
      var n := |edits| - 1;
      ChangedIndexesExact(edits[..n]);
      var rest := ChangedIndexes(edits[..n]);
      assert forall k :: 0 <= k < |rest| ==> Changed(edits[..n], rest[k]) && rest[k] < n;
      assert forall i :: Changed(edits, i) && i < n ==> Changed(edits[..n], i);
    }
  }

  function ContextRangesOf(edits: seq<Edit>, context: nat): seq<Range> {
    var changed := ChangedIndexes(edits);
    if changed == [] then []
    else MergeRanges(changed[1..], Around(changed[0], |edits|, context), |edits|, context)
  }

  method ContextRanges(edits: seq<Edit>, context: nat) returns (ranges: seq<Range>)
    ensures ranges == ContextRangesOf(edits, context)
  {
    var changed: seq<nat> := [];
    for index := 0 to |edits|
      invariant changed == ChangedIndexes(edits[..index])
    {
      assert edits[..index + 1][..index] == edits[..index];
      if !edits[index].kind.Equal? { changed := changed + [index]; }
    }
    assert edits[..|edits|] == edits;
    if changed == [] { return []; }
    ranges := [];
    var current := Around(changed[0], |edits|, context);
    for k := 1 to |changed|
      invariant ContextRangesOf(edits, context) == ranges + MergeRanges(changed[k..], current, |edits|, context)
    {
      var start, end := Max(0, changed[k] - context), Min(|edits|, changed[k] + context + 1);
      assert changed[k..][1..] == changed[k + 1..];
      if start <= current.end {
        current := Range(current.start, Max(current.end, end));
      } else {
        ranges, current := ranges + [current], Range(start, end);
      }
    }
    ranges := ranges + [current];
  }

  /** Some changed line is at most `context` positions away. */
  predicate Near(edits: seq<Edit>, context: nat, i: int) {
    exists j :: Changed(edits, j) && i - context <= j <= i + context
  }

  predicate In(r: Range, i: int) { r.start <= i < r.end }

  predicate Covered(ranges: seq<Range>, i: int) {
    ranges != [] && (In(ranges[0], i) || Covered(ranges[1..], i))
  }

  predicate AroundSome(changed: seq<nat>, n: nat, context: nat, i: int) {
    changed != [] && (In(Around(changed[0], n, context), i) || AroundSome(changed[1..], n, context, i))
  }

  /** Non-empty, in bounds, in order, and with a gap between neighbours. */
  predicate Separated(ranges: seq<Range>, n: nat) {
    (forall k :: 0 <= k < |ranges| ==> ranges[k].start < ranges[k].end <= n) &&
    (forall k :: 0 < k < |ranges| ==> ranges[k - 1].end < ranges[k].start)
  }

  predicate Rising(changed: seq<nat>, from: nat, n: nat) {
    (forall k :: 0 <= k < |changed| ==> from <= changed[k] < n) &&
    (forall k, j :: 0 <= k < j < |changed| ==> changed[k] < changed[j])
  }

  lemma {:induction false} MergeSeparates(changed: seq<nat>, current: Range, last: nat, n: nat, context: nat)
    requires last < n && Rising(changed, last, n) && current.start < current.end <= n && current.end == Around(last, n, context).end
    ensures Separated(MergeRanges(changed, current, n, context), n)
  {
    if changed != [] {
      var next := Around(changed[0], n, context);
      if next.start <= current.end {
        MergeSeparates(changed[1..], Range(current.start, Max(current.end, next.end)), changed[0], n, context);
      } else {
        MergeSeparates(changed[1..], next, changed[0], n, context);
        var tail := MergeRanges(changed[1..], next, n, context);
        assert forall k :: 0 < k < |tail| + 1 ==> ([current] + tail)[k] == tail[k - 1];
      }
    }
  }

  lemma {:induction false} MergeCovers(changed: seq<nat>, current: Range, last: nat, n: nat, context: nat, i: int)
    requires last < n && Rising(changed, last, n) && current.start <= Around(last, n, context).start && current.end == Around(last, n, context).end
    ensures Covered(MergeRanges(changed, current, n, context), i) <==> In(current, i) || AroundSome(changed, n, context, i)
  {
    if changed != [] {
      var next := Around(changed[0], n, context);
      if next.start <= current.end {
        MergeCovers(changed[1..], Range(current.start, Max(current.end, next.end)), changed[0], n, context, i);
      } else {
        MergeCovers(changed[1..], next, changed[0], n, context, i);
        assert ([current] + MergeRanges(changed[1..], next, n, context))[1..] == MergeRanges(changed[1..], next, n, context);
      }
    } else {
      assert Covered([current], i) <==> In(current, i) || Covered([current][1..], i);
    }
  }

  lemma {:induction false} AroundSomeIsNear(changed: seq<nat>, n: nat, context: nat, i: int)
    requires 0 <= i < n
    ensures AroundSome(changed, n, context, i) <==> exists k :: 0 <= k < |changed| && changed[k] - context <= i <= changed[k] + context
  {
    if changed != [] {
      AroundSomeIsNear(changed[1..], n, context, i);
      assert forall k :: 0 < k < |changed| ==> changed[k] == changed[1..][k - 1];
    }
  }

  /** The ranges are the separated, in-bounds intervals of exactly the positions near a change. */
  lemma ContextRangesExact(edits: seq<Edit>, context: nat)
    ensures Separated(ContextRangesOf(edits, context), |edits|)
    ensures forall i :: 0 <= i < |edits| ==> (Covered(ContextRangesOf(edits, context), i) <==> Near(edits, context, i))
  {
    var changed, n := ChangedIndexes(edits), |edits|;
    ChangedIndexesExact(edits);
    if changed != [] {
      var first := Around(changed[0], n, context);
      MergeSeparates(changed[1..], first, changed[0], n, context);
      forall i | 0 <= i < n
        ensures Covered(ContextRangesOf(edits, context), i) <==> Near(edits, context, i)
      {
        MergeCovers(changed[1..], first, changed[0], n, context, i);
        AroundSomeIsNear(changed, n, context, i);
        assert AroundSome(changed, n, context, i) <==> In(first, i) || AroundSome(changed[1..], n, context, i);
        if Near(edits, context, i) {
          var j :| Changed(edits, j) && i - context <= j <= i + context;
          var k :| 0 <= k < |changed| && changed[k] == j;
        }
      }
    }
  }

  // ---- Hunks ---------------------------------------------------------------------------------

  function OldLength(edits: seq<Edit>): nat { |OldSide(edits)| }
  function NewLength(edits: seq<Edit>): nat { |NewSide(edits)| }

  function LineOf(e: Edit, old': nat, new': nat): PatchLine {
    match e.kind
    case Equal => PatchLine(Context, old' + 1, new' + 1, e.line)
    case Delete => PatchLine(Removed, old' + 1, 0, e.line)
    case Insert => PatchLine(Added, 0, new' + 1, e.line)
  }

  function LinesOf(edits: seq<Edit>, old': nat, new': nat): seq<PatchLine> {
    if edits == [] then []
    else
      [LineOf(edits[0], old', new')] +
      LinesOf(edits[1..], if edits[0].kind.Insert? then old' else old' + 1, if edits[0].kind.Delete? then new' else new' + 1)
  }

  function PatchRange(start: nat, count: nat): string {
    if count == 1 then Itoa(start) else Itoa(start) + "," + Itoa(count)
  }

  function HunkHeader(oldStart: nat, oldCount: nat, newStart: nat, newCount: nat): string {
    "@@ -" + PatchRange(oldStart, oldCount) + " +" + PatchRange(newStart, newCount) + " @@"
  }

  /** `old'` and `new'` lines precede the hunk; an empty side is numbered by the line before it. */
  function HunkOf(edits: seq<Edit>, old': nat, new': nat): Hunk {
    var oldCount, newCount := OldLength(edits), NewLength(edits);
    var oldStart := if oldCount == 0 then old' else old' + 1;
    var newStart := if newCount == 0 then new' else new' + 1;
    Hunk(HunkHeader(oldStart, oldCount, newStart, newCount), oldStart, oldCount, newStart, newCount, LinesOf(edits, old', new'))
  }

  predicate RangesFrom(ranges: seq<Range>, position: nat, n: nat) {
    position <= n &&
    (ranges != [] ==> position <= ranges[0].start <= ranges[0].end <= n && RangesFrom(ranges[1..], ranges[0].end, n))
  }

  function HunksOf(edits: seq<Edit>, ranges: seq<Range>, position: nat, old': nat, new': nat): seq<Hunk>
    requires RangesFrom(ranges, position, |edits|)
  {
    if ranges == [] then []
    else
      var r := ranges[0];
      var gap, shown := edits[position..r.start], edits[r.start..r.end];
      var o, n := old' + OldLength(gap), new' + NewLength(gap);
      [HunkOf(shown, o, n)] + HunksOf(edits, ranges[1..], r.end, o + OldLength(shown), n + NewLength(shown))
  }

  lemma {:induction false} SeparatedFrom(ranges: seq<Range>, position: nat, n: nat)
    requires Separated(ranges, n) && position <= n && (ranges != [] ==> position <= ranges[0].start)
    ensures RangesFrom(ranges, position, n)
  {
    if ranges != [] {
      assert forall k :: 0 < k < |ranges[1..]| ==> ranges[1..][k - 1].end < ranges[1..][k].start by {
        assert forall k :: 0 < k < |ranges[1..]| ==> ranges[1..][k - 1] == ranges[k] && ranges[1..][k] == ranges[k + 1];
      }
      SeparatedFrom(ranges[1..], ranges[0].end, n);
    }
  }

  lemma RangesInOrder(edits: seq<Edit>)
    ensures RangesFrom(ContextRangesOf(edits, CONTEXT_LINES), 0, |edits|)
  {
    ContextRangesExact(edits, CONTEXT_LINES);
    SeparatedFrom(ContextRangesOf(edits, CONTEXT_LINES), 0, |edits|);
  }

  function FileOf(path: string, hunks: seq<Hunk>): PatchFile {
    var lines := HunkLines(hunks);
    PatchFile(path, FileModified, CountKind(lines, Added), CountKind(lines, Removed), hunks, lines)
  }

  /** None when the two texts are the same. */
  function ProjectionOf(path: string, edits: seq<Edit>): Option<PatchFile> {
    var ranges := ContextRangesOf(edits, CONTEXT_LINES);
    if ranges == [] then None
    else
      RangesInOrder(edits);
      Some(FileOf(path, HunksOf(edits, ranges, 0, 0, 0)))
  }

  lemma {:induction false} SidesAppend(a: seq<Edit>, b: seq<Edit>)
    ensures OldSide(a + b) == OldSide(a) + OldSide(b)
    ensures NewSide(a + b) == NewSide(a) + NewSide(b)
  {
    if a == [] {
      assert a + b == b;
    } else {
      assert (a + b)[1..] == a[1..] + b;
      SidesAppend(a[1..], b);
    }
  }

  lemma {:induction false} LinesAppend(a: seq<Edit>, b: seq<Edit>, old': nat, new': nat)
    ensures LinesOf(a + b, old', new') == LinesOf(a, old', new') + LinesOf(b, old' + OldLength(a), new' + NewLength(a))
  {
    if a == [] {
      assert a + b == b;
    } else {
      assert (a + b)[1..] == a[1..] + b;
      LinesAppend(a[1..], b, if a[0].kind.Insert? then old' else old' + 1, if a[0].kind.Delete? then new' else new' + 1);
    }
  }

  lemma SidesStep(edits: seq<Edit>, from: nat, i: nat)
    requires from <= i < |edits|
    ensures OldLength(edits[from..i + 1]) == OldLength(edits[from..i]) + (if edits[i].kind.Insert? then 0 else 1)
    ensures NewLength(edits[from..i + 1]) == NewLength(edits[from..i]) + (if edits[i].kind.Delete? then 0 else 1)
    ensures forall o: nat, n: nat :: LinesOf(edits[from..i + 1], o, n) ==
              LinesOf(edits[from..i], o, n) + [LineOf(edits[i], o + OldLength(edits[from..i]), n + NewLength(edits[from..i]))]
  {
    var done, next := edits[from..i], edits[i..i + 1];
    assert edits[from..i + 1] == done + next && next == [edits[i]] && next[1..] == [];
    SidesAppend(done, next);
    forall o: nat, n: nat
      ensures LinesOf(edits[from..i + 1], o, n) == LinesOf(done, o, n) + [LineOf(edits[i], o + OldLength(done), n + NewLength(done))]
    {
      LinesAppend(done, next, o, n);
    }
  }

  /** Counts the lines of both sides over a stretch of the script. */
  method CountSides(edits: seq<Edit>, from: nat, to: nat) returns (oldCount: nat, newCount: nat)
    requires from <= to <= |edits|
    ensures oldCount == OldLength(edits[from..to]) && newCount == NewLength(edits[from..to])
  {
    oldCount, newCount := 0, 0;
    for i := from to to
      invariant oldCount == OldLength(edits[from..i]) && newCount == NewLength(edits[from..i])
    {
      SidesStep(edits, from, i);
      if !edits[i].kind.Insert? { oldCount := oldCount + 1; }
      if !edits[i].kind.Delete? { newCount := newCount + 1; }
    }
  }

  /** The display lines of one range, numbered by the lines consumed before it. */
  method ShowRange(edits: seq<Edit>, from: nat, to: nat, old': nat, new': nat)
      returns (lines: seq<PatchLine>, additions: nat, deletions: nat, oldConsumed: nat, newConsumed: nat)
    requires from <= to <= |edits|
    ensures lines == LinesOf(edits[from..to], old', new')
    ensures additions == CountKind(lines, Added) && deletions == CountKind(lines, Removed)
    ensures oldConsumed == old' + OldLength(edits[from..to]) && newConsumed == new' + NewLength(edits[from..to])
  {
    lines, additions, deletions, oldConsumed, newConsumed := [], 0, 0, old', new';
    for position := from to to
      invariant lines == LinesOf(edits[from..position], old', new')
      invariant additions == CountKind(lines, Added) && deletions == CountKind(lines, Removed)
      invariant oldConsumed == old' + OldLength(edits[from..position]) && newConsumed == new' + NewLength(edits[from..position])
    {
      SidesStep(edits, from, position);
      var edit := edits[position];
      var line := PatchLine(Context, 0, 0, edit.line);
      match edit.kind {
        case Equal => line := line.(oldLine := oldConsumed + 1, newLine := newConsumed + 1);
        case Delete =>
          line := line.(kind := Removed, oldLine := oldConsumed + 1);
          deletions := deletions + 1;
        case Insert =>
          line := line.(kind := Added, newLine := newConsumed + 1);
          additions := additions + 1;
      }
      CountKindAppend(lines, [line], Added);
      CountKindAppend(lines, [line], Removed);
      assert [line][1..] == [];
      if !edit.kind.Insert? { oldConsumed := oldConsumed + 1; }
      if !edit.kind.Delete? { newConsumed := newConsumed + 1; }
      lines := lines + [line];
    }
  }

  /** One display hunk: counts both sides, then numbers and copies the lines. */
  method ShowHunk(edits: seq<Edit>, shown: Range, old': nat, new': nat)
      returns (hunk: Hunk, additions: nat, deletions: nat, oldConsumed: nat, newConsumed: nat)
    requires shown.start <= shown.end <= |edits|
    ensures hunk == HunkOf(edits[shown.start..shown.end], old', new')
    ensures additions == CountKind(hunk.lines, Added) && deletions == CountKind(hunk.lines, Removed)
    ensures oldConsumed == old' + OldLength(edits[shown.start..shown.end])
    ensures newConsumed == new' + NewLength(edits[shown.start..shown.end])
  {
    var oldCount, newCount := CountSides(edits, shown.start, shown.end);
    var oldStart, newStart := old' + 1, new' + 1;
    if oldCount == 0 { oldStart := old'; }
    if newCount == 0 { newStart := new'; }
    var lines;
    lines, additions, deletions, oldConsumed, newConsumed := ShowRange(edits, shown.start, shown.end, old', new');
    hunk := Hunk(HunkHeader(oldStart, oldCount, newStart, newCount), oldStart, oldCount, newStart, newCount, lines);
  }

  lemma HunksOfStep(edits: seq<Edit>, ranges: seq<Range>, position: nat, old': nat, new': nat, o: nat, n: nat,
          o': nat, n': nat)
    requires ranges != [] && RangesFrom(ranges, position, |edits|)
    requires o == old' + OldLength(edits[position..ranges[0].start]) && n == new' + NewLength(edits[position..ranges[0].start])
    requires o' == o + OldLength(edits[ranges[0].start..ranges[0].end]) && n' == n + NewLength(edits[ranges[0].start..ranges[0].end])
    ensures HunksOf(edits, ranges, position, old', new') ==
            [HunkOf(edits[ranges[0].start..ranges[0].end], o, n)] + HunksOf(edits, ranges[1..], ranges[0].end, o', n')
  {
    hide HunkOf, OldLength, NewLength;
  }

  lemma NoHunks(edits: seq<Edit>, ranges: seq<Range>, position: nat, old': nat, new': nat)
    requires ranges == [] && position <= |edits|
    ensures HunksOf(edits, ranges, position, old', new') == []
  {
  }

  lemma NoLines(path: string)
    ensures FileOf(path, []) == PatchFile(path, FileModified, 0, 0, [], [])
  {
  }

  /** Moving the first hunk still to come behind the hunks already shown. */
  lemma MoveHunk(edits: seq<Edit>, all: seq<Hunk>, hunks: seq<Hunk>, ranges: seq<Range>, position: nat,
                 old': nat, new': nat, o: nat, n: nat, o': nat, n': nat)
    requires ranges != [] && RangesFrom(ranges, position, |edits|)
    requires o == old' + OldLength(edits[position..ranges[0].start]) && n == new' + NewLength(edits[position..ranges[0].start])
    requires o' == o + OldLength(edits[ranges[0].start..ranges[0].end]) && n' == n + NewLength(edits[ranges[0].start..ranges[0].end])
    requires all == hunks + HunksOf(edits, ranges, position, old', new')
    ensures all == hunks + [HunkOf(edits[ranges[0].start..ranges[0].end], o, n)] + HunksOf(edits, ranges[1..], ranges[0].end, o', n')
  {
    hide HunkOf, OldLength, NewLength;
    HunksOfStep(edits, ranges, position, old', new', o, n, o', n');
  }

  lemma LinesExtend(hunks: seq<Hunk>, h: Hunk)
    ensures HunkLines(hunks + [h]) == HunkLines(hunks) + h.lines
    ensures forall kind :: CountKind(HunkLines(hunks + [h]), kind) == CountKind(HunkLines(hunks), kind) + CountKind(h.lines, kind)
  {
    HunkLinesAppend(hunks, h);
    forall kind
      ensures CountKind(HunkLines(hunks) + h.lines, kind) == CountKind(HunkLines(hunks), kind) + CountKind(h.lines, kind)
    {
      CountKindAppend(HunkLines(hunks), h.lines, kind);
    }
  }

  method SemanticPatchProjection(path: string, edits: seq<Edit>) returns (r: Option<PatchFile>)
    ensures r == ProjectionOf(path, edits)
  {
    hide HunkOf, HunksOf, OldLength, NewLength, HunkLines, ContextRangesOf, CountKind;
    var ranges := ContextRanges(edits, CONTEXT_LINES);
    if ranges == [] { return None; }
    RangesInOrder(edits);
    var hunks: seq<Hunk>, lines: seq<PatchLine>, additions: nat, deletions: nat := [], [], 0, 0;
    var oldConsumed: nat, newConsumed: nat, position: nat := 0, 0, 0;
    ghost var all := HunksOf(edits, ranges, 0, 0, 0);
    assert ranges[0..] == ranges;
    NoLines(path);
    for k := 0 to |ranges|
      invariant RangesFrom(ranges[k..], position, |edits|)
      invariant all == hunks + HunksOf(edits, ranges[k..], position, oldConsumed, newConsumed)
      invariant FileOf(path, hunks) == PatchFile(path, FileModified, additions, deletions, hunks, lines)
    {
      ghost var later := ranges[k..];
      assert later[0] == ranges[k] && later[1..] == ranges[k + 1..];
      var skippedOld, skippedNew := CountSides(edits, position, ranges[k].start);
      var hunk, added, removed, oldNext, newNext := ShowHunk(edits, ranges[k], oldConsumed + skippedOld, newConsumed + skippedNew);
      LinesExtend(hunks, hunk);
      MoveHunk(edits, all, hunks, later, position, oldConsumed, newConsumed,
               oldConsumed + skippedOld, newConsumed + skippedNew, oldNext, newNext);
      hunks, lines, additions, deletions := hunks + [hunk], lines + hunk.lines, additions + added, deletions + removed;
      oldConsumed, newConsumed, position := oldNext, newNext, ranges[k].end;
    }
    NoHunks(edits, ranges[|ranges|..], position, oldConsumed, newConsumed);
    assert hunks == all;
    r := Some(PatchFile(path, FileModified, additions, deletions, hunks, lines));
  }

  // ---- Applying hunks ------------------------------------------------------------------------

  /** How many lines of each side come before the hunk; an empty side is numbered by the line before it. */
  function OldFrom(h: Hunk): int { if h.oldCount == 0 then h.oldStart else h.oldStart - 1 }
  function NewFrom(h: Hunk): int { if h.newCount == 0 then h.newStart else h.newStart - 1 }

  /**
   Applies hunks strictly to the lines after the first `at`, when `written` new lines exist already:
   positions, counts and every context and removed line must agree, and hunks may not overlap.
   */
  function ApplyHunks(before: seq<string>, hunks: seq<Hunk>, at: nat, written: nat): Option<seq<string>>
    requires at <= |before|
    decreases |hunks|
  {
    if hunks == [] then Some(before[at..])
    else
      var h := hunks[0];
      var from, to := OldFrom(h), NewFrom(h);
      if from < at || from + h.oldCount > |before| || to != written + (from - at) then None
      else if before[from..from + h.oldCount] != OldText(h.lines) || |NewText(h.lines)| != h.newCount then None
      else
        match ApplyHunks(before, hunks[1..], from + h.oldCount, to + h.newCount)
        case None => None
        case Some(rest) => Some(before[at..from] + NewText(h.lines) + rest)
  }

  /** Every displayed number names the line it stands beside. */
  predicate NumbersPoint(lines: seq<PatchLine>, before: seq<string>, after: seq<string>) {
    forall k :: 0 <= k < |lines| ==>
      (if lines[k].kind.Added? then lines[k].oldLine == 0
       else 1 <= lines[k].oldLine <= |before| && before[lines[k].oldLine - 1] == lines[k].text) &&
      (if lines[k].kind.Removed? then lines[k].newLine == 0
       else 1 <= lines[k].newLine <= |after| && after[lines[k].newLine - 1] == lines[k].text)
  }

  lemma {:induction false} LinesAreSides(edits: seq<Edit>, old': nat, new': nat)
    ensures OldText(LinesOf(edits, old', new')) == OldSide(edits)
    ensures NewText(LinesOf(edits, old', new')) == NewSide(edits)
  {
    if edits != [] {
      LinesAreSides(edits[1..], if edits[0].kind.Insert? then old' else old' + 1, if edits[0].kind.Delete? then new' else new' + 1);
    }
  }

  lemma {:induction false} EqualSides(edits: seq<Edit>)
    requires forall i :: 0 <= i < |edits| ==> edits[i].kind.Equal?
    ensures OldSide(edits) == NewSide(edits)
  {
    if edits != [] { EqualSides(edits[1..]); }
  }

  lemma Middle(p: seq<string>, m: seq<string>, q: seq<string>)
    ensures (p + m + q)[|p|..|p| + |m|] == m && (p + m + q)[|p|..] == m + q
  {
  }

  lemma SidesOfThree(p: seq<Edit>, m: seq<Edit>, q: seq<Edit>)
    ensures OldSide(p + m + q) == OldSide(p) + OldSide(m) + OldSide(q) && NewSide(p + m + q) == NewSide(p) + NewSide(m) + NewSide(q)
    ensures OldSide(p + m) == OldSide(p) + OldSide(m) && NewSide(p + m) == NewSide(p) + NewSide(m)
    ensures OldSide(m + q) == OldSide(m) + OldSide(q) && NewSide(m + q) == NewSide(m) + NewSide(q)
  {
    hide OldSide, NewSide;
    SidesAppend(p + m, q);
    SidesAppend(p, m);
    SidesAppend(m, q);
  }

  lemma Cut(edits: seq<Edit>, a: nat, b: nat)
    requires a <= b <= |edits|
    ensures edits == edits[..a] + edits[a..b] + edits[b..] && edits[..b] == edits[..a] + edits[a..b] && edits[a..] == edits[a..b] + edits[b..]
  {
  }

  lemma SidesSplit(edits: seq<Edit>, a: nat, b: nat)
    requires a <= b <= |edits|
    ensures OldLength(edits[..b]) == OldLength(edits[..a]) + OldLength(edits[a..b])
    ensures NewLength(edits[..b]) == NewLength(edits[..a]) + NewLength(edits[a..b])
    ensures OldLength(edits[..b]) <= |OldSide(edits)| && NewLength(edits[..b]) <= |NewSide(edits)|
    ensures OldSide(edits)[OldLength(edits[..a])..OldLength(edits[..b])] == OldSide(edits[a..b])
    ensures NewSide(edits)[NewLength(edits[..a])..NewLength(edits[..b])] == NewSide(edits[a..b])
    ensures NewSide(edits[a..]) == NewSide(edits[a..b]) + NewSide(edits[b..])
    ensures OldSide(edits)[OldLength(edits[..a])..] == OldSide(edits[a..])
  {
    hide OldSide, NewSide;
    var p, m, q := edits[..a], edits[a..b], edits[b..];
    Cut(edits, a, b);
    SidesOfThree(p, m, q);
    Middle(OldSide(p), OldSide(m), OldSide(q));
    Middle(NewSide(p), NewSide(m), NewSide(q));
  }

  lemma ApplyNone(before: seq<string>, at: nat, written: nat)
    requires at <= |before|
    ensures ApplyHunks(before, [], at, written) == Some(before[at..])
  {
  }

  lemma ApplyFirst(before: seq<string>, h: Hunk, rest: seq<Hunk>, at: nat, written: nat, from: nat, tail: seq<string>)
    requires at <= from && from + h.oldCount <= |before|
    requires h.oldStart == (if h.oldCount == 0 then from else from + 1)
    requires h.newStart == written + (from - at) + (if h.newCount == 0 then 0 else 1)
    requires before[from..from + h.oldCount] == OldText(h.lines) && |NewText(h.lines)| == h.newCount
    requires ApplyHunks(before, rest, from + h.oldCount, written + (from - at) + h.newCount) == Some(tail)
    ensures ApplyHunks(before, [h] + rest, at, written) == Some(before[at..from] + NewText(h.lines) + tail)
  {
    assert ([h] + rest)[1..] == rest;
  }

  /** A hunk built from a stretch of the script turns that stretch's old side into its new side. */
  lemma HunkApplies(before: seq<string>, shown: seq<Edit>, rest: seq<Hunk>, at: nat, written: nat, from: nat, to: nat,
          tail: seq<string>)
    requires at <= from && from + OldLength(shown) <= |before| && to == written + (from - at)
    requires before[from..from + OldLength(shown)] == OldSide(shown)
    requires ApplyHunks(before, rest, from + OldLength(shown), to + NewLength(shown)) == Some(tail)
    ensures ApplyHunks(before, [HunkOf(shown, from, to)] + rest, at, written) == Some(before[at..from] + NewSide(shown) + tail)
  {
    LinesAreSides(shown, from, to);
    ApplyFirst(before, HunkOf(shown, from, to), rest, at, written, from, tail);
  }

  lemma {:induction false} NothingBefore(ranges: seq<Range>, position: nat, n: nat)
    requires RangesFrom(ranges, position, n)
    ensures forall i :: i < position || (ranges != [] && i < ranges[0].start) ==> !Covered(ranges, i)
  {
    if ranges != [] { NothingBefore(ranges[1..], ranges[0].end, n); }
  }

  predicate AllCovered(edits: seq<Edit>, ranges: seq<Range>, position: nat) {
    forall i :: position <= i < |edits| && !edits[i].kind.Equal? ==> Covered(ranges, i)
  }

  /** Nothing changes outside the ranges, so a gap reads the same on both sides. */
  lemma GapIsEqual(edits: seq<Edit>, ranges: seq<Range>, position: nat, to: nat)
    requires RangesFrom(ranges, position, |edits|) && AllCovered(edits, ranges, position)
    requires to == if ranges == [] then |edits| else ranges[0].start
    ensures position <= to <= |edits| && OldSide(edits[position..to]) == NewSide(edits[position..to])
    ensures ranges != [] ==> AllCovered(edits, ranges[1..], ranges[0].end)
  {
    NothingBefore(ranges, position, |edits|);
    assert forall i :: 0 <= i < to - position ==> edits[position..to][i] == edits[position + i] && !Covered(ranges, position + i);
    EqualSides(edits[position..to]);
  }

  lemma {:induction false} HunksApply(edits: seq<Edit>, ranges: seq<Range>, position: nat, o: nat, n: nat)
    requires RangesFrom(ranges, position, |edits|) && AllCovered(edits, ranges, position)
    requires o == OldLength(edits[..position]) && n == NewLength(edits[..position])
    ensures o <= |OldSide(edits)|
    ensures ApplyHunks(OldSide(edits), HunksOf(edits, ranges, position, o, n), o, n) == Some(NewSide(edits[position..]))
    decreases |ranges|
  {
    hide HunkOf, ApplyHunks, HunksOf, OldSide, NewSide;
    SidesSplit(edits, position, |edits|);
    if ranges == [] {
      GapIsEqual(edits, ranges, position, |edits|);
      assert edits[position..] == edits[position..|edits|];
      NoHunks(edits, ranges, position, o, n);
      ApplyNone(OldSide(edits), o, n);
    } else {
      var r := ranges[0];
      var gap, shown := edits[position..r.start], edits[r.start..r.end];
      GapIsEqual(edits, ranges, position, r.start);
      SidesSplit(edits, position, r.start);
      SidesSplit(edits, r.start, r.end);
      var o', n' := o + OldLength(gap), n + NewLength(gap);
      var o'', n'' := o' + OldLength(shown), n' + NewLength(shown);
      HunksApply(edits, ranges[1..], r.end, o'', n'');
      HunksOfStep(edits, ranges, position, o, n, o', n', o'', n'');
      HunkApplies(OldSide(edits), shown, HunksOf(edits, ranges[1..], r.end, o'', n''), o, n, o', n', NewSide(edits[r.end..]));
      assert NewSide(edits[position..]) == OldSide(gap) + NewSide(shown) + NewSide(edits[r.end..]);
    }
  }

  // ---- What the display means ----------------------------------------------------------------

  lemma PointsAppend(a: seq<PatchLine>, b: seq<PatchLine>, before: seq<string>, after: seq<string>)
    requires NumbersPoint(a, before, after) && NumbersPoint(b, before, after)
    ensures NumbersPoint(a + b, before, after)
  {
  }

  lemma LinePoints(e: Edit, o: nat, n: nat, before: seq<string>, after: seq<string>)
    requires !e.kind.Insert? ==> o < |before| && before[o] == e.line
    requires !e.kind.Delete? ==> n < |after| && after[n] == e.line
    ensures NumbersPoint([LineOf(e, o, n)], before, after)
  {
  }

  lemma EditAt(edits: seq<Edit>, i: nat)
    requires i < |edits|
    ensures var o, n := OldLength(edits[..i]), NewLength(edits[..i]);
            (if edits[i].kind.Insert? then OldLength(edits[..i + 1]) == o
             else OldLength(edits[..i + 1]) == o + 1 <= |OldSide(edits)| && OldSide(edits)[o] == edits[i].line) &&
            (if edits[i].kind.Delete? then NewLength(edits[..i + 1]) == n
             else NewLength(edits[..i + 1]) == n + 1 <= |NewSide(edits)| && NewSide(edits)[n] == edits[i].line)
  {
    var o, n, e := OldLength(edits[..i]), NewLength(edits[..i]), edits[i];
    SidesSplit(edits, i, i + 1);
    assert edits[i..i + 1] == [e] && [e][1..] == [];
    assert !e.kind.Insert? ==> OldSide(edits)[o] == OldSide(edits)[o..o + 1][0];
    assert !e.kind.Delete? ==> NewSide(edits)[n] == NewSide(edits)[n..n + 1][0];
  }

  lemma {:induction false} LinesPoint(edits: seq<Edit>, from: nat, to: nat, o: nat, n: nat)
    requires from <= to <= |edits| && o == OldLength(edits[..from]) && n == NewLength(edits[..from])
    ensures NumbersPoint(LinesOf(edits[from..to], o, n), OldSide(edits), NewSide(edits))
    decreases |edits| - from
  {
    hide OldSide, NewSide, OldLength, NewLength;
    if from < to {
      var e, shown := edits[from], edits[from..to];
      EditAt(edits, from);
      var o', n' := if e.kind.Insert? then o else o + 1, if e.kind.Delete? then n else n + 1;
      LinesPoint(edits, from + 1, to, o', n');
      LinePoints(e, o, n, OldSide(edits), NewSide(edits));
      PointsAppend([LineOf(e, o, n)], LinesOf(edits[from + 1..to], o', n'), OldSide(edits), NewSide(edits));
      assert shown[0] == e && shown[1..] == edits[from + 1..to];
    }
  }

  lemma {:induction false} HunksPoint(edits: seq<Edit>, ranges: seq<Range>, position: nat, o: nat, n: nat)
    requires RangesFrom(ranges, position, |edits|)
    requires o == OldLength(edits[..position]) && n == NewLength(edits[..position])
    ensures NumbersPoint(HunkLines(HunksOf(edits, ranges, position, o, n)), OldSide(edits), NewSide(edits))
    decreases |ranges|
  {
    hide HunksOf, HunkOf, OldSide, NewSide, LinesOf, NumbersPoint;
    if ranges == [] {
      NoHunks(edits, ranges, position, o, n);
      NoLinesPoint(OldSide(edits), NewSide(edits));
    } else {
      var r := ranges[0];
      SidesSplit(edits, position, r.start);
      SidesSplit(edits, r.start, r.end);
      var shown := edits[r.start..r.end];
      var o', n' := o + OldLength(edits[position..r.start]), n + NewLength(edits[position..r.start]);
      var o'', n'' := o' + OldLength(shown), n' + NewLength(shown);
      HunksPoint(edits, ranges[1..], r.end, o'', n'');
      HunksOfStep(edits, ranges, position, o, n, o', n', o'', n'');
      var h, rest := HunkOf(shown, o', n'), HunksOf(edits, ranges[1..], r.end, o'', n'');
      assert ([h] + rest)[1..] == rest;
      HunkOfLines(shown, o', n');
      LinesPoint(edits, r.start, r.end, o', n');
      PointsAppend(h.lines, HunkLines(rest), OldSide(edits), NewSide(edits));
    }
  }

  lemma NoLinesPoint(before: seq<string>, after: seq<string>)
    ensures NumbersPoint(HunkLines([]), before, after)
  {
  }

  lemma HunkOfLines(shown: seq<Edit>, o: nat, n: nat)
    ensures HunkOf(shown, o, n).lines == LinesOf(shown, o, n)
  {
  }

  /** Hunks follow one another on both sides without overlap. */
  predicate InOrder(hunks: seq<Hunk>) {
    forall i, j :: 0 <= i < j < |hunks| ==>
      OldFrom(hunks[i]) + hunks[i].oldCount <= OldFrom(hunks[j]) && NewFrom(hunks[i]) + hunks[i].newCount <= NewFrom(hunks[j])
  }

  lemma {:induction false} AppliedInOrder(before: seq<string>, hunks: seq<Hunk>, at: nat, written: nat)
    requires at <= |before| && ApplyHunks(before, hunks, at, written).Some?
    ensures InOrder(hunks) && forall i :: 0 <= i < |hunks| ==> at <= OldFrom(hunks[i]) && written <= NewFrom(hunks[i])
    decreases |hunks|
  {
    if hunks != [] {
      var h := hunks[0];
      var from, to := OldFrom(h), NewFrom(h);
      AppliedInOrder(before, hunks[1..], from + h.oldCount, to + h.newCount);
      assert forall j :: 0 < j < |hunks| ==> hunks[j] == hunks[1..][j - 1];
    }
  }

  /** Whatever applies changes the length by exactly the lines it counts as added and removed. */
  lemma {:induction false} AppliedBalance(before: seq<string>, hunks: seq<Hunk>, at: nat, written: nat)
    requires at <= |before| && ApplyHunks(before, hunks, at, written).Some?
    ensures |ApplyHunks(before, hunks, at, written).value| - (|before| - at) ==
            CountKind(HunkLines(hunks), Added) - CountKind(HunkLines(hunks), Removed)
    decreases |hunks|
  {
    if hunks != [] {
      var h := hunks[0];
      var from, to := OldFrom(h), NewFrom(h);
      AppliedBalance(before, hunks[1..], from + h.oldCount, to + h.newCount);
      TextLengths(h.lines);
      CountKindAppend(h.lines, HunkLines(hunks[1..]), Added);
      CountKindAppend(h.lines, HunkLines(hunks[1..]), Removed);
    }
  }

  lemma Front(before: seq<string>, extra: seq<string>, a: nat, b: nat)
    requires a <= b <= |before|
    ensures (before + extra)[a..b] == before[a..b]
  {
  }

  lemma Regroup(a: seq<string>, b: seq<string>, c: seq<string>, d: seq<string>)
    ensures a + b + (c + d) == a + b + c + d
  {
  }

  /** Text after the part a patch was made for is carried over untouched. */
  lemma {:induction false} ApplyExtends(before: seq<string>, hunks: seq<Hunk>, at: nat, written: nat,
          extra: seq<string>)
    requires at <= |before| && ApplyHunks(before, hunks, at, written).Some?
    ensures ApplyHunks(before + extra, hunks, at, written) == Some(ApplyHunks(before, hunks, at, written).value + extra)
    decreases |hunks|
  {
    if hunks == [] {
      assert (before + extra)[at..] == before[at..] + extra;
    } else {
      var h := hunks[0];
      var from, to := OldFrom(h), NewFrom(h);
      ApplyExtends(before, hunks[1..], from + h.oldCount, to + h.newCount, extra);
      var rest := ApplyHunks(before, hunks[1..], from + h.oldCount, to + h.newCount).value;
      Front(before, extra, from, from + h.oldCount);
      Front(before, extra, at, from);
      Regroup(before[at..from], NewText(h.lines), rest, extra);
    }
  }

  lemma NoRangesIffUnchanged(edits: seq<Edit>)
    ensures ContextRangesOf(edits, CONTEXT_LINES) == [] <==> forall i :: 0 <= i < |edits| ==> edits[i].kind.Equal?
  {
    ChangedIndexesExact(edits);
    var changed := ChangedIndexes(edits);
    assert changed != [] ==> Changed(edits, changed[0]);
    assert forall i :: 0 <= i < |edits| ==> (Changed(edits, i) <==> !edits[i].kind.Equal?);
  }

  /**
   The display of a change is the change: strictly applied to the complete text before, the hunks give
   exactly the complete text after; every printed number names its line; and the totals balance.
   */
  lemma ProjectionMeansTheChange(path: string, edits: seq<Edit>)
    ensures ProjectionOf(path, edits).None? <==> forall i :: 0 <= i < |edits| ==> edits[i].kind.Equal?
    ensures ProjectionOf(path, edits).None? ==> OldSide(edits) == NewSide(edits)
    ensures ProjectionOf(path, edits).Some? ==>
              var f := ProjectionOf(path, edits).value;
              ApplyHunks(OldSide(edits), f.hunks, 0, 0) == Some(NewSide(edits)) &&
              NumbersPoint(f.lines, OldSide(edits), NewSide(edits)) &&
              f.additions - f.deletions == |NewSide(edits)| - |OldSide(edits)| &&
              InOrder(f.hunks) && f.lines == HunkLines(f.hunks) && f.path == path
  {
    hide HunksOf, ContextRangesOf, NumbersPoint, ApplyHunks, InOrder;
    var ranges := ContextRangesOf(edits, CONTEXT_LINES);
    NoRangesIffUnchanged(edits);
    if ranges == [] {
      EqualSides(edits);
    } else {
      RangesInOrder(edits);
      ContextRangesExact(edits, CONTEXT_LINES);
      forall i | 0 <= i < |edits| && !edits[i].kind.Equal?
        ensures Covered(ranges, i)
      {
        assert Changed(edits, i);
      }
      assert edits[..0] == [] && edits[0..] == edits && OldLength([]) == 0 == NewLength([]);
      HunksApply(edits, ranges, 0, 0, 0);
      HunksPoint(edits, ranges, 0, 0, 0);
      AppliedBalance(OldSide(edits), HunksOf(edits, ranges, 0, 0, 0), 0, 0);
      AppliedInOrder(OldSide(edits), HunksOf(edits, ranges, 0, 0, 0), 0, 0);
    }
  }
}
