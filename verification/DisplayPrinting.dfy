/** What is displayed for an accepted patch is itself a well-formed patch, and is displayed as it is. */
module DisplayPrinting {
  import opened Common
  import opened PatchModel
  import opened PatchHeaders
  import opened DiffProjection
  import opened LegacyProjection
  import opened PatchParser
  import opened PatchPrinting

  // ---- One display hunk ----------------------------------------------------------------------

  predicate CleanEdits(edits: seq<Edit>) { forall k :: 0 <= k < |edits| ==> Clean(edits[k].line) }

  lemma {:induction false} LinesNumbered(edits: seq<Edit>, o: nat, n: nat, oldLine: int, newLine: int)
    requires OldLength(edits) > 0 ==> oldLine == o + 1
    requires NewLength(edits) > 0 ==> newLine == n + 1
    requires o + OldLength(edits) <= MAX_INT && n + NewLength(edits) <= MAX_INT
    ensures Numbered(DiffProjection.LinesOf(edits, o, n), oldLine, newLine)
  {
    if edits != [] {
      var e := edits[0];
      var o', n' := if e.kind.Insert? then o else o + 1, if e.kind.Delete? then n else n + 1;
      var line := DiffProjection.LineOf(e, o, n);
      LinesNumbered(edits[1..], o', n', NextOld(line.kind, oldLine), NextNew(line.kind, newLine));
      var lines := DiffProjection.LinesOf(edits, o, n);
      assert lines[0] == line && lines[1..] == DiffProjection.LinesOf(edits[1..], o', n');
    }
  }

  lemma {:induction false} LinesAreEdits(edits: seq<Edit>, o: nat, n: nat)
    ensures var lines := DiffProjection.LinesOf(edits, o, n);
            |lines| == |edits| &&
            forall k :: 0 <= k < |edits| ==> lines[k].text == edits[k].line && (lines[k].kind.Context? <==> edits[k].kind.Equal?)
  {
    if edits != [] {
      LinesAreEdits(edits[1..], if edits[0].kind.Insert? then o else o + 1, if edits[0].kind.Delete? then n else n + 1);
    }
  }

  lemma DigitsAreClean(s: string)
    requires AllDigits(s)
    ensures Clean(s)
  {
  }

  lemma CleanJoin(a: string, b: string)
    requires Clean(a) && Clean(b)
    ensures Clean(a + b)
  {
  }

  lemma RangeClean(start: nat, count: nat)
    ensures Clean(PatchRange(start, count))
  {
    DigitsAreClean(Itoa(start));
    DigitsAreClean(Itoa(count));
    CleanJoin(Itoa(start), ",");
    CleanJoin(Itoa(start) + ",", Itoa(count));
  }

  lemma HeaderClean(oldStart: nat, oldCount: nat, newStart: nat, newCount: nat)
    ensures Clean(HunkHeader(oldStart, oldCount, newStart, newCount))
  {
    hide PatchRange, Clean;
    var old', new' := PatchRange(oldStart, oldCount), PatchRange(newStart, newCount);
    RangeClean(oldStart, oldCount);
    RangeClean(newStart, newCount);
    SignsClean();
    CleanJoin("@@ -", old');
    CleanJoin("@@ -" + old', " +");
    CleanJoin("@@ -" + old' + " +", new');
    CleanJoin("@@ -" + old' + " +" + new', " @@");
  }

  lemma SignsClean()
    ensures Clean("@@ -") && Clean(" +") && Clean(" @@")
  {
  }

  lemma DisplayHunk(edits: seq<Edit>, o: nat, n: nat)
    requires CleanEdits(edits) && o + OldLength(edits) <= MAX_INT && n + NewLength(edits) <= MAX_INT
    ensures WellFormedHunk(HunkOf(edits, o, n))
  {
    hide HunkHeader, HeaderRanges, Numbered, OldText, NewText, DiffProjection.LinesOf, Clean, OldSide, NewSide;
    var h := HunkOf(edits, o, n);
    HeaderReads(h.oldStart, h.oldCount, h.newStart, h.newCount, "");
    assert h.header + "" == h.header;
    HeaderClean(h.oldStart, h.oldCount, h.newStart, h.newCount);
    LinesNumbered(edits, o, n, h.oldStart, h.newStart);
    LinesAreSides(edits, o, n);
    LinesAreEdits(edits, o, n);
  }

  lemma {:induction false} DisplayHunks(edits: seq<Edit>, ranges: seq<Range>, position: nat, o: nat, n: nat)
    requires RangesFrom(ranges, position, |edits|) && CleanEdits(edits)
    requires o + OldLength(edits[position..]) <= MAX_INT && n + NewLength(edits[position..]) <= MAX_INT
    ensures var hunks := HunksOf(edits, ranges, position, o, n); forall k :: 0 <= k < |hunks| ==> WellFormedHunk(hunks[k])
    decreases |ranges|
  {
    hide HunksOf, HunkOf, OldLength, NewLength, WellFormedHunk, Clean;
    if ranges == [] {
      NoHunks(edits, ranges, position, o, n);
    } else {
      var r := ranges[0];
      var gap, shown := edits[position..r.start], edits[r.start..r.end];
      var o', n' := o + OldLength(gap), n + NewLength(gap);
      var o'', n'' := o' + OldLength(shown), n' + NewLength(shown);
      LengthsSplit(edits, position, r.start, r.end);
      HunksOfStep(edits, ranges, position, o, n, o', n', o'', n'');
      DisplayHunk(shown, o', n');
      DisplayHunks(edits, ranges[1..], r.end, o'', n'');
    }
  }

  lemma LengthsSplit(edits: seq<Edit>, a: nat, b: nat, c: nat)
    requires a <= b <= c <= |edits|
    ensures OldLength(edits[a..]) == OldLength(edits[a..b]) + OldLength(edits[b..c]) + OldLength(edits[c..])
    ensures NewLength(edits[a..]) == NewLength(edits[a..b]) + NewLength(edits[b..c]) + NewLength(edits[c..])
  {
    SidesOfThree(edits[a..b], edits[b..c], edits[c..]);
    assert edits[a..] == edits[a..b] + edits[b..c] + edits[c..];
  }

  // ---- A displayed file ----------------------------------------------------------------------

  lemma DisplayLines(edits: seq<Edit>, ranges: seq<Range>)
    requires ranges != [] && Separated(ranges, |edits|) && RangesFrom(ranges, 0, |edits|)
    ensures HunkLines(HunksOf(edits, ranges, 0, 0, 0)) != []
  {
    hide HunkOf, OldLength, NewLength;
    var r := ranges[0];
    var gap, shown := edits[0..r.start], edits[r.start..r.end];
    var o', n' := OldLength(gap), NewLength(gap);
    HunksOfStep(edits, ranges, 0, 0, 0, o', n', o' + OldLength(shown), n' + NewLength(shown));
    HunkOfLines(shown, o', n');
    LinesAreEdits(shown, o', n');
    assert |shown| > 0;
  }

  lemma {:induction false} EditsAreClean(edits: seq<Edit>)
    requires CleanTextLines(OldSide(edits)) && CleanTextLines(NewSide(edits))
    ensures CleanEdits(edits)
  {
    hide Clean;
    if edits != [] {
      var rest := edits[1..];
      var e := edits[0];
      var before, after := OldSide(edits), NewSide(edits);
      if !e.kind.Insert? {
        assert before[0] == e.line && before[1..] == OldSide(rest);
        LaterClean(before);
      }
      if !e.kind.Delete? {
        assert after[0] == e.line && after[1..] == NewSide(rest);
        LaterClean(after);
      }
      if e.kind.Insert? { assert before == OldSide(rest); }
      if e.kind.Delete? { assert after == NewSide(rest); }
      EditsAreClean(rest);
      assert forall k :: 0 < k < |edits| ==> edits[k] == rest[k - 1];
    }
  }

  predicate CleanTextLines(lines: seq<string>) { forall k :: 0 <= k < |lines| ==> Clean(lines[k]) }

  lemma LaterClean(lines: seq<string>)
    requires lines != [] && CleanTextLines(lines)
    ensures Clean(lines[0]) && CleanTextLines(lines[1..])
  {
    hide Clean;
    assert forall k :: 0 <= k < |lines[1..]| ==> lines[1..][k] == lines[k + 1];
  }

  lemma {:induction false} TextsClean(lines: seq<PatchLine>)
    requires CleanTexts(lines)
    ensures CleanTextLines(OldText(lines)) && CleanTextLines(NewText(lines))
  {
    hide Clean;
    if lines != [] {
      assert forall k :: 0 <= k < |lines[1..]| ==> lines[1..][k] == lines[k + 1];
      TextsClean(lines[1..]);
    }
  }

  lemma DisplayFile(path: string, edits: seq<Edit>, lib: Library)
    requires ProjectionOf(path, edits).Some? && CleanEdits(edits) && OldLength(edits) <= MAX_INT && NewLength(edits) <= MAX_INT
    requires path != "" && Clean(path) && lib.allows(path)
    ensures WellFormedFile(ProjectionOf(path, edits).value, lib)
  {
    hide HunksOf, WellFormedHunk, Clean, ContextRangesOf, OldLength, NewLength, CountKind, HunkLines, Separated, RangesFrom;
    var ranges := ContextRangesOf(edits, CONTEXT_LINES);
    ContextRangesExact(edits, CONTEXT_LINES);
    RangesInOrder(edits);
    assert edits[0..] == edits;
    DisplayHunks(edits, ranges, 0, 0, 0);
    DisplayLines(edits, ranges);
  }

  /** What is shown for a well-formed file is a well-formed file. */
  lemma ShownIsWellFormed(f: PatchFile, lib: Library)
    requires WellFormedFile(f, lib) && Honest(lib.diff)
    ensures WellFormedFile(Normalized(f, lib.diff), lib)
  {
    hide ProjectionOf, OldText, NewText, OldSide, NewSide, Numbered, HeaderRanges, HunkLines, CountKind, Clean, CleanTexts;
    if WholeFile(f) {
      var h := f.hunks[0];
      var edits := lib.diff(OldText(h.lines), NewText(h.lines));
      assert WellFormedHunk(h);
      HunkCountsFit(h);
      TextsClean(h.lines);
      EditsAreClean(edits);
      if ProjectionOf(f.path, edits).Some? { DisplayFile(f.path, edits, lib); }
    }
  }

  lemma HunkCountsFit(h: Hunk)
    requires WellFormedHunk(h)
    ensures |OldText(h.lines)| <= MAX_INT && |NewText(h.lines)| <= MAX_INT
  {
    CountsFit(h.header);
  }

  lemma CountsFit(line: string)
    requires HeaderRanges(line).Some?
    ensures HeaderRanges(line).value.oldCount <= MAX_INT && HeaderRanges(line).value.newCount <= MAX_INT
  {
  }

  // ---- Displaying twice ----------------------------------------------------------------------

  /** A single display hunk without context shows the whole script. */
  lemma OneBareHunkIsAll(edits: seq<Edit>)
    requires |ContextRangesOf(edits, CONTEXT_LINES)| == 1
    requires var r := ContextRangesOf(edits, CONTEXT_LINES)[0];
             forall i :: r.start <= i < r.end && 0 <= i < |edits| ==> !edits[i].kind.Equal?
    ensures ContextRangesOf(edits, CONTEXT_LINES) == [Range(0, |edits|)]
  {
    hide ContextRangesOf;
    var ranges := ContextRangesOf(edits, CONTEXT_LINES);
    var r := ranges[0];
    ContextRangesExact(edits, CONTEXT_LINES);
    OnlyRange(ranges, r.start - 1);
    OnlyRange(ranges, r.end);
    assert r.start < r.end <= |edits|;
    assert Changed(edits, r.start) && Changed(edits, r.end - 1);
    assert Near(edits, CONTEXT_LINES, r.start - 1) && Near(edits, CONTEXT_LINES, r.end);
  }

  lemma OnlyRange(ranges: seq<Range>, i: int)
    requires |ranges| == 1
    ensures Covered(ranges, i) <==> In(ranges[0], i)
  {
    assert ranges[1..] == [];
  }

  lemma {:induction false} HunksForRanges(edits: seq<Edit>, ranges: seq<Range>, position: nat, o: nat, n: nat)
    requires RangesFrom(ranges, position, |edits|)
    ensures |HunksOf(edits, ranges, position, o, n)| == |ranges|
    decreases |ranges|
  {
    hide HunksOf, HunkOf, OldLength, NewLength;
    if ranges == [] {
      NoHunks(edits, ranges, position, o, n);
    } else {
      var r := ranges[0];
      var o', n' := o + OldLength(edits[position..r.start]), n + NewLength(edits[position..r.start]);
      var shown := edits[r.start..r.end];
      HunksOfStep(edits, ranges, position, o, n, o', n', o' + OldLength(shown), n' + NewLength(shown));
      HunksForRanges(edits, ranges[1..], r.end, o' + OldLength(shown), n' + NewLength(shown));
    }
  }

  lemma SoleHunk(edits: seq<Edit>, r: Range)
    requires r.start <= r.end <= |edits|
    ensures var o, n := OldLength(edits[..r.start]), NewLength(edits[..r.start]);
            HunksOf(edits, [r], 0, 0, 0) == [HunkOf(edits[r.start..r.end], o, n)]
  {
    hide HunkOf, OldLength, NewLength;
    var shown := edits[r.start..r.end];
    var o, n := OldLength(edits[..r.start]), NewLength(edits[..r.start]);
    assert edits[0..r.start] == edits[..r.start] && [r][1..] == [];
    HunksOfStep(edits, [r], 0, 0, 0, o, n, o + OldLength(shown), n + NewLength(shown));
    NoHunks(edits, [], r.end, o + OldLength(shown), n + NewLength(shown));
  }

  /** If the display is again of the old shape, it shows both texts whole. */
  lemma WholeDisplay(path: string, edits: seq<Edit>)
    requires ProjectionOf(path, edits).Some? && WholeFile(ProjectionOf(path, edits).value)
    ensures var h := ProjectionOf(path, edits).value.hunks[0]; OldText(h.lines) == OldSide(edits) && NewText(h.lines) == NewSide(edits)
  {
    hide ContextRangesOf, OldLength, NewLength, OldText, NewText, OldSide, NewSide, HunksOf, CountKind, HunkLines;
    var f, ranges := ProjectionOf(path, edits).value, ContextRangesOf(edits, CONTEXT_LINES);
    RangesInOrder(edits);
    HunksForRanges(edits, ranges, 0, 0, 0);
    var r := ranges[0];
    assert ranges == [r];
    var shown := edits[r.start..r.end];
    var o, n := OldLength(edits[..r.start]), NewLength(edits[..r.start]);
    SoleHunk(edits, r);
    HunkOfLines(shown, o, n);
    LinesAreEdits(shown, o, n);
    var h := f.hunks[0];
    forall i | r.start <= i < r.end && 0 <= i < |edits| ensures !edits[i].kind.Equal? {
      assert shown[i - r.start] == edits[i] && !h.lines[i - r.start].kind.Context?;
    }
    OneBareHunkIsAll(edits);
    assert shown == edits;
    LinesAreSides(shown, o, n);
  }

  /** Displaying what is displayed changes nothing. */
  lemma ShownIsFinal(f: PatchFile, diff: Diff)
    requires Honest(diff)
    ensures Normalized(Normalized(f, diff), diff) == Normalized(f, diff)
  {
    hide ProjectionOf, OldText, NewText, OldSide, NewSide;
    if WholeFile(f) {
      var edits := diff(OldText(f.hunks[0].lines), NewText(f.hunks[0].lines));
      if ProjectionOf(f.path, edits).Some? {
        var p := ProjectionOf(f.path, edits).value;
        ProjectionPath(f.path, edits);
        if WholeFile(p) { WholeDisplay(f.path, edits); }
      }
    }
  }

  lemma ProjectionPath(path: string, edits: seq<Edit>)
    requires ProjectionOf(path, edits).Some?
    ensures ProjectionOf(path, edits).value.path == path
  {
  }

  lemma {:induction false} ShownAre(files: seq<PatchFile>, diff: Diff)
    requires Honest(diff)
    ensures |NormalizedAll(files, diff)| == |files|
    ensures forall i :: 0 <= i < |files| ==> NormalizedAll(files, diff)[i] == Normalized(files[i], diff)
    ensures NormalizedAll(NormalizedAll(files, diff), diff) == NormalizedAll(files, diff)
  {
    hide Normalized;
    if files != [] {
      var rest := files[1..];
      ShownAre(rest, diff);
      ShownIsFinal(files[0], diff);
      var shown := NormalizedAll(files, diff);
      assert shown[1..] == NormalizedAll(rest, diff);
    }
  }

  lemma ShownPath(f: PatchFile, diff: Diff)
    ensures Normalized(f, diff).path == f.path
  {
  }

  /**
   What is shown for an accepted patch can be printed as a patch again, in any fitting dress, and that
   patch is accepted and shown in just the same way.
   */
  lemma ShownReadsBack(raw: string, dress: seq<Dress>, lib: Library)
    requires Parsed(raw, lib).Ok? && Honest(lib.diff)
    requires AllFit(dress, Parsed(raw, lib).value, lib) && lib.valid(PatchText(Parsed(raw, lib).value, dress))
    ensures WellFormed(Parsed(raw, lib).value, lib)
    ensures Parsed(PatchText(Parsed(raw, lib).value, dress), lib) == Parsed(raw, lib)
  {
    hide Parsed, WellFormedFile, Normalized, PatchText, NormalizedAll, AllFit;
    AcceptedIsWellFormed(raw, lib);
    var shown := Parsed(raw, lib).value;
    var files: seq<PatchFile>, made: seq<Dress> :| Prints(raw, files, made, lib) && Parsed(raw, lib) == Ok(NormalizedAll(files, lib.diff));
    ShownAre(files, lib.diff);
    forall i | 0 <= i < |shown| ensures WellFormedFile(shown[i], lib) && shown[i].path == files[i].path {
      ShownIsWellFormed(files[i], lib);
      ShownPath(files[i], lib.diff);
    }
    ParsingUndoesPrinting(shown, dress, lib);
  }

  // ---- Which lines are displayed -------------------------------------------------------------

  /** Of the numbered lines of the whole script from a position on, those at most three away from a change. */
  function NearLines(edits: seq<Edit>, from: nat, o: nat, n: nat): seq<PatchLine>
    requires from <= |edits|
    decreases |edits| - from
  {
    if from == |edits| then []
    else
      var e := edits[from];
      (if Near(edits, 3, from) then [DiffProjection.LineOf(e, o, n)] else []) +
      NearLines(edits, from + 1, if e.kind.Insert? then o else o + 1, if e.kind.Delete? then n else n + 1)
  }

  lemma SlicesStep(edits: seq<Edit>, a: nat, b: nat, o: nat, n: nat)
    requires a < b <= |edits|
    ensures var e, rest := edits[a], edits[a + 1..b];
            var o', n' := if e.kind.Insert? then o else o + 1, if e.kind.Delete? then n else n + 1;
            o + OldLength(edits[a..b]) == o' + OldLength(rest) && n + NewLength(edits[a..b]) == n' + NewLength(rest) &&
            DiffProjection.LinesOf(edits[a..b], o, n) == [DiffProjection.LineOf(e, o, n)] + DiffProjection.LinesOf(rest, o', n')
  {
    assert edits[a..b][0] == edits[a] && edits[a..b][1..] == edits[a + 1..b];
  }

  lemma {:induction false} StretchNear(edits: seq<Edit>, a: nat, b: nat, o: nat, n: nat, near: bool)
    requires a <= b <= |edits| && forall i :: a <= i < b ==> (Near(edits, 3, i) <==> near)
    ensures NearLines(edits, a, o, n) ==
            (if near then DiffProjection.LinesOf(edits[a..b], o, n) else []) +
            NearLines(edits, b, o + OldLength(edits[a..b]), n + NewLength(edits[a..b]))
    decreases b - a
  {
    hide OldLength, NewLength, DiffProjection.LinesOf, Near;
    if a == b {
      assert edits[a..b] == [];
      NoStretch(o, n);
    } else {
      var e := edits[a];
      var o', n' := if e.kind.Insert? then o else o + 1, if e.kind.Delete? then n else n + 1;
      SlicesStep(edits, a, b, o, n);
      StretchNear(edits, a + 1, b, o', n', near);
    }
  }

  lemma NoStretch(o: nat, n: nat)
    ensures OldLength([]) == 0 && NewLength([]) == 0 && DiffProjection.LinesOf([], o, n) == []
  {
  }

  lemma {:induction false} NotCoveredBefore(ranges: seq<Range>, position: nat, n: nat, i: int)
    requires RangesFrom(ranges, position, n) && i < position
    ensures !Covered(ranges, i)
    decreases |ranges|
  {
    if ranges != [] { NotCoveredBefore(ranges[1..], ranges[0].end, n, i); }
  }

  lemma {:induction false} HunksAreNear(edits: seq<Edit>, ranges: seq<Range>, position: nat, o: nat, n: nat)
    requires RangesFrom(ranges, position, |edits|)
    requires forall i :: position <= i < |edits| ==> (Covered(ranges, i) <==> Near(edits, 3, i))
    ensures HunkLines(HunksOf(edits, ranges, position, o, n)) == NearLines(edits, position, o, n)
    decreases |ranges|
  {
    hide HunksOf, HunkOf, OldLength, NewLength, DiffProjection.LinesOf, Near, NearLines;
    if ranges == [] {
      NoHunks(edits, ranges, position, o, n);
      StretchNear(edits, position, |edits|, o, n, false);
      NothingLeft(edits, o + OldLength(edits[position..|edits|]), n + NewLength(edits[position..|edits|]));
    } else {
      var r := ranges[0];
      var gap, shown := edits[position..r.start], edits[r.start..r.end];
      var o', n' := o + OldLength(gap), n + NewLength(gap);
      var o'', n'' := o' + OldLength(shown), n' + NewLength(shown);
      HunksOfStep(edits, ranges, position, o, n, o', n', o'', n'');
      HunkOfLines(shown, o', n');
      forall i | position <= i < |edits|
        ensures Near(edits, 3, i) <==> In(r, i) || (r.end <= i && Covered(ranges[1..], i))
      {
        assert Covered(ranges, i) <==> Near(edits, 3, i);
        if i < r.end { NotCoveredBefore(ranges[1..], r.end, |edits|, i); }
      }
      StretchNear(edits, position, r.start, o, n, false);
      StretchNear(edits, r.start, r.end, o', n', true);
      HunksAreNear(edits, ranges[1..], r.end, o'', n'');
      var h, rest := HunkOf(shown, o', n'), HunksOf(edits, ranges[1..], r.end, o'', n'');
      assert ([h] + rest)[1..] == rest;
    }
  }

  lemma NothingLeft(edits: seq<Edit>, o: nat, n: nat)
    ensures NearLines(edits, |edits|, o, n) == []
  {
  }

  /** The display of a script is its numbered lines at most three away from a change, and there is one unless nothing changes. */
  lemma DisplayIsTheNeighbourhood(path: string, edits: seq<Edit>)
    ensures ProjectionOf(path, edits).None? <==> forall i :: 0 <= i < |edits| ==> edits[i].kind.Equal?
    ensures ProjectionOf(path, edits).Some? ==> ProjectionOf(path, edits).value.lines == NearLines(edits, 0, 0, 0)
  {
    hide ContextRangesOf, HunksOf, NearLines;
    var ranges := ContextRangesOf(edits, CONTEXT_LINES);
    ContextRangesExact(edits, CONTEXT_LINES);
    RangesInOrder(edits);
    HunksAreNear(edits, ranges, 0, 0, 0);
    if ranges != [] {
      var i := ranges[0].start;
      assert In(ranges[0], i) && Covered(ranges, i);
      assert Near(edits, CONTEXT_LINES, i);
    }
    if i :| 0 <= i < |edits| && !edits[i].kind.Equal? {
      assert Changed(edits, i);
      assert Near(edits, CONTEXT_LINES, i) && Covered(ranges, i);
    }
  }
}
