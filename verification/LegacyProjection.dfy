/**
 Older runtimes wrote every changed file as one hunk removing all old lines and then adding all new
 ones. Exactly that shape is replaced by display hunks derived from the two texts it contains.
 */
module LegacyProjection {
  import opened Common
  import opened PatchModel
  import opened DiffProjection

  type Diff = (seq<string>, seq<string>) -> seq<Edit>

  /** What is assumed of the diff algorithm: its script has the two texts as its two sides. */
  ghost predicate Honest(diff: Diff) {
    forall a, b :: OldSide(diff(a, b)) == a && NewSide(diff(a, b)) == b
  }

  predicate WholeFile(file: PatchFile) {
    |file.hunks| == 1 &&
    var h := file.hunks[0];
    h.oldStart == 1 && h.newStart == 1 && h.oldCount > 0 && h.newCount > 0 && |h.lines| == h.oldCount + h.newCount &&
    (forall i :: 0 <= i < h.oldCount ==> h.lines[i].kind.Removed?) &&
    (forall i :: h.oldCount <= i < |h.lines| ==> h.lines[i].kind.Added?)
  }

  function Normalized(file: PatchFile, diff: Diff): PatchFile {
    if !WholeFile(file) then file
    else
      match ProjectionOf(file.path, diff(OldText(file.hunks[0].lines), NewText(file.hunks[0].lines)))
      case None => file
      case Some(projection) => projection.(kind := file.kind)
  }

  lemma TextStep(lines: seq<PatchLine>, i: nat)
    requires i < |lines|
    ensures OldText(lines[..i + 1]) == OldText(lines[..i]) + (if lines[i].kind.Added? then [] else [lines[i].text])
    ensures NewText(lines[..i + 1]) == NewText(lines[..i]) + (if lines[i].kind.Removed? then [] else [lines[i].text])
  {
    assert lines[..i + 1] == lines[..i] + [lines[i]];
    TextAppend(lines[..i], [lines[i]]);
    assert [lines[i]][1..] == [];
  }

  method NormalizeLegacyWholeFileProjection(file: PatchFile, diff: Diff) returns (r: PatchFile)
    ensures r == Normalized(file, diff)
  {
    if |file.hunks| != 1 { return file; }
    var hunk := file.hunks[0];
    if hunk.oldStart != 1 || hunk.newStart != 1 || hunk.oldCount == 0 || hunk.newCount == 0 || |hunk.lines| != hunk.oldCount + hunk.newCount {
      return file;
    }
    var before: seq<string>, after: seq<string> := [], [];
    for index := 0 to |hunk.lines|
      invariant before == OldText(hunk.lines[..index]) && after == NewText(hunk.lines[..index])
      invariant forall i :: 0 <= i < index ==> if i < hunk.oldCount then hunk.lines[i].kind.Removed? else hunk.lines[i].kind.Added?
    {
      TextStep(hunk.lines, index);
      var line := hunk.lines[index];
      if index < hunk.oldCount && line.kind.Removed? {
        before := before + [line.text];
      } else if index >= hunk.oldCount && line.kind.Added? {
        after := after + [line.text];
      } else {
        return file;
      }
    }
    assert hunk.lines[..|hunk.lines|] == hunk.lines;
    var projection := SemanticPatchProjection(file.path, diff(before, after));
    match projection {
      case None => r := file;
      case Some(p) => r := p.(kind := file.kind);
    }
  }

  /** A whole-file hunk applies to a text exactly by replacing its old lines at the top by its new ones. */
  lemma WholeFileApplies(file: PatchFile, text: seq<string>)
    requires WholeFile(file) && ApplyHunks(text, file.hunks, 0, 0).Some?
    ensures var h := file.hunks[0];
            h.oldCount <= |text| && text == OldText(h.lines) + text[h.oldCount..] &&
            ApplyHunks(text, file.hunks, 0, 0) == Some(NewText(h.lines) + text[h.oldCount..])
  {
    var h := file.hunks[0];
    assert text[..h.oldCount] == text[0..h.oldCount] == OldText(h.lines);
    assert ApplyHunks(text, file.hunks[1..], h.oldCount, h.newCount) == Some(text[h.oldCount..]);
    assert text[0..0] + NewText(h.lines) + text[h.oldCount..] == NewText(h.lines) + text[h.oldCount..];
  }

  /**
   The rewrite never changes what a patch does: whatever text the patch file applied to, the displayed
   hunks apply to it with the same result, and path, kind and balance of lines are those of the file.
   */
  lemma NormalizationKeepsMeaning(file: PatchFile, diff: Diff, text: seq<string>)
    requires Honest(diff) && ApplyHunks(text, file.hunks, 0, 0).Some?
    ensures ApplyHunks(text, Normalized(file, diff).hunks, 0, 0) == ApplyHunks(text, file.hunks, 0, 0)
    ensures Normalized(file, diff).path == file.path && Normalized(file, diff).kind == file.kind
    ensures var r := Normalized(file, diff);
            CountKind(HunkLines(r.hunks), Added) - CountKind(HunkLines(r.hunks), Removed) ==
            CountKind(HunkLines(file.hunks), Added) - CountKind(HunkLines(file.hunks), Removed)
  {
    hide ApplyHunks, ProjectionOf;
    var r := Normalized(file, diff);
    if WholeFile(file) {
      var h := file.hunks[0];
      var before, after := OldText(h.lines), NewText(h.lines);
      WholeFileApplies(file, text);
      ProjectionMeansTheChange(file.path, diff(before, after));
      if ProjectionOf(file.path, diff(before, after)).Some? {
        ApplyExtends(before, r.hunks, 0, 0, text[h.oldCount..]);
      }
    }
    AppliedBalance(text, file.hunks, 0, 0);
    AppliedBalance(text, r.hunks, 0, 0);
  }

  /** Nothing else is rewritten, and a whole-file patch stays as it is exactly when its script changes nothing. */
  lemma RewrittenExactly(file: PatchFile, diff: Diff)
    requires Honest(diff)
    ensures !WholeFile(file) ==> Normalized(file, diff) == file
    ensures WholeFile(file) ==>
              var h := file.hunks[0];
              var script := diff(OldText(h.lines), NewText(h.lines));
              if forall i :: 0 <= i < |script| ==> script[i].kind.Equal? then Normalized(file, diff) == file
              else
                var r := Normalized(file, diff);
                r.lines == HunkLines(r.hunks) && NumbersPoint(r.lines, OldText(h.lines), NewText(h.lines)) && InOrder(r.hunks)
  {
    hide ProjectionOf, NumbersPoint, InOrder;
    if WholeFile(file) {
      var h := file.hunks[0];
      ProjectionMeansTheChange(file.path, diff(OldText(h.lines), NewText(h.lines)));
    }
  }
}
