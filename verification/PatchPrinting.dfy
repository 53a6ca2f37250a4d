/** Printing reviewable files as a unified patch, and what the parser makes of it. */
module PatchPrinting {
  import opened Common
  import opened PatchModel
  import opened PatchHeaders
  import opened LegacyProjection
  import opened PatchParser
  import DiffProjection

  // ---- Printing ------------------------------------------------------------------------------

  function Prefix(kind: LineKind): char {
    match kind
    case Context => ' '
    case Added => '+'
    case Removed => '-'
  }

  function PrintLine(line: PatchLine): string { [Prefix(line.kind)] + line.text }

  /** How many markers for a missing line break stand before each line of a hunk, and after its last line. */
  type Marks = seq<nat>

  function First<T>(s: seq<T>, otherwise: T): T { if s == [] then otherwise else s[0] }
  function Tail<T>(s: seq<T>): seq<T> { if s == [] then [] else s[1..] }

  function Markers(n: nat): seq<string> { if n == 0 then [] else [NO_NEWLINE] + Markers(n - 1) }

  function PrintLines(lines: seq<PatchLine>, marks: Marks): seq<string> {
    Markers(First(marks, 0)) + if lines == [] then [] else [PrintLine(lines[0])] + PrintLines(lines[1..], Tail(marks))
  }

  function PrintHunks(hunks: seq<Hunk>, marks: seq<Marks>): seq<string> {
    if hunks == [] then []
    else [hunks[0].header] + PrintLines(hunks[0].lines, First(marks, [])) + PrintHunks(hunks[1..], Tail(marks))
  }

  /** What a section may carry that the file it stands for does not show. */
  datatype Dress = Dress(metadata: seq<string>, oldSuffix: string, newSuffix: string, marks: seq<Marks>)

  function KindLines(kind: FileKind): seq<string> {
    match kind
    case FileAdded => ["new file mode 100644"]
    case FileModified => []
    case FileDeleted => ["deleted file mode 100644"]
  }

  /** Nothing but what is needed. */
  function Plain(kind: FileKind): Dress { Dress(KindLines(kind), "", "", []) }

  function PrintFile(f: PatchFile, d: Dress): seq<string> {
    [DiffHeader(f.path)] + d.metadata + [OldHeader(f.path, f.kind) + d.oldSuffix, NewHeader(f.path, f.kind) + d.newSuffix] +
    PrintHunks(f.hunks, d.marks)
  }

  function PrintFiles(files: seq<PatchFile>, dress: seq<Dress>): seq<string>
    requires |files| == |dress|
  {
    if files == [] then [] else PrintFile(files[0], dress[0]) + PrintFiles(files[1..], dress[1..])
  }

  function PatchText(files: seq<PatchFile>, dress: seq<Dress>): string
    requires |files| == |dress| && files != []
  {
    Join(PrintFiles(files, dress), '\n') + "\n"
  }

  // ---- What metadata a section may carry -----------------------------------------------------

  predicate AddsFile(line: string) { line == "new file mode 100644" }
  predicate DeletesFile(line: string) { line == "deleted file mode 100644" || line == "deleted file mode 100755" }

  /** A line that names two blobs and either no mode or that of an ordinary or executable file. */
  predicate NamesBlobs(line: string, lib: Library) {
    "index " <= line && 2 <= |lib.fields(line)| <= 3 && lib.fields(line)[0] == "index" && HasDots(lib.fields(line)[1]) &&
    (|lib.fields(line)| == 3 ==> lib.fields(line)[2] == "100644" || lib.fields(line)[2] == "100755")
  }

  /** At most one line about the kind, which decides it; nothing else but blob names. */
  predicate Declares(metadata: seq<string>, kind: FileKind, lib: Library) {
    (forall k :: 0 <= k < |metadata| ==> AddsFile(metadata[k]) || DeletesFile(metadata[k]) || NamesBlobs(metadata[k], lib)) &&
    (forall j, k :: 0 <= j < k < |metadata| && !NamesBlobs(metadata[j], lib) ==> NamesBlobs(metadata[k], lib)) &&
    (kind.FileAdded? <==> exists k :: 0 <= k < |metadata| && AddsFile(metadata[k])) &&
    (kind.FileDeleted? <==> exists k :: 0 <= k < |metadata| && DeletesFile(metadata[k]))
  }

  predicate IsSuffix(s: string) { s == "" || s[0] == '\t' }

  predicate Fits(d: Dress, kind: FileKind, lib: Library) {
    Declares(d.metadata, kind, lib) && IsSuffix(d.oldSuffix) && IsSuffix(d.newSuffix) &&
    CleanLines(d.metadata) && Clean(d.oldSuffix) && Clean(d.newSuffix)
  }

  predicate AllFit(dress: seq<Dress>, files: seq<PatchFile>, lib: Library) {
    |dress| == |files| && forall i :: 0 <= i < |files| ==> Fits(dress[i], files[i].kind, lib)
  }

  // ---- Well-formed files ---------------------------------------------------------------------

  /** Each line carries the machine-integer numbers reached by counting from the start of the hunk. */
  predicate Numbered(lines: seq<PatchLine>, oldLine: int, newLine: int) {
    lines != [] ==>
      lines[0].oldLine == (if lines[0].kind.Added? then 0 else oldLine) &&
      lines[0].newLine == (if lines[0].kind.Removed? then 0 else newLine) &&
      Numbered(lines[1..], NextOld(lines[0].kind, oldLine), NextNew(lines[0].kind, newLine))
  }

  predicate CleanTexts(lines: seq<PatchLine>) { forall k :: 0 <= k < |lines| ==> Clean(lines[k].text) }

  predicate WellFormedHunk(h: Hunk) {
    Clean(h.header) && HeaderRanges(h.header) == Some(Ranges(h.oldStart, h.oldCount, h.newStart, h.newCount)) &&
    h.oldCount == |OldText(h.lines)| && h.newCount == |NewText(h.lines)| &&
    Numbered(h.lines, h.oldStart, h.newStart) && CleanTexts(h.lines)
  }

  predicate WellFormedFile(f: PatchFile, lib: Library) {
    f.path != "" && Clean(f.path) && lib.allows(f.path) &&
    (forall k :: 0 <= k < |f.hunks| ==> WellFormedHunk(f.hunks[k])) &&
    f.lines == HunkLines(f.hunks) && f.lines != [] &&
    f.additions == CountKind(f.lines, Added) && f.deletions == CountKind(f.lines, Removed)
  }

  predicate WellFormed(files: seq<PatchFile>, lib: Library) {
    (forall i :: 0 <= i < |files| ==> WellFormedFile(files[i], lib)) &&
    (forall i, j :: 0 <= i < j < |files| ==> files[i].path != files[j].path)
  }

  predicate FreshPaths(files: seq<PatchFile>,
          seen: set<string>) { forall i :: 0 <= i < |files| ==> files[i].path !in seen }

  // ---- Reading back what was printed ---------------------------------------------------------

  lemma DiffersAt(s: string, prefix: string, k: nat)
    requires k < |s| && k < |prefix| && s[k] != prefix[k]
    ensures !HasPrefix(s, prefix)
  {
  }

  lemma PrintedLineIsBody(line: PatchLine, rest: seq<string>)
    ensures !EndsBody([PrintLine(line)] + rest) && PrintLine(line) != NO_NEWLINE
  {
    var s := PrintLine(line);
    DiffersAt(s, "@@ ", 0);
    DiffersAt(s, "diff --git ", 0);
    DiffersAt(s, NO_NEWLINE, 0);
  }

  lemma {:induction false} MarkersAreSkipped(n: nat, rest: seq<string>, oldLine: int, newLine: int)
    ensures ParseBody(Markers(n) + rest, oldLine, newLine) == ParseBody(rest, oldLine, newLine)
  {
    if n == 0 {
      assert Markers(n) + rest == rest;
    } else {
      DiffersAt(NO_NEWLINE, "@@ ", 0);
      DiffersAt(NO_NEWLINE, "diff --git ", 0);
      assert Markers(n) + rest == [NO_NEWLINE] + (Markers(n - 1) + rest);
      MarkersAreSkipped(n - 1, rest, oldLine, newLine);
    }
  }

  /** Printed lines read back, wherever markers stand. */
  lemma {:induction false} BodyReads(lines: seq<PatchLine>, marks: Marks, oldLine: int, newLine: int, rest: seq<string>)
    requires Numbered(lines, oldLine, newLine) && EndsBody(rest)
    ensures ParseBody(PrintLines(lines, marks) + rest, oldLine, newLine) == Ok(Rest(lines, rest))
    decreases |lines|
  {
    hide EndsBody, Markers;
    var markers := Markers(First(marks, 0));
    if lines == [] {
      assert PrintLines(lines, marks) + rest == markers + rest;
      MarkersAreSkipped(First(marks, 0), rest, oldLine, newLine);
    } else {
      var line := lines[0];
      var tail := PrintLines(lines[1..], Tail(marks)) + rest;
      assert PrintLines(lines, marks) + rest == markers + ([PrintLine(line)] + tail);
      MarkersAreSkipped(First(marks, 0), [PrintLine(line)] + tail, oldLine, newLine);
      PrintedLineIsBody(line, tail);
      assert PrintLine(line)[1..] == line.text;
      assert BodyLine(PrintLine(line), oldLine, newLine) == Ok(line);
      assert lines == [line] + lines[1..] && ([PrintLine(line)] + tail)[1..] == tail;
      BodyReads(lines[1..], Tail(marks), NextOld(line.kind, oldLine), NextNew(line.kind, newLine), rest);
    }
  }

  lemma HeaderStartsHunk(header: string)
    requires HeaderRanges(header).Some?
    ensures StartsHunk(header) && !StartsSection(header)
  {
    assert "@@ " <= "@@ -" && header[0] == '@';
    DiffersAt(header, "diff --git ", 0);
  }

  lemma HunkReads(h: Hunk, marks: Marks, rest: seq<string>)
    requires WellFormedHunk(h) && EndsBody(rest)
    ensures ParseHunk([h.header] + PrintLines(h.lines, marks) + rest) == Ok(Rest(h, rest))
  {
    hide ParseBody, EndsBody, HeaderRanges, Numbered;
    var lines := [h.header] + PrintLines(h.lines, marks) + rest;
    assert lines[1..] == PrintLines(h.lines, marks) + rest;
    BodyReads(h.lines, marks, h.oldStart, h.newStart, rest);
  }

  lemma HunksPrint(hunks: seq<Hunk>, marks: seq<Marks>)
    ensures PrintHunks([], marks) == []
    ensures hunks != [] ==>
              PrintHunks(hunks, marks) == [hunks[0].header] + PrintLines(hunks[0].lines, First(marks, [])) + PrintHunks(hunks[1..], Tail(marks))
  {
  }

  lemma HunksParse(lines: seq<string>, first: Hunk, rest: seq<string>, hunks: seq<Hunk>, end: seq<string>)
    requires !EndsHunks(lines) && ParseHunk(lines) == Ok(Rest(first, rest)) && ParseHunks(rest) == Ok(Rest(hunks, end))
    ensures ParseHunks(lines) == Ok(Rest([first] + hunks, end))
  {
    hide ParseHunk, EndsHunks;
  }

  lemma NoHunksParse(lines: seq<string>)
    requires EndsHunks(lines)
    ensures ParseHunks(lines) == Ok(Rest([], lines)) && EndsBody(lines)
  {
  }

  lemma {:induction false} HunksRead(hunks: seq<Hunk>, marks: seq<Marks>, rest: seq<string>)
    requires (forall k :: 0 <= k < |hunks| ==> WellFormedHunk(hunks[k])) && EndsHunks(rest)
    ensures ParseHunks(PrintHunks(hunks, marks) + rest) == Ok(Rest(hunks, rest))
    ensures EndsBody(PrintHunks(hunks, marks) + rest)
    decreases |hunks|
  {
    hide ParseHunk, ParseHunks, PrintHunks, PrintLines, WellFormedHunk, StartsSection, StartsHunk;
    HunksPrint(hunks, marks);
    if hunks == [] {
      assert PrintHunks(hunks, marks) + rest == rest;
      NoHunksParse(rest);
    } else {
      var h, one := hunks[0], PrintLines(hunks[0].lines, First(marks, []));
      var printed := PrintHunks(hunks[1..], Tail(marks));
      var tail, lines := printed + rest, PrintHunks(hunks, marks) + rest;
      assert lines == [h.header] + one + tail;
      HunksRead(hunks[1..], Tail(marks), rest);
      HunkReads(h, First(marks, []), tail);
      HeaderOfWellFormed(h);
      assert lines[0] == h.header;
      HunksParse(lines, h, tail, hunks[1..], rest);
      assert hunks == [h] + hunks[1..];
    }
  }

  lemma HeaderOfWellFormed(h: Hunk)
    requires WellFormedHunk(h)
    ensures StartsHunk(h.header) && !StartsSection(h.header)
  {
    HeaderStartsHunk(h.header);
  }

  /** The kind that is known after some metadata, when it began as `kind`. */
  lemma {:induction false} MetadataReads(metadata: seq<string>, kind: FileKind, before: FileKind, rest: seq<string>, lib: Library)
    requires EndsMetadata(rest)
    requires if before.FileModified? then Declares(metadata, kind, lib) else kind == before && forall k :: 0 <= k < |metadata| ==> NamesBlobs(metadata[k], lib)
    ensures ParseMetadata(metadata + rest, before, lib) == Ok(Rest(kind, rest))
    decreases |metadata|
  {
    hide MetadataStep, NamesBlobs, AddsFile, DeletesFile, EndsMetadata;
    if metadata == [] {
      assert metadata + rest == rest;
    } else {
      var line := metadata[0];
      assert (metadata + rest)[1..] == metadata[1..] + rest && (metadata + rest)[0] == line;
      MetadataLine(line, before, metadata + rest, lib);
      var after := if AddsFile(line) then FileAdded else if DeletesFile(line) then FileDeleted else before;
      KindsDiffer(line, lib);
      assert metadata == [line] + metadata[1..];
      assert forall k :: 0 <= k < |metadata| - 1 ==> metadata[1..][k] == metadata[k + 1];
      DeclaresTail(metadata, kind, before, lib);
      MetadataReads(metadata[1..], kind, after, rest, lib);
    }
  }

  lemma KindsDiffer(line: string, lib: Library)
    ensures !(AddsFile(line) && DeletesFile(line)) && (AddsFile(line) || DeletesFile(line) ==> !NamesBlobs(line, lib))
  {
    if AddsFile(line) || DeletesFile(line) { DiffersAt(line, "index ", if AddsFile(line) then 0 else 0); }
  }

  /** What one line of metadata does, when it is allowed at all. */
  lemma MetadataLine(line: string, before: FileKind, lines: seq<string>, lib: Library)
    requires lines != [] && lines[0] == line
    requires NamesBlobs(line, lib) || (before.FileModified? && (AddsFile(line) || DeletesFile(line)))
    ensures !EndsMetadata(lines)
    ensures MetadataStep(line, before, lib) == Ok(if AddsFile(line) then FileAdded else if DeletesFile(line) then FileDeleted else before)
  {
    DiffersAt(line, "--- ", 0);
    DiffersAt(line, "Binary files ", 0);
    DiffersAt(line, "GIT binary patch", 0);
    DiffersAt(line, "diff --git ", 1);
    if DeletesFile(line) { DiffersAt(line, "new file mode ", 0); }
    if NamesBlobs(line, lib) {
      DiffersAt(line, "new file mode ", 0);
      DiffersAt(line, "deleted file mode ", 0);
      DiffersAt(line, "old mode ", 0);
      DiffersAt(line, "new mode ", 0);
      assert line[0] == 'i';
    }
  }

  lemma DeclaresTail(metadata: seq<string>, kind: FileKind, before: FileKind, lib: Library)
    requires metadata != []
    requires if before.FileModified? then Declares(metadata, kind, lib) else kind == before && forall k :: 0 <= k < |metadata| ==> NamesBlobs(metadata[k], lib)
    ensures var after := if AddsFile(metadata[0]) then FileAdded else if DeletesFile(metadata[0]) then FileDeleted else before;
            if after.FileModified? then Declares(metadata[1..], kind, lib)
            else kind == after && forall k :: 0 <= k < |metadata| - 1 ==> NamesBlobs(metadata[1..][k], lib)
  {
    hide NamesBlobs, AddsFile, DeletesFile;
    forall k | 0 <= k < |metadata| { KindsDiffer(metadata[k], lib); }
    assert forall k :: 0 <= k < |metadata| - 1 ==> metadata[1..][k] == metadata[k + 1];
  }

  /** A suffix after a tab is no part of a path. */
  lemma HeadersMatch(path: string, kind: FileKind, oldSuffix: string, newSuffix: string, rest: seq<string>)
    requires IsSuffix(oldSuffix) && IsSuffix(newSuffix)
    ensures ValidFileHeaders(OldHeader(path, kind) + oldSuffix, NewHeader(path, kind) + newSuffix, path, kind)
    ensures EndsMetadata([OldHeader(path, kind) + oldSuffix] + rest)
  {
    var o, n := OldHeader(path, kind), NewHeader(path, kind);
    SuffixMatches(o, oldSuffix);
    SuffixMatches(n, newSuffix);
    assert "--- " <= "--- /dev/null" && "--- " <= "--- a/" + path;
    assert "--- " <= o <= o + oldSuffix;
  }

  lemma SuffixMatches(expected: string, suffix: string)
    requires IsSuffix(suffix)
    ensures PathHeaderMatches(expected + suffix, expected)
  {
    if suffix == "" {
      assert expected + suffix == expected;
    } else {
      assert suffix == "\t" + suffix[1..];
      assert expected + suffix == expected + "\t" + suffix[1..];
    }
  }

  /** A printed file section reads back, however it is dressed. */
  lemma FileReads(f: PatchFile, d: Dress, seen: set<string>, rest: seq<string>, lib: Library)
    requires WellFormedFile(f, lib) && Fits(d, f.kind, lib) && f.path !in seen && EndsHunks(rest)
    ensures ParseFile(PrintFile(f, d) + rest, seen, lib) == Ok(Rest(f, rest))
  {
    hide ParseHunks, ParseDiffHeader, ParseMetadata, HasPrefix, DiffHeader, HunkLines, CountKind, WellFormedHunk,
         EndsHunks, PrintHunks, OldHeader, NewHeader, Declares, IsSuffix, CleanLines, Clean, ValidFileHeaders, EndsMetadata;
    var header, o, n := DiffHeader(f.path), OldHeader(f.path, f.kind) + d.oldSuffix, NewHeader(f.path, f.kind) + d.newSuffix;
    var body := PrintHunks(f.hunks, d.marks) + rest;
    var lines := PrintFile(f, d) + rest;
    assert lines == [header] + (d.metadata + ([o] + ([n] + body)));
    assert lines[1..] == d.metadata + ([o] + ([n] + body));
    DiffHeaderParts(f.path);
    PathOfFile(f, lib);
    DiffHeaderExact(header, f.path);
    HeadersMatch(f.path, f.kind, d.oldSuffix, d.newSuffix, [n] + body);
    MetadataReads(d.metadata, f.kind, FileModified, [o] + ([n] + body), lib);
    assert ([o] + ([n] + body))[2..] == body;
    HunksRead(f.hunks, d.marks, rest);
    NoHunkNoLines(f.hunks);
  }

  lemma PathOfFile(f: PatchFile, lib: Library)
    requires WellFormedFile(f, lib)
    ensures f.path != "" && '\0' !in f.path
  {
  }

  lemma NoHunkNoLines(hunks: seq<Hunk>)
    ensures hunks == [] ==> HunkLines(hunks) == []
  {
  }

  lemma PrintedFileStarts(f: PatchFile, d: Dress, rest: seq<string>)
    ensures EndsHunks(PrintFile(f, d) + rest)
  {
    assert (PrintFile(f, d) + rest)[0] == DiffHeader(f.path);
    assert "diff --git " <= DIFF_PREFIX;
    DiffHeaderParts(f.path);
  }

  lemma {:induction false} FilesRead(files: seq<PatchFile>, dress: seq<Dress>, seen: set<string>, lib: Library)
    requires WellFormed(files, lib) && AllFit(dress, files, lib) && FreshPaths(files, seen)
    ensures ParseFiles(PrintFiles(files, dress), seen, lib) == Ok(files)
    ensures EndsHunks(PrintFiles(files, dress))
    decreases |files|
  {
    hide ParseFile, PrintFile, WellFormedFile, EndsHunks, Fits;
    if files == [] {
      NothingEndsHunks();
    } else {
      var f := files[0];
      var tail, rest := files[1..], dress[1..];
      assert forall i :: 0 <= i < |tail| ==> tail[i] == files[i + 1] && rest[i] == dress[i + 1];
      FilesRead(tail, rest, seen + {f.path}, lib);
      FileReads(f, dress[0], seen, PrintFiles(tail, rest), lib);
      PrintedFileStarts(f, dress[0], PrintFiles(tail, rest));
      assert files == [f] + tail;
    }
  }

  lemma NothingEndsHunks()
    ensures EndsHunks([])
  {
  }

  // ---- Printed lines are lines ---------------------------------------------------------------

  predicate CleanLines(lines: seq<string>) { forall k :: 0 <= k < |lines| ==> Clean(lines[k]) }

  lemma CleanAppend(a: seq<string>, b: seq<string>)
    requires CleanLines(a) && CleanLines(b)
    ensures CleanLines(a + b)
  {
  }

  lemma CleanJoin(a: string, b: string)
    requires Clean(a) && Clean(b)
    ensures Clean(a + b)
  {
  }

  lemma {:induction false} MarkersClean(n: nat)
    ensures CleanLines(Markers(n))
  {
    if n > 0 {
      MarkersClean(n - 1);
      assert Clean(NO_NEWLINE);
    }
  }

  lemma {:induction false} PrintedLinesClean(lines: seq<PatchLine>, marks: Marks)
    requires CleanTexts(lines)
    ensures CleanLines(PrintLines(lines, marks))
    decreases |lines|
  {
    hide Markers;
    MarkersClean(First(marks, 0));
    if lines != [] {
      PrintedLinesClean(lines[1..], Tail(marks));
      CleanAppend([PrintLine(lines[0])], PrintLines(lines[1..], Tail(marks)));
      CleanAppend(Markers(First(marks, 0)), [PrintLine(lines[0])] + PrintLines(lines[1..], Tail(marks)));
    }
  }

  lemma {:induction false} PrintedHunksClean(hunks: seq<Hunk>, marks: seq<Marks>)
    requires forall k :: 0 <= k < |hunks| ==> WellFormedHunk(hunks[k])
    ensures CleanLines(PrintHunks(hunks, marks))
    decreases |hunks|
  {
    if hunks != [] {
      var h := hunks[0];
      PrintedLinesClean(h.lines, First(marks, []));
      PrintedHunksClean(hunks[1..], Tail(marks));
      CleanAppend([h.header], PrintLines(h.lines, First(marks, [])));
      CleanAppend([h.header] + PrintLines(h.lines, First(marks, [])), PrintHunks(hunks[1..], Tail(marks)));
    }
  }

  lemma PrintedFileClean(f: PatchFile, d: Dress, lib: Library)
    requires WellFormedFile(f, lib) && Fits(d, f.kind, lib)
    ensures CleanLines(PrintFile(f, d))
  {
    hide Clean, WellFormedHunk, DiffHeader, HunkLines, CountKind, Declares;
    PrintedHunksClean(f.hunks, d.marks);
    HeadersClean(f.path, f.kind);
    CleanJoin(OldHeader(f.path, f.kind), d.oldSuffix);
    CleanJoin(NewHeader(f.path, f.kind), d.newSuffix);
    var headers := [OldHeader(f.path, f.kind) + d.oldSuffix, NewHeader(f.path, f.kind) + d.newSuffix];
    CleanAppend([DiffHeader(f.path)], d.metadata);
    CleanAppend([DiffHeader(f.path)] + d.metadata, headers);
    CleanAppend([DiffHeader(f.path)] + d.metadata + headers, PrintHunks(f.hunks, d.marks));
  }

  lemma HeadersClean(path: string, kind: FileKind)
    requires Clean(path)
    ensures Clean(DiffHeader(path)) && Clean(OldHeader(path, kind)) && Clean(NewHeader(path, kind)) && CleanLines(KindLines(kind))
  {
    assert Clean(DIFF_PREFIX) && Clean(MIDDLE) && Clean("--- a/") && Clean("+++ b/") && Clean("--- /dev/null") && Clean("+++ /dev/null");
    assert Clean("new file mode 100644") && Clean("deleted file mode 100644");
  }

  lemma {:induction false} PrintedFilesClean(files: seq<PatchFile>, dress: seq<Dress>, lib: Library)
    requires AllFit(dress, files, lib) && forall i :: 0 <= i < |files| ==> WellFormedFile(files[i], lib)
    ensures CleanLines(PrintFiles(files, dress))
    decreases |files|
  {
    hide WellFormedFile, PrintFile, Fits;
    if files != [] {
      PrintedFileClean(files[0], dress[0], lib);
      PrintedFilesClean(files[1..], dress[1..], lib);
      CleanAppend(PrintFile(files[0], dress[0]), PrintFiles(files[1..], dress[1..]));
    }
  }

  lemma {:induction false} JoinHasNoNul(lines: seq<string>)
    requires lines != [] && CleanLines(lines)
    ensures '\0' !in Join(lines, '\n')
  {
    if |lines| > 1 { JoinHasNoNul(lines[1..]); }
  }

  lemma TextOfLines(lines: seq<string>)
    requires lines != [] && CleanLines(lines)
    ensures var raw := Join(lines, '\n') + "\n";
            '\0' !in raw && raw != "" && raw[|raw| - 1] == '\n' && Split(raw[..|raw| - 1], '\n') == lines
  {
    hide Split, Join;
    JoinHasNoNul(lines);
    SplitJoin(lines, '\n');
    var raw := Join(lines, '\n') + "\n";
    assert raw[..|raw| - 1] == Join(lines, '\n');
  }

  /**
   Parsing undoes printing: every list of well-formed files, printed with any fitting dress, is accepted and
   comes back as it was, except that a file in the legacy whole-file shape comes back as its display.
   */
  lemma ParsingUndoesPrinting(files: seq<PatchFile>, dress: seq<Dress>, lib: Library)
    requires files != [] && WellFormed(files, lib) && AllFit(dress, files, lib) && lib.valid(PatchText(files, dress))
    ensures Parsed(PatchText(files, dress), lib) == Ok(NormalizedAll(files, lib.diff))
    ensures (forall i :: 0 <= i < |files| ==> !WholeFile(files[i])) ==> Parsed(PatchText(files, dress), lib) == Ok(files)
  {
    hide WellFormedFile, Split, Join, ParseFiles, Normalized, WholeFile, PrintFile, PrintFiles, NormalizedAll,
         CleanLines, EndsHunks, Fits;
    PrintedFilesClean(files, dress, lib);
    NonEmptyPrint(files, dress);
    TextOfLines(PrintFiles(files, dress));
    FilesRead(files, dress, {}, lib);
    if forall i :: 0 <= i < |files| ==> !WholeFile(files[i]) { UnchangedAll(files, lib.diff); }
  }

  lemma NonEmptyPrint(files: seq<PatchFile>, dress: seq<Dress>)
    requires files != [] && |files| == |dress|
    ensures PrintFiles(files, dress) != []
  {
  }

  lemma {:induction false} UnchangedAll(files: seq<PatchFile>, diff: Diff)
    requires forall i :: 0 <= i < |files| ==> !WholeFile(files[i])
    ensures NormalizedAll(files, diff) == files
  {
    if files != [] { UnchangedAll(files[1..], diff); }
  }

  // ---- What an accepted patch is -------------------------------------------------------------

  lemma {:induction false} BodySound(lines: seq<string>, oldLine: int, newLine: int) returns (marks: Marks)
    requires CleanLines(lines) && ParseBody(lines, oldLine, newLine).Ok?
    ensures var r := ParseBody(lines, oldLine, newLine).value;
            Numbered(r.value, oldLine, newLine) && CleanTexts(r.value) && CleanLines(r.lines) && EndsBody(r.lines) &&
            lines == PrintLines(r.value, marks) + r.lines
  {
    hide EndsBody, PrintLines;
    marks := [];
    NothingPrints();
    if !EndsBody(lines) {
      assert lines != [] by { NothingEndsBody(); }
      if lines[0] == NO_NEWLINE {
        var more := BodySound(lines[1..], oldLine, newLine);
        marks := [First(more, 0) + 1] + Tail(more);
        MarkBefore(ParseBody(lines, oldLine, newLine).value.value, more);
      } else {
        var item := BodyLine(lines[0], oldLine, newLine).value;
        var more := BodySound(lines[1..], NextOld(item.kind, oldLine), NextNew(item.kind, newLine));
        var tail := ParseBody(lines[1..], NextOld(item.kind, oldLine), NextNew(item.kind, newLine)).value;
        assert ([item] + tail.value)[1..] == tail.value;
        assert Clean(lines[0]) && Clean(item.text);
        marks := [0] + more;
        assert PrintLine(item) == lines[0];
        LinePrints(item, tail.value, more);
      }
    }
  }

  lemma NothingPrints()
    ensures PrintLines([], []) == []
  {
  }

  lemma LinePrints(item: PatchLine, lines: seq<PatchLine>, marks: Marks)
    ensures PrintLines([item] + lines, [0] + marks) == [PrintLine(item)] + PrintLines(lines, marks)
  {
    hide PrintLine;
    assert ([item] + lines)[1..] == lines && Tail([0] + marks) == marks;
  }

  function AfterMarkers(lines: seq<PatchLine>, marks: Marks): seq<string> {
    if lines == [] then [] else [PrintLine(lines[0])] + PrintLines(lines[1..], Tail(marks))
  }

  lemma PrintsAfterMarkers(lines: seq<PatchLine>, marks: Marks)
    ensures PrintLines(lines, marks) == Markers(First(marks, 0)) + AfterMarkers(lines, marks)
  {
  }

  lemma MarkBefore(lines: seq<PatchLine>, marks: Marks)
    ensures PrintLines(lines, [First(marks, 0) + 1] + Tail(marks)) == [NO_NEWLINE] + PrintLines(lines, marks)
  {
    hide PrintLines, PrintLine;
    var more := [First(marks, 0) + 1] + Tail(marks);
    assert Tail(more) == Tail(marks) && First(more, 0) == First(marks, 0) + 1;
    PrintsAfterMarkers(lines, marks);
    PrintsAfterMarkers(lines, more);
    Regrouped([NO_NEWLINE], Markers(First(marks, 0)), AfterMarkers(lines, marks));
  }

  lemma Regrouped(a: seq<string>, b: seq<string>, c: seq<string>)
    ensures a + b + c == a + (b + c)
  {
  }

  lemma NothingEndsBody()
    ensures EndsBody([])
  {
  }

  lemma HunkSound(lines: seq<string>) returns (marks: Marks)
    requires lines != [] && CleanLines(lines) && ParseHunk(lines).Ok?
    ensures var r := ParseHunk(lines).value;
            WellFormedHunk(r.value) && CleanLines(r.lines) && EndsBody(r.lines) &&
            lines == [r.value.header] + PrintLines(r.value.lines, marks) + r.lines
  {
    hide ParseBody, EndsBody, HeaderRanges, Numbered;
    var ranges := HeaderRanges(lines[0]).value;
    marks := BodySound(lines[1..], ranges.oldStart, ranges.newStart);
  }

  lemma {:induction false} HunksSound(lines: seq<string>) returns (marks: seq<Marks>)
    requires CleanLines(lines) && ParseHunks(lines).Ok?
    ensures var r := ParseHunks(lines).value;
            (forall k :: 0 <= k < |r.value| ==> WellFormedHunk(r.value[k])) && CleanLines(r.lines) && EndsHunks(r.lines) &&
            lines == PrintHunks(r.value, marks) + r.lines
    decreases |lines|
  {
    hide ParseHunk, WellFormedHunk, StartsSection, PrintLines, PrintHunks;
    marks := [];
    if EndsHunks(lines) {
      HunksPrint([], marks);
      assert lines == [] + lines;
    } else {
      var one := HunkSound(lines);
      var first := ParseHunk(lines).value;
      var more := HunksSound(first.lines);
      marks := [one] + more;
      var hunks, end := ParseHunks(first.lines).value.value, ParseHunks(first.lines).value.lines;
      HunksPrint([first.value] + hunks, marks);
      HunksJoin(lines, first.value.header, PrintLines(first.value.lines, one), PrintHunks(hunks, more), first.lines, end);
      assert ([first.value] + hunks)[1..] == hunks && Tail(marks) == more && First(marks, []) == one;
    }
  }

  lemma HunksJoin(lines: seq<string>, header: string, body: seq<string>, tail: seq<string>, rest: seq<string>, end: seq<string>)
    requires lines == [header] + body + rest && rest == tail + end
    ensures lines == [header] + body + tail + end
  {
  }

  lemma MetadataStepMeans(line: string, before: FileKind, lib: Library)
    requires MetadataStep(line, before, lib).Ok?
    ensures var after := MetadataStep(line, before, lib).value;
            (NamesBlobs(line, lib) && after == before) ||
            (before.FileModified? && ((AddsFile(line) && after.FileAdded?) || (DeletesFile(line) && after.FileDeleted?)))
  {
  }

  lemma BlobsDeclare(line: string, metadata: seq<string>, kind: FileKind, lib: Library)
    requires NamesBlobs(line, lib) && Declares(metadata, kind, lib)
    ensures Declares([line] + metadata, kind, lib)
  {
    hide NamesBlobs, AddsFile, DeletesFile;
    var all := [line] + metadata;
    KindsDiffer(line, lib);
    assert all[0] == line && forall k :: 1 <= k < |all| ==> all[k] == metadata[k - 1];
    if k :| 0 <= k < |metadata| && AddsFile(metadata[k]) { assert AddsFile(all[k + 1]); }
    if k :| 0 <= k < |metadata| && DeletesFile(metadata[k]) { assert DeletesFile(all[k + 1]); }
  }

  lemma KindDeclares(line: string, metadata: seq<string>, kind: FileKind, lib: Library)
    requires (AddsFile(line) && kind.FileAdded?) || (DeletesFile(line) && kind.FileDeleted?)
    requires forall k :: 0 <= k < |metadata| ==> NamesBlobs(metadata[k], lib)
    ensures Declares([line] + metadata, kind, lib)
  {
    hide NamesBlobs, AddsFile, DeletesFile;
    var all := [line] + metadata;
    assert all[0] == line && forall k :: 1 <= k < |all| ==> all[k] == metadata[k - 1];
    forall k | 0 <= k < |all| { KindsDiffer(all[k], lib); }
  }

  lemma DeclaresMore(line: string, metadata: seq<string>, kind: FileKind, before: FileKind, after: FileKind, lib: Library)
    requires (NamesBlobs(line, lib) && after == before) ||
             (before.FileModified? && ((AddsFile(line) && after.FileAdded?) || (DeletesFile(line) && after.FileDeleted?)))
    requires if after.FileModified? then Declares(metadata, kind, lib)
             else kind == after && forall k :: 0 <= k < |metadata| ==> NamesBlobs(metadata[k], lib)
    ensures if before.FileModified? then Declares([line] + metadata, kind, lib)
            else kind == before && forall k :: 0 <= k < |metadata| + 1 ==> NamesBlobs(([line] + metadata)[k], lib)
  {
    hide NamesBlobs, AddsFile, DeletesFile, Declares;
    if before.FileModified? {
      if NamesBlobs(line, lib) && after == before { BlobsDeclare(line, metadata, kind, lib); } else { KindDeclares(line, metadata, kind, lib); }
    }
  }

  lemma MetadataParses(lines: seq<string>, before: FileKind, lib: Library)
    requires ParseMetadata(lines, before, lib).Ok?
    ensures EndsMetadata(lines) ==> ParseMetadata(lines, before, lib) == Ok(Rest(before, lines))
    ensures !EndsMetadata(lines) ==>
              lines != [] && MetadataStep(lines[0], before, lib).Ok? &&
              ParseMetadata(lines, before, lib) == ParseMetadata(lines[1..], MetadataStep(lines[0], before, lib).value, lib)
  {
    hide MetadataStep;
  }

  lemma NothingDeclared(lib: Library)
    ensures Declares([], FileModified, lib)
  {
  }

  lemma {:induction false} MetadataSound(lines: seq<string>, before: FileKind, lib: Library) returns (metadata: seq<string>)
    requires CleanLines(lines) && ParseMetadata(lines, before, lib).Ok?
    ensures var r := ParseMetadata(lines, before, lib).value;
            lines == metadata + r.lines && CleanLines(metadata) && CleanLines(r.lines) &&
            if before.FileModified? then Declares(metadata, r.value, lib)
            else r.value == before && forall k :: 0 <= k < |metadata| ==> NamesBlobs(metadata[k], lib)
  {
    hide MetadataStep, ParseMetadata, EndsMetadata, Clean, NamesBlobs, AddsFile, DeletesFile, Declares;
    MetadataParses(lines, before, lib);
    if EndsMetadata(lines) {
      metadata := [];
      NothingDeclared(lib);
      assert lines == [] + lines;
    } else {
      var after := MetadataStep(lines[0], before, lib).value;
      var more := MetadataSound(lines[1..], after, lib);
      MetadataStepMeans(lines[0], before, lib);
      DeclaresMore(lines[0], more, ParseMetadata(lines, before, lib).value.value, before, after, lib);
      metadata := [lines[0]] + more;
      assert lines == [lines[0]] + lines[1..];
      Regrouped([lines[0]], more, ParseMetadata(lines, before, lib).value.lines);
    }
  }

  lemma SuffixOf(header: string, expected: string) returns (suffix: string)
    requires PathHeaderMatches(header, expected) && Clean(header)
    ensures header == expected + suffix && IsSuffix(suffix) && Clean(suffix)
  {
    suffix := header[|expected|..];
    assert forall i :: 0 <= i < |suffix| ==> suffix[i] == header[|expected| + i];
    if header != expected {
      assert (expected + "\t")[|expected|] == '\t' && header[|expected|] == '\t';
    }
  }

  lemma FileSound(lines: seq<string>, seen: set<string>, lib: Library) returns (d: Dress)
    requires lines != [] && CleanLines(lines) && ParseFile(lines, seen, lib).Ok?
    ensures var r := ParseFile(lines, seen, lib).value;
            WellFormedFile(r.value, lib) && r.value.path !in seen && CleanLines(r.lines) && Fits(d, r.value.kind, lib) &&
            lines == PrintFile(r.value, d) + r.lines
  {
    hide ParseHunks, ParseDiffHeader, ParseMetadata, DiffHeader, HunkLines, CountKind, WellFormedHunk,
         HasPrefix, Declares, IsSuffix, PathHeaderMatches, OldHeader, NewHeader, PrintHunks;
    var path := ParseDiffHeader(lines[0]).value;
    DiffHeaderExact(lines[0], path);
    PathClean(lines[0], path);
    var metadata := MetadataSound(lines[1..], FileModified, lib);
    var meta := ParseMetadata(lines[1..], FileModified, lib).value;
    var marks := HunksSound(meta.lines[2..]);
    var oldSuffix := SuffixOf(meta.lines[0], OldHeader(path, meta.value));
    var newSuffix := SuffixOf(meta.lines[1], NewHeader(path, meta.value));
    d := Dress(metadata, oldSuffix, newSuffix, marks);
    assert meta.lines == [meta.lines[0], meta.lines[1]] + meta.lines[2..];
    assert lines == [lines[0]] + (metadata + ([meta.lines[0], meta.lines[1]] + meta.lines[2..]));
  }

  lemma PathClean(line: string, path: string)
    requires line == DiffHeader(path) && Clean(line)
    ensures Clean(path)
  {
    assert forall i :: 0 <= i < |path| ==> line[|DIFF_PREFIX| + i] == path[i];
  }

  lemma {:induction false} FilesSound(lines: seq<string>, seen: set<string>, lib: Library) returns (dress: seq<Dress>)
    requires CleanLines(lines) && ParseFiles(lines, seen, lib).Ok?
    ensures var files := ParseFiles(lines, seen, lib).value;
            WellFormed(files, lib) && FreshPaths(files, seen) && AllFit(dress, files, lib) && lines == PrintFiles(files, dress)
    decreases |lines|
  {
    hide ParseFile, WellFormedFile, Fits, PrintFile;
    dress := [];
    if lines != [] {
      var d := FileSound(lines, seen, lib);
      var first := ParseFile(lines, seen, lib).value;
      var more := FilesSound(first.lines, seen + {first.value.path}, lib);
      dress := [d] + more;
      var tail := ParseFiles(first.lines, seen + {first.value.path}, lib).value;
      assert ([first.value] + tail)[1..] == tail && dress[1..] == more;
    }
  }

  /** A text that is the printing of these files in this dress. */
  ghost predicate Prints(raw: string, files: seq<PatchFile>, dress: seq<Dress>, lib: Library) {
    files != [] && WellFormed(files, lib) && AllFit(dress, files, lib) && raw == PatchText(files, dress)
  }

  /**
   Every accepted patch is, byte for byte, the printing of well-formed files in a fitting dress: declared and pairwise distinct
   paths, exact counts and totals, lines numbered from the start of their hunk; and what is returned is their
   display. Printing those files again in any fitting dress is accepted with the same outcome.
   */
  lemma AcceptedIsWellFormed(raw: string, lib: Library)
    requires Parsed(raw, lib).Ok?
    ensures exists files, dress ::
              Prints(raw, files, dress, lib) && Parsed(raw, lib) == Ok(NormalizedAll(files, lib.diff)) &&
              forall other :: AllFit(other, files, lib) && lib.valid(PatchText(files, other)) ==> Parsed(PatchText(files, other), lib) == Parsed(raw, lib)
  {
    hide WellFormedFile, Split, Join, ParseFiles, Normalized, WholeFile, PrintFile, PrintFiles, NormalizedAll, Fits;
    var text := raw[..|raw| - 1];
    SplitClean(text);
    JoinSplit(text, '\n');
    var files := ParseFiles(Split(text, '\n'), {}, lib).value;
    var dress := FilesSound(Split(text, '\n'), {}, lib);
    assert raw == text + "\n";
    assert Prints(raw, files, dress, lib);
    forall other | AllFit(other, files, lib) && lib.valid(PatchText(files, other))
      ensures Parsed(PatchText(files, other), lib) == Parsed(raw, lib)
    {
      ParsingUndoesPrinting(files, other, lib);
    }
  }

  /** The parser accepts a valid text exactly when it is such a printing. Any other line anywhere refuses the whole patch. */
  lemma AcceptedExactly(raw: string, lib: Library)
    requires lib.valid(raw)
    ensures Parsed(raw, lib).Ok? <==> exists files, dress :: Prints(raw, files, dress, lib)
  {
    hide Parsed, WellFormed, AllFit, PatchText;
    if Parsed(raw, lib).Ok? { AcceptedIsWellFormed(raw, lib); }
    if files, dress :| Prints(raw, files, dress, lib) { ParsingUndoesPrinting(files, dress, lib); }
  }

  // ---- Raw lines of sections -----------------------------------------------------------------

  predicate NoSection(lines: seq<string>) { forall k :: 0 <= k < |lines| ==> !StartsSection(lines[k]) }

  lemma {:induction false} LinesHoldNoSection(lines: seq<PatchLine>, marks: Marks)
    ensures NoSection(PrintLines(lines, marks))
    decreases |lines|
  {
    hide Markers, PrintLine, StartsSection;
    MarkersHoldNoSection(First(marks, 0));
    if lines != [] {
      LinesHoldNoSection(lines[1..], Tail(marks));
      LineIsNoSection(lines[0]);
    }
  }

  lemma LineIsNoSection(line: PatchLine)
    ensures !StartsSection(PrintLine(line))
  {
    DiffersAt(PrintLine(line), "diff --git ", 0);
  }

  lemma {:induction false} MarkersHoldNoSection(n: nat)
    ensures NoSection(Markers(n))
  {
    DiffersAt(NO_NEWLINE, "diff --git ", 0);
    if n > 0 { MarkersHoldNoSection(n - 1); }
  }

  lemma {:induction false} HunksHoldNoSection(hunks: seq<Hunk>, marks: seq<Marks>)
    requires forall k :: 0 <= k < |hunks| ==> WellFormedHunk(hunks[k])
    ensures NoSection(PrintHunks(hunks, marks))
    decreases |hunks|
  {
    hide PrintHunks, PrintLines, WellFormedHunk, StartsSection, StartsHunk;
    HunksPrint(hunks, marks);
    if hunks != [] {
      HeaderOfWellFormed(hunks[0]);
      LinesHoldNoSection(hunks[0].lines, First(marks, []));
      HunksHoldNoSection(hunks[1..], Tail(marks));
    }
  }

  /** Only the first line of a printed section starts one, and only its metadata comes before the old header. */
  lemma SectionLines(f: PatchFile, d: Dress, lib: Library)
    requires WellFormedFile(f, lib) && Fits(d, f.kind, lib)
    ensures var lines, n := PrintFile(f, d), |d.metadata|;
            |lines| >= n + 3 && lines[0] == DiffHeader(f.path) && NoSection(lines[1..]) && lines[1..n + 1] == d.metadata &&
            HasPrefix(lines[n + 1], "--- ")
  {
    hide WellFormedHunk, PrintHunks, NamesBlobs, AddsFile, DeletesFile, HunkLines, CountKind, DiffHeader, IsSuffix, StartsSection;
    var lines, n := PrintFile(f, d), |d.metadata|;
    var o, w := OldHeader(f.path, f.kind) + d.oldSuffix, NewHeader(f.path, f.kind) + d.newSuffix;
    HunksHoldNoSection(f.hunks, d.marks);
    assert lines == [DiffHeader(f.path)] + d.metadata + ([o, w] + PrintHunks(f.hunks, d.marks));
    HeaderLines(f.path, f.kind, d.oldSuffix, d.newSuffix);
    forall k | 0 <= k < n
      ensures !StartsSection(d.metadata[k])
    {
      MetadataIsNoSection(d.metadata[k], lib);
    }
    assert lines[1..] == d.metadata + ([o, w] + PrintHunks(f.hunks, d.marks));
  }

  lemma HeaderLines(path: string, kind: FileKind, oldSuffix: string, newSuffix: string)
    ensures HasPrefix(OldHeader(path, kind) + oldSuffix, "--- ") && !StartsSection(OldHeader(path, kind) + oldSuffix)
    ensures !StartsSection(NewHeader(path, kind) + newSuffix)
  {
    var o, n := OldHeader(path, kind) + oldSuffix, NewHeader(path, kind) + newSuffix;
    assert "--- " <= "--- /dev/null" && "--- " <= "--- a/" + path;
    assert "--- " <= OldHeader(path, kind) <= o;
    assert o[0] == '-' && n[0] == '+';
    DiffersAt(o, "diff --git ", 0);
    DiffersAt(n, "diff --git ", 0);
  }

  lemma MetadataIsNoSection(line: string, lib: Library)
    requires AddsFile(line) || DeletesFile(line) || NamesBlobs(line, lib)
    ensures !StartsSection(line)
  {
    if NamesBlobs(line, lib) {
      assert line[0] == 'i';
      DiffersAt(line, "diff --git ", 0);
    } else {
      DiffersAt(line, "diff --git ", if AddsFile(line) then 0 else 1);
    }
  }

  /** From the start of a section up to line j there is no old header and no other section. */
  predicate InMetadata(lines: seq<string>, i: nat, j: nat) {
    i < j < |lines| && StartsSection(lines[i]) && forall k :: i < k <= j ==> !HasPrefix(lines[k], "--- ") && !StartsSection(lines[k])
  }

  lemma {:induction false} MetadataInSections(files: seq<PatchFile>, dress: seq<Dress>, lib: Library, i: nat, j: nat)
    requires AllFit(dress, files, lib) && forall k :: 0 <= k < |files| ==> WellFormedFile(files[k], lib)
    requires InMetadata(PrintFiles(files, dress), i, j)
    ensures var line := PrintFiles(files, dress)[j]; AddsFile(line) || DeletesFile(line) || NamesBlobs(line, lib)
    decreases |files|
  {
    hide WellFormedFile, PrintFile, NamesBlobs, AddsFile, DeletesFile, HasPrefix, StartsSection;
    var lines, first := PrintFiles(files, dress), PrintFile(files[0], dress[0]);
    var rest, n := PrintFiles(files[1..], dress[1..]), |PrintFile(files[0], dress[0])|;
    SectionLines(files[0], dress[0], lib);
    assert lines == first + rest;
    assert forall k :: 0 < k < n ==> lines[k] == first[1..][k - 1];
    if i < n {
      assert i == 0;
      var m := |dress[0].metadata|;
      assert lines[m + 1] == first[m + 1];
      assert j <= m;
      assert lines[j] == first[1..m + 1][j - 1] == dress[0].metadata[j - 1];
    } else {
      assert forall k :: 0 <= k < |rest| ==> rest[k] == lines[k + n];
      assert InMetadata(rest, i - n, j - n);
      MetadataInSections(files[1..], dress[1..], lib, i - n, j - n);
    }
  }

  /** Any other line in the metadata of any section, such as a change of mode, makes the parser refuse the whole patch. */
  lemma OtherMetadataIsRefused(text: string, lib: Library, i: nat, j: nat)
    requires InMetadata(Split(text, '\n'), i, j)
    requires var line := Split(text, '\n')[j]; !AddsFile(line) && !DeletesFile(line) && !NamesBlobs(line, lib)
    ensures Parsed(text + "\n", lib).Err?
  {
    hide ParseFiles, Split, Join, WellFormedFile, PrintFile, NamesBlobs, AddsFile, DeletesFile, Fits, InMetadata;
    var raw, lines := text + "\n", Split(text, '\n');
    assert raw[..|raw| - 1] == text;
    if Parsed(raw, lib).Ok? {
      SplitClean(text);
      var dress := FilesSound(lines, {}, lib);
      MetadataInSections(ParseFiles(lines, {}, lib).value, dress, lib, i, j);
    }
  }

  lemma {:induction false} NormalizedAt(files: seq<PatchFile>, diff: Diff, i: nat)
    requires i < |files|
    ensures NormalizedAll(files, diff)[i] == Normalized(files[i], diff)
  {
    if i > 0 { NormalizedAt(files[1..], diff, i - 1); }
  }

  /** What is displayed for an accepted file does to every text what the file says. */
  lemma DisplayKeepsMeaning(files: seq<PatchFile>, lib: Library, i: nat, text: seq<string>)
    requires i < |files| && Honest(lib.diff) && DiffProjection.ApplyHunks(text, files[i].hunks, 0, 0).Some?
    ensures var shown := NormalizedAll(files, lib.diff)[i];
            shown.path == files[i].path && shown.kind == files[i].kind &&
            DiffProjection.ApplyHunks(text, shown.hunks, 0, 0) == DiffProjection.ApplyHunks(text, files[i].hunks, 0, 0)
  {
    NormalizedAt(files, lib.diff, i);
    NormalizationKeepsMeaning(files[i], lib.diff, text);
  }

  // ---- Line numbers --------------------------------------------------------------------------

  function Advanced(line: int, n: nat): int { if n == 0 then line else Increment(Advanced(line, n - 1)) }

  lemma {:induction false} AdvancedExact(line: int, n: nat)
    requires line <= MAX_INT
    ensures Advanced(line, n) <= MAX_INT
    ensures line + n <= MAX_INT ==> Advanced(line, n) == line + n
  {
    if n > 0 { AdvancedExact(line, n - 1); }
  }

  lemma {:induction false} AdvancedFirst(line: int, n: nat)
    ensures Advanced(Increment(line), n) == Advanced(line, n + 1)
  {
    if n > 0 { AdvancedFirst(line, n - 1); }
  }

  lemma TextFirst(lines: seq<PatchLine>, k: nat)
    requires 0 < k <= |lines|
    ensures |OldText(lines[..k])| == (if lines[0].kind.Added? then 0 else 1) + |OldText(lines[1..][..k - 1])|
    ensures |NewText(lines[..k])| == (if lines[0].kind.Removed? then 0 else 1) + |NewText(lines[1..][..k - 1])|
  {
    assert lines[..k][0] == lines[0] && lines[..k][1..] == lines[1..][..k - 1];
  }

  lemma {:induction false} NumberedAt(lines: seq<PatchLine>, oldLine: int, newLine: int, k: nat)
    requires k < |lines| && Numbered(lines, oldLine, newLine)
    ensures lines[k].oldLine == if lines[k].kind.Added? then 0 else Advanced(oldLine, |OldText(lines[..k])|)
    ensures lines[k].newLine == if lines[k].kind.Removed? then 0 else Advanced(newLine, |NewText(lines[..k])|)
  {
    if k > 0 {
      NumberedAt(lines[1..], NextOld(lines[0].kind, oldLine), NextNew(lines[0].kind, newLine), k - 1);
      TextFirst(lines, k);
      AdvancedFirst(oldLine, |OldText(lines[1..][..k - 1])|);
      AdvancedFirst(newLine, |NewText(lines[1..][..k - 1])|);
    }
  }

  lemma RangesFit(line: string)
    requires HeaderRanges(line).Some?
    ensures HeaderRanges(line).value.oldStart <= MAX_INT && HeaderRanges(line).value.newStart <= MAX_INT
  {
  }

  /**
   A line of an accepted hunk carries the start of its hunk plus the lines before it exactly when that
   number is a machine integer; beyond, the counter has wrapped around.
   */
  lemma LineNumbersExact(h: Hunk, k: nat)
    requires WellFormedHunk(h) && k < |h.lines|
    ensures !h.lines[k].kind.Added? ==>
              var expected := h.oldStart + |OldText(h.lines[..k])|;
              (h.lines[k].oldLine == expected <==> expected <= MAX_INT)
    ensures !h.lines[k].kind.Removed? ==>
              var expected := h.newStart + |NewText(h.lines[..k])|;
              (h.lines[k].newLine == expected <==> expected <= MAX_INT)
  {
    hide HeaderRanges;
    RangesFit(h.header);
    NumberedAt(h.lines, h.oldStart, h.newStart, k);
    AdvancedExact(h.oldStart, |OldText(h.lines[..k])|);
    AdvancedExact(h.newStart, |NewText(h.lines[..k])|);
  }

  function WrappingBody(): seq<PatchLine> {
    [PatchLine(Removed, MAX_INT, 0, "a"), PatchLine(Removed, -MAX_INT - 1, 0, "b")]
  }

  function WrappingHunk(): Hunk { Hunk(DiffProjection.HunkHeader(MAX_INT, 2, 0, 0), MAX_INT, 2, 0, 0, WrappingBody()) }

  function WrappingFile(path: string): PatchFile { PatchFile(path, FileModified, 0, 2, [WrappingHunk()], WrappingBody()) }

  /** The whole patch: one file, one hunk that removes two lines at the largest line number. */
  function WrappingPatch(path: string): string {
    Join([DiffHeader(path), OldHeader(path, FileModified), NewHeader(path, FileModified),
          DiffProjection.HunkHeader(MAX_INT, 2, 0, 0), "-a", "-b"], '\n') + "\n"
  }

  lemma WrappingBodyPrints()
    ensures PrintLines(WrappingBody(), []) == ["-a", "-b"]
    ensures |OldText(WrappingBody())| == 2 && |NewText(WrappingBody())| == 0
    ensures CountKind(WrappingBody(), Added) == 0 && CountKind(WrappingBody(), Removed) == 2
    ensures Numbered(WrappingBody(), MAX_INT, 0) && CleanTexts(WrappingBody())
  {
    var second := WrappingBody()[1];
    assert WrappingBody()[1..] == [second] && [second][1..] == [];
    assert PrintLine(WrappingBody()[0]) == "-a" && PrintLine(second) == "-b";
    assert PrintLines([], []) == [];
    assert PrintLines([second], []) == ["-b"];
    assert Numbered([second], -MAX_INT - 1, 0);
  }

  lemma RangeClean(start: nat, count: nat)
    ensures Clean(DiffProjection.PatchRange(start, count))
  {
    hide Itoa, Clean;
    DigitsClean(Itoa(start));
    DigitsClean(Itoa(count));
    assert Clean(",") by { CharClean(','); }
    CleanJoin(Itoa(start), ",");
    CleanJoin(Itoa(start) + ",", Itoa(count));
  }

  lemma CharClean(c: char)
    requires c != '\n' && c != '\0'
    ensures Clean([c])
  {
  }

  lemma HunkHeaderClean(oldStart: nat, oldCount: nat, newStart: nat, newCount: nat)
    ensures Clean(DiffProjection.HunkHeader(oldStart, oldCount, newStart, newCount))
  {
    hide DiffProjection.PatchRange, Clean;
    var old', new' := DiffProjection.PatchRange(oldStart, oldCount), DiffProjection.PatchRange(newStart, newCount);
    RangeClean(oldStart, oldCount);
    RangeClean(newStart, newCount);
    HeaderTextsClean();
    CleanJoin("@@ -", old');
    CleanJoin("@@ -" + old', " +");
    CleanJoin("@@ -" + old' + " +", new');
    CleanJoin("@@ -" + old' + " +" + new', " @@");
  }

  lemma HeaderTextsClean()
    ensures Clean("@@ -") && Clean(" +") && Clean(" @@")
  {
  }

  lemma DigitsClean(s: string)
    requires AllDigits(s)
    ensures Clean(s)
  {
  }

  lemma WrappingHunkWellFormed()
    ensures WellFormedHunk(WrappingHunk())
  {
    hide DiffProjection.HunkHeader, HeaderRanges, OldText, NewText, Numbered, CleanTexts, CountKind;
    var header := DiffProjection.HunkHeader(MAX_INT, 2, 0, 0);
    HeaderReads(MAX_INT, 2, 0, 0, "");
    assert header + "" == header;
    HunkHeaderClean(MAX_INT, 2, 0, 0);
    WrappingBodyPrints();
  }

  lemma WrappingPatchPrints(path: string)
    ensures PatchText([WrappingFile(path)], [Plain(FileModified)]) == WrappingPatch(path)
  {
    hide DiffProjection.HunkHeader, Join, PrintLines, DiffHeader, OldHeader, NewHeader;
    var file, header, d := WrappingFile(path), DiffProjection.HunkHeader(MAX_INT, 2, 0, 0), Plain(FileModified);
    var o, n := OldHeader(path, FileModified), NewHeader(path, FileModified);
    WrappingBodyPrints();
    assert [WrappingHunk()][1..] == [] && [file][1..] == [] && [d][1..] == [];
    assert PrintHunks([], []) == [] && PrintFiles([], []) == [];
    assert PrintHunks([WrappingHunk()], []) == [header, "-a", "-b"];
    assert o + "" == o && n + "" == n;
    assert PrintFile(file, d) == [DiffHeader(path), o, n, header, "-a", "-b"];
    assert PrintFiles([file], [d]) == PrintFile(file, d);
  }

  /** The wrap-around is reachable: this patch is accepted, and its second line has a negative number. */
  lemma LineNumbersMayWrap(path: string, lib: Library)
    requires path != "" && Clean(path) && lib.allows(path) && lib.valid(WrappingPatch(path))
    ensures Parsed(WrappingPatch(path), lib) == Ok([WrappingFile(path)])
    ensures WrappingFile(path).lines[1].oldLine == -MAX_INT - 1
  {
    hide WellFormedHunk, Parsed, DiffProjection.HunkHeader, PatchText, WrappingPatch;
    var file := WrappingFile(path);
    WrappingBodyPrints();
    WrappingHunkWellFormed();
    assert [WrappingHunk()][1..] == [] && WrappingBody() + [] == WrappingBody();
    assert HunkLines([WrappingHunk()]) == WrappingBody();
    assert !WholeFile(file);
    WrappingPatchPrints(path);
    assert Fits(Plain(FileModified), FileModified, lib);
    ParsingUndoesPrinting([file], [Plain(FileModified)], lib);
  }
}
