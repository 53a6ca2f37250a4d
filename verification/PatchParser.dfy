/**
 The unified-patch parser. The functions consume lines from the front; the methods are the index
 loops, each proved to return what the function returns for the remaining lines.
 */
module PatchParser {
  import opened Common
  import opened PatchModel
  import opened PatchHeaders
  import opened LegacyProjection
  import DiffProjection

  datatype PatchError =
    | NotText
    | OutsideFile
    | BadDiffHeader(reason: HeaderError)
    | Undeclared(path: string)
    | Repeated(path: string)
    | BinaryPatch
    | ConflictingKind
    | UnsupportedMode
    | UnsupportedIndex
    | UnsupportedMetadata
    | HeadersMismatch
    | OutsideHunk
    | UnprefixedLine
    | BadPrefix
    | CountMismatch
    | NoHunk
    | NoFiles

  /** What the parser is given from elsewhere: UTF-8 validity, field splitting, the writable scope and the diff. */
  datatype Library = Library(valid: string -> bool, fields: string -> seq<string>, allows: string -> bool, diff: Diff)

  datatype Rest<+T> = Rest(value: T, lines: seq<string>)

  const NO_NEWLINE := "\\ No newline at end of file"

  predicate StartsSection(line: string) { HasPrefix(line, "diff --git ") }
  predicate StartsHunk(line: string) { HasPrefix(line, "@@ ") }

  predicate EndsHunks(lines: seq<string>) { lines == [] || StartsSection(lines[0]) }
  predicate EndsBody(lines: seq<string>) { lines == [] || StartsHunk(lines[0]) || StartsSection(lines[0]) }
  predicate EndsMetadata(lines: seq<string>) { lines == [] || HasPrefix(lines[0], "--- ") || StartsSection(lines[0]) }

  // ---- Metadata ------------------------------------------------------------------------------

  function MetadataStep(line: string, kind: FileKind, lib: Library): Result<FileKind, PatchError> {
    if HasPrefix(line, "Binary files ") || HasPrefix(line, "GIT binary patch") then Err(BinaryPatch)
    else if line == "new file mode 100644" then if kind.FileModified? then Ok(FileAdded) else Err(ConflictingKind)
    else if HasPrefix(line, "new file mode ") then Err(UnsupportedMode)
    else if line == "deleted file mode 100644" || line == "deleted file mode 100755" then
      if kind.FileModified? then Ok(FileDeleted) else Err(ConflictingKind)
    else if HasPrefix(line, "deleted file mode ") || HasPrefix(line, "old mode ") || HasPrefix(line, "new mode ") then Err(UnsupportedMode)
    else if HasPrefix(line, "index ") then if SupportedIndex(lib.fields(line)) then Ok(kind) else Err(UnsupportedIndex)
    else Err(UnsupportedMetadata)
  }

  function ParseMetadata(lines: seq<string>, kind: FileKind, lib: Library): (r: Result<Rest<FileKind>, PatchError>)
    ensures r.Ok? ==> |r.value.lines| <= |lines|
  {
    if EndsMetadata(lines) then Ok(Rest(kind, lines))
    else
      match MetadataStep(lines[0], kind, lib)
      case Err(e) => Err(e)
      case Ok(next) => ParseMetadata(lines[1..], next, lib)
  }

  method ScanMetadata(lines: seq<string>, from: nat, lib: Library) returns (r: Result<FileKind, PatchError>, index: nat)
    requires from <= |lines|
    ensures from <= index <= |lines|
    ensures ParseMetadata(lines[from..], FileModified, lib) == if r.Ok? then Ok(Rest(r.value, lines[index..])) else Err(r.error)
  {
    hide MetadataStep, HasPrefix;
    var kind := FileModified;
    index := from;
    while index < |lines| && !HasPrefix(lines[index], "--- ") && !StartsSection(lines[index])
      invariant from <= index <= |lines|
      invariant ParseMetadata(lines[from..], FileModified, lib) == ParseMetadata(lines[index..], kind, lib)
    {
      assert lines[index..][1..] == lines[index + 1..];
      var next := MetadataStep(lines[index], kind, lib);
      if next.Err? { return Err(next.error), index; }
      kind := next.value;
      index := index + 1;
    }
    r := Ok(kind);
  }

  // ---- Hunks ---------------------------------------------------------------------------------

  /** The line of a hunk body that `line` stands for at these two line numbers. */
  function BodyLine(line: string, oldLine: int, newLine: int): Result<PatchLine, PatchError> {
    if line == "" then Err(UnprefixedLine)
    else if line[0] == ' ' then Ok(PatchLine(Context, oldLine, newLine, line[1..]))
    else if line[0] == '-' then Ok(PatchLine(Removed, oldLine, 0, line[1..]))
    else if line[0] == '+' then Ok(PatchLine(Added, 0, newLine, line[1..]))
    else Err(BadPrefix)
  }

  function NextOld(kind: LineKind, oldLine: int): int { if kind.Added? then oldLine else Increment(oldLine) }
  function NextNew(kind: LineKind, newLine: int): int { if kind.Removed? then newLine else Increment(newLine) }

  function ParseBody(lines: seq<string>, oldLine: int, newLine: int): (r: Result<Rest<seq<PatchLine>>, PatchError>)
    ensures r.Ok? ==> |r.value.lines| <= |lines|
  {
    if EndsBody(lines) then Ok(Rest([], lines))
    else if lines[0] == NO_NEWLINE then ParseBody(lines[1..], oldLine, newLine)
    else
      match BodyLine(lines[0], oldLine, newLine)
      case Err(e) => Err(e)
      case Ok(item) =>
        match ParseBody(lines[1..], NextOld(item.kind, oldLine), NextNew(item.kind, newLine))
        case Err(e) => Err(e)
        case Ok(tail) => Ok(Rest([item] + tail.value, tail.lines))
  }

  /** Line counts of the two sides, compared with the header once the body is read. */
  function HunkFrom(header: string, ranges: Ranges, body: seq<PatchLine>): Result<Hunk, PatchError> {
    if |OldText(body)| != ranges.oldCount || |NewText(body)| != ranges.newCount then Err(CountMismatch)
    else Ok(Hunk(header, ranges.oldStart, ranges.oldCount, ranges.newStart, ranges.newCount, body))
  }

  function ParseHunk(lines: seq<string>): (r: Result<Rest<Hunk>, PatchError>)
    requires lines != []
    ensures r.Ok? ==> |r.value.lines| < |lines|
  {
    match HeaderRanges(lines[0])
    case None => Err(OutsideHunk)
    case Some(ranges) =>
      match ParseBody(lines[1..], ranges.oldStart, ranges.newStart)
      case Err(e) => Err(e)
      case Ok(body) =>
        match HunkFrom(lines[0], ranges, body.value)
        case Err(e) => Err(e)
        case Ok(hunk) => Ok(Rest(hunk, body.lines))
  }

  function ParseHunks(lines: seq<string>): (r: Result<Rest<seq<Hunk>>, PatchError>)
    ensures r.Ok? ==> |r.value.lines| <= |lines|
    decreases |lines|
  {
    if EndsHunks(lines) then Ok(Rest([], lines))
    else
      match ParseHunk(lines)
      case Err(e) => Err(e)
      case Ok(first) =>
        match ParseHunks(first.lines)
        case Err(e) => Err(e)
        case Ok(tail) => Ok(Rest([first.value] + tail.value, tail.lines))
  }

  /** What is left to do at `lines` when `done` was read before. */
  function AfterBody(done: seq<PatchLine>,
          tail: Result<Rest<seq<PatchLine>>, PatchError>): Result<Rest<seq<PatchLine>>, PatchError> {
    match tail
    case Err(e) => Err(e)
    case Ok(t) => Ok(Rest(done + t.value, t.lines))
  }

  function AfterHunks(done: seq<Hunk>, tail: Result<Rest<seq<Hunk>>, PatchError>): Result<Rest<seq<Hunk>>, PatchError> {
    match tail
    case Err(e) => Err(e)
    case Ok(t) => Ok(Rest(done + t.value, t.lines))
  }

  lemma BodyStep(lines: seq<string>, index: nat, done: seq<PatchLine>, oldLine: int, newLine: int)
    requires index < |lines| && !EndsBody(lines[index..])
    ensures lines[index] == NO_NEWLINE ==>
              AfterBody(done, ParseBody(lines[index..], oldLine, newLine)) == AfterBody(done, ParseBody(lines[index + 1..], oldLine, newLine))
    ensures lines[index] != NO_NEWLINE && BodyLine(lines[index], oldLine, newLine).Ok? ==>
              var item := BodyLine(lines[index], oldLine, newLine).value;
              AfterBody(done, ParseBody(lines[index..], oldLine, newLine)) ==
              AfterBody(done + [item], ParseBody(lines[index + 1..], NextOld(item.kind, oldLine), NextNew(item.kind, newLine)))
  {
    assert lines[index..][1..] == lines[index + 1..];
    if lines[index] != NO_NEWLINE && BodyLine(lines[index], oldLine, newLine).Ok? {
      var item := BodyLine(lines[index], oldLine, newLine).value;
      var tail := ParseBody(lines[index + 1..], NextOld(item.kind, oldLine), NextNew(item.kind, newLine));
      if tail.Ok? { assert done + ([item] + tail.value.value) == done + [item] + tail.value.value; }
    }
  }

  lemma ItemCounts(done: seq<PatchLine>, item: PatchLine)
    ensures |OldText(done + [item])| == |OldText(done)| + (if item.kind.Added? then 0 else 1)
    ensures |NewText(done + [item])| == |NewText(done)| + (if item.kind.Removed? then 0 else 1)
    ensures forall kind :: CountKind(done + [item], kind) == CountKind(done, kind) + (if item.kind == kind then 1 else 0)
  {
    TextAppend(done, [item]);
    assert [item][1..] == [];
    forall kind
      ensures CountKind(done + [item], kind) == CountKind(done, kind) + (if item.kind == kind then 1 else 0)
    {
      CountKindAppend(done, [item], kind);
    }
  }

  lemma NothingDone(lines: seq<string>, oldLine: int, newLine: int)
    ensures ParseBody(lines, oldLine, newLine) == AfterBody([], ParseBody(lines, oldLine, newLine))
    ensures OldText([]) == [] && NewText([]) == [] && forall kind :: CountKind([], kind) == 0
  {
    var r := ParseBody(lines, oldLine, newLine);
    if r.Ok? { assert [] + r.value.value == r.value.value; }
  }

  lemma BodyEnds(lines: seq<string>, done: seq<PatchLine>, oldLine: int, newLine: int)
    requires EndsBody(lines)
    ensures AfterBody(done, ParseBody(lines, oldLine, newLine)) == Ok(Rest(done, lines))
  {
    assert done + [] == done;
  }

  lemma BodyFails(lines: seq<string>, done: seq<PatchLine>, oldLine: int, newLine: int)
    requires !EndsBody(lines) && lines[0] != NO_NEWLINE && BodyLine(lines[0], oldLine, newLine).Err?
    ensures AfterBody(done, ParseBody(lines, oldLine, newLine)) == Err(BodyLine(lines[0], oldLine, newLine).error)
  {
  }

  method ScanBody(lines: seq<string>, from: nat, oldStart: nat, newStart: nat)
      returns (r: Result<seq<PatchLine>, PatchError>, index: nat, seenOld: nat, seenNew: nat, additions: nat, deletions: nat)
    requires from <= |lines|
    ensures from <= index <= |lines|
    ensures ParseBody(lines[from..], oldStart, newStart) == if r.Ok? then Ok(Rest(r.value, lines[index..])) else Err(r.error)
    ensures r.Ok? ==> seenOld == |OldText(r.value)| && seenNew == |NewText(r.value)|
    ensures r.Ok? ==> additions == CountKind(r.value, Added) && deletions == CountKind(r.value, Removed)
  {
    hide ParseBody, HasPrefix, OldText, NewText, CountKind;
    var body: seq<PatchLine> := [];
    var oldLine, newLine := oldStart as int, newStart as int;
    index, seenOld, seenNew, additions, deletions := from, 0, 0, 0, 0;
    NothingDone(lines[from..], oldLine, newLine);
    while index < |lines| && !StartsHunk(lines[index]) && !StartsSection(lines[index])
      invariant from <= index <= |lines|
      invariant ParseBody(lines[from..], oldStart, newStart) == AfterBody(body, ParseBody(lines[index..], oldLine, newLine))
      invariant seenOld == |OldText(body)| && seenNew == |NewText(body)|
      invariant additions == CountKind(body, Added) && deletions == CountKind(body, Removed)
    {
      BodyStep(lines, index, body, oldLine, newLine);
      var line := lines[index];
      if line == NO_NEWLINE {
        index := index + 1;
        continue;
      }
      if BodyLine(line, oldLine, newLine).Err? { BodyFails(lines[index..], body, oldLine, newLine); }
      if line == "" { return Err(UnprefixedLine), index, 0, 0, 0, 0; }
      var item;
      if line[0] == ' ' {
        item := PatchLine(Context, oldLine, newLine, line[1..]);
        oldLine, newLine, seenOld, seenNew := Increment(oldLine), Increment(newLine), seenOld + 1, seenNew + 1;
      } else if line[0] == '-' {
        item := PatchLine(Removed, oldLine, 0, line[1..]);
        deletions, oldLine, seenOld := deletions + 1, Increment(oldLine), seenOld + 1;
      } else if line[0] == '+' {
        item := PatchLine(Added, 0, newLine, line[1..]);
        additions, newLine, seenNew := additions + 1, Increment(newLine), seenNew + 1;
      } else {
        return Err(BadPrefix), index, 0, 0, 0, 0;
      }
      ItemCounts(body, item);
      body, index := body + [item], index + 1;
    }
    BodyEnds(lines[index..], body, oldLine, newLine);
    r := Ok(body);
  }

  lemma HunksStep(done: seq<Hunk>, hunk: Hunk, lines: seq<string>, next: seq<string>)
    requires !EndsHunks(lines) && ParseHunk(lines) == Ok(Rest(hunk, next))
    ensures AfterHunks(done, ParseHunks(lines)) == AfterHunks(done + [hunk], ParseHunks(next))
  {
    hide ParseHunk, HasPrefix;
    var tail := ParseHunks(next);
    if tail.Ok? { assert done + ([hunk] + tail.value.value) == done + [hunk] + tail.value.value; }
  }

  lemma HunksFail(done: seq<Hunk>, lines: seq<string>)
    requires !EndsHunks(lines) && ParseHunk(lines).Err?
    ensures AfterHunks(done, ParseHunks(lines)) == Err(ParseHunk(lines).error)
  {
  }

  lemma HunksEnd(lines: seq<string>, done: seq<Hunk>)
    requires EndsHunks(lines)
    ensures AfterHunks(done, ParseHunks(lines)) == Ok(Rest(done, lines))
  {
    assert done + [] == done;
  }

  lemma NoHunksDone(lines: seq<string>)
    ensures ParseHunks(lines) == AfterHunks([], ParseHunks(lines))
    ensures HunkLines([]) == [] && forall kind :: CountKind([], kind) == 0
  {
    var r := ParseHunks(lines);
    if r.Ok? { assert [] + r.value.value == r.value.value; }
  }

  method ScanHunks(lines: seq<string>, from: nat) returns (r: Result<seq<Hunk>, PatchError>, index: nat,
          additions: nat, deletions: nat)
    requires from <= |lines|
    ensures from <= index <= |lines|
    ensures ParseHunks(lines[from..]) == if r.Ok? then Ok(Rest(r.value, lines[index..])) else Err(r.error)
    ensures r.Ok? ==> additions == CountKind(HunkLines(r.value), Added) && deletions == CountKind(HunkLines(r.value), Removed)
  {
    hide HasPrefix, HeaderRanges, ParseBody, ParseHunks, HunkLines, CountKind, OldText, NewText;
    var hunks: seq<Hunk> := [];
    index, additions, deletions := from, 0, 0;
    NoHunksDone(lines[from..]);
    while index < |lines| && !StartsSection(lines[index])
      invariant from <= index <= |lines|
      invariant ParseHunks(lines[from..]) == AfterHunks(hunks, ParseHunks(lines[index..]))
      invariant additions == CountKind(HunkLines(hunks), Added) && deletions == CountKind(HunkLines(hunks), Removed)
    {
      if ParseHunk(lines[index..]).Err? { HunksFail(hunks, lines[index..]); }
      var header := lines[index];
      assert lines[index..][1..] == lines[index + 1..];
      var match' := HeaderRanges(header);
      if match'.None? { return Err(OutsideHunk), index, 0, 0; }
      var ranges := match'.value;
      var body, next, seenOld, seenNew, added, removed := ScanBody(lines, index + 1, ranges.oldStart, ranges.newStart);
      if body.Err? { return Err(body.error), next, 0, 0; }
      if seenOld != ranges.oldCount || seenNew != ranges.newCount { return Err(CountMismatch), next, 0, 0; }
      var hunk := Hunk(header, ranges.oldStart, ranges.oldCount, ranges.newStart, ranges.newCount, body.value);
      DiffProjection.LinesExtend(hunks, hunk);
      HunksStep(hunks, hunk, lines[index..], lines[next..]);
      hunks, index, additions, deletions := hunks + [hunk], next, additions + added, deletions + removed;
    }
    HunksEnd(lines[index..], hunks);
    r := Ok(hunks);
  }

  // ---- Files ---------------------------------------------------------------------------------

  function RawFile(path: string, kind: FileKind, hunks: seq<Hunk>): PatchFile {
    var lines := HunkLines(hunks);
    PatchFile(path, kind, CountKind(lines, Added), CountKind(lines, Removed), hunks, lines)
  }

  function ParseFile(lines: seq<string>, seen: set<string>, lib: Library): (r: Result<Rest<PatchFile>, PatchError>)
    requires lines != []
    ensures r.Ok? ==> |r.value.lines| < |lines|
  {
    if !HasPrefix(lines[0], DIFF_PREFIX) then Err(OutsideFile)
    else
      match ParseDiffHeader(lines[0])
      case Err(e) => Err(BadDiffHeader(e))
      case Ok(path) =>
        if !lib.allows(path) then Err(Undeclared(path))
        else if path in seen then Err(Repeated(path))
        else
          match ParseMetadata(lines[1..], FileModified, lib)
          case Err(e) => Err(e)
          case Ok(meta) =>
            if |meta.lines| < 2 || !ValidFileHeaders(meta.lines[0], meta.lines[1], path, meta.value) then Err(HeadersMismatch)
            else
              match ParseHunks(meta.lines[2..])
              case Err(e) => Err(e)
              case Ok(hunks) =>
                if hunks.value == [] || HunkLines(hunks.value) == [] then Err(NoHunk)
                else Ok(Rest(RawFile(path, meta.value, hunks.value), hunks.lines))
  }

  /** The file sections as written, before any of them is rewritten for display. */
  function ParseFiles(lines: seq<string>, seen: set<string>, lib: Library): Result<seq<PatchFile>, PatchError>
    decreases |lines|
  {
    if lines == [] then Ok([])
    else
      match ParseFile(lines, seen, lib)
      case Err(e) => Err(e)
      case Ok(first) =>
        match ParseFiles(first.lines, seen + {first.value.path}, lib)
        case Err(e) => Err(e)
        case Ok(tail) => Ok([first.value] + tail)
  }

  function NormalizedAll(files: seq<PatchFile>, diff: Diff): (r: seq<PatchFile>)
    ensures |r| == |files|
  {
    if files == [] then [] else [Normalized(files[0], diff)] + NormalizedAll(files[1..], diff)
  }

  predicate CompleteText(raw: string, lib: Library) {
    '\0' !in raw && lib.valid(raw) && raw != "" && raw[|raw| - 1] == '\n'
  }

  function Parsed(raw: string, lib: Library): Result<seq<PatchFile>, PatchError> {
    if !CompleteText(raw, lib) then Err(NotText)
    else
      match ParseFiles(Split(raw[..|raw| - 1], '\n'), {}, lib)
      case Err(e) => Err(e)
      case Ok(files) => if files == [] then Err(NoFiles) else Ok(NormalizedAll(files, lib.diff))
  }

  method ScanFile(lines: seq<string>, from: nat, seen: set<string>,
          lib: Library) returns (r: Result<PatchFile, PatchError>, index: nat)
    requires from < |lines|
    ensures from <= index <= |lines| && (r.Ok? ==> from < index)
    ensures ParseFile(lines[from..], seen, lib) == if r.Ok? then Ok(Rest(r.value, lines[index..])) else Err(r.error)
  {
    hide HasPrefix, ParseDiffHeader, ParseMetadata, ParseHunks, ValidFileHeaders, HunkLines, CountKind;
    index := from;
    assert lines[from..][1..] == lines[from + 1..];
    if !HasPrefix(lines[index], DIFF_PREFIX) { return Err(OutsideFile), index; }
    var header := ParseDiffHeader(lines[index]);
    if header.Err? { return Err(BadDiffHeader(header.error)), index; }
    var path := header.value;
    if !lib.allows(path) { return Err(Undeclared(path)), index; }
    if path in seen { return Err(Repeated(path)), index; }
    var kind;
    kind, index := ScanMetadata(lines, index + 1, lib);
    if kind.Err? { return Err(kind.error), index; }
    if index + 1 >= |lines| || !ValidFileHeaders(lines[index], lines[index + 1], path, kind.value) { return Err(HeadersMismatch), index; }
    assert lines[index..][2..] == lines[index + 2..];
    var hunks, next, additions, deletions := ScanHunks(lines, index + 2);
    if hunks.Err? { return Err(hunks.error), next; }
    if hunks.value == [] || HunkLines(hunks.value) == [] { return Err(NoHunk), next; }
    return Ok(PatchFile(path, kind.value, additions, deletions, hunks.value, HunkLines(hunks.value))), next;
  }

  function AfterFiles(done: seq<PatchFile>,
          tail: Result<seq<PatchFile>, PatchError>): Result<seq<PatchFile>, PatchError> {
    match tail
    case Err(e) => Err(e)
    case Ok(t) => Ok(done + t)
  }

  lemma FilesStep(done: seq<PatchFile>, file: PatchFile, lines: seq<string>, next: seq<string>, seen: set<string>,
          lib: Library)
    requires lines != [] && ParseFile(lines, seen, lib) == Ok(Rest(file, next))
    ensures AfterFiles(done, ParseFiles(lines, seen, lib)) == AfterFiles(done + [file], ParseFiles(next, seen + {file.path}, lib))
  {
    var tail := ParseFiles(next, seen + {file.path}, lib);
    if tail.Ok? { assert done + ([file] + tail.value) == done + [file] + tail.value; }
  }

  lemma FilesEnds(done: seq<PatchFile>, seen: set<string>, lib: Library)
    ensures AfterFiles(done, ParseFiles([], seen, lib)) == Ok(done)
  {
    assert done + [] == done;
  }

  lemma NothingParsed(lines: seq<string>, lib: Library)
    ensures AfterFiles([], ParseFiles(lines, {}, lib)) == ParseFiles(lines, {}, lib) && NormalizedAll([], lib.diff) == []
  {
    var r := ParseFiles(lines, {}, lib);
    if r.Ok? { assert [] + r.value == r.value; }
  }

  lemma FilesFail(done: seq<PatchFile>, lines: seq<string>, seen: set<string>, lib: Library)
    requires lines != [] && ParseFile(lines, seen, lib).Err?
    ensures AfterFiles(done, ParseFiles(lines, seen, lib)) == Err(ParseFile(lines, seen, lib).error)
  {
  }

  lemma {:induction false} NormalizedAppend(files: seq<PatchFile>, file: PatchFile, diff: Diff)
    ensures NormalizedAll(files + [file], diff) == NormalizedAll(files, diff) + [Normalized(file, diff)]
  {
    if files == [] {
      assert [file][1..] == [];
    } else {
      assert (files + [file])[1..] == files[1..] + [file];
      NormalizedAppend(files[1..], file, diff);
    }
  }

  method ParseUnifiedPatch(raw: string, lib: Library) returns (r: Result<seq<PatchFile>, PatchError>)
    ensures r == Parsed(raw, lib)
  {
    hide Split, ParseFile, ParseFiles, NormalizedAll, Normalized;
    if '\0' in raw || !lib.valid(raw) || raw == "" || raw[|raw| - 1] != '\n' { return Err(NotText); }
    var lines := Split(raw[..|raw| - 1], '\n');
    var files: seq<PatchFile>, seen: set<string>, index: nat := [], {}, 0;
    ghost var sections: seq<PatchFile> := [];
    assert lines[0..] == lines;
    NothingParsed(lines, lib);
    while index < |lines|
      invariant index <= |lines|
      invariant ParseFiles(lines, {}, lib) == AfterFiles(sections, ParseFiles(lines[index..], seen, lib))
      invariant files == NormalizedAll(sections, lib.diff)
    {
      var file, next := ScanFile(lines, index, seen, lib);
      if file.Err? {
        FilesFail(sections, lines[index..], seen, lib);
        return Err(file.error);
      }
      var shown := NormalizeLegacyWholeFileProjection(file.value, lib.diff);
      FilesStep(sections, file.value, lines[index..], lines[next..], seen, lib);
      NormalizedAppend(sections, file.value, lib.diff);
      sections := sections + [file.value];
      files, seen, index := files + [shown], seen + {file.value.path}, next;
    }
    FilesEnds(sections, seen, lib);
    assert lines[index..] == [];
    if |files| == 0 { return Err(NoFiles); }
    r := Ok(files);
  }
}
