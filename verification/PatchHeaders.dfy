/** The header lines of a unified patch: file sections, paths, blob identities and hunk ranges. */
module PatchHeaders {
  import opened Common
  import opened PatchModel
  import DiffProjection

  datatype HeaderError = InvalidHeader | RenameOrInvalidPath

  const DIFF_PREFIX := "diff --git a/"
  const MIDDLE := " b/"

  function DiffHeader(path: string): string { DIFF_PREFIX + path + MIDDLE + path }

  /** Only `a/<path> b/<same path>` is accepted, so the separator stands at the midpoint. */
  function ParseDiffHeader(line: string): Result<string, HeaderError> {
    var remainder := if HasPrefix(line, DIFF_PREFIX) then line[|DIFF_PREFIX|..] else line;
    if remainder == line || |remainder| <= |MIDDLE| || (|remainder| - |MIDDLE|) % 2 != 0 then Err(InvalidHeader)
    else
      var separator := (|remainder| - |MIDDLE|) / 2;
      if separator <= 0 || remainder[separator..separator + |MIDDLE|] != MIDDLE then Err(InvalidHeader)
      else
        var oldPath, newPath := remainder[..separator], remainder[separator + |MIDDLE|..];
        if oldPath == "" || oldPath != newPath || '\0' in oldPath then Err(RenameOrInvalidPath) else Ok(oldPath)
  }

  lemma DiffHeaderParts(path: string)
    ensures HasPrefix(DiffHeader(path), DIFF_PREFIX)
    ensures var remainder := DiffHeader(path)[|DIFF_PREFIX|..];
            |remainder| == 2 * |path| + |MIDDLE| && remainder[..|path|] == path &&
            remainder[|path|..|path| + |MIDDLE|] == MIDDLE && remainder[|path| + |MIDDLE|..] == path
  {
    assert DiffHeader(path) == DIFF_PREFIX + (path + MIDDLE + path);
    assert DiffHeader(path)[|DIFF_PREFIX|..] == path + MIDDLE + path;
  }

  lemma DiffHeaderAccepted(path: string)
    requires path != "" && '\0' !in path
    ensures ParseDiffHeader(DiffHeader(path)) == Ok(path)
  {
    hide DiffHeader;
    DiffHeaderParts(path);
  }

  lemma PrefixSplit(line: string, prefix: string)
    requires HasPrefix(line, prefix)
    ensures line == prefix + line[|prefix|..]
  {
  }

  lemma ThreeParts(s: string, a: nat, b: nat)
    requires a <= b <= |s|
    ensures s == s[..a] + s[a..b] + s[b..]
  {
  }

  lemma DiffHeaderIs(path: string)
    ensures DIFF_PREFIX + (path + MIDDLE + path) == DiffHeader(path)
  {
  }

  lemma AcceptedDiffHeader(line: string)
    requires ParseDiffHeader(line).Ok?
    ensures var path := ParseDiffHeader(line).value; line == DiffHeader(path) && path != "" && '\0' !in path
  {
    var path := ParseDiffHeader(line).value;
    var remainder := line[|DIFF_PREFIX|..];
    PrefixSplit(line, DIFF_PREFIX);
    ThreeParts(remainder, |path|, |path| + |MIDDLE|);
    DiffHeaderIs(path);
  }

  /** The split is exact for every path, also one that contains the separator itself. */
  lemma DiffHeaderExact(line: string, path: string)
    ensures ParseDiffHeader(line) == Ok(path) <==> line == DiffHeader(path) && path != "" && '\0' !in path
  {
    if ParseDiffHeader(line) == Ok(path) {
      AcceptedDiffHeader(line);
    } else if line == DiffHeader(path) && path != "" && '\0' !in path {
      DiffHeaderAccepted(path);
    }
  }

  // ---- Paths and blob identities -------------------------------------------------------------

  predicate PathHeaderMatches(header: string, expected: string) {
    header == expected || HasPrefix(header, expected + "\t")
  }

  function OldHeader(path: string, kind: FileKind): string {
    if kind.FileAdded? then "--- /dev/null" else "--- a/" + path
  }

  function NewHeader(path: string, kind: FileKind): string {
    if kind.FileDeleted? then "+++ /dev/null" else "+++ b/" + path
  }

  predicate ValidFileHeaders(oldHeader: string, newHeader: string, path: string, kind: FileKind) {
    PathHeaderMatches(oldHeader, OldHeader(path, kind)) && PathHeaderMatches(newHeader, NewHeader(path, kind))
  }

  predicate HasDots(s: string) { exists i :: 0 <= i && i + 1 < |s| && s[i] == '.' && s[i + 1] == '.' }

  /** `fields` are the blank-separated fields of the line. */
  predicate SupportedIndex(fields: seq<string>) {
    (|fields| == 2 || |fields| == 3) && fields[0] == "index" && HasDots(fields[1]) &&
    (|fields| == 2 || fields[2] == "100644" || fields[2] == "100755")
  }

  // ---- Hunk ranges ---------------------------------------------------------------------------

  datatype Ranges = Ranges(oldStart: nat, oldCount: nat, newStart: nat, newCount: nat)

  datatype Side = Side(start: nat, count: nat, rest: string)

  function DigitRun(s: string): (n: nat)
    ensures n <= |s| && AllDigits(s[..n])
  {
    if s == "" || !IsDigit(s[0]) then 0
    else
      var n := DigitRun(s[1..]);
      assert s[..n + 1] == [s[0]] + s[1..][..n];
      n + 1
  }

  /** `start` or `start,count`; a missing count means 1. */
  function ParseSide(s: string): Option<Side> {
    var n := DigitRun(s);
    var rest := s[n..];
    if n == 0 then None
    else if rest == "" || rest[0] != ',' then Some(Side(Atoi(s[..n]), 1, rest))
    else
      var m := DigitRun(rest[1..]);
      if m == 0 then None else Some(Side(Atoi(s[..n]), Atoi(rest[1..][..m]), rest[1..][m..]))
  }

  /** `@@ -old +new @@`, followed by anything. */
  function HeaderRanges(line: string): Option<Ranges> {
    if !HasPrefix(line, "@@ -") then None
    else
      match ParseSide(line[4..])
      case None => None
      case Some(old') =>
        if !HasPrefix(old'.rest, " +") then None
        else
          match ParseSide(old'.rest[2..])
          case None => None
          case Some(new') =>
            if !HasPrefix(new'.rest, " @@") then None
            else Some(Ranges(old'.start, old'.count, new'.start, new'.count))
  }

  function Clamp(n: nat): nat { if n > MAX_INT then MAX_INT else n }

  lemma {:induction false} DigitRunStops(digits: string, rest: string)
    requires AllDigits(digits) && (rest != "" ==> !IsDigit(rest[0]))
    ensures DigitRun(digits + rest) == |digits|
  {
    if digits == "" {
      assert digits + rest == rest;
    } else {
      DigitRunStops(digits[1..], rest);
      assert (digits + rest)[1..] == digits[1..] + rest;
    }
  }

  lemma AtoiItoa(n: nat)
    ensures Atoi(Itoa(n)) == Clamp(n)
  {
    ItoaValue(n);
  }

  lemma SideReads(start: nat, count: nat, rest: string)
    requires rest != "" && !IsDigit(rest[0]) && rest[0] != ','
    ensures ParseSide(DiffProjection.PatchRange(start, count) + rest) == Some(Side(Clamp(start), Clamp(count), rest))
  {
    hide Itoa, Atoi;
    var first, second := Itoa(start), Itoa(count);
    AtoiItoa(start);
    AtoiItoa(count);
    if count == 1 {
      DigitRunStops(first, rest);
      assert (first + rest)[..|first|] == first && (first + rest)[|first|..] == rest;
    } else {
      var tail := "," + second + rest;
      var whole := first + "," + second + rest;
      assert whole == first + tail;
      DigitRunStops(first, tail);
      assert whole[..|first|] == first && whole[|first|..] == tail && tail[1..] == second + rest;
      DigitRunStops(second, rest);
      assert (second + rest)[..|second|] == second && (second + rest)[|second|..] == rest;
    }
  }

  /** A printed hunk header reads back as its ranges, whatever text follows it. */
  lemma HeaderReads(oldStart: nat, oldCount: nat, newStart: nat, newCount: nat, section: string)
    ensures HeaderRanges(DiffProjection.HunkHeader(oldStart, oldCount, newStart, newCount) + section) ==
            Some(Ranges(Clamp(oldStart), Clamp(oldCount), Clamp(newStart), Clamp(newCount)))
  {
    hide DiffProjection.PatchRange, ParseSide;
    var old', new' := DiffProjection.PatchRange(oldStart, oldCount), DiffProjection.PatchRange(newStart, newCount);
    var line := DiffProjection.HunkHeader(oldStart, oldCount, newStart, newCount) + section;
    var end := " @@" + section;
    var tail := " +" + new' + end;
    assert line == "@@ -" + (old' + tail) && line[4..] == old' + tail;
    SideReads(oldStart, oldCount, tail);
    assert tail[2..] == new' + end;
    SideReads(newStart, newCount, end);
  }

  // ---- Exactly the hunk headers --------------------------------------------------------------

  /** One side as written: digits, and more digits after a comma if the count is given. */
  datatype SideText = SideText(start: string, count: Option<string>)

  predicate Digits(s: string) { s != "" && AllDigits(s) }

  predicate ValidSide(t: SideText) { Digits(t.start) && (t.count.Some? ==> Digits(t.count.value)) }

  function ShowSide(t: SideText): string { t.start + match t.count case None => "" case Some(count) => "," + count }

  function CountOf(t: SideText): nat
    requires ValidSide(t)
  {
    match t.count case None => 1 case Some(count) => Atoi(count)
  }

  function ShowHeader(old': SideText, new': SideText, section: string): string {
    "@@ -" + ShowSide(old') + " +" + ShowSide(new') + " @@" + section
  }

  ghost predicate HeaderOf(line: string, r: Ranges, old': SideText, new': SideText, section: string) {
    ValidSide(old') && ValidSide(new') && line == ShowHeader(old', new', section) &&
    r == Ranges(Atoi(old'.start), CountOf(old'), Atoi(new'.start), CountOf(new'))
  }

  lemma SideParses(t: SideText, rest: string)
    requires ValidSide(t) && rest != "" && !IsDigit(rest[0]) && rest[0] != ','
    ensures ParseSide(ShowSide(t) + rest) == Some(Side(Atoi(t.start), CountOf(t), rest))
  {
    hide Atoi;
    match t.count
    case None =>
      var whole := t.start + rest;
      DigitRunStops(t.start, rest);
      assert ShowSide(t) + rest == whole && whole[..|t.start|] == t.start && whole[|t.start|..] == rest;
    case Some(count) =>
      var tail := "," + count + rest;
      var whole := t.start + tail;
      assert ShowSide(t) + rest == whole;
      DigitRunStops(t.start, tail);
      assert whole[..|t.start|] == t.start && whole[|t.start|..] == tail && tail[1..] == count + rest;
      DigitRunStops(count, rest);
      assert (count + rest)[..|count|] == count && (count + rest)[|count|..] == rest;
  }

  lemma SideShows(s: string) returns (t: SideText)
    requires ParseSide(s).Some?
    ensures ValidSide(t) && s == ShowSide(t) + ParseSide(s).value.rest
    ensures ParseSide(s).value.start == Atoi(t.start) && ParseSide(s).value.count == CountOf(t)
  {
    hide Atoi;
    var n := DigitRun(s);
    var rest := s[n..];
    assert s == s[..n] + rest;
    if rest == "" || rest[0] != ',' {
      t := SideText(s[..n], None);
      assert s[..n] + "" == s[..n];
    } else {
      var m := DigitRun(rest[1..]);
      t := SideText(s[..n], Some(rest[1..][..m]));
      assert rest == "," + rest[1..][..m] + rest[1..][m..];
      assert s == s[..n] + ("," + rest[1..][..m]) + rest[1..][m..];
    }
  }

  /** A line is a hunk header exactly when it is written so; its numbers are the digits', clamped to machine integers. */
  lemma HeaderExact(line: string, r: Ranges)
    ensures HeaderRanges(line) == Some(r) <==> exists old', new', section :: HeaderOf(line, r, old', new', section)
  {
    hide ParseSide, ShowSide, Atoi, ValidSide, CountOf;
    if HeaderRanges(line) == Some(r) {
      var old' := SideShows(line[4..]);
      var first := ParseSide(line[4..]).value;
      var new' := SideShows(first.rest[2..]);
      var second := ParseSide(first.rest[2..]).value;
      var section := second.rest[3..];
      assert line == "@@ -" + line[4..] && first.rest == " +" + first.rest[2..] && second.rest == " @@" + section;
      HeaderJoins(old', new', section, line);
      assert HeaderOf(line, r, old', new', section);
    }
    if old', new', section :| HeaderOf(line, r, old', new', section) {
      var end := " @@" + section;
      var tail := " +" + (ShowSide(new') + end);
      HeaderJoins(old', new', section, "@@ -" + (ShowSide(old') + tail));
      assert line[4..] == ShowSide(old') + tail;
      SideParses(old', tail);
      assert tail[2..] == ShowSide(new') + end;
      SideParses(new', end);
    }
  }

  lemma HeaderJoins(old': SideText, new': SideText, section: string, line: string)
    requires line == "@@ -" + (ShowSide(old') + (" +" + (ShowSide(new') + (" @@" + section))))
    ensures line == ShowHeader(old', new', section)
  {
    hide ShowSide;
  }
}
