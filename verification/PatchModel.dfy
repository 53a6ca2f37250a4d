/** Text, decimals and the reviewable patch. A string is a sequence of bytes, one `char` per byte. */
module PatchModel {
  import opened Common

  datatype LineKind = Context | Added | Removed

  /** Line numbers are machine integers; a side the line is not on has number 0. */
  datatype PatchLine = PatchLine(kind: LineKind, oldLine: int, newLine: int, text: string)

  datatype Hunk = Hunk(header: string, oldStart: nat, oldCount: nat, newStart: nat, newCount: nat, lines: seq<PatchLine>)

  datatype FileKind = FileAdded | FileModified | FileDeleted

  datatype PatchFile = PatchFile(
    path: string, kind: FileKind, additions: nat, deletions: nat, hunks: seq<Hunk>, lines: seq<PatchLine>)

  const MAX_INT := 0x7fff_ffff_ffff_ffff

  /** `x++` on a 64-bit signed integer. */
  function Increment(x: int): int { if x == MAX_INT then -MAX_INT - 1 else x + 1 }

  // ---- Counting ------------------------------------------------------------------------------

  function OldText(lines: seq<PatchLine>): seq<string> {
    if lines == [] then []
    else (if lines[0].kind.Added? then [] else [lines[0].text]) + OldText(lines[1..])
  }

  function NewText(lines: seq<PatchLine>): seq<string> {
    if lines == [] then []
    else (if lines[0].kind.Removed? then [] else [lines[0].text]) + NewText(lines[1..])
  }

  function CountKind(lines: seq<PatchLine>, kind: LineKind): nat {
    if lines == [] then 0 else (if lines[0].kind == kind then 1 else 0) + CountKind(lines[1..], kind)
  }

  function HunkLines(hunks: seq<Hunk>): seq<PatchLine> {
    if hunks == [] then [] else hunks[0].lines + HunkLines(hunks[1..])
  }

  lemma {:induction false} CountKindAppend(a: seq<PatchLine>, b: seq<PatchLine>, kind: LineKind)
    ensures CountKind(a + b, kind) == CountKind(a, kind) + CountKind(b, kind)
  {
    if a == [] {
      assert a + b == b;
    } else {
      assert (a + b)[1..] == a[1..] + b;
      CountKindAppend(a[1..], b, kind);
    }
  }

  lemma {:induction false} TextAppend(a: seq<PatchLine>, b: seq<PatchLine>)
    ensures OldText(a + b) == OldText(a) + OldText(b)
    ensures NewText(a + b) == NewText(a) + NewText(b)
  {
    if a == [] {
      assert a + b == b;
    } else {
      assert (a + b)[1..] == a[1..] + b && (a + b)[0] == a[0];
      TextAppend(a[1..], b);
      var o := if a[0].kind.Added? then [] else [a[0].text];
      var n := if a[0].kind.Removed? then [] else [a[0].text];
      assert o + (OldText(a[1..]) + OldText(b)) == o + OldText(a[1..]) + OldText(b);
      assert n + (NewText(a[1..]) + NewText(b)) == n + NewText(a[1..]) + NewText(b);
    }
  }

  lemma {:induction false} HunkLinesAppend(hunks: seq<Hunk>, h: Hunk)
    ensures HunkLines(hunks + [h]) == HunkLines(hunks) + h.lines
  {
    if hunks == [] {
      assert HunkLines([h]) == h.lines + HunkLines([]);
    } else {
      assert (hunks + [h])[1..] == hunks[1..] + [h];
      HunkLinesAppend(hunks[1..], h);
    }
  }

  lemma {:induction false} TextLengths(lines: seq<PatchLine>)
    ensures |OldText(lines)| == CountKind(lines, Context) + CountKind(lines, Removed)
    ensures |NewText(lines)| == CountKind(lines, Context) + CountKind(lines, Added)
  {
    if lines != [] { TextLengths(lines[1..]); }
  }

  // ---- Decimals ------------------------------------------------------------------------------

  predicate IsDigit(c: char) { '0' <= c <= '9' }

  predicate AllDigits(s: string) { forall i :: 0 <= i < |s| ==> IsDigit(s[i]) }

  function Digit(d: nat): char
    requires d < 10
  {
    '0' + d as char
  }

  function Itoa(n: nat): (s: string)
    ensures s != [] && AllDigits(s)
  {
    if n < 10 then [Digit(n)] else Itoa(n / 10) + [Digit(n % 10)]
  }

  function DigitValue(s: string): nat
    requires AllDigits(s)
  {
    if s == [] then 0 else 10 * DigitValue(s[..|s| - 1]) + (s[|s| - 1] as int - '0' as int)
  }

  /** Out-of-range numbers come back as the largest integer, and the error is ignored by the parser. */
  function Atoi(s: string): nat
    requires AllDigits(s)
  {
    if DigitValue(s) > MAX_INT then MAX_INT else DigitValue(s)
  }

  lemma {:induction false} ItoaValue(n: nat)
    ensures DigitValue(Itoa(n)) == n
  {
    if n >= 10 {
      ItoaValue(n / 10);
      var s := Itoa(n);
      assert s[..|s| - 1] == Itoa(n / 10);
    }
  }

  // ---- Lines ---------------------------------------------------------------------------------

  predicate HasPrefix(s: string, prefix: string) { prefix <= s }

  function Split(s: string, separator: char): (r: seq<string>)
    ensures r != []
  {
    if s == [] then [[]]
    else
      var rest := Split(s[1..], separator);
      if s[0] == separator then [[]] + rest else [[s[0]] + rest[0]] + rest[1..]
  }

  function Join(lines: seq<string>, separator: char): string
    requires lines != []
  {
    if |lines| == 1 then lines[0] else lines[0] + [separator] + Join(lines[1..], separator)
  }

  lemma {:induction false} SplitPrepend(line: string, rest: string, separator: char)
    requires separator !in line
    ensures Split(line + [separator] + rest, separator) == [line] + Split(rest, separator)
    ensures Split(line, separator) == [line]
  {
    if line == [] {
      assert line + [separator] + rest == [separator] + rest;
      assert ([separator] + rest)[1..] == rest;
    } else {
      var s := line + [separator] + rest;
      SplitPrepend(line[1..], rest, separator);
      assert s[1..] == line[1..] + [separator] + rest;
      assert [line[0]] + line[1..] == line;
    }
  }

  lemma {:induction false} SplitJoin(lines: seq<string>, separator: char)
    requires lines != [] && forall k :: 0 <= k < |lines| ==> separator !in lines[k]
    ensures Split(Join(lines, separator), separator) == lines
  {
    if |lines| == 1 {
      SplitPrepend(lines[0], [], separator);
    } else {
      SplitPrepend(lines[0], Join(lines[1..], separator), separator);
      SplitJoin(lines[1..], separator);
      assert lines == [lines[0]] + lines[1..];
    }
  }

  lemma {:induction false} JoinSplit(s: string, separator: char)
    ensures Join(Split(s, separator), separator) == s
  {
    if s != [] {
      var rest := Split(s[1..], separator);
      JoinSplit(s[1..], separator);
      assert s == [s[0]] + s[1..];
      if s[0] == separator {
        assert ([[]] + rest)[1..] == rest;
        assert Join([[]] + rest, separator) == [] + [separator] + Join(rest, separator);
      } else {
        JoinFirst(s[0], rest, separator);
      }
    }
  }

  lemma JoinFirst(c: char, lines: seq<string>, separator: char)
    requires lines != []
    ensures Join([[c] + lines[0]] + lines[1..], separator) == [c] + Join(lines, separator)
  {
    var longer := [[c] + lines[0]] + lines[1..];
    assert longer[1..] == lines[1..];
    if |lines| > 1 {
      assert [c] + lines[0] + [separator] + Join(lines[1..], separator) == [c] + (lines[0] + [separator] + Join(lines[1..], separator));
    }
  }

  /** A line of a patch holds neither a line break nor a NUL. */
  predicate Clean(s: string) { forall i :: 0 <= i < |s| ==> s[i] != '\n' && s[i] != '\0' }

  lemma {:induction false} SplitClean(s: string)
    requires '\0' !in s
    ensures forall k :: 0 <= k < |Split(s, '\n')| ==> Clean(Split(s, '\n')[k])
  {
    if s != [] {
      SplitClean(s[1..]);
      var rest := Split(s[1..], '\n');
      forall k | 0 <= k < |Split(s, '\n')|
        ensures Clean(Split(s, '\n')[k])
      {
        if k > 0 { assert Split(s, '\n')[k] == (if s[0] == '\n' then rest[k - 1] else rest[k]); }
      }
    }
  }
}
