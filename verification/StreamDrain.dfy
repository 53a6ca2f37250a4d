/**
 Reading a child's output. Decoded events, offsets and end-of-file flags commit together; a stream is
 advanced only from the offset that was read.
 */
module StreamDrain {
  import opened Common

  datatype StreamKind = Stdout | Stderr

  datatype Event = Event(name: string, body: string)

  const STREAM_INVALID := Event("error", "runtime_stream_invalid")

  datatype Decoded = Decoded(consumed: nat, events: seq<Event>) | Malformed

  /** What one line of the protocol stands for: nothing, an event, or an error. */
  type Projection = string -> Result<Option<Event>, ()>

  // ---- Decoding ------------------------------------------------------------------------------

  predicate Complete(text: string) { text == [] || text[|text| - 1] == '\n' }

  function LineEnd(text: string): (n: nat)
    requires text != [] && Complete(text)
    ensures n < |text| && text[n] == '\n' && '\n' !in text[..n]
  {
    if text[0] == '\n' then 0
    else
      var n := LineEnd(text[1..]);
      assert text[..n + 1] == [text[0]] + text[1..][..n];
      n + 1
  }

  function LineEvents(line: string, project: Projection): Option<seq<Event>> {
    if line == [] || '\r' in line then None
    else
      match project(line)
      case Err(_) => None
      case Ok(None) => Some([])
      case Ok(Some(event)) => Some([event])
  }

  /** The events of a text of complete lines; None when a line is malformed. */
  function Records(text: string, project: Projection): Option<seq<Event>>
    requires Complete(text)
    decreases |text|
  {
    if text == [] then Some([])
    else
      var n := LineEnd(text);
      match (LineEvents(text[..n], project), Records(text[n + 1..], project))
      case (Some(first), Some(rest)) => Some(first + rest)
      case _ => None
  }

  function LastLineEnd(data: string): (n: nat)
    ensures n <= |data| && Complete(data[..n]) && '\n' !in data[n..]
  {
    if data == [] then 0 else if data[|data| - 1] == '\n' then |data| else
      var rest := data[..|data| - 1];
      var n := LastLineEnd(rest);
      assert data[n..] == rest[n..] + [data[|data| - 1]] && data[..n] == rest[..n];
      n
  }

  /** Only standard output carries the protocol; diagnostics are consumed as they are. */
  function DecodedAs(kind: StreamKind, data: string, eof: bool, project: Projection): (r: Decoded)
    ensures r.Decoded? ==> r.consumed <= |data| && (eof ==> r.consumed == |data|)
  {
    if kind.Stderr? then Decoded(|data|, [])
    else if eof && !Complete(data) then Malformed
    else
      var consumed := if eof then |data| else LastLineEnd(data);
      assert data[..|data|] == data;
      match Records(data[..consumed], project)
      case None => Malformed
      case Some(events) => Decoded(consumed, events)
  }

  method DecodeEvent(kind: StreamKind, data: string, eof: bool, project: Projection) returns (r: Decoded)
    ensures r == DecodedAs(kind, data, eof, project)
  {
    hide Records, LineEvents;
    NoRecords(project);
    if kind.Stderr? { return Decoded(|data|, []); }
    var consumed := |data|;
    if !eof {
      consumed := LastLineEnd(data);
      if consumed == 0 { return Decoded(0, []); }
    } else if |data| > 0 && data[|data| - 1] != '\n' {
      return Malformed;
    }
    assert data[..|data|] == data;
    var remaining, events: seq<Event> := data[..consumed], [];
    ghost var whole := Records(data[..consumed], project);
    JoinedTwice(whole, None, None);
    while |remaining| > 0
      invariant Complete(remaining)
      invariant whole == Joined(Some(events), Records(remaining, project))
    {
      RecordsFrom(remaining, project);
      var newline := LineEnd(remaining);
      var line := LineEvents(remaining[..newline], project);
      if line.None? { return Malformed; }
      JoinedTwice(Some(events), line, Records(remaining[newline + 1..], project));
      remaining, events := remaining[newline + 1..], events + line.value;
    }
    JoinedTwice(Some(events), None, None);
    r := Decoded(consumed, events);
  }

  lemma RecordsFrom(text: string, project: Projection)
    requires text != [] && Complete(text)
    ensures var n := LineEnd(text);
            Complete(text[n + 1..]) &&
            Records(text, project) == Joined(LineEvents(text[..n], project), Records(text[n + 1..], project))
  {
  }

  lemma NoRecords(project: Projection)
    ensures Records([], project) == Some([])
  {
  }

  function Joined(a: Option<seq<Event>>, b: Option<seq<Event>>): Option<seq<Event>> {
    match (a, b) case (Some(x), Some(y)) => Some(x + y) case _ => None
  }

  lemma JoinedTwice(a: Option<seq<Event>>, b: Option<seq<Event>>, c: Option<seq<Event>>)
    ensures Joined(a, Joined(b, c)) == Joined(Joined(a, b), c)
    ensures Joined(Some([]), a) == a && Joined(a, Some([])) == a
  {
    if a.Some? {
      assert [] + a.value == a.value == a.value + [];
      if b.Some? && c.Some? { assert a.value + (b.value + c.value) == a.value + b.value + c.value; }
    }
  }

  lemma {:induction false} RecordsAppend(a: string, b: string, project: Projection)
    requires Complete(a) && Complete(b)
    ensures Complete(a + b) && Records(a + b, project) == Joined(Records(a, project), Records(b, project))
    decreases |a|
  {
    hide Records, LineEvents;
    if a == [] {
      assert a + b == b;
      NoRecords(project);
      JoinedTwice(Records(b, project), None, None);
    } else {
      var n := LineEnd(a);
      var rest := a[n + 1..];
      RecordsFrom(a, project);
      RecordsAppend(rest, b, project);
      RecordsFrom(a + b, project);
      SameLineEnd(a, b);
      assert (a + b)[..n] == a[..n] && (a + b)[n + 1..] == rest + b;
      JoinedTwice(LineEvents(a[..n], project), Records(rest, project), Records(b, project));
    }
  }

  lemma NotBefore(s: string, m: nat, n: nat)
    requires m <= |s| && n < |s| && s[n] == '\n' && '\n' !in s[..m]
    ensures m <= n
  {
    assert forall i :: 0 <= i < m ==> s[i] in s[..m];
  }

  lemma SameLineEnd(a: string, b: string)
    requires a != [] && Complete(a) && Complete(b)
    ensures Complete(a + b) && LineEnd(a + b) == LineEnd(a)
  {
    var m, n := LineEnd(a + b), LineEnd(a);
    assert (a + b)[..n] == a[..n];
    NotBefore(a + b, m, n);
    NotBefore(a + b, n, m);
  }

  // ---- What is decoded -----------------------------------------------------------------------

  /** The lines, each with its line end. */
  function Ended(lines: seq<string>): string { if lines == [] then [] else lines[0] + ['\n'] + Ended(lines[1..]) }

  predicate Unbroken(lines: seq<string>) { forall k :: 0 <= k < |lines| ==> '\n' !in lines[k] }

  /** A line of the protocol: not empty, without a carriage return, and understood. */
  predicate Sound(line: string, project: Projection) { line != [] && '\r' !in line && project(line).Ok? }

  predicate AllSound(lines: seq<string>, project: Projection) { forall k :: 0 <= k < |lines| ==> Sound(lines[k], project) }

  /** The events of the lines that stand for one, in order. */
  function Projected(lines: seq<string>, project: Projection): seq<Event> {
    if lines == [] then []
    else (if project(lines[0]).Ok? && project(lines[0]).value.Some? then [project(lines[0]).value.value] else []) + Projected(lines[1..], project)
  }

  lemma LineEndOf(line: string, rest: string)
    requires '\n' !in line && Complete(rest)
    ensures var text := line + ['\n'] + rest;
            text != [] && Complete(text) && LineEnd(text) == |line| && text[..|line|] == line && text[|line| + 1..] == rest
  {
    var text := line + ['\n'] + rest;
    var n := LineEnd(text);
    assert text[..|line|] == line;
    NotBefore(text, n, |line|);
    NotBefore(text, |line|, n);
  }

  lemma {:induction false} EndedComplete(lines: seq<string>)
    ensures Complete(Ended(lines))
  {
    if lines != [] { EndedComplete(lines[1..]); }
  }

  lemma FirstAndRest(lines: seq<string>, project: Projection)
    requires lines != []
    ensures Unbroken(lines) <==> '\n' !in lines[0] && Unbroken(lines[1..])
    ensures AllSound(lines, project) <==> Sound(lines[0], project) && AllSound(lines[1..], project)
  {
    hide Sound;
    var rest := lines[1..];
    assert forall k :: 0 < k < |lines| ==> lines[k] == rest[k - 1];
    assert forall k :: 0 <= k < |rest| ==> rest[k] == lines[k + 1];
  }

  lemma LineIs(line: string, project: Projection)
    ensures LineEvents(line, project) == if Sound(line, project) then Some(Projected([line], project)) else None
  {
    assert [line][1..] == [] && Projected([], project) == [];
    if project(line).Ok? && project(line).value.Some? {
      var e := project(line).value.value;
      assert Projected([line], project) == [e] + [] == [e];
    }
  }

  lemma ProjectedFirst(lines: seq<string>, project: Projection)
    requires lines != []
    ensures Projected(lines, project) == Projected([lines[0]], project) + Projected(lines[1..], project)
  {
    assert [lines[0]][1..] == [];
  }

  lemma {:induction false} RecordsOfLines(lines: seq<string>, project: Projection)
    requires Unbroken(lines)
    ensures Complete(Ended(lines)) && Records(Ended(lines), project) == if AllSound(lines, project) then Some(Projected(lines, project)) else None
  {
    EndedComplete(lines);
    if lines == [] {
      NoRecords(project);
    } else {
      hide Records, LineEvents, Projected, Sound, AllSound, Unbroken, LineEnd;
      var rest := lines[1..];
      FirstAndRest(lines, project);
      EndedComplete(rest);
      RecordsOfLines(rest, project);
      LineEndOf(lines[0], Ended(rest));
      RecordsFrom(Ended(lines), project);
      LineIs(lines[0], project);
      ProjectedFirst(lines, project);
    }
  }

  lemma LastLineEndOf(text: string, rest: string)
    requires Complete(text) && '\n' !in rest
    ensures LastLineEnd(text + rest) == |text| && (text + rest)[..|text|] == text
  {
    var data := text + rest;
    var n := LastLineEnd(data);
    assert data[..|text|] == text && data[|text|..] == rest;
    NotAfter(data, n, |text|);
    NotAfter(data, |text|, n);
  }

  lemma NotAfter(data: string, n: nat, m: nat)
    requires n <= |data| && m <= |data| && Complete(data[..n]) && '\n' !in data[m..]
    ensures n <= m
  {
    assert forall i :: m <= i < |data| ==> data[i] in data[m..];
    assert forall i :: 0 <= i < n ==> data[..n][i] == data[i];
  }

  /**
   What any bytes of standard output are taken for: nothing but whole lines, all of which must be sound, and
   at the end of the stream no unfinished line.
   */
  lemma DecodingMeans(lines: seq<string>, rest: string, eof: bool, project: Projection)
    requires Unbroken(lines) && '\n' !in rest
    ensures DecodedAs(Stdout, Ended(lines) + rest, eof, project) ==
            if AllSound(lines, project) && (eof ==> rest == []) then Decoded(|Ended(lines)|, Projected(lines, project)) else Malformed
  {
    hide Records, LastLineEnd;
    var data := Ended(lines) + rest;
    RecordsOfLines(lines, project);
    LastLineEndOf(Ended(lines), rest);
    if rest == [] {
      assert data == Ended(lines) == data[..|data|];
    } else {
      assert data[|data| - 1] == rest[|rest| - 1];
    }
  }

  /** Any bytes are whole lines and an unfinished one. */
  lemma {:induction false} Lined(data: string) returns (lines: seq<string>, rest: string)
    ensures Unbroken(lines) && '\n' !in rest && data == Ended(lines) + rest
    decreases |data|
  {
    if '\n' !in data {
      lines, rest := [], data;
    } else {
      var n := FirstLineEnd(data);
      var later, r := Lined(data[n + 1..]);
      lines, rest := [data[..n]] + later, r;
      assert lines[1..] == later;
      assert data == data[..n] + ['\n'] + data[n + 1..];
    }
  }

  function FirstLineEnd(data: string): (n: nat)
    requires '\n' in data
    ensures n < |data| && data[n] == '\n' && '\n' !in data[..n]
  {
    if data[0] == '\n' then 0
    else
      assert data == [data[0]] + data[1..];
      var n := FirstLineEnd(data[1..]);
      assert data[..n + 1] == [data[0]] + data[1..][..n];
      n + 1
  }

  // ---- Pieces --------------------------------------------------------------------------------

  /** One committed reading: the bytes it was given, how many it used, and what they were taken for. */
  datatype Piece = Piece(start: nat, end: nat, eof: bool, decoded: Decoded)

  function Used(p: Piece): nat {
    if p.decoded.Decoded? then p.decoded.consumed else if p.start <= p.end then p.end - p.start else 0
  }

  function Recorded(p: Piece): seq<Event> { if p.decoded.Malformed? then [STREAM_INVALID] else p.decoded.events }

  /** A truthful supervisor hands out bytes of the stream, and reports the end only there. */
  predicate Truthful(p: Piece, kind: StreamKind, text: string, project: Projection) {
    p.start <= p.end <= |text| && (p.eof ==> p.end == |text|) && p.decoded == DecodedAs(kind, text[p.start..p.end], p.eof, project)
  }

  predicate Chain(pieces: seq<Piece>, kind: StreamKind, text: string, project: Projection, from: nat, to: nat,
          eof: bool) {
    if pieces == [] then from == to && !eof
    else
      var p := pieces[0];
      p.start == from && Truthful(p, kind, text, project) &&
      if p.eof then |pieces| == 1 && to == |text| && eof && p.start + Used(p) == to
      else Chain(pieces[1..], kind, text, project, p.start + Used(p), to, eof)
  }

  function RecordedAll(pieces: seq<Piece>): seq<Event> {
    if pieces == [] then [] else Recorded(pieces[0]) + RecordedAll(pieces[1..])
  }

  lemma UsedBounds(p: Piece, kind: StreamKind, text: string, project: Projection)
    requires Truthful(p, kind, text, project)
    ensures p.start + Used(p) <= p.end <= |text| && (p.eof ==> p.start + Used(p) == |text|)
  {
  }

  lemma {:induction false} ChainExtends(pieces: seq<Piece>, p: Piece, kind: StreamKind, text: string,
          project: Projection, from: nat, to: nat)
    requires Chain(pieces, kind, text, project, from, to, false) && p.start == to && Truthful(p, kind, text, project)
    ensures Chain(pieces + [p], kind, text, project, from, to + Used(p), p.eof)
    ensures RecordedAll(pieces + [p]) == RecordedAll(pieces) + Recorded(p)
  {
    hide Truthful;
    UsedBounds(p, kind, text, project);
    if pieces == [] {
      assert [p][1..] == [] && RecordedAll([p]) == Recorded(p) + [];
    } else {
      assert (pieces + [p])[1..] == pieces[1..] + [p];
      ChainExtends(pieces[1..], p, kind, text, project, pieces[0].start + Used(pieces[0]), to);
    }
  }

  lemma {:induction false} ChainBounds(pieces: seq<Piece>, kind: StreamKind, text: string, project: Projection,
          from: nat, to: nat, eof: bool)
    requires Chain(pieces, kind, text, project, from, to, eof) && from <= |text|
    ensures from <= to <= |text| && (eof ==> to == |text|)
  {
    if pieces != [] && !pieces[0].eof { ChainBounds(pieces[1..], kind, text, project, pieces[0].start + Used(pieces[0]), to, eof); }
  }

  /** What the bytes before an offset stand for. */
  function Meaning(kind: StreamKind, text: string, project: Projection): Option<seq<Event>>
    requires Complete(text) || kind.Stderr?
  {
    if kind.Stderr? then Some([]) else Records(text, project)
  }

  predicate NoneMalformed(pieces: seq<Piece>) { forall i :: 0 <= i < |pieces| ==> pieces[i].decoded.Decoded? }

  lemma SliceOfSlice(text: string, a: nat, b: nat, n: nat)
    requires a <= b <= |text| && n <= b - a
    ensures text[a..b][..n] == text[a..a + n]
  {
  }

  lemma PieceMeans(p: Piece, kind: StreamKind, text: string, project: Projection)
    requires Truthful(p, kind, text, project) && p.decoded.Decoded?
    ensures p.start <= p.start + Used(p) <= |text| && (p.eof ==> p.start + Used(p) == p.end == |text|)
    ensures var used := text[p.start..p.start + Used(p)];
            (kind.Stdout? ==> Complete(used)) && Meaning(kind, used, project) == Some(Recorded(p))
  {
    hide Records;
    UsedBounds(p, kind, text, project);
    SliceOfSlice(text, p.start, p.end, Used(p));
    SliceOfSlice(text, p.start, p.end, p.end - p.start);
  }

  lemma MeaningAppend(kind: StreamKind, a: string, b: string, project: Projection)
    requires kind.Stdout? ==> Complete(a) && Complete(b)
    ensures kind.Stdout? ==> Complete(a + b)
    ensures Meaning(kind, a + b, project) == Joined(Meaning(kind, a, project), Meaning(kind, b, project))
  {
    if kind.Stdout? { RecordsAppend(a, b, project); } else { JoinedTwice(Some([]), None, None); }
  }

  /** Whatever the chunking, events recorded without a malformed piece are exactly the decoding of the bytes used. */
  lemma {:induction false} ChainMeans(pieces: seq<Piece>, kind: StreamKind, text: string, project: Projection,
          from: nat, to: nat, eof: bool)
    requires Chain(pieces, kind, text, project, from, to, eof) && from <= |text| && NoneMalformed(pieces)
    ensures from <= to <= |text| && (kind.Stdout? ==> Complete(text[from..to]))
    ensures Meaning(kind, text[from..to], project) == Some(RecordedAll(pieces))
    decreases |pieces|
  {
    hide Truthful, Records;
    if pieces == [] {
      assert text[from..to] == [];
      NoRecords(project);
    } else {
      var p := pieces[0];
      var mid := p.start + Used(p);
      PieceMeans(p, kind, text, project);
      if p.eof {
        assert pieces[1..] == [] && RecordedAll(pieces) == Recorded(p) + [] == Recorded(p);
      } else {
        assert NoneMalformed(pieces[1..]) by { assert forall i :: 0 <= i < |pieces[1..]| ==> pieces[1..][i] == pieces[i + 1]; }
        ChainMeans(pieces[1..], kind, text, project, mid, to, eof);
        assert text[from..to] == text[from..mid] + text[mid..to];
        MeaningAppend(kind, text[from..mid], text[mid..to], project);
      }
    }
  }

  lemma {:induction false} MalformedRecorded(pieces: seq<Piece>)
    requires !NoneMalformed(pieces)
    ensures STREAM_INVALID in RecordedAll(pieces)
  {
    if pieces[0].decoded.Decoded? {
      var i :| 0 <= i < |pieces| && !pieces[i].decoded.Decoded?;
      assert pieces[1..][i - 1] == pieces[i];
      MalformedRecorded(pieces[1..]);
    }
  }

  // ---- The record ----------------------------------------------------------------------------

  datatype Entry = Entry(kind: StreamKind, event: Event)

  datatype Position = Position(offset: nat, eof: bool)

  datatype DrainError = SupervisorFailed | DecoderFailed | LimitExceeded | NoProgress | NotPersisted

  const DRAIN_LIMIT := 10 * 1024 * 1024

  function Of(entries: seq<Entry>, kind: StreamKind): seq<Event> {
    if entries == [] then []
    else
      var last := entries[|entries| - 1];
      Of(entries[..|entries| - 1], kind) + if last.kind == kind then [last.event] else []
  }

  function Tagged(kind: StreamKind, events: seq<Event>): (r: seq<Entry>)
    ensures |r| == |events| && forall i :: 0 <= i < |r| ==> r[i] == Entry(kind, events[i])
  {
    seq(|events|, i requires 0 <= i < |events| => Entry(kind, events[i]))
  }

  lemma {:induction false} OfTagged(entries: seq<Entry>, kind: StreamKind, events: seq<Event>)
    ensures Of(entries + Tagged(kind, events), kind) == Of(entries, kind) + events
    ensures forall other :: other != kind ==> Of(entries + Tagged(kind, events), other) == Of(entries, other)
  {
    if events == [] {
      assert entries + Tagged(kind, events) == entries && Of(entries, kind) + [] == Of(entries, kind);
    } else {
      var n := |events| - 1;
      var longer := entries + Tagged(kind, events);
      OfTagged(entries, kind, events[..n]);
      assert longer[..|longer| - 1] == entries + Tagged(kind, events[..n]) && longer[|longer| - 1] == Entry(kind, events[n]);
      assert events == events[..n] + [events[n]];
    }
  }

  /** The stored part: the events of both streams in one order, and how far each stream was consumed. */
  datatype Ledger = Ledger(positions: map<StreamKind, Position>, entries: seq<Entry>)

  ghost predicate Explains(pieces: map<StreamKind, seq<Piece>>, l: Ledger, kind: StreamKind, text: string,
          project: Projection) {
    kind in l.positions && kind in pieces &&
    Chain(pieces[kind], kind, text, project, 0, l.positions[kind].offset, l.positions[kind].eof) &&
    Of(l.entries, kind) == RecordedAll(pieces[kind])
  }

  function Committed(l: Ledger, kind: StreamKind, p: Piece): Ledger {
    Ledger(l.positions[kind := Position(p.start + Used(p), p.eof)], l.entries + Tagged(kind, Recorded(p)))
  }

  lemma CommitExplained(pieces: map<StreamKind, seq<Piece>>, l: Ledger, kind: StreamKind, p: Piece, text: string,
          project: Projection)
    requires Explains(pieces, l, kind, text, project) && Truthful(p, kind, text, project) && l.positions[kind] == Position(p.start, false)
    ensures Explains(pieces[kind := pieces[kind] + [p]], Committed(l, kind, p), kind, text, project)
    ensures l.positions[kind].offset <= Committed(l, kind, p).positions[kind].offset
  {
    hide Truthful, Chain;
    ChainExtends(pieces[kind], p, kind, text, project, 0, p.start);
    OfTagged(l.entries, kind, Recorded(p));
  }

  lemma CommitLeavesOther(pieces: map<StreamKind, seq<Piece>>, l: Ledger, kind: StreamKind, p: Piece,
          other: StreamKind, text: string, project: Projection)
    requires other != kind && kind in pieces && Explains(pieces, l, other, text, project)
    ensures Explains(pieces[kind := pieces[kind] + [p]], Committed(l, kind, p), other, text, project)
  {
    hide Chain;
    OfTagged(l.entries, kind, Recorded(p));
  }

  /** Of a truthful record, all that is stored about a stream without a malformed piece is the decoding of its first bytes. */
  lemma LedgerMeans(pieces: map<StreamKind, seq<Piece>>, l: Ledger, kind: StreamKind, text: string, project: Projection)
    requires Explains(pieces, l, kind, text, project)
    ensures l.positions[kind].offset <= |text| && (l.positions[kind].eof ==> l.positions[kind].offset == |text|)
    ensures STREAM_INVALID !in Of(l.entries, kind) ==>
              (kind.Stdout? ==> Complete(text[..l.positions[kind].offset])) &&
              Meaning(kind, text[..l.positions[kind].offset], project) == Some(Of(l.entries, kind))
  {
    var at := l.positions[kind];
    ChainBounds(pieces[kind], kind, text, project, 0, at.offset, at.eof);
    if NoneMalformed(pieces[kind]) {
      ChainMeans(pieces[kind], kind, text, project, 0, at.offset, at.eof);
      assert text[0..at.offset] == text[..at.offset];
    } else {
      MalformedRecorded(pieces[kind]);
    }
  }

  /** Two records of the same output agree on every stream both have finished well, however it was cut up. */
  lemma ChunkingDoesNotMatter(pieces: map<StreamKind, seq<Piece>>, l: Ledger, pieces': map<StreamKind, seq<Piece>>,
          l': Ledger,
                              kind: StreamKind, text: string, project: Projection)
    requires Explains(pieces, l, kind, text, project) && Explains(pieces', l', kind, text, project)
    requires l.positions[kind].eof && l'.positions[kind].eof
    requires STREAM_INVALID !in Of(l.entries, kind) && STREAM_INVALID !in Of(l'.entries, kind)
    ensures Of(l.entries, kind) == Of(l'.entries, kind)
  {
    hide Chain, RecordedAll;
    LedgerMeans(pieces, l, kind, text, project);
    LedgerMeans(pieces', l', kind, text, project);
  }

  function After(l: Ledger, kind: StreamKind,
          p: Option<Piece>): Ledger { if p.None? then l else Committed(l, kind, p.value) }

  predicate Stands(l: Ledger, kind: StreamKind, p: Option<Piece>) {
    p.Some? ==> kind in l.positions && l.positions[kind] == Position(p.value.start, false)
  }

  predicate Fits(p: Option<Piece>, kind: StreamKind, text: string, project: Projection) {
    p.Some? ==> Truthful(p.value, kind, text, project)
  }

  /** Only later positions and more events; an ended stream stays as it is. */
  predicate Continues(before: Ledger, after: Ledger) {
    (forall kind :: kind in before.positions ==>
      kind in after.positions && before.positions[kind].offset <= after.positions[kind].offset &&
      (before.positions[kind].eof ==> after.positions[kind] == before.positions[kind])) &&
    before.entries <= after.entries
  }

  lemma ContinuesOn(a: Ledger, b: Ledger, c: Ledger)
    requires Continues(a, b) && Continues(b, c)
    ensures Continues(a, c)
  {
  }

  /** Pieces are only ever added. */
  predicate Grows(before: map<StreamKind, seq<Piece>>, after: map<StreamKind, seq<Piece>>) {
    forall kind :: kind in before ==> kind in after && before[kind] <= after[kind]
  }

  lemma GrowsOn(a: map<StreamKind, seq<Piece>>, b: map<StreamKind, seq<Piece>>, c: map<StreamKind, seq<Piece>>)
    requires Grows(a, b) && Grows(b, c)
    ensures Grows(a, c)
  {
  }

  lemma {:induction false} RecordedTogether(a: seq<Piece>, b: seq<Piece>)
    ensures RecordedAll(a + b) == RecordedAll(a) + RecordedAll(b)
  {
    hide Recorded;
    if a == [] {
      assert a + b == b;
    } else {
      assert (a + b)[1..] == a[1..] + b;
      RecordedTogether(a[1..], b);
      JoinedTwice(Some(Recorded(a[0])), Some(RecordedAll(a[1..])), Some(RecordedAll(b)));
    }
  }

  /** An open chain is its first piece and an open chain from where that ends. */
  lemma ChainFirst(pieces: seq<Piece>, kind: StreamKind, text: string, project: Projection, from: nat, to: nat)
    requires pieces != []
    ensures Chain(pieces, kind, text, project, from, to, false) <==>
              pieces[0].start == from && !pieces[0].eof && Truthful(pieces[0], kind, text, project) &&
              Chain(pieces[1..], kind, text, project, from + Used(pieces[0]), to, false)
  {
    hide Truthful, Used;
  }

  lemma EmptyChain(kind: StreamKind, text: string, project: Projection, from: nat, to: nat)
    ensures Chain([], kind, text, project, from, to, false) ==> from == to
  {
  }

  lemma FirstOfBoth(a: seq<Piece>, b: seq<Piece>)
    ensures a == [] ==> a + b == b
    ensures a != [] ==> (a + b)[1..] == a[1..] + b && (a + b)[0] == a[0]
  {
  }

  lemma {:induction false} ChainSplits(a: seq<Piece>, b: seq<Piece>, kind: StreamKind, text: string, project: Projection,
          from: nat, mid: nat, to: nat)
    requires Chain(a, kind, text, project, from, mid, false) && Chain(a + b, kind, text, project, from, to, false)
    ensures Chain(b, kind, text, project, mid, to, false)
    decreases |a|
  {
    hide Chain, Truthful, Used;
    FirstOfBoth(a, b);
    if a == [] {
      EmptyChain(kind, text, project, from, mid);
    } else {
      ChainFirst(a, kind, text, project, from, mid);
      ChainFirst(a + b, kind, text, project, from, to);
      ChainSplits(a[1..], b, kind, text, project, from + Used(a[0]), mid, to);
    }
  }

  lemma NothingUsed(p: Piece, kind: StreamKind, text: string, project: Projection)
    requires Truthful(p, kind, text, project) && !p.eof && Used(p) == 0
    ensures Recorded(p) == []
  {
    hide Records;
    NoRecords(project);
    assert text[p.start..p.end][..0] == [];
    if p.end == p.start { assert text[p.start..p.end] == []; }
  }

  /** A chain that comes back to where it began recorded nothing. */
  lemma {:induction false} StandingStill(pieces: seq<Piece>, kind: StreamKind, text: string, project: Projection, at: nat)
    requires Chain(pieces, kind, text, project, at, at, false) && at <= |text|
    ensures RecordedAll(pieces) == []
  {
    hide Truthful, Recorded, Used;
    if pieces != [] {
      var p := pieces[0];
      UsedBounds(p, kind, text, project);
      ChainBounds(pieces[1..], kind, text, project, p.start + Used(p), at, false);
      NothingUsed(p, kind, text, project);
      StandingStill(pieces[1..], kind, text, project, at);
    }
  }

  /** As long as a stream keeps its position, nothing is recorded about it. */
  lemma UnmovedUnrecorded(pieces: map<StreamKind, seq<Piece>>, l: Ledger, pieces': map<StreamKind, seq<Piece>>, l': Ledger,
          kind: StreamKind, text: string, project: Projection)
    requires Explains(pieces, l, kind, text, project) && Explains(pieces', l', kind, text, project) && Grows(pieces, pieces')
    requires l.positions[kind] == l'.positions[kind] && !l.positions[kind].eof
    ensures Of(l'.entries, kind) == Of(l.entries, kind)
  {
    hide Chain, Of, RecordedAll;
    var at := l.positions[kind].offset;
    var added := pieces'[kind][|pieces[kind]|..];
    LedgerMeans(pieces, l, kind, text, project);
    assert pieces'[kind] == pieces[kind] + added;
    ChainSplits(pieces[kind], added, kind, text, project, 0, at, at);
    RecordedTogether(pieces[kind], added);
    StandingStill(added, kind, text, project, at);
  }

  function Behind(text: string, at: Position): nat {
    if at.offset > |text| then 0 else |text| - at.offset + if at.eof then 0 else 1
  }

  /** The stored positions and events of one session, beside the output its child produced. */
  class RuntimeRecord {
    const stdout: string
    const stderr: string
    const project: Projection
    var ledger: Ledger
    /** How the stored positions were reached; nothing reads this. */
    ghost var pieces: map<StreamKind, seq<Piece>>

    constructor (stdout: string, stderr: string, project: Projection)
      ensures Valid() && this.stdout == stdout && this.stderr == stderr && this.project == project
      ensures ledger == Ledger(map[Stdout := Position(0, false), Stderr := Position(0, false)], [])
    {
      this.stdout, this.stderr, this.project := stdout, stderr, project;
      ledger := Ledger(map[Stdout := Position(0, false), Stderr := Position(0, false)], []);
      pieces := map[Stdout := [], Stderr := []];
    }

    function Text(kind: StreamKind): string { if kind.Stdout? then stdout else stderr }

    /** Each stream was consumed once, piece by piece, up to its stored position, and nothing else was recorded. */
    ghost predicate Valid()
      reads this
    {
      Explains(pieces, ledger, Stdout, stdout, project) && Explains(pieces, ledger, Stderr, stderr, project)
    }

    /** Bytes not yet consumed, and streams not yet at their end. */
    ghost function Remaining(): nat
      requires Stdout in ledger.positions && Stderr in ledger.positions
      reads this
    {
      Behind(stdout, ledger.positions[Stdout]) + Behind(stderr, ledger.positions[Stderr])
    }

    /** Part of a transaction: the events of a piece and the new position of its stream. */
    method Append(kind: StreamKind, p: Piece)
      requires Valid() && Truthful(p, kind, Text(kind), project) && ledger.positions[kind] == Position(p.start, false)
      modifies this
      ensures Valid() && Continues(old(ledger), ledger) && ledger == Committed(old(ledger), kind, p)
      ensures pieces == old(pieces)[kind := old(pieces)[kind] + [p]]
    {
      hide Truthful, Chain, Of, Recorded, Used;
      var other := if kind.Stdout? then Stderr else Stdout;
      CommitExplained(pieces, ledger, kind, p, Text(kind), project);
      CommitLeavesOther(pieces, ledger, kind, p, other, Text(other), project);
      ledger, pieces := Committed(ledger, kind, p), pieces[kind := pieces[kind] + [p]];
    }

    /** One transaction: it persists everything, or nothing when a stream no longer stands where it was read. */
    method Commit(out: Option<Piece>, err: Option<Piece>) returns (ok: bool, ghost fault: bool)
      requires Valid() && Fits(out, Stdout, stdout, project) && Fits(err, Stderr, stderr, project)
      modifies this
      ensures Valid() && Continues(old(ledger), ledger)
      ensures !ok ==> ledger == old(ledger) && pieces == old(pieces)
      ensures ok <==> !fault && Stands(old(ledger), Stdout, out) && Stands(old(ledger), Stderr, err)
      ensures ok ==> ledger == After(After(old(ledger), Stdout, out), Stderr, err)
      ensures Grows(old(pieces), pieces)
    {
      hide Truthful, Explains, Recorded, Used;
      var fails := *;
      fault := fails;
      if fails || !Stands(ledger, Stdout, out) || !Stands(ledger, Stderr, err) { return false, fails; }
      if out.Some? { Append(Stdout, out.value); }
      label middle:
      if err.Some? { Append(Stderr, err.value); }
      ContinuesOn(old(ledger), old@middle(ledger), ledger);
      ok := true;
    }

    /** Whatever other calls commit meanwhile. */
    method Others()
      requires Valid()
      modifies this
      ensures Valid() && Continues(old(ledger), ledger) && Grows(old(pieces), pieces)
    {
      hide Truthful, Chain, Explains;
      var steps: nat :| true;
      for k := 0 to steps
        invariant Valid() && Continues(old(ledger), ledger) && Grows(old(pieces), pieces)
      {
        var out: Option<Piece>, err: Option<Piece> := *, *;
        if Fits(out, Stdout, stdout, project) && Fits(err, Stderr, stderr, project) {
          label before:
          var ok, _ := Commit(out, err);
          ContinuesOn(old(ledger), old@before(ledger), ledger);
          GrowsOn(old(pieces), old@before(pieces), pieces);
        }
      }
    }

    /** A bounded reading of one stream; malformed output of a dead child is consumed and recorded as such. */
    method ReadStream(kind: StreamKind, offset: nat, tolerant: bool) returns (r: Result<Piece, DrainError>, ghost seen: Piece)
      requires offset <= |Text(kind)|
      ensures Truthful(seen, kind, Text(kind), project) && seen.start == offset
      ensures r == if seen.decoded.Malformed? && !tolerant then Err(DecoderFailed) else Ok(seen)
    {
      var end: nat :| offset <= end <= |Text(kind)|;
      var atEnd := *;
      var eof := atEnd && end == |Text(kind)|;
      var decoded := DecodeEvent(kind, Text(kind)[offset..end], eof, project);
      seen := Piece(offset, end, eof, decoded);
      if decoded.Malformed? && !tolerant { return Err(DecoderFailed), seen; }
      r := Ok(Piece(offset, end, eof, decoded));
    }

    /**
     Reads on from the stored offset of one stream of a running child. Success on a stream not at its end
     means that the bytes read from that offset, decoded without a fault, are what was added to the stream,
     and that nothing else was in the meantime.
     */
    method ConsumeStream(kind: StreamKind, notified: bool)
        returns (r: Result<(), DrainError>, ghost took: Option<Piece>, ghost fault: bool)
      requires Valid()
      modifies this
      ensures Valid() && Continues(old(ledger), ledger)
      ensures old(kind in ledger.positions && ledger.positions[kind].eof) ==> r.Ok? && took.None? && ledger == old(ledger)
      ensures r.Ok? && took.None? ==> old(kind in ledger.positions && ledger.positions[kind].eof)
      ensures r.Ok? && took.Some? ==> Added(old(ledger), ledger, kind, took.value) && took.value.decoded.Decoded?
      ensures took.Some? ==> Truthful(took.value, kind, Text(kind), project)
      ensures r == Err(SupervisorFailed) ==> !notified || fault
      ensures r == Err(DecoderFailed) ==> took.Some? && took.value.decoded.Malformed? && StoodAt(old(ledger), kind, took.value)
      ensures r == Err(NotPersisted) ==> took.Some? && (fault || !StoodAt(ledger, kind, took.value))
      ensures r != Err(LimitExceeded) && r != Err(NoProgress)
    {
      hide Chain, Of, RecordedAll, Truthful, Explains, Recorded, Used;
      ValidBounds();
      took, fault := None, false;
      var at := ledger.positions[kind];
      if at.eof { return Ok(()), None, false; }
      if !notified { return Err(SupervisorFailed), None, false; }
      var fails := *;
      if fails { return Err(SupervisorFailed), None, true; }
      var piece, seen := ReadStream(kind, at.offset, false);
      if piece.Err? { return Err(piece.error), Some(seen), false; }
      Others();
      label before:
      var ok;
      if kind.Stdout? { ok, fault := Commit(Some(piece.value), None); } else { ok, fault := Commit(None, Some(piece.value)); }
      ContinuesOn(old(ledger), old@before(ledger), ledger);
      if !ok { return Err(NotPersisted), Some(piece.value), fault; }
      AddedAfter(old(pieces), old(ledger), old@before(pieces), old@before(ledger), kind, piece.value, Text(kind), project);
      return Ok(()), Some(piece.value), fault;
    }

    lemma ValidBounds()
      requires Valid()
      ensures Stdout in ledger.positions && Stderr in ledger.positions
      ensures forall kind :: kind in ledger.positions ==> ledger.positions[kind].offset <= |Text(kind)|
    {
      hide Chain, Of, RecordedAll, Records, Meaning;
      LedgerMeans(pieces, ledger, Stdout, stdout, project);
      LedgerMeans(pieces, ledger, Stderr, stderr, project);
    }

    /**
     Reads both streams of a dead child to their end. It stops early only because the supervisor failed, or
     because the last readings were too long or brought nothing, or could not be stored where they belong.
     */
    method DrainToEOF() returns (r: Result<(), DrainError>, ghost why: Stop)
      requires Valid()
      modifies this
      ensures Valid() && Continues(old(ledger), ledger)
      ensures r.Ok? <==> why.Ended?
      ensures r.Ok? ==> ledger.positions[Stdout].eof && ledger.positions[Stderr].eof
      ensures r == Err(SupervisorFailed) <==> why.Unreadable?
      ensures r == Err(LimitExceeded) || r == Err(NoProgress) <==> why.Unusable?
      ensures r == Err(NotPersisted) <==> why.Uncommitted?
      ensures why.Unusable? || why.Uncommitted? ==>
                Fits(why.out, Stdout, stdout, project) && Fits(why.err, Stderr, stderr, project) &&
                (why.out.None? ==> ledger.positions[Stdout].eof) && (why.err.None? ==> ledger.positions[Stderr].eof)
      ensures why.Unusable? ==>
                Stands(ledger, Stdout, why.out) && Stands(ledger, Stderr, why.err) &&
                (r == Err(LimitExceeded) <==> Bytes(why.out) + Bytes(why.err) > 10485760) &&
                (r == Err(NoProgress) ==> !Moves(why.out) && !Moves(why.err))
      ensures why.Uncommitted? ==>
                Bytes(why.out) + Bytes(why.err) <= 10485760 && (Moves(why.out) || Moves(why.err)) &&
                (why.fault || !Stands(ledger, Stdout, why.out) || !Stands(ledger, Stderr, why.err))
    {
      hide Explains, Truthful, Recorded, Used;
      ValidBounds();
      while true
        invariant Valid() && Continues(old(ledger), ledger)
        invariant Stdout in ledger.positions && Stderr in ledger.positions
        decreases Remaining()
      {
        ValidBounds();
        ghost var start := ledger;
        var out, err := ledger.positions[Stdout], ledger.positions[Stderr];
        var fails := *;
        if fails { return Err(SupervisorFailed), Unreadable; }
        if out.eof && err.eof { return Ok(()), Ended; }
        var outPiece: Option<Piece>, errPiece: Option<Piece>, total, progress := None, None, 0, false;
        if !out.eof {
          var piece, _ := ReadStream(Stdout, out.offset, true);
          outPiece, total := Some(piece.value), piece.value.end - piece.value.start;
          progress := Used(piece.value) > 0 || piece.value.eof;
        }
        if !err.eof {
          var piece, _ := ReadStream(Stderr, err.offset, true);
          errPiece, total := Some(piece.value), total + (piece.value.end - piece.value.start);
          progress := progress || Used(piece.value) > 0 || piece.value.eof;
        }
        if total > DRAIN_LIMIT { return Err(LimitExceeded), Unusable(outPiece, errPiece); }
        if !progress { return Err(NoProgress), Unusable(outPiece, errPiece); }
        Others();
        label before:
        ghost var middle := ledger;
        var ok, fault := Commit(outPiece, errPiece);
        ContinuesOn(old(ledger), old@before(ledger), ledger);
        if !ok { return Err(NotPersisted), Uncommitted(outPiece, errPiece, fault); }
        ValidBounds();
        Advanced(start, middle, ledger, outPiece, errPiece, stdout, stderr);
        if (out.eof || outPiece.value.eof) && (err.eof || errPiece.value.eof) { return Ok(()), Ended; }
      }
    }
  }

  /** Why a drain ended, with its last readings. */
  datatype Stop = Ended | Unreadable | Unusable(out: Option<Piece>, err: Option<Piece>) | Uncommitted(out: Option<Piece>, err: Option<Piece>, fault: bool)

  function Bytes(p: Option<Piece>): int { if p.Some? then p.value.end - p.value.start else 0 }

  /** The reading uses bytes of its stream or reaches its end. */
  predicate Moves(p: Option<Piece>) { p.Some? && (Used(p.value) > 0 || p.value.eof) }

  predicate StoodAt(l: Ledger, kind: StreamKind, p: Piece) { kind in l.positions && l.positions[kind] == Position(p.start, false) }

  /** The stream stood where the piece begins, now stands where it ends, and gained its events and no others. */
  predicate Added(before: Ledger, after: Ledger, kind: StreamKind, p: Piece) {
    kind in before.positions && before.positions[kind] == Position(p.start, false) &&
    kind in after.positions && after.positions[kind] == Position(p.start + Used(p), p.eof) &&
    Of(after.entries, kind) == Of(before.entries, kind) + Recorded(p)
  }

  lemma AddedAfter(pieces: map<StreamKind, seq<Piece>>, l: Ledger, pieces': map<StreamKind, seq<Piece>>, l': Ledger,
          kind: StreamKind, p: Piece, text: string, project: Projection)
    requires Explains(pieces, l, kind, text, project) && Explains(pieces', l', kind, text, project) && Grows(pieces, pieces')
    requires l.positions[kind] == l'.positions[kind] == Position(p.start, false)
    ensures Added(l, Committed(l', kind, p), kind, p)
  {
    hide Chain, Of, RecordedAll, Recorded, Used;
    UnmovedUnrecorded(pieces, l, pieces', l', kind, text, project);
    OfTagged(l'.entries, kind, Recorded(p));
  }

  /** Progress on a stream brings the end of both nearer. */
  lemma Advanced(start: Ledger, middle: Ledger, after: Ledger, out: Option<Piece>, err: Option<Piece>, stdout: string,
          stderr: string)
    requires Stdout in start.positions && Stderr in start.positions && Continues(start, middle)
    requires Stands(middle, Stdout, out) && Stands(middle, Stderr, err) && after == After(After(middle, Stdout, out), Stderr, err)
    requires after.positions[Stdout].offset <= |stdout| && after.positions[Stderr].offset <= |stderr|
    requires out.None? ==> start.positions[Stdout].eof
    requires err.None? ==> start.positions[Stderr].eof
    requires (out.Some? && (Used(out.value) > 0 || out.value.eof)) || (err.Some? && (Used(err.value) > 0 || err.value.eof))
    ensures Behind(stdout, after.positions[Stdout]) + Behind(stderr, after.positions[Stderr]) <
            Behind(stdout, start.positions[Stdout]) + Behind(stderr, start.positions[Stderr])
  {
    hide Used;
  }
}
