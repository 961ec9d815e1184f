/** The tolerant reader, and what it recovers from a stream cut at any byte. */
module ReadRecords {
  import opened Text
  import opened Json
  import opened Canonical
  import opened CanonicalProofs
  import opened JsonParser
  import opened EventStream

  datatype ReadStream = ReadStream(records: seq<Json>, trailingPartialDiscarded: bool)

  /** The zero-based index of the terminated line that failed to parse. */
  datatype ReadError = ReadError(line: nat)

  // ---- What the reader does, as a function ---------------------------------

  /** The pieces between newlines: one more piece than there are newlines. */
  function Split(bytes: string): (pieces: seq<string>)
    ensures pieces != []
  {
    if bytes == [] then [""]
    else if bytes[0] == '\n' then [""] + Split(bytes[1..])
    else
      var more := Split(bytes[1..]);
      [[bytes[0]] + more[0]] + more[1..]
  }

  /** The records of the terminated lines `pieces`, the first being line number `line`. */
  function LineRecords(pieces: seq<string>, line: nat): Result<seq<Json>, ReadError> {
    if pieces == [] then Ok([])
    else if pieces[0] == [] then LineRecords(pieces[1..], line + 1)
    else
      match ParseText(pieces[0])
      case None => Err(ReadError(line))
      case Some(v) =>
        match LineRecords(pieces[1..], line + 1)
        case Err(e) => Err(e)
        case Ok(vs) => Ok([v] + vs)
  }

  /** The bytes after the last newline: a record when they parse, else a discarded tail. */
  function TailRecords(tail: string): ReadStream {
    if tail == [] then ReadStream([], false)
    else
      match ParseText(tail)
      case Some(v) => ReadStream([v], false)
      case None => ReadStream([], true)
  }

  function ReadPieces(pieces: seq<string>, line: nat): Result<ReadStream, ReadError>
    requires pieces != []
  {
    match LineRecords(pieces[..|pieces| - 1], line)
    case Err(e) => Err(e)
    case Ok(vs) =>
      var tail := TailRecords(pieces[|pieces| - 1]);
      Ok(ReadStream(vs + tail.records, tail.trailingPartialDiscarded))
  }

  function Read(bytes: string): Result<ReadStream, ReadError> {
    ReadPieces(Split(bytes), 0)
  }

  // ---- The reader itself ---------------------------------------------------

  lemma LineRecordsAppend(before: seq<string>, piece: string, line: nat)
    ensures LineRecords(before + [piece], line) ==
            match LineRecords(before, line)
            case Err(e) => Err(e)
            case Ok(vs) =>
              if piece == [] then Ok(vs)
              else match ParseText(piece)
                   case None => Err(ReadError(line + |before|))
                   case Some(v) => Ok(vs + [v])
  {
    hide ParseText;
    if before == [] {
      assert before + [piece] == [piece];
      assert [piece][1..] == [];
      assert LineRecords([], line + 1) == Result<seq<Json>, ReadError>.Ok([]);
      assert forall w: Json :: [w] + [] == [] + [w];
    } else {
      assert (before + [piece])[1..] == before[1..] + [piece];
      LineRecordsAppend(before[1..], piece, line + 1);
      if before[0] != [] && ParseText(before[0]).Some? && LineRecords(before[1..], line + 1).Ok?
          && ParseText(piece).Some? {
        var v, vs, w := ParseText(before[0]).value, LineRecords(before[1..], line + 1).value, ParseText(piece).value;
        assert [v] + (vs + [w]) == ([v] + vs) + [w];
      }
    }
  }

  lemma LineRecordsErrorStays(before: seq<string>, more: seq<string>, line: nat)
    requires LineRecords(before, line).Err?
    ensures LineRecords(before + more, line) == LineRecords(before, line)
  {
    hide ParseText;
    assert (before + more)[1..] == before[1..] + more;
    if before[0] == [] || ParseText(before[0]).Some? {
      LineRecordsErrorStays(before[1..], more, line + 1);
    }
  }

  method ReadRecords(bytes: string) returns (r: Result<ReadStream, ReadError>)
    ensures r == Read(bytes)
  {
    var segments := Split(bytes);
    var tail := segments[|segments| - 1];
    segments := segments[..|segments| - 1];
    var records: seq<Json> := [];
    for i := 0 to |segments|
      invariant LineRecords(segments[..i], 0) == Result<seq<Json>, ReadError>.Ok(records)
    {
      assert segments[..i + 1] == segments[..i] + [segments[i]];
      LineRecordsAppend(segments[..i], segments[i], 0);
      if segments[i] != [] {
        match ParseText(segments[i])
        case Some(v) => records := records + [v];
        case None =>
          assert segments == segments[..i + 1] + segments[i + 1..];
          LineRecordsErrorStays(segments[..i + 1], segments[i + 1..], 0);
          return Err(ReadError(i));
      }
    }
    assert segments[..|segments|] == segments;
    assert records + [] == records;
    var trailingPartialDiscarded := false;
    if tail != [] {
      match ParseText(tail)
      case Some(v) => records := records + [v];
      case None => trailingPartialDiscarded := true;
    }
    return Ok(ReadStream(records, trailingPartialDiscarded));
  }

  // ---- Cutting a stream at any byte ----------------------------------------

  predicate AllObjects(vs: seq<Json>) {
    forall v <- vs :: v.JObj?
  }

  /** The bytes of a stream: one line per record. */
  function StreamOf(vs: seq<Json>): string {
    if vs == [] then [] else LineOf(vs[0]) + StreamOf(vs[1..])
  }

  /** How many bytes of the stream come before record `i`. */
  function StartOf(vs: seq<Json>, i: nat): nat
    requires i <= |vs|
  {
    |StreamOf(vs[..i])|
  }

  /** Where the JSON text of record `i` ends: its newline is the next byte. */
  function TextEnd(vs: seq<Json>, i: nat): nat
    requires i < |vs|
  {
    StartOf(vs, i) + |ValueText(vs[i])|
  }

  /** `k` counts the JSON texts wholly present in the first `n` bytes. */
  predicate WhollyPresent(vs: seq<Json>, n: nat, k: nat) {
    && k <= |vs|
    && (forall i :: 0 <= i < k ==> TextEnd(vs, i) <= n)
    && (forall i :: k <= i < |vs| ==> n < TextEnd(vs, i))
  }

  /** The cut lies strictly inside some record's text. */
  predicate CutsInside(vs: seq<Json>, n: nat) {
    exists i :: 0 <= i < |vs| && StartOf(vs, i) < n < TextEnd(vs, i)
  }

  lemma SplitLine(line: string, rest: string)
    requires '\n' !in line
    ensures Split(line + "\n" + rest) == [line] + Split(rest)
    ensures Split(line) == [line]
  {
    if line == [] {
      assert line + "\n" + rest == "\n" + rest;
      assert ("\n" + rest)[1..] == rest;
    } else {
      SplitLine(line[1..], rest);
      assert (line + "\n" + rest)[1..] == line[1..] + "\n" + rest;
      assert [line[0]] + line[1..] == line;
    }
  }

  lemma NoNewline(v: Json)
    ensures '\n' !in ValueText(v)
  {
    ValueTextIsPrintable(v);
    forall c | c in ValueText(v) ensures c != '\n' { assert c as int >= 0x20; }
  }

  /** A leading whole line contributes its record and nothing else. */
  lemma ReadLine(v: Json, bytes: string, line: nat, vs: seq<Json>, discarded: bool)
    requires v.JObj?
    requires ReadPieces(Split(bytes), line + 1) == Ok(ReadStream(vs, discarded))
    ensures ReadPieces(Split(LineOf(v) + bytes), line) == Ok(ReadStream([v] + vs, discarded))
  {
    hide ParseText, ValueText, TailRecords;
    var text, more := ValueText(v), Split(bytes);
    NoNewline(v);
    ParseUndoesPrint(v);
    SplitLine(text, bytes);
    var pieces := [text] + more;
    assert pieces[..|pieces| - 1] == [text] + more[..|more| - 1];
    assert pieces[..|pieces| - 1][1..] == more[..|more| - 1];
    assert text != [] by { FirstOfValue(v); }
    var before := LineRecords(more[..|more| - 1], line + 1).value;
    assert LineRecords(pieces[..|pieces| - 1], line) == Result<seq<Json>, ReadError>.Ok([v] + before);
    assert [v] + vs == ([v] + before) + TailRecords(more[|more| - 1]).records;
  }

  /** An unterminated cut of one record's text is that record when whole, else discarded. */
  lemma ReadPartial(v: Json, n: nat, line: nat)
    requires v.JObj? && n <= |ValueText(v)|
    ensures var text := ValueText(v);
            ReadPieces(Split(text[..n]), line) ==
            Ok(ReadStream(if n == |text| then [v] else [], 0 < n < |text|))
  {
    hide ParseText, ValueText;
    var text := ValueText(v);
    NoNewline(v);
    SplitLine(text[..n], "");
    FirstOfValue(v);
    assert [text[..n]][..0] == [];
    assert LineRecords([], line) == Result<seq<Json>, ReadError>.Ok([]);
    assert forall w: seq<Json> :: [] + w == w;
    if n == |text| {
      assert text[..n] == text;
      ParseUndoesPrint(v);
    } else {
      NoProperPrefixParses(v, n);
    }
  }

  /** Positions in a stream are positions in its tail, shifted by the first line. */
  lemma Shifted(vs: seq<Json>, i: nat)
    requires 0 < i <= |vs|
    ensures StartOf(vs, i) == |LineOf(vs[0])| + StartOf(vs[1..], i - 1)
    ensures i < |vs| ==> TextEnd(vs, i) == |LineOf(vs[0])| + TextEnd(vs[1..], i - 1)
  {
    hide LineOf, ValueText;
    assert vs[..i][0] == vs[0] && vs[..i][1..] == vs[1..][..i - 1];
  }

  lemma ShiftedCut(vs: seq<Json>, n: nat, k: nat)
    requires vs != [] && n >= |LineOf(vs[0])| && WhollyPresent(vs, n, k)
    ensures k > 0 && WhollyPresent(vs[1..], n - |LineOf(vs[0])|, k - 1)
    ensures CutsInside(vs, n) <==> CutsInside(vs[1..], n - |LineOf(vs[0])|)
  {
    hide ValueText, StreamOf;
    var m := n - |LineOf(vs[0])|;
    StartsAtZero(vs);
    forall i | 0 < i < |vs|
      ensures TextEnd(vs, i) - n == TextEnd(vs[1..], i - 1) - m && StartOf(vs, i) - n == StartOf(vs[1..], i - 1) - m
    {
      Shifted(vs, i);
    }
    assert forall i :: 0 <= i < |vs| - 1 ==> TextEnd(vs, i + 1) - n == TextEnd(vs[1..], i) - m;
    if i :| 0 <= i < |vs| && StartOf(vs, i) < n < TextEnd(vs, i) {
      assert i > 0;
      assert StartOf(vs[1..], i - 1) < m < TextEnd(vs[1..], i - 1);
    }
    if i :| 0 <= i < |vs| - 1 && StartOf(vs[1..], i) < m < TextEnd(vs[1..], i) {
      assert StartOf(vs, i + 1) < n < TextEnd(vs, i + 1);
    }
  }

  lemma StartsAtZero(vs: seq<Json>)
    ensures StartOf(vs, 0) == 0
    ensures vs != [] ==> TextEnd(vs, 0) == |ValueText(vs[0])| == |LineOf(vs[0])| - 1
  {
    assert vs[..0] == [];
  }

  lemma FirstLineCut(vs: seq<Json>, n: nat, k: nat)
    requires vs != [] && n < |LineOf(vs[0])| && WhollyPresent(vs, n, k)
    ensures k == if n == |ValueText(vs[0])| then 1 else 0
    ensures CutsInside(vs, n) <==> 0 < n < |ValueText(vs[0])|
  {
    hide ValueText, StreamOf;
    StartsAtZero(vs);
    forall i | 0 < i < |vs| ensures n < StartOf(vs, i) <= TextEnd(vs, i) { Shifted(vs, i); }
    if 1 < |vs| { assert TextEnd(vs, 1) > n; }
    if 0 < n < |ValueText(vs[0])| { assert StartOf(vs, 0) < n < TextEnd(vs, 0); }
  }

  /** **A kill at any byte loses at most the record being written.** However a stream of
      records is cut, reading succeeds and yields exactly the records whose JSON text is
      wholly present, flagging a discarded tail exactly when the cut is inside a record. */
  lemma {:induction false} CutStreamReads(vs: seq<Json>, n: nat, k: nat, line: nat)
    requires AllObjects(vs) && n <= |StreamOf(vs)| && WhollyPresent(vs, n, k)
    ensures ReadPieces(Split(StreamOf(vs)[..n]), line) == Ok(ReadStream(vs[..k], CutsInside(vs, n)))
  {
    hide ReadPieces, Split, ValueText, WhollyPresent, CutsInside;
    if vs == [] {
      EmptyStreamReads(k, line);
    } else if n >= |LineOf(vs[0])| {
      var m := n - |LineOf(vs[0])|;
      ShiftedCut(vs, n, k);
      KeptIsBounded(vs[1..], m, k - 1);
      CutStreamReads(vs[1..], m, k - 1, line + 1);
      ReadLine(vs[0], StreamOf(vs[1..])[..m], line, vs[1..][..k - 1], CutsInside(vs[1..], m));
      assert StreamOf(vs)[..n] == LineOf(vs[0]) + StreamOf(vs[1..])[..m];
      KeptIsBounded(vs, n, k);
      assert vs[..k] == [vs[0]] + vs[1..][..k - 1];
    } else {
      FirstLineCut(vs, n, k);
      ReadPartial(vs[0], n, line);
      assert StreamOf(vs)[..n] == ValueText(vs[0])[..n];
      assert vs[..k] == if k == 1 then [vs[0]] else [];
    }
  }

  lemma KeptIsBounded(vs: seq<Json>, n: nat, k: nat)
    requires WhollyPresent(vs, n, k)
    ensures k <= |vs|
  {}

  lemma EmptyStreamReads(k: nat, line: nat)
    requires WhollyPresent([], 0, k)
    ensures k == 0 && !CutsInside([], 0)
    ensures ReadPieces(Split(StreamOf([])[..0]), line) == Ok(ReadStream([], false))
  {
    assert Split("") == [""] && [""][..0] == [];
    assert StreamOf([])[..0] == "";
    assert LineRecords([], line) == Result<seq<Json>, ReadError>.Ok([]);
    assert forall w: seq<Json> :: [] + w == w;
  }

  /** Every cut has its count of wholly present texts. */
  function Kept(vs: seq<Json>, n: nat): (k: nat)
    ensures WhollyPresent(vs, n, k)
  {
    if vs == [] then 0
    else if n < |LineOf(vs[0])| then
      KeptInFirst(vs, n);
      if n == |ValueText(vs[0])| then 1 else 0
    else
      KeptAfterFirst(vs, n, Kept(vs[1..], n - |LineOf(vs[0])|));
      1 + Kept(vs[1..], n - |LineOf(vs[0])|)
  }

  lemma KeptInFirst(vs: seq<Json>, n: nat)
    requires vs != [] && n < |LineOf(vs[0])|
    ensures WhollyPresent(vs, n, if n == |ValueText(vs[0])| then 1 else 0)
  {
    hide ValueText, StreamOf;
    StartsAtZero(vs);
    forall i | 0 < i < |vs| ensures n < TextEnd(vs, i) { Shifted(vs, i); }
  }

  lemma KeptAfterFirst(vs: seq<Json>, n: nat, k: nat)
    requires vs != [] && n >= |LineOf(vs[0])| && WhollyPresent(vs[1..], n - |LineOf(vs[0])|, k)
    ensures WhollyPresent(vs, n, k + 1)
  {
    hide ValueText, StreamOf;
    StartsAtZero(vs);
    forall i | 0 < i < |vs| ensures TextEnd(vs, i) - n == TextEnd(vs[1..], i - 1) - (n - |LineOf(vs[0])|) {
      Shifted(vs, i);
    }
  }

  // ---- From the writer's calls to the reader's records ----------------------

  function Joined(lines: seq<string>): string {
    if lines == [] then [] else lines[0] + Joined(lines[1..])
  }

  lemma {:induction false} JoinedLines(vs: seq<Json>)
    ensures Joined(LinesOf(vs)) == StreamOf(vs)
  {
    hide LineOf;
    if vs != [] {
      assert LinesOf(vs)[1..] == LinesOf(vs[1..]);
      JoinedLines(vs[1..]);
    }
  }

  /** **End to end:** after any run of the writer over a sink failing at any calls, and for
      every cut of the bytes the sink accepted, the reader returns exactly the first
      accepted emissions, as many as are wholly present. */
  lemma WriterThenCutThenRead(runId: string, calls: seq<Call>, n: nat)
    requires n <= |Joined(Run(runId, calls).lines)|
    ensures var vs := AcceptedRecords(runId, calls);
            Read(Joined(Run(runId, calls).lines)[..n]) == Ok(ReadStream(vs[..Kept(vs, n)], CutsInside(vs, n)))
  {
    hide Split, ReadPieces, Run, Numbered;
    var vs := AcceptedRecords(runId, calls);
    RunIsGapless(runId, calls);
    JoinedLines(vs);
    CutStreamReads(vs, n, Kept(vs, n), 0);
  }
}
