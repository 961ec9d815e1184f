/** What a failed append may leave behind: harmless while nothing follows it, but the next
    line a writer appends makes the stream unreadable. */
module TornAppends {
  import opened Text
  import opened Json
  import opened Canonical
  import opened CanonicalProofs
  import opened JsonParser
  import opened EventStream
  import opened ReadRecords
  import opened FoldAttempts
  import opened Fold

  // ---- Quotes and brackets -------------------------------------------------

  /** Whether the next byte is inside a string or escaped, and how many brackets are open. */
  datatype Lexed = Lexed(quoted: bool, escaped: bool, depth: int)

  function Out(depth: int): Lexed { Lexed(false, false, depth) }

  function In(depth: int): Lexed { Lexed(true, false, depth) }

  function Lex(a: Lexed, c: char): Lexed {
    if a.escaped then a.(escaped := false)
    else if c == '\\' then a.(escaped := true)
    else if c == '\"' then a.(quoted := !a.quoted)
    else if a.quoted then a
    else if c == '{' || c == '[' then a.(depth := a.depth + 1)
    else if c == '}' || c == ']' then a.(depth := a.depth - 1)
    else a
  }

  function LexAll(a: Lexed, s: string): Lexed
    decreases |s|
  {
    if s == [] then a else LexAll(Lex(a, s[0]), s[1..])
  }

  lemma {:induction false} LexAppend(a: Lexed, s: string, t: string)
    ensures LexAll(a, s + t) == LexAll(LexAll(a, s), t)
    decreases |s|
  {
    hide Lex;
    if s == [] {
      assert s + t == t;
    } else {
      assert (s + t)[1..] == s[1..] + t;
      LexAppend(Lex(a, s[0]), s[1..], t);
    }
  }

  /** Quotes are counted alike inside and outside strings. */
  lemma {:induction false} QuotesFlip(a: Lexed, b: Lexed, s: string)
    requires a.escaped == b.escaped && a.quoted != b.quoted
    ensures LexAll(a, s).quoted != LexAll(b, s).quoted
    decreases |s|
  {
    if s != [] { QuotesFlip(Lex(a, s[0]), Lex(b, s[0]), s[1..]); }
  }

  predicate Fine(a: Lexed, low: int) { low <= a.depth && (a.escaped ==> a.quoted) }

  /** Reading `s` up to `rest` leads from `a` to `b`, never below `low`. */
  predicate Moves(a: Lexed, s: string, b: Lexed, rest: string, low: int) {
    && |rest| <= |s|
    && var n := |s| - |rest|;
    && s[n..] == rest && LexAll(a, s[..n]) == b
    && forall k :: 0 <= k <= n ==> Fine(LexAll(a, s[..k]), low)
  }

  lemma StaysPut(a: Lexed, s: string, low: int)
    requires Fine(a, low)
    ensures Moves(a, s, a, s, low)
  {
    assert s[0..] == s && s[..0] == [];
  }

  lemma MovesOn(a: Lexed, s: string, low: int)
    requires s != [] && Fine(a, low) && Fine(Lex(a, s[0]), low)
    ensures Moves(a, s, Lex(a, s[0]), s[1..], low)
  {
    hide Lex, Fine;
    var one := [s[0]];
    assert s[..0] == [] && s[..1] == one && one[1..] == [];
    assert LexAll(a, s[..0]) == a && LexAll(a, one) == LexAll(Lex(a, s[0]), []) == Lex(a, s[0]);
  }

  lemma MovesThrough(a: Lexed, s: string, b: Lexed, t: string, c: Lexed, rest: string, low: int)
    requires Moves(a, s, b, t, low) && Moves(b, t, c, rest, low)
    ensures Moves(a, s, c, rest, low)
  {
    hide Lex, Fine;
    var m, n := |s| - |t|, |t| - |rest|;
    assert s == s[..m] + t;
    forall k | 0 <= k <= m + n ensures Fine(LexAll(a, s[..k]), low) {
      if m < k {
        assert s[..k] == s[..m] + t[..k - m];
        LexAppend(a, s[..m], t[..k - m]);
      }
    }
    assert s[..m + n] == s[..m] + t[..n] && s[m + n..] == t[n..];
    LexAppend(a, s[..m], t[..n]);
  }

  lemma MovesLower(a: Lexed, s: string, b: Lexed, rest: string, high: int, low: int)
    requires Moves(a, s, b, rest, high) && low <= high
    ensures Moves(a, s, b, rest, low)
  {
    forall k | 0 <= k <= |s| - |rest| ensures Fine(LexAll(a, s[..k]), low) {
      assert Fine(LexAll(a, s[..k]), high);
    }
  }

  predicate IsPlain(c: char) { c !in "\\\"{}[]" }

  lemma {:induction false} PlainMoves(s: string, n: nat, d: int)
    requires n <= |s| && forall i :: 0 <= i < n ==> IsPlain(s[i])
    ensures Moves(Out(d), s, Out(d), s[n..], d)
  {
    hide Moves;
    if n == 0 {
      assert s[0..] == s;
      StaysPut(Out(d), s, d);
    } else {
      assert IsPlain(s[0]);
      MovesOn(Out(d), s, d);
      PlainMoves(s[1..], n - 1, d);
      assert s[1..][n - 1..] == s[n..];
      MovesThrough(Out(d), s, Out(d), s[1..], Out(d), s[n..], d);
    }
  }

  lemma {:induction false} BlankMoves(s: string, d: int)
    ensures Moves(Out(d), s, Out(d), SkipWs(s), d)
  {
    hide Moves;
    if s != [] && IsWhitespace(s[0]) {
      MovesOn(Out(d), s, d);
      BlankMoves(s[1..], d);
      MovesThrough(Out(d), s, Out(d), s[1..], Out(d), SkipWs(s), d);
    } else {
      StaysPut(Out(d), s, d);
    }
  }

  // ---- What is parsed leaves quotes and brackets balanced -------------------

  lemma NumberMoves(s: string, d: int)
    requires ParseNumber(s).Some?
    ensures Moves(Out(d), s, Out(d), ParseNumber(s).value.rest, d)
  {
    hide Moves, Decimal, IntegerEnd;
    if s[0] == '-' {
      var n := IntegerEnd(s[1..]).value;
      forall i | 0 <= i < n + 1 ensures IsPlain(s[i]) { assert i > 0 ==> s[1..][i - 1] == s[i]; }
      PlainMoves(s, n + 1, d);
      assert s[1..][n..] == s[n + 1..];
    } else {
      PlainMoves(s, IntegerEnd(s).value, d);
    }
  }

  lemma LiteralMoves(s: string, name: string, v: Json, d: int)
    requires name != [] && ParseLiteral(s, name, v).Some? && forall c <- name :: IsPlain(c)
    ensures Moves(Out(d), s, Out(d), ParseLiteral(s, name, v).value.rest, d)
  {
    hide Moves, IsPlain;
    forall i | 0 <= i < |name| ensures IsPlain(s[i]) { assert s[..|name|][i] == name[i] && name[i] in name; }
    PlainMoves(s, |name|, d);
  }

  /** Inside a string, bytes that neither close it nor escape. */
  lemma {:induction false} QuotedMoves(s: string, n: nat, d: int)
    requires n <= |s| && forall i :: 0 <= i < n ==> s[i] != '\\' && s[i] != '\"'
    ensures Moves(In(d), s, In(d), s[n..], d)
  {
    hide Moves;
    if n == 0 {
      assert s[0..] == s;
      StaysPut(In(d), s, d);
    } else {
      MovesOn(In(d), s, d);
      QuotedMoves(s[1..], n - 1, d);
      assert s[1..][n - 1..] == s[n..];
      MovesThrough(In(d), s, In(d), s[1..], In(d), s[n..], d);
    }
  }

  lemma Hex4Quoted(s: string)
    requires Hex4(s).Some?
    ensures forall i :: 0 <= i < 4 ==> s[i] != '\\' && s[i] != '\"'
  {}

  /** An escape, its backslash included. */
  lemma EscapeMoves(s: string, d: int)
    requires s != [] && s[0] == '\\' && ParseEscape(s[1..]).Some?
    ensures Moves(In(d), s, In(d), ParseEscape(s[1..]).value.rest, d)
  {
    hide Moves, Hex4, Utf8;
    var t := s[1..];
    var quoted := In(d).(escaped := true);
    MovesOn(In(d), s, d);
    MovesOn(quoted, t, d);
    MovesThrough(In(d), s, quoted, t, In(d), t[1..], d);
    if t[0] == 'u' {
      UnicodeMoves(t, d);
      MovesThrough(In(d), s, In(d), t[1..], In(d), ParseEscape(t).value.rest, d);
    }
  }

  lemma UnicodeMoves(t: string, d: int)
    requires t != [] && ParseUnicodeEscape(t).Some?
    ensures Moves(In(d), t[1..], In(d), ParseUnicodeEscape(t).value.rest, d)
  {
    hide Moves, Hex4, Utf8;
    var quoted := In(d).(escaped := true);
    var u := Hex4(t[1..]).value;
    Hex4Quoted(t[1..]);
    QuotedMoves(t[1..], 4, d);
    assert t[1..][4..] == t[5..];
    if 0xD800 <= u <= 0xDFFF {
      Hex4Quoted(t[7..]);
      MovesOn(In(d), t[5..], d);
      assert t[5..][1..] == t[6..] && t[6..][1..] == t[7..];
      MovesOn(quoted, t[6..], d);
      QuotedMoves(t[7..], 4, d);
      assert t[7..][4..] == t[11..];
      MovesThrough(In(d), t[1..], In(d), t[5..], quoted, t[6..], d);
      MovesThrough(In(d), t[1..], quoted, t[6..], In(d), t[7..], d);
      MovesThrough(In(d), t[1..], In(d), t[7..], In(d), t[11..], d);
    }
  }

  lemma {:induction false} StringMoves(s: string, d: int)
    requires ParseString(s).Some?
    ensures Moves(In(d), s, Out(d), ParseString(s).value.rest, d)
    decreases |s|
  {
    hide Moves, ParseEscape;
    var rest := ParseString(s).value.rest;
    if s[0] == '\"' {
      MovesOn(In(d), s, d);
    } else if s[0] == '\\' {
      var t := ParseEscape(s[1..]).value.rest;
      EscapeMoves(s, d);
      StringMoves(t, d);
      MovesThrough(In(d), s, In(d), t, Out(d), rest, d);
    } else {
      MovesOn(In(d), s, d);
      StringMoves(s[1..], d);
      MovesThrough(In(d), s, In(d), s[1..], Out(d), rest, d);
    }
  }

  /** A string with its opening quote. */
  lemma QuoteMoves(s: string, d: int)
    requires s != [] && s[0] == '\"' && ParseString(s[1..]).Some?
    ensures Moves(Out(d), s, Out(d), ParseString(s[1..]).value.rest, d)
  {
    hide Moves, ParseString;
    MovesOn(Out(d), s, d);
    StringMoves(s[1..], d);
    MovesThrough(Out(d), s, In(d), s[1..], Out(d), ParseString(s[1..]).value.rest, d);
  }

  /** One byte that is neither quote, escape nor bracket, then white space. */
  lemma MarkMoves(s: string, d: int)
    requires s != [] && IsPlain(s[0])
    ensures Moves(Out(d), s, Out(d), s[1..], d) && Moves(Out(d), s, Out(d), SkipWs(s[1..]), d)
  {
    hide Moves, SkipWs;
    MovesOn(Out(d), s, d);
    BlankMoves(s[1..], d);
    MovesThrough(Out(d), s, Out(d), s[1..], Out(d), SkipWs(s[1..]), d);
  }

  function Closing(open: char): char { if open == '{' then '}' else ']' }

  lemma {:induction false} ValueMoves(s: string, d: int)
    requires ParseValue(s).Some?
    ensures Moves(Out(d), s, Out(d), ParseValue(s).value.rest, d)
    decreases |s|, 2
  {
    var t, rest := SkipWs(s), ParseValue(s).value.rest;
    SkippedValue(s);
    BlankMoves(s, d);
    hide Moves, ParseValue, SkipWs;
    if t[0] == '{' || t[0] == '[' {
      BracedMoves(t, d + 1);
      Enclosed(t, rest, d);
    } else {
      ScalarMoves(t, d);
    }
    MovesThrough(Out(d), s, Out(d), t, Out(d), rest, d);
  }

  lemma Enclosed(t: string, rest: string, d: int)
    requires t != [] && (t[0] == '{' || t[0] == '[')
    requires Moves(Out(d + 1), t[1..], Out(d + 1), [Closing(t[0])] + rest, d + 1)
    ensures Moves(Out(d), t, Out(d), rest, d)
  {
    hide Moves;
    var tail := [Closing(t[0])] + rest;
    MovesOn(Out(d), t, d);
    MovesLower(Out(d + 1), t[1..], Out(d + 1), tail, d + 1, d);
    MovesOn(Out(d + 1), tail, d);
    assert tail[1..] == rest;
    MovesThrough(Out(d), t, Out(d + 1), t[1..], Out(d + 1), tail, d);
    MovesThrough(Out(d), t, Out(d + 1), tail, Out(d), rest, d);
  }

  lemma ScalarMoves(t: string, d: int)
    requires t != [] && !IsWhitespace(t[0]) && t[0] != '{' && t[0] != '[' && ParseValue(t).Some?
    ensures Moves(Out(d), t, Out(d), ParseValue(t).value.rest, d)
  {
    hide Moves, ParseNumber, ParseString, ParseMembers, ParseElements, ParseLiteral, SkipWs;
    SkipNothing(t);
    if t[0] == '\"' {
      QuoteMoves(t, d);
    } else if t[0] == 't' {
      LiteralMoves(t, "true", JBool(true), d);
    } else if t[0] == 'f' {
      LiteralMoves(t, "false", JBool(false), d);
    } else if t[0] == 'n' {
      LiteralMoves(t, "null", JNull, d);
    } else {
      NumberMoves(t, d);
    }
  }

  /** Between the brackets of an array or object none of the enclosing ones closes. */
  lemma {:induction false} BracedMoves(t: string, d: int)
    requires t != [] && (t[0] == '{' || t[0] == '[') && ParseValue(t).Some?
    ensures Moves(Out(d), t[1..], Out(d), [Closing(t[0])] + ParseValue(t).value.rest, d)
    decreases |t|, 1
  {
    SkipNothing(t);
    hide Moves, ParseElements, ParseMembers, SkipWs;
    var body, tail := SkipWs(t[1..]), [Closing(t[0])] + ParseValue(t).value.rest;
    BlankMoves(t[1..], d);
    if HasPrefix(body, [Closing(t[0])]) {
      assert body == tail;
    } else {
      if t[0] == '{' { MembersMove(body, map[], d); } else { ElementsMove(body, [], d); }
      MovesThrough(Out(d), t[1..], Out(d), body, Out(d), tail, d);
    }
  }

  lemma HeadAndTail(s: string, c: char)
    requires HasPrefix(s, [c])
    ensures s != [] && s[0] == c && s == [c] + s[1..]
  {}

  lemma {:induction false} ElementsMove(s: string, before: seq<Json>, d: int)
    requires ParseElements(s, before).Some?
    ensures Moves(Out(d), s, Out(d), "]" + ParseElements(s, before).value.rest, d)
    decreases |s|, 3
  {
    hide Moves, ParseValue, SkipWs, HasPrefix;
    var rest := ParseValue(s).value.rest;
    var t := SkipWs(rest);
    ValueMoves(s, d);
    BlankMoves(rest, d);
    MovesThrough(Out(d), s, Out(d), rest, Out(d), t, d);
    if HasPrefix(t, ",") {
      HeadAndTail(t, ',');
      MarkMoves(t, d);
      MovesThrough(Out(d), s, Out(d), t, Out(d), t[1..], d);
      ElementsMove(t[1..], before + [ParseValue(s).value.value], d);
      MovesThrough(Out(d), s, Out(d), t[1..], Out(d), "]" + ParseElements(s, before).value.rest, d);
    } else {
      HeadAndTail(t, ']');
    }
  }

  lemma {:induction false} MembersMove(s: string, before: map<string, Json>, d: int)
    requires ParseMembers(s, before).Some?
    ensures Moves(Out(d), s, Out(d), "}" + ParseMembers(s, before).value.rest, d)
    decreases |s|, 0
  {
    hide Moves, ParseValue, ParseString, SkipWs, HasPrefix;
    HeadAndTail(s, '\"');
    var Parsed(key, afterKey) := ParseString(s[1..]).value;
    var t := SkipWs(afterKey);
    HeadAndTail(t, ':');
    var Parsed(v, afterValue) := ParseValue(t[1..]).value;
    var u := SkipWs(afterValue);
    MemberMoves(s, afterKey, t, afterValue, d) by { ValueMoves(t[1..], d); }
    if HasPrefix(u, ",") {
      HeadAndTail(u, ',');
      MarkMoves(u, d);
      MovesThrough(Out(d), s, Out(d), u, Out(d), SkipWs(u[1..]), d);
      MembersMove(SkipWs(u[1..]), before[key := v], d);
      MovesThrough(Out(d), s, Out(d), SkipWs(u[1..]), Out(d), "}" + ParseMembers(s, before).value.rest, d);
    } else {
      HeadAndTail(u, '}');
    }
  }

  /** From a key's opening quote to what follows its value. */
  lemma MemberMoves(s: string, afterKey: string, t: string, afterValue: string, d: int)
    requires s != [] && s[0] == '\"' && ParseString(s[1..]).Some? && afterKey == ParseString(s[1..]).value.rest
    requires t == SkipWs(afterKey) && t != [] && t[0] == ':' && Moves(Out(d), t[1..], Out(d), afterValue, d)
    ensures Moves(Out(d), s, Out(d), SkipWs(afterValue), d)
  {
    hide Moves, ParseString, SkipWs;
    QuoteMoves(s, d);
    BlankMoves(afterKey, d);
    MarkMoves(t, d);
    BlankMoves(afterValue, d);
    MovesThrough(Out(d), s, Out(d), afterKey, Out(d), t, d);
    MovesThrough(Out(d), s, Out(d), t, Out(d), t[1..], d);
    MovesThrough(Out(d), s, Out(d), t[1..], Out(d), afterValue, d);
    MovesThrough(Out(d), s, Out(d), afterValue, Out(d), SkipWs(afterValue), d);
  }

  // ---- A torn line and the next one ----------------------------------------

  lemma WholeMove(a: Lexed, s: string, b: Lexed, low: int)
    requires Moves(a, s, b, "", low)
    ensures LexAll(a, s) == b
  {
    assert s[..|s|] == s;
  }

  lemma ObjectOpens(v: Json)
    requires v.JObj?
    ensures ValueText(v) != [] && ValueText(v)[0] == '{'
  {}

  lemma ObjectIsBalanced(v: Json, d: int)
    requires v.JObj?
    ensures LexAll(Out(d), ValueText(v)) == Out(d)
  {
    hide Moves, ParseValue, ValueText;
    ReadValue(v, "");
    assert ValueText(v) + "" == ValueText(v);
    ValueMoves(ValueText(v), d);
    WholeMove(Out(d), ValueText(v), Out(d), d);
  }

  /** A part of an object's text leaves a string or a bracket open. */
  lemma PartIsOpen(v: Json, p: string)
    requires v.JObj? && p != [] && p <= ValueText(v) && p != ValueText(v)
    ensures Fine(LexAll(Out(0), p), 1)
  {
    hide ParseValue, ValueText;
    var t := ValueText(v);
    ObjectOpens(v);
    ReadValue(v, "");
    assert t + "" == t;
    BracedMoves(t, 1);
    assert [Closing(t[0])] + "" == [Closing(t[0])];
    assert p[0] == t[0] && p[1..] == t[1..][..|p| - 1];
    assert LexAll(Out(0), p) == LexAll(Out(1), p[1..]);
  }

  lemma QuotedStaysQuoted(v: Json, a: Lexed)
    requires v.JObj? && a.quoted
    ensures LexAll(a, ValueText(v)).quoted
  {
    hide ValueText;
    var t := ValueText(v);
    ObjectOpens(v);
    ObjectIsBalanced(v, 0);
    assert Lex(a, t[0]) == Lex(In(a.depth), t[0]);
    QuotesFlip(Out(0), In(a.depth), t);
  }

  /** No part of a record, nor the whole, followed by another record is a JSON text. */
  lemma TornTextIsRefused(v: Json, w: Json, p: string)
    requires v.JObj? && w.JObj? && p != [] && p <= ValueText(v)
    ensures ParseText(p + ValueText(w)) == None
  {
    hide ParseValue, ValueText, Moves, SkipWs;
    var text, a := p + ValueText(w), LexAll(Out(0), p);
    ObjectOpens(w);
    if p == ValueText(v) {
      ReadValue(v, ValueText(w));
      SkipNothing(ValueText(w));
    } else if ParseValue(text).Some? && SkipWs(ParseValue(text).value.rest) == [] {
      var rest := ParseValue(text).value.rest;
      ValueMoves(text, 0);
      BlankMoves(rest, 0);
      MovesThrough(Out(0), text, Out(0), rest, Out(0), "", 0);
      WholeMove(Out(0), text, Out(0), 0);
      LexAppend(Out(0), p, ValueText(w));
      PartIsOpen(v, p);
      if a.quoted { QuotedStaysQuoted(w, a); } else { ObjectIsBalanced(w, a.depth); }
      assert false;
    }
  }

  // ---- Reading such a stream -----------------------------------------------

  /** A leading whole line only moves the error to the next line. */
  lemma ErrorAfterLine(v: Json, bytes: string, line: nat, at: nat)
    requires v.JObj? && ReadPieces(Split(bytes), line + 1) == Err(ReadError(at))
    ensures ReadPieces(Split(LineOf(v) + bytes), line) == Err(ReadError(at))
  {
    hide ParseText, ValueText, TailRecords, Split;
    var text, more := ValueText(v), Split(bytes);
    NoNewline(v);
    ParseUndoesPrint(v);
    SplitLine(text, bytes);
    var pieces := [text] + more;
    assert pieces[..|pieces| - 1] == [text] + more[..|more| - 1];
    assert pieces[..|pieces| - 1][1..] == more[..|more| - 1];
    FirstOfValue(v);
  }

  lemma RefusedLine(text: string, bytes: string, line: nat)
    requires text != [] && '\n' !in text && ParseText(text) == None
    ensures ReadPieces(Split(text + "\n" + bytes), line) == Err(ReadError(line))
  {
    hide ParseText, Split;
    SplitLine(text, bytes);
    var more := Split(bytes);
    var pieces := [text] + more;
    assert pieces[..|pieces| - 1] == [text] + more[..|more| - 1];
  }

  lemma {:induction false} TornStreamReads(vs: seq<Json>, v: Json, p: string, w: Json, tail: string, line: nat)
    requires AllObjects(vs) && v.JObj? && w.JObj? && p != [] && p <= ValueText(v)
    ensures ReadPieces(Split(StreamOf(vs) + (p + LineOf(w) + tail)), line) == Err(ReadError(line + |vs|))
  {
    hide ReadPieces, Split, ValueText, ParseText;
    var torn := p + LineOf(w) + tail;
    if vs == [] {
      TornTextIsRefused(v, w, p);
      NoNewline(v);
      NoNewline(w);
      assert forall i :: 0 <= i < |p| ==> p[i] == ValueText(v)[i];
      RefusedLine(p + ValueText(w), tail, line);
      assert StreamOf(vs) + torn == p + ValueText(w) + "\n" + tail;
    } else {
      TornStreamReads(vs[1..], v, p, w, tail, line + 1);
      ErrorAfterLine(vs[0], StreamOf(vs[1..]) + torn, line, line + |vs|);
      assert StreamOf(vs) + torn == LineOf(vs[0]) + (StreamOf(vs[1..]) + torn);
    }
  }

  /** **A torn append is fatal once anything follows it.** After any run of the writer, let a
      failed append leave some part of its line behind, its newline excepted, and let the
      writer emit again: the fold refuses the stream at that line, whatever comes after. */
  lemma EmittingAfterATornAppend(runId: string, calls: seq<Call>, torn: Call, next: Call, p: string, tail: string,
          nodes: seq<string>)
    requires torn.Emit? && next.Emit? && p != []
    requires p <= ValueText(RecordOfCall(runId, |Accepted(calls)|, torn))
    ensures var bytes := Joined(Run(runId, calls).lines) +
                         (p + LineOf(RecordOfCall(runId, |Accepted(calls)|, next)) + tail);
            FoldStream(bytes, nodes) == Err(CorruptRecord(|Accepted(calls)|))
  {
    hide Run, Numbered, ValueText, Split, ReadPieces, RecordOf, LineOf, StreamOf, FoldRecords;
    var n, vs := |Accepted(calls)|, AcceptedRecords(runId, calls);
    RunIsGapless(runId, calls);
    JoinedLines(vs);
    RecordIsObject(runId, n, torn);
    RecordIsObject(runId, n, next);
    TornStreamReads(vs, RecordOfCall(runId, n, torn), p, RecordOfCall(runId, n, next), tail, 0);
  }

  lemma RecordIsObject(runId: string, n: nat, c: Call)
    requires c.Emit?
    ensures RecordOfCall(runId, n, c).JObj?
  {}

  /** While nothing follows it, the fold is that of what was accepted, the part discarded. */
  lemma TornAppendAlone(runId: string, calls: seq<Call>, torn: Call, p: string)
    requires torn.Emit? && p != []
    requires p <= ValueText(RecordOfCall(runId, |Accepted(calls)|, torn))
    requires p != ValueText(RecordOfCall(runId, |Accepted(calls)|, torn))
    ensures Read(Joined(Run(runId, calls).lines) + p) == Ok(ReadStream(AcceptedRecords(runId, calls), true))
  {
    hide Run, Numbered, ValueText, Split, ReadPieces, RecordOf, LineOf, StreamOf;
    var vs, v := AcceptedRecords(runId, calls), RecordOfCall(runId, |Accepted(calls)|, torn);
    RunIsGapless(runId, calls);
    JoinedLines(vs);
    RecordIsObject(runId, |Accepted(calls)|, torn);
    TornTail(vs, v, p, 0);
  }

  lemma {:induction false} TornTail(vs: seq<Json>, v: Json, p: string, line: nat)
    requires AllObjects(vs) && v.JObj? && p != [] && p <= ValueText(v) && p != ValueText(v)
    ensures ReadPieces(Split(StreamOf(vs) + p), line) == Ok(ReadStream(vs, true))
  {
    hide ReadPieces, Split, ValueText;
    if vs == [] {
      ReadPartial(v, |p|, line);
      assert StreamOf(vs) + p == ValueText(v)[..|p|];
    } else {
      TornTail(vs[1..], v, p, line + 1);
      ReadLine(vs[0], StreamOf(vs[1..]) + p, line, vs[1..], true);
      assert StreamOf(vs) + p == LineOf(vs[0]) + (StreamOf(vs[1..]) + p);
      assert vs == [vs[0]] + vs[1..];
    }
  }
}
