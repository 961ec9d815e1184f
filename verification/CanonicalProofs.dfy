/** What the canonical form is for: reading it back gives the value, and no cut of an
    object's text reads as anything. */
module CanonicalProofs {
  import opened Text
  import opened Json
  import opened Canonical
  import opened JsonParser

  // ---- The parser is stable under extension --------------------------------

  /** Whether a parse result is settled whatever bytes follow: only a number that ran to
      the end of the input could still grow. */
  predicate Settled(r: Option<Parsed<Json>>) {
    r.Some? && (r.value.value.JNum? ==> r.value.rest != [])
  }

  function Extended(r: Option<Parsed<Json>>, x: string): Option<Parsed<Json>>
    requires r.Some?
  {
    Some(Parsed(r.value.value, r.value.rest + x))
  }

  lemma SkipWsExtends(s: string, x: string)
    ensures SkipWs(s) != [] ==> SkipWs(s + x) == SkipWs(s) + x
  {
    if s != [] && IsWhitespace(s[0]) {
      assert (s + x)[1..] == s[1..] + x;
      SkipWsExtends(s[1..], x);
    }
  }

  lemma DigitRunExtends(s: string, x: string)
    ensures DigitRun(s) < |s| ==> DigitRun(s + x) == DigitRun(s)
  {
    if s != [] && IsDigit(s[0]) {
      assert (s + x)[1..] == s[1..] + x;
      DigitRunExtends(s[1..], x);
    }
  }

  lemma IntegerEndExtends(t: string, x: string)
    requires IntegerEnd(t).Some? && IntegerEnd(t).value < |t|
    ensures IntegerEnd(t + x) == IntegerEnd(t)
    ensures (t + x)[..IntegerEnd(t).value] == t[..IntegerEnd(t).value]
    ensures (t + x)[IntegerEnd(t).value..] == t[IntegerEnd(t).value..] + x
  {
    DigitRunExtends(t, x);
    var n := IntegerEnd(t).value;
    assert IsDigit((t + x)[0]) && DigitRun(t + x) > 0;
    assert (t + x)[n] == t[n];
  }

  lemma ParseNumberExtends(s: string, x: string)
    requires ParseNumber(s).Some? && ParseNumber(s).value.rest != []
    ensures ParseNumber(s + x) == Extended(ParseNumber(s), x)
  {
    if s[0] == '-' {
      assert (s + x)[1..] == s[1..] + x;
      IntegerEndExtends(s[1..], x);
    } else {
      IntegerEndExtends(s, x);
    }
  }

  lemma Hex4Extends(s: string, x: string)
    requires Hex4(s).Some?
    ensures Hex4(s + x) == Hex4(s)
  {}

  lemma ParseEscapeExtends(s: string, x: string)
    requires ParseEscape(s).Some?
    ensures ParseEscape(s + x) == Some(Parsed(ParseEscape(s).value.value, ParseEscape(s).value.rest + x))
  {
    hide Hex4, Utf8;
    assert (s + x)[1..] == s[1..] + x;
    if s[0] == 'u' {
      Hex4Extends(s[1..], x);
      assert (s + x)[5..] == s[5..] + x;
      var u := Hex4(s[1..]).value;
      if 0xD800 <= u <= 0xDFFF {
        Hex4Extends(s[7..], x);
        assert (s + x)[7..] == s[7..] + x;
        assert (s + x)[11..] == s[11..] + x;
      }
    }
  }

  lemma ParseStringExtends(s: string, x: string)
    requires ParseString(s).Some?
    ensures ParseString(s + x) == Some(Parsed(ParseString(s).value.value, ParseString(s).value.rest + x))
    decreases |s|
  {
    assert (s + x)[1..] == s[1..] + x;
    if s[0] == '\"' {
    } else if s[0] == '\\' {
      ParseEscapeExtends(s[1..], x);
      ParseStringExtends(ParseEscape(s[1..]).value.rest, x);
    } else {
      ParseStringExtends(s[1..], x);
    }
  }

  lemma ParseValueExtends(s: string, x: string)
    requires Settled(ParseValue(s))
    ensures ParseValue(s + x) == Extended(ParseValue(s), x)
    decreases |s|, 1
  {
    SkippedValue(s);
    hide ParseValue, SkipWs;
    var t := SkipWs(s);
    SkipWsExtends(s, x);
    if t[0] == '{' || t[0] == '[' {
      BracketedExtends(t, x);
    } else {
      ScalarExtends(t, x);
    }
    SkippedValue(s + x);
  }

  lemma SkippedValue(s: string)
    ensures var t := SkipWs(s);
            && |t| <= |s| && ParseValue(s) == ParseValue(t)
            && (ParseValue(s).Some? ==> t != [])
            && (t != [] ==> !IsWhitespace(t[0]))
  {
    hide ParseNumber, ParseString, ParseMembers, ParseElements, ParseLiteral;
    SkipStops(s);
  }

  lemma SkipStops(s: string)
    ensures var t := SkipWs(s); (t != [] ==> !IsWhitespace(t[0])) && SkipWs(t) == t && |t| <= |s|
  {
    if s != [] && IsWhitespace(s[0]) { SkipStops(s[1..]); }
  }

  lemma ScalarExtends(t: string, x: string)
    requires t != [] && !IsWhitespace(t[0]) && t[0] != '{' && t[0] != '['
    requires Settled(ParseValue(t))
    ensures ParseValue(t + x) == Extended(ParseValue(t), x)
  {
    hide ParseNumber, ParseString, ParseMembers, ParseElements, ParseLiteral, SkipWs;
    SkipNothing(t);
    SkipNothing(t + x);
    assert (t + x)[1..] == t[1..] + x;
    if t[0] == '\"' {
      ParseStringExtends(t[1..], x);
    } else if t[0] == 't' {
      LiteralExtends(t, "true", JBool(true), x);
    } else if t[0] == 'f' {
      LiteralExtends(t, "false", JBool(false), x);
    } else if t[0] == 'n' {
      LiteralExtends(t, "null", JNull, x);
    } else {
      ParseNumberExtends(t, x);
    }
  }

  lemma BracketedExtends(t: string, x: string)
    requires t != [] && (t[0] == '{' || t[0] == '[') && ParseValue(t).Some?
    ensures ParseValue(t + x) == Extended(ParseValue(t), x)
    decreases |t|, 0
  {
    hide ParseNumber, ParseString, ParseMembers, ParseElements, ParseLiteral;
    assert (t + x)[1..] == t[1..] + x;
    var body := SkipWs(t[1..]);
    SkipWsExtends(t[1..], x);
    assert body != [];
    if t[0] == '{' {
      StartsExtends(body, '}', x);
      if !HasPrefix(body, "}") { ParseMembersExtends(body, map[], x); }
    } else {
      StartsExtends(body, ']', x);
      if !HasPrefix(body, "]") { ParseElementsExtends(body, [], x); }
    }
  }

  lemma LiteralExtends(s: string, name: string, v: Json, x: string)
    requires name != [] && ParseLiteral(s, name, v).Some?
    ensures ParseLiteral(s + x, name, v) == Extended(ParseLiteral(s, name, v), x)
  {
    assert (s + x)[..|name|] == s[..|name|];
    assert (s + x)[|name|..] == s[|name|..] + x;
  }

  lemma StartsExtends(s: string, c: char, x: string)
    requires s != []
    ensures HasPrefix(s + x, [c]) == HasPrefix(s, [c]) == (s[0] == c)
    ensures (s + x)[1..] == s[1..] + x
  {}

  lemma ParseElementsExtends(s: string, before: seq<Json>, x: string)
    requires ParseElements(s, before).Some?
    ensures ParseElements(s + x, before) == Extended(ParseElements(s, before), x)
    decreases |s|, 2
  {
    hide ParseValue, SkipWs;
    var Parsed(v, rest) := ParseValue(s).value;
    var t := SkipWs(rest);
    assert t != [] && rest != [];
    ParseValueExtends(s, x);
    SkipWsExtends(rest, x);
    StartsExtends(t, ',', x);
    StartsExtends(t, ']', x);
    if HasPrefix(t, ",") { ParseElementsExtends(t[1..], before + [v], x); }
  }

  lemma ParseMembersExtends(s: string, before: map<string, Json>, x: string)
    requires ParseMembers(s, before).Some?
    ensures ParseMembers(s + x, before) == Extended(ParseMembers(s, before), x)
    decreases |s|, 0
  {
    hide ParseString, ParseValue;
    StartsExtends(s, '\"', x);
    ParseStringExtends(s[1..], x);
    var Parsed(key, afterKey) := ParseString(s[1..]).value;
    var t := SkipWs(afterKey);
    SkipWsExtends(afterKey, x);
    StartsExtends(t, ':', x);
    var Parsed(v, afterValue) := ParseValue(t[1..]).value;
    var u := SkipWs(afterValue);
    assert u != [] && afterValue != [];
    ParseValueExtends(t[1..], x);
    SkipWsExtends(afterValue, x);
    StartsExtends(u, ',', x);
    StartsExtends(u, '}', x);
    if HasPrefix(u, ",") {
      SkipWsExtends(u[1..], x);
      assert SkipWs(u[1..]) != [];
      ParseMembersExtends(SkipWs(u[1..]), before[key := v], x);
    }
  }

  // ---- Reading back what was written ---------------------------------------

  lemma DecimalAppend(ds: string, d: char)
    requires forall c <- ds :: IsDigit(c)
    requires IsDigit(d)
    ensures Decimal(ds + [d]) == 10 * Decimal(ds) + (d as int - '0' as int)
  {
    assert (ds + [d])[..|ds|] == ds;
  }

  lemma {:induction false} DecimalOfDigits(n: nat)
    ensures Decimal(Digits(n)) == n
  {
    hide Decimal;
    var d := "0123456789"[n % 10];
    assert d as int - '0' as int == n % 10;
    if n < 10 {
      DecimalOfNone();
      DecimalAppend([], d);
      assert Digits(n) == [] + [d];
    } else {
      DecimalOfDigits(n / 10);
      DecimalAppend(Digits(n / 10), d);
    }
  }

  lemma DecimalOfNone()
    ensures Decimal("") == 0
  {}

  /** `rest` neither lengthens a number's digits nor turns it into a float. */
  predicate EndsNumber(rest: string) {
    rest == [] || !(IsDigit(rest[0]) || ContinuesNumber(rest[0]))
  }

  lemma DigitRunAppend(ds: string, rest: string)
    requires forall d <- ds :: IsDigit(d)
    requires rest == [] || !IsDigit(rest[0])
    ensures DigitRun(ds + rest) == |ds|
  {
    if ds != [] {
      assert (ds + rest)[1..] == ds[1..] + rest;
      DigitRunAppend(ds[1..], rest);
    } else {
      assert ds + rest == rest;
    }
  }

  lemma ReadDigits(n: nat, rest: string)
    requires EndsNumber(rest)
    ensures IntegerEnd(Digits(n) + rest) == Some(|Digits(n)|)
    ensures (Digits(n) + rest)[..|Digits(n)|] == Digits(n)
    ensures (Digits(n) + rest)[|Digits(n)|..] == rest
  {
    DigitRunAppend(Digits(n), rest);
  }

  lemma ReadMagnitude(n: nat, rest: string)
    requires EndsNumber(rest)
    ensures ParseNumber(Digits(n) + rest) == Some(Parsed(JNum(n), rest))
  {
    DecimalOfDigits(n);
    ReadDigits(n, rest);
    assert (Digits(n) + rest)[0] == Digits(n)[0];
  }

  lemma StepMinus(t: string, n: nat, m: int)
    requires IntegerEnd(t) == Some(n) && Decimal(t[..n]) == m && m != 0
    ensures ParseNumber("-" + t) == Some(Parsed(JNum(-m), t[n..]))
  {
    assert ("-" + t)[1..] == t;
  }

  lemma ReadNegative(m: int, rest: string)
    requires EndsNumber(rest) && m > 0
    ensures ParseNumber("-" + (Digits(m) + rest)) == Some(Parsed(JNum(-m), rest))
  {
    DecimalOfDigits(m);
    ReadDigits(m, rest);
    StepMinus(Digits(m) + rest, |Digits(m)|, m);
  }

  lemma ReadNumber(n: int, rest: string)
    requires EndsNumber(rest)
    ensures ParseNumber(NumText(n) + rest) == Some(Parsed(JNum(n), rest))
  {
    hide ParseNumber, Digits;
    if n < 0 {
      ReadNegative(-n, rest);
      assert ("-" + Digits(-n)) + rest == "-" + (Digits(-n) + rest);
    } else {
      ReadMagnitude(n, rest);
    }
  }

  lemma NumberStarts(n: int)
    ensures NumText(n) != [] && (NumText(n)[0] == '-' || IsDigit(NumText(n)[0]))
  {
    var m := if n < 0 then -n else n;
    assert Digits(m)[0] in Digits(m);
  }

  lemma HexDigitReads(d: nat)
    requires d < 16
    ensures HexValue(HexDigit(d)) == Some(d)
  {}

  lemma ReadHexEscape(n: nat, rest: string)
    requires n < 0x20
    ensures ParseEscape("u00" + [HexDigit(n / 16), HexDigit(n % 16)] + rest) == Some(Parsed([n as char], rest))
  {
    hide HexDigit, HexValue;
    var t := "u00" + [HexDigit(n / 16), HexDigit(n % 16)] + rest;
    HexDigitReads(0);
    HexDigitReads(n / 16);
    HexDigitReads(n % 16);
    ZeroIsZero();
    assert t[1..][0] == '0' && t[1..][1] == '0' && t[1..][2] == HexDigit(n / 16) && t[1..][3] == HexDigit(n % 16);
    assert Hex4(t[1..]) == Some(n);
    assert t[5..] == rest;
  }

  lemma ZeroIsZero()
    ensures HexDigit(0) == '0'
  {}

  /** The two-character escapes of section 7. */
  predicate ShortEscape(c: char, letter: char) {
    (c, letter) in {('\"', '\"'), ('\\', '\\'), ('\n', 'n'), ('\r', 'r'), ('\t', 't'), ('\U{8}', 'b'), ('\U{C}', 'f')}
  }

  lemma ReadShortEscape(c: char, letter: char, rest: string)
    requires ShortEscape(c, letter)
    ensures ParseEscape([letter] + rest) == Some(Parsed([c], rest))
  {
    hide ParseUnicodeEscape;
    assert ([letter] + rest)[1..] == rest;
  }

  /** A character is written as itself, as a short escape, or as a hexadecimal escape. */
  lemma EscapeForms(c: char)
    ensures
      || (EscapeChar(c) == [c] && c != '\"' && c != '\\' && c as int >= 0x20)
      || (exists letter :: ShortEscape(c, letter) && EscapeChar(c) == ['\\', letter])
      || (c as int < 0x20 && EscapeChar(c) == ['\\'] + ("u00" + [HexDigit(c as int / 16), HexDigit(c as int % 16)]))
  {
    hide HexDigit;
    if c == '\"' || c == '\\' {
      assert ShortEscape(c, c);
    } else if c == '\n' {
      assert ShortEscape(c, 'n');
    } else if c == '\r' {
      assert ShortEscape(c, 'r');
    } else if c == '\t' {
      assert ShortEscape(c, 't');
    } else if c == '\U{8}' {
      assert ShortEscape(c, 'b');
    } else if c == '\U{C}' {
      assert ShortEscape(c, 'f');
    }
  }

  lemma ReadChar(c: char, rest: string)
    ensures
      || (EscapeChar(c) == [c] && c != '\"' && c != '\\' && c as int >= 0x20)
      || (EscapeChar(c) != [] && EscapeChar(c)[0] == '\\' &&
          ParseEscape(EscapeChar(c)[1..] + rest) == Some(Parsed([c], rest)))
  {
    hide EscapeChar, ParseEscape, HexDigit, ShortEscape;
    EscapeForms(c);
    if letter :| ShortEscape(c, letter) && EscapeChar(c) == ['\\', letter] {
      ReadShortEscape(c, letter, rest);
      assert EscapeChar(c)[1..] == [letter];
    } else if c as int < 0x20 {
      ReadHexEscape(c as int, rest);
      assert EscapeChar(c)[1..] == "u00" + [HexDigit(c as int / 16), HexDigit(c as int % 16)];
    }
  }

  lemma Rejoin(a: string, b: string, c: string, d: string)
    ensures (a + b) + c + d == a + (b + c + d)
    ensures a != [] ==> ((a + b) + c + d)[1..] == a[1..] + (b + c + d)
  {}

  lemma {:induction false} ReadString(s: string, rest: string)
    ensures ParseString(Escaped(s) + "\"" + rest) == Some(Parsed(s, rest))
  {
    hide EscapeChar, ParseEscape;
    var t := Escaped(s) + "\"" + rest;
    if s == [] {
      assert t == "\"" + rest;
    } else {
      var after := Escaped(s[1..]) + "\"" + rest;
      ReadString(s[1..], rest);
      ReadChar(s[0], after);
      Rejoin(EscapeChar(s[0]), Escaped(s[1..]), "\"", rest);
      assert [s[0]] + s[1..] == s;
      if EscapeChar(s[0]) == [s[0]] { assert t[1..] == after; }
    }
  }

  // One step of the parser on an input whose next bytes are known.

  lemma ReadPlain(t: string)
    requires t != [] && (t[0] == '-' || IsDigit(t[0]))
    ensures ParseValue(t) == ParseNumber(t)
  {
    hide ParseNumber, ParseString, ParseMembers, ParseElements, ParseLiteral;
  }

  lemma StepElements(s: string, before: seq<Json>, v: Json, after: string)
    requires ParseValue(s) == Some(Parsed(v, after)) && after != []
    ensures after[0] == ',' ==> ParseElements(s, before) == ParseElements(after[1..], before + [v])
    ensures after[0] == ']' ==> ParseElements(s, before) == Some(Parsed(JArr(before + [v]), after[1..]))
  {
    hide SkipWs, ParseValue;
    if !IsWhitespace(after[0]) { SkipNothing(after); }
  }

  lemma StepMembers(s: string, before: map<string, Json>, key: string, valueText: string, v: Json, after: string)
    requires s != [] && s[0] == '\"'
    requires ParseString(s[1..]) == Some(Parsed(key, ":" + valueText))
    requires ParseValue(valueText) == Some(Parsed(v, after)) && after != []
    ensures after[0] == ',' && |after| > 1 && !IsWhitespace(after[1]) ==>
              ParseMembers(s, before) == ParseMembers(after[1..], before[key := v])
    ensures after[0] == '}' ==> ParseMembers(s, before) == Some(Parsed(JObj(before[key := v]), after[1..]))
  {
    hide SkipWs, ParseValue, ParseString;
    var t := ":" + valueText;
    SkipNothing(t);
    assert HasPrefix(t, ":") && t[1..] == valueText;
    if !IsWhitespace(after[0]) { SkipNothing(after); }
    if |after| > 1 && !IsWhitespace(after[1]) { SkipNothing(after[1..]); }
  }

  lemma SkipNothing(s: string)
    requires s != [] && !IsWhitespace(s[0])
    ensures SkipWs(s) == s
  {}

  lemma StepOpenArray(body: string)
    requires body != [] && !IsWhitespace(body[0])
    ensures ParseValue("[" + body) ==
            if body[0] == ']' then Some(Parsed(JArr([]), body[1..])) else ParseElements(body, [])
  {
    hide SkipWs, ParseNumber, ParseString, ParseMembers, ParseElements, ParseLiteral;
    SkipNothing("[" + body);
    SkipNothing(body);
    assert ("[" + body)[1..] == body;
  }

  lemma StepOpenObject(body: string)
    requires body != [] && !IsWhitespace(body[0])
    ensures ParseValue("{" + body) ==
            if body[0] == '}' then Some(Parsed(JObj(map[]), body[1..])) else ParseMembers(body, map[])
  {
    hide SkipWs, ParseNumber, ParseString, ParseMembers, ParseElements, ParseLiteral;
    SkipNothing("{" + body);
    SkipNothing(body);
    assert ("{" + body)[1..] == body;
  }

  /** Whether `rest` may follow the text of `v` without changing how `v` is read. */
  predicate Follows(v: Json, rest: string) {
    v.JNum? ==> EndsNumber(rest)
  }

  lemma {:induction false} ReadValue(v: Json, rest: string)
    requires Follows(v, rest)
    ensures ParseValue(ValueText(v) + rest) == Some(Parsed(v, rest))
    decreases v, 2
  {
    hide ParseNumber, ParseMembers, ParseElements, ParseString, Digits, Escaped;
    var t := ValueText(v) + rest;
    match v
    case JNull => assert t[4..] == rest;
    case JBool(b) => assert t[|ValueText(v)|..] == rest;
    case JNum(n) =>
      ReadNumber(n, rest);
      NumberStarts(n);
      ReadPlain(t);
    case JStr(s) =>
      ReadString(s, rest);
      assert t[1..] == Escaped(s) + "\"" + rest;
    case JArr(items) => ReadArray(v, rest);
    case JObj(fields) => ReadObject(v, rest);
  }

  lemma {:induction false} ReadArray(v: Json, rest: string)
    requires v.JArr?
    ensures ParseValue(ValueText(v) + rest) == Some(Parsed(v, rest))
    decreases v, 1
  {
    if v.items == [] {
      ReadEmptyArray(v, rest);
    } else {
      ReadElements(v, 0, rest);
      FirstElement(v, rest);
      StepOpenArray(ElementsFrom(v, 0) + "]" + rest);
      assert v.items[..0] == [];
    }
  }

  lemma ReadEmptyArray(v: Json, rest: string)
    requires v == JArr([])
    ensures ParseValue(ValueText(v) + rest) == Some(Parsed(v, rest))
  {
    hide ParseElements, ParseValue;
    var body := "]" + rest;
    assert ValueText(v) + rest == "[" + body;
    assert body[0] == ']' && body[1..] == rest;
    StepOpenArray(body);
  }

  /** The text of a non-empty array opens with its first element. */
  lemma FirstElement(v: Json, rest: string)
    requires v.JArr? && v.items != []
    ensures var body := ElementsFrom(v, 0) + "]" + rest;
            && ValueText(v) + rest == "[" + body
            && body != [] && !IsWhitespace(body[0]) && body[0] != ']'
  {
    var first, more := ValueText(v.items[0]), ItemsText(v, 1);
    FirstOfValue(v.items[0]);
    assert ItemsText(v, 0) == "" + first + more == first + more;
    assert ElementsFrom(v, 0) == first + more;
    var body := first + more + "]" + rest;
    assert body[0] == first[0];
    assert ValueText(v) + rest == "[" + body;
  }

  /** A value's text starts neither with whitespace nor with a closing bracket. */
  lemma FirstOfValue(v: Json)
    ensures ValueText(v) != [] && !IsWhitespace(ValueText(v)[0]) && ValueText(v)[0] != ']'
  {
    if v.JNum? { NumberStarts(v.n); }
  }

  /** The elements from position `i`, without the comma that precedes them. */
  function ElementsFrom(v: Json, i: nat): string
    requires v.JArr? && i < |v.items|
  {
    ValueText(v.items[i]) + ItemsText(v, i + 1)
  }

  lemma {:induction false} ReadElements(v: Json, i: nat, rest: string)
    requires v.JArr? && i < |v.items|
    ensures ParseElements(ElementsFrom(v, i) + "]" + rest, v.items[..i]) == Some(Parsed(v, rest))
    decreases v, 0, |v.items| - i
  {
    hide ParseValue, ParseElements, ValueText;
    var x, s := v.items[i], ElementsFrom(v, i) + "]" + rest;
    var after := ItemsText(v, i + 1) + "]" + rest;
    assert s == ValueText(x) + after;
    assert v.items[..i] + [x] == v.items[..i + 1];
    if i + 1 == |v.items| {
      assert after == "]" + rest && after[1..] == rest;
      assert v.items[..i + 1] == v.items;
    } else {
      ReadElements(v, i + 1, rest);
      NextElement(v, i + 1);
      assert after[1..] == ElementsFrom(v, i + 1) + "]" + rest;
    }
    ReadValue(x, after);
    StepElements(s, v.items[..i], x, after);
  }

  lemma NextElement(v: Json, i: nat)
    requires v.JArr? && 0 < i < |v.items|
    ensures ItemsText(v, i) == "," + ElementsFrom(v, i)
  {
    assert ItemsText(v, i) == "," + ValueText(v.items[i]) + ItemsText(v, i + 1);
  }

  /** The fields of `v` named by the first `i` of `ks`. */
  function FieldsBefore(v: Json, ks: seq<string>, i: nat): map<string, Json>
    requires v.JObj? && i <= |ks| && forall k <- ks :: k in v.fields
  {
    map k | k in ks[..i] :: v.fields[k]
  }

  function MembersFrom(v: Json, ks: seq<string>, i: nat): string
    requires v.JObj? && i < |ks| && forall k <- ks :: k in v.fields
  {
    MemberText("", ks[i], ValueText(v.fields[ks[i]])) + FieldsText(v, ks, i + 1)
  }

  lemma {:induction false} ReadObject(v: Json, rest: string)
    requires v.JObj?
    ensures ParseValue(ValueText(v) + rest) == Some(Parsed(v, rest))
    decreases v, 1
  {
    var ks := Sorted(v.fields.Keys);
    assert ValueText(v) == "{" + FieldsText(v, ks, 0) + "}";
    hide Sorted, ValueText, FieldsText, ParseValue;
    Regroup("", "{", FieldsText(v, ks, 0), "}", rest);
    ReadBraced(v, ks, rest);
  }

  lemma {:induction false} ReadBraced(v: Json, ks: seq<string>, rest: string)
    requires v.JObj? && (forall k <- ks :: k in v.fields) && (forall k <- v.fields.Keys :: k in ks)
    ensures ParseValue("{" + (FieldsText(v, ks, 0) + ("}" + rest))) == Some(Parsed(v, rest))
    decreases v, 0, |ks| + 1
  {
    hide ParseMembers, ParseValue, MembersFrom;
    var body := FieldsText(v, ks, 0) + ("}" + rest);
    if ks == [] {
      assert v.fields == map[];
      assert body == "}" + rest && body[1..] == rest;
    } else {
      ReadMembers(v, ks, 0, rest);
      NextMember(v, ks, 0);
      assert FieldsText(v, ks, 0) == MembersFrom(v, ks, 0);
      assert FieldsBefore(v, ks, 0) == map[];
    }
    StepOpenObject(body);
  }

  lemma NextMember(v: Json, ks: seq<string>, i: nat)
    requires v.JObj? && i < |ks| && forall k <- ks :: k in v.fields
    ensures FieldsText(v, ks, i) == Separator(i) + MembersFrom(v, ks, i)
    ensures MembersFrom(v, ks, i) != [] && MembersFrom(v, ks, i)[0] == '\"'
    ensures MembersFrom(v, ks, i)[1..] ==
            Escaped(ks[i]) + "\"" + (":" + (ValueText(v.fields[ks[i]]) + FieldsText(v, ks, i + 1)))
  {
    hide Escaped, ValueText, ItemsText;
    var value, more := ValueText(v.fields[ks[i]]), FieldsText(v, ks, i + 1);
    Gather("", Separator(i), StrText(ks[i]), ":", value);
    Regroup(Separator(i), StrText(ks[i]), ":", value, more);
    Regroup("", StrText(ks[i]), ":", value, more);
    assert (Escaped(ks[i]) + "\"") + (":" + (value + more)) == Escaped(ks[i]) + "\"" + (":" + (value + more));
    assert StrText(ks[i])[1..] == Escaped(ks[i]) + "\"";
    assert (StrText(ks[i]) + (":" + (value + more)))[1..] == StrText(ks[i])[1..] + (":" + (value + more));
    assert "" + StrText(ks[i]) == StrText(ks[i]);
  }

  lemma Regroup(a: string, b: string, c: string, d: string, e: string)
    ensures a + b + c + d + e == a + (b + c + d + e)
    ensures b + c + d + e == b + (c + (d + e))
  {}

  lemma FieldsBeforeStep(v: Json, ks: seq<string>, i: nat)
    requires v.JObj? && i < |ks| && forall k <- ks :: k in v.fields
    ensures FieldsBefore(v, ks, i)[ks[i] := v.fields[ks[i]]] == FieldsBefore(v, ks, i + 1)
    ensures (forall k <- v.fields.Keys :: k in ks) ==> FieldsBefore(v, ks, |ks|) == v.fields
  {
    assert ks[..i + 1] == ks[..i] + [ks[i]];
    assert ks[..|ks|] == ks;
  }

  lemma {:induction false} ReadMembers(v: Json, ks: seq<string>, i: nat, rest: string)
    requires v.JObj? && i < |ks| && (forall k <- ks :: k in v.fields) && (forall k <- v.fields.Keys :: k in ks)
    ensures ParseMembers(MembersFrom(v, ks, i) + ("}" + rest), FieldsBefore(v, ks, i)) == Some(Parsed(v, rest))
    decreases v, 0, |ks| - i
  {
    ReadMember(v, ks, i, "}" + rest);
    AfterMember(v, ks, i, rest);
    if i + 1 == |ks| {
      FieldsBeforeStep(v, ks, i);
    } else {
      ReadMembers(v, ks, i + 1, rest);
    }
  }

  lemma DropFirst(c: char, m: string, t: string)
    ensures (([c] + m) + t)[0] == c && (([c] + m) + t)[1..] == m + t
  {}

  lemma AfterMember(v: Json, ks: seq<string>, i: nat, rest: string)
    requires v.JObj? && i < |ks| && forall k <- ks :: k in v.fields
    ensures var after := FieldsText(v, ks, i + 1) + ("}" + rest);
            if i + 1 == |ks| then after[0] == '}' && after[1..] == rest
            else after[0] == ',' && after[1..] == MembersFrom(v, ks, i + 1) + ("}" + rest)
  {
    if i + 1 == |ks| { assert FieldsText(v, ks, i + 1) == ""; }
    hide FieldsText, MembersFrom;
    if i + 1 == |ks| { DropFirst('}', "", rest); } else { AfterComma(v, ks, i + 1, "}" + rest); }
  }

  lemma AfterComma(v: Json, ks: seq<string>, i: nat, tail: string)
    requires v.JObj? && 0 < i < |ks| && forall k <- ks :: k in v.fields
    ensures (FieldsText(v, ks, i) + tail)[0] == ','
              && (FieldsText(v, ks, i) + tail)[1..] == MembersFrom(v, ks, i) + tail
  {
    hide FieldsText, MembersFrom;
    NextMember(v, ks, i);
    DropFirst(',', MembersFrom(v, ks, i), tail);
  }

  /** Reading one member leaves the parser after it, with that member recorded. */
  lemma {:induction false} ReadMember(v: Json, ks: seq<string>, i: nat, tail: string)
    requires v.JObj? && i < |ks| && (forall k <- ks :: k in v.fields)
    requires tail != [] && tail[0] == '}'
    ensures var after := FieldsText(v, ks, i + 1) + tail;
            var r := ParseMembers(MembersFrom(v, ks, i) + tail, FieldsBefore(v, ks, i));
            r == if after[0] == ',' then ParseMembers(after[1..], FieldsBefore(v, ks, i + 1))
                 else Some(Parsed(JObj(FieldsBefore(v, ks, i + 1)), after[1..]))
    decreases v, 0, |ks| - i, 0
  {
    hide ParseMembers, ParseValue, MembersFrom, ParseString, FieldsBefore;
    var k, x := ks[i], v.fields[ks[i]];
    var after := FieldsText(v, ks, i + 1) + tail;
    if i + 1 < |ks| { NextMember(v, ks, i + 1); }
    MemberSplits(v, ks, i, tail);
    FieldsBeforeStep(v, ks, i);
    ReadString(k, ":" + (ValueText(x) + after));
    ReadValue(x, after);
    StepMembers(MembersFrom(v, ks, i) + tail, FieldsBefore(v, ks, i), k, ValueText(x) + after, x, after);
  }

  lemma MemberSplits(v: Json, ks: seq<string>, i: nat, tail: string)
    requires v.JObj? && i < |ks| && forall k <- ks :: k in v.fields
    ensures (MembersFrom(v, ks, i) + tail)[0] == '\"'
    ensures (MembersFrom(v, ks, i) + tail)[1..] ==
            Escaped(ks[i]) + "\"" + (":" + (ValueText(v.fields[ks[i]]) + (FieldsText(v, ks, i + 1) + tail)))
  {
    hide Escaped, ValueText, FieldsText, MembersFrom;
    NextMember(v, ks, i);
    var key, value, more := Escaped(ks[i]) + "\"", ValueText(v.fields[ks[i]]), FieldsText(v, ks, i + 1);
    Regroup(key, ":", value, more, tail);
    assert (MembersFrom(v, ks, i) + tail)[1..] == MembersFrom(v, ks, i)[1..] + tail;
    Regroup("", key, ":", value + more, tail);
  }

  // ---- Consequences --------------------------------------------------------

  /** Parsing undoes printing, for every value of any nesting. */
  lemma ParseUndoesPrint(v: Json)
    ensures ParseText(ValueText(v)) == Some(v)
  {
    assert ValueText(v) + "" == ValueText(v);
    ReadValue(v, "");
  }

  /** Two values with one canonical text are one value. */
  lemma CanonicalTextIsInjective(v: Json, w: Json)
    requires ValueText(v) == ValueText(w)
    ensures v == w
  {
    ParseUndoesPrint(v);
    ParseUndoesPrint(w);
  }

  lemma OnlyObjectsOpenBraces(s: string)
    requires s != [] && s[0] == '{' && ParseValue(s).Some?
    ensures ParseValue(s).value.value.JObj?
  {}

  /** No proper prefix of an object's canonical text is a JSON text. */
  lemma NoProperPrefixParses(v: Json, n: nat)
    requires v.JObj? && n < |ValueText(v)|
    ensures ParseText(ValueText(v)[..n]) == None
  {
    hide ParseValue, FieldsText;
    var p, x := ValueText(v)[..n], ValueText(v)[n..];
    assert p + x == ValueText(v);
    if ParseValue(p).Some? {
      assert p[0] == ValueText(v)[0] == '{';
      OnlyObjectsOpenBraces(p);
      ParseValueExtends(p, x);
      assert ValueText(v) + "" == ValueText(v);
      ReadValue(v, "");
    }
  }

  // ---- No control characters -----------------------------------------------

  predicate Printable(s: string) {
    forall c <- s :: c as int >= 0x20
  }

  lemma PrintableConcat(s: string, t: string)
    requires Printable(s) && Printable(t)
    ensures Printable(s + t)
  {}

  lemma {:induction false} EscapedIsPrintable(s: string)
    ensures Printable(Escaped(s))
  {
    hide EscapeChar, Printable;
    if s == [] {
      NothingIsPrintable();
    } else {
      EscapeIsPrintable(s[0]);
      EscapedIsPrintable(s[1..]);
      PrintableConcat(EscapeChar(s[0]), Escaped(s[1..]));
    }
  }

  lemma NothingIsPrintable()
    ensures Printable("") && Printable(",") && Printable(":") && Printable("\"")
  {}

  lemma EscapeIsPrintable(c: char)
    ensures Printable(EscapeChar(c))
  {
    hide EscapeChar, HexDigit;
    EscapeForms(c);
    HexIsPrintable(if c as int < 0x20 then c as int / 16 else 0);
    HexIsPrintable(c as int % 16);
  }

  lemma HexIsPrintable(d: nat)
    requires d < 16
    ensures HexDigit(d) as int >= 0x20
  {}

  lemma StrTextIsPrintable(s: string)
    ensures Printable(StrText(s))
  {
    EscapedIsPrintable(s);
    NothingIsPrintable();
    PrintableConcat("\"", Escaped(s));
    PrintableConcat("\"" + Escaped(s), "\"");
  }

  lemma BracketsArePrintable(open: char, s: string, close: char)
    requires open as int >= 0x20 && close as int >= 0x20 && Printable(s)
    ensures Printable([open] + s + [close])
  {}

  lemma NumTextIsPrintable(n: int)
    ensures Printable(NumText(n))
  {
    hide Digits;
  }

  /** Canonical text holds no byte below 0x20, so no raw newline can split a line. */
  lemma {:induction false} ValueTextIsPrintable(v: Json)
    ensures Printable(ValueText(v))
    decreases v, 1
  {
    hide ItemsText, FieldsText, StrText, NumText;
    match v
    case JArr(items) =>
      ItemsArePrintable(v, 0);
      BracketsArePrintable('[', ItemsText(v, 0), ']');
    case JObj(fields) =>
      FieldsArePrintable(v, Sorted(fields.Keys), 0);
      BracketsArePrintable('{', FieldsText(v, Sorted(fields.Keys), 0), '}');
    case JStr(s) => StrTextIsPrintable(s);
    case JNum(n) => NumTextIsPrintable(n);
    case _ =>
  }

  lemma {:induction false} ItemsArePrintable(v: Json, i: nat)
    requires v.JArr? && i <= |v.items|
    ensures Printable(ItemsText(v, i))
    decreases v, 0, |v.items| - i
  {
    hide Printable, ValueText;
    NothingIsPrintable();
    if i < |v.items| {
      ValueTextIsPrintable(v.items[i]);
      ItemsArePrintable(v, i + 1);
      PrintableConcat(Separator(i), ValueText(v.items[i]));
      PrintableConcat(Separator(i) + ValueText(v.items[i]), ItemsText(v, i + 1));
    }
  }

  lemma {:induction false} FieldsArePrintable(v: Json, ks: seq<string>, i: nat)
    requires v.JObj? && i <= |ks| && forall k <- ks :: k in v.fields
    ensures Printable(FieldsText(v, ks, i))
    decreases v, 0, |ks| - i
  {
    hide Printable, ValueText, StrText;
    NothingIsPrintable();
    if i < |ks| {
      var value := ValueText(v.fields[ks[i]]);
      StrTextIsPrintable(ks[i]);
      ValueTextIsPrintable(v.fields[ks[i]]);
      FieldsArePrintable(v, ks, i + 1);
      PrintableConcat(Separator(i), StrText(ks[i]));
      PrintableConcat(Separator(i) + StrText(ks[i]), ":");
      PrintableConcat(Separator(i) + StrText(ks[i]) + ":", value);
      PrintableConcat(MemberText(Separator(i), ks[i], value), FieldsText(v, ks, i + 1));
    }
  }
}
