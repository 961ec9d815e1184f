/** Canonical text is minimal: no JSON text of a value is shorter than the canonical one. */
module CanonicalIsShortest {
  import opened Text
  import opened Json
  import opened Canonical
  import opened CanonicalProofs
  import opened JsonParser

  // ---- Strings -------------------------------------------------------------

  lemma EscapeLength(c: char)
    ensures 1 <= |EscapeChar(c)| <= 6
    ensures c as int >= 0x20 && c != '\"' && c != '\\' ==> |EscapeChar(c)| == 1
    ensures c in "\"\\\n\r\t\U{8}\U{C}" ==> |EscapeChar(c)| == 2
  {}

  lemma {:induction false} EscapedConcat(a: string, b: string)
    ensures Escaped(a + b) == Escaped(a) + Escaped(b)
  {
    hide EscapeChar;
    if a == [] {
      assert a + b == b;
    } else {
      assert (a + b)[1..] == a[1..] + b;
      EscapedConcat(a[1..], b);
    }
  }

  lemma EscapedOne(c: char)
    ensures Escaped([c]) == EscapeChar(c)
  {
    assert [c][1..] == [];
  }

  /** Octets from 0x80 stand for themselves. */
  lemma {:induction false} HighOctets(s: string)
    requires forall c <- s :: c as int >= 0x80
    ensures |Escaped(s)| == |s|
  {
    hide EscapeChar;
    if s != [] {
      assert s[0] in s && forall c <- s[1..] :: c in s;
      EscapeLength(s[0]);
      HighOctets(s[1..]);
    }
  }

  lemma Utf8Length(u: nat)
    requires u < 0x110000
    ensures |Escaped(Utf8(u))| <= 6
  {
    hide EscapeChar;
    if u < 0x80 {
      EscapedOne(u as char);
      EscapeLength(u as char);
    } else {
      Utf8High(u);
      HighOctets(Utf8(u));
    }
  }

  lemma Utf8High(u: nat)
    requires 0x80 <= u < 0x110000
    ensures |Utf8(u)| <= 4 && forall c <- Utf8(u) :: c as int >= 0x80
  {}

  /** An escape, its backslash included, is no shorter than the escape of what it stands for. */
  lemma EscapeIsShortest(s: string)
    requires ParseEscape(s).Some?
    ensures |Escaped(ParseEscape(s).value.value)| + |ParseEscape(s).value.rest| <= |s| + 1
  {
    hide Utf8, Hex4, EscapeChar, Escaped;
    var value := ParseEscape(s).value.value;
    if s[0] == 'u' {
      UnicodeIsShortest(s);
    } else {
      assert |value| == 1;
      EscapedOne(value[0]);
      EscapeLength(value[0]);
      assert value == [value[0]];
    }
  }

  lemma UnicodeIsShortest(s: string)
    requires s != [] && ParseUnicodeEscape(s).Some?
    ensures |Escaped(ParseUnicodeEscape(s).value.value)| + |ParseUnicodeEscape(s).value.rest| <= |s| + 1
  {
    hide Utf8, Hex4, Escaped;
    var u := Hex4(s[1..]).value;
    if u < 0xD800 || 0xDFFF < u {
      Utf8Length(u);
    } else {
      var low := Hex4(s[7..]).value;
      Utf8Length(0x10000 + (u - 0xD800) * 0x400 + (low - 0xDC00));
    }
  }

  lemma {:induction false} StringIsShortest(s: string)
    requires ParseString(s).Some?
    ensures |Escaped(ParseString(s).value.value)| + 1 + |ParseString(s).value.rest| <= |s|
    decreases |s|
  {
    hide ParseEscape, EscapeChar, Escaped;
    if s[0] == '\"' {
      NothingEscaped();
    } else if s[0] == '\\' {
      var Parsed(c, t) := ParseEscape(s[1..]).value;
      EscapeIsShortest(s[1..]);
      StringIsShortest(t);
      EscapedConcat(c, ParseString(t).value.value);
    } else {
      StringIsShortest(s[1..]);
      EscapeLength(s[0]);
      EscapedOne(s[0]);
      EscapedConcat([s[0]], ParseString(s[1..]).value.value);
    }
  }

  lemma NothingEscaped()
    ensures Escaped("") == ""
  {}

  // ---- Numbers -------------------------------------------------------------

  lemma {:induction false} DigitsAreShortest(ds: string)
    requires ds != [] && forall d <- ds :: IsDigit(d)
    ensures |Digits(Decimal(ds))| <= |ds|
  {
    var k := |ds| - 1;
    assert IsDigit(ds[k]) && forall d <- ds[..k] :: d in ds;
    var m: nat, d: nat := Decimal(ds[..k]), ds[k] as int - '0' as int;
    assert Decimal(ds) == 10 * m + d;
    if Decimal(ds) >= 10 {
      assert Decimal(ds) / 10 == m;
      assert ds[..k] != [] by { NoDigits(); }
      DigitsAreShortest(ds[..k]);
    }
  }

  lemma NoDigits()
    ensures Decimal("") == 0
  {}

  lemma NumberIsShortest(s: string)
    requires ParseNumber(s).Some?
    ensures |ValueText(ParseNumber(s).value.value)| + |ParseNumber(s).value.rest| <= |s|
  {
    hide Decimal, Digits, IntegerEnd;
    if s[0] == '-' {
      var n := IntegerEnd(s[1..]).value;
      assert forall d <- s[1..][..n] :: IsDigit(d);
      DigitsAreShortest(s[1..][..n]);
    } else {
      var n := IntegerEnd(s).value;
      assert forall d <- s[..n] :: IsDigit(d);
      DigitsAreShortest(s[..n]);
    }
  }

  // ---- Arrays and objects --------------------------------------------------

  /** What a member's text takes, the separator before it apart. */
  function MemberLength(key: string, v: Json): nat { |StrText(key)| + 1 + |ValueText(v)| }

  /** What all members take with one separator each, whatever their order. */
  function MembersLength(fields: map<string, Json>): nat {
    if fields == map[] then 0
    else
      var key := Minimum(fields.Keys);
      MemberLength(key, fields[key]) + 1 + MembersLength(fields - {key})
  }

  lemma {:induction false} WithoutMember(fields: map<string, Json>, key: string)
    requires key in fields
    ensures MembersLength(fields) == MemberLength(key, fields[key]) + 1 + MembersLength(fields - {key})
    decreases |fields|
  {
    hide MemberLength;
    var least := Minimum(fields.Keys);
    if key != least {
      WithoutMember(fields - {least}, key);
      WithoutMember(fields - {key}, least) by { StillThere(fields, key, least); }
      assert fields - {least} - {key} == fields - {key} - {least};
    }
  }

  lemma StillThere(fields: map<string, Json>, key: string, least: string)
    requires key in fields && least in fields && key != least
    ensures least in fields - {key} && |fields - {key}| < |fields|
  {
    assert fields.Keys == (fields - {key}).Keys + {key};
    assert |fields.Keys| == |fields| && |(fields - {key}).Keys| == |fields - {key}|;
  }

  /** Setting a member adds at most what it takes. */
  lemma WithMember(fields: map<string, Json>, key: string, v: Json)
    ensures MembersLength(fields[key := v]) <= MembersLength(fields) + MemberLength(key, v) + 1
  {
    hide MemberLength, MembersLength;
    WithoutMember(fields[key := v], key);
    assert fields[key := v] - {key} == fields - {key};
    if key in fields { WithoutMember(fields, key); } else { assert fields - {key} == fields; }
  }

  lemma NoMembers()
    ensures MembersLength(map[]) == 0
  {}

  /** The members of `v` named by `ks` from position `i`. */
  function FieldsFrom(v: Json, ks: seq<string>, i: nat): map<string, Json>
    requires v.JObj? && i <= |ks| && forall k <- ks :: k in v.fields
  {
    map k | k in ks[i..] :: v.fields[k]
  }

  lemma {:induction false} FieldsLength(v: Json, ks: seq<string>, i: nat)
    requires v.JObj? && i <= |ks| && (forall k <- ks :: k in v.fields)
    requires forall a, b :: 0 <= a < b < |ks| ==> ks[a] != ks[b]
    ensures |FieldsText(v, ks, i)| == MembersLength(FieldsFrom(v, ks, i)) - if i == 0 < |ks| then 1 else 0
    decreases |ks| - i
  {
    hide StrText, ValueText, MembersLength, FieldsFrom;
    FieldsFromStep(v, ks, i);
    if i == |ks| {
      NoMembers();
    } else {
      FieldsLength(v, ks, i + 1);
      WithoutMember(FieldsFrom(v, ks, i), ks[i]);
    }
  }

  lemma FieldsFromStep(v: Json, ks: seq<string>, i: nat)
    requires v.JObj? && i <= |ks| && (forall k <- ks :: k in v.fields)
    requires forall a, b :: 0 <= a < b < |ks| ==> ks[a] != ks[b]
    ensures i == |ks| ==> FieldsFrom(v, ks, i) == map[]
    ensures i < |ks| ==>
              && ks[i] in FieldsFrom(v, ks, i) && FieldsFrom(v, ks, i)[ks[i]] == v.fields[ks[i]]
              && FieldsFrom(v, ks, i) - {ks[i]} == FieldsFrom(v, ks, i + 1)
  {
    if i < |ks| { assert ks[i..] == [ks[i]] + ks[i + 1..]; }
  }

  lemma ObjectLength(v: Json)
    requires v.JObj?
    ensures |ValueText(v)| == MembersLength(v.fields) + if v.fields == map[] then 2 else 1
  {
    hide ValueText, FieldsText, MembersLength, Sorted, FieldsFrom, LexLe;
    var ks := Sorted(v.fields.Keys);
    ObjectText(v);
    FieldsLength(v, ks, 0);
    AllFields(v, ks);
    if v.fields == map[] { NoMembers(); } else { assert v.fields.Keys != {} && ks != []; }
  }

  lemma ObjectText(v: Json)
    requires v.JObj?
    ensures ValueText(v) == "{" + FieldsText(v, Sorted(v.fields.Keys), 0) + "}"
  {
    hide FieldsText, Sorted;
  }

  lemma AllFields(v: Json, ks: seq<string>)
    requires v.JObj? && (forall k <- ks :: k in v.fields) && (forall k <- v.fields.Keys :: k in ks)
    ensures FieldsFrom(v, ks, 0) == v.fields
  {
    assert ks[0..] == ks;
  }

  lemma SkipShortens(s: string)
    ensures |SkipWs(s)| <= |s|
  {}

  /** **No text of a value is shorter than its canonical text**, wherever it is parsed. */
  lemma {:induction false} ValueIsShortest(s: string)
    requires ParseValue(s).Some?
    ensures |ValueText(ParseValue(s).value.value)| + |ParseValue(s).value.rest| <= |s|
    decreases |s|, 1
  {
    hide ParseNumber, ParseString, ParseMembers, ParseElements, Escaped, FieldsText, ItemsText, NumText, Sorted;
    var t := SkipWs(s);
    match t[0]
    case '{' => ObjectIsShortest(t, SkipWs(t[1..]));
    case '[' => ArrayIsShortest(t, SkipWs(t[1..]));
    case '\"' => StringIsShortest(t[1..]);
    case 't' =>
    case 'f' =>
    case 'n' =>
    case _ => NumberIsShortest(t);
  }

  lemma ArrayIsShortest(t: string, body: string)
    requires t != [] && |body| < |t|
    ensures HasPrefix(body, "]") ==> |ValueText(JArr([]))| + |body[1..]| <= |t|
    ensures !HasPrefix(body, "]") && ParseElements(body, []).Some? ==>
              |ValueText(ParseElements(body, []).value.value)| + |ParseElements(body, []).value.rest| <= |t|
    decreases |body|, 3
  {
    hide ParseElements;
    if !HasPrefix(body, "]") && ParseElements(body, []).Some? { ElementsAreShortest(body, []); }
  }

  lemma ObjectIsShortest(t: string, body: string)
    requires t != [] && |body| < |t|
    ensures HasPrefix(body, "}") ==> |ValueText(JObj(map[]))| + |body[1..]| <= |t|
    ensures !HasPrefix(body, "}") && ParseMembers(body, map[]).Some? ==>
              |ValueText(ParseMembers(body, map[]).value.value)| + |ParseMembers(body, map[]).value.rest| <= |t|
    decreases |body|, 3
  {
    hide ParseMembers, ValueText, MembersLength;
    NoMembers();
    ObjectLength(JObj(map[]));
    if !HasPrefix(body, "}") && ParseMembers(body, map[]).Some? {
      MembersAreShortest(body, map[]);
      ObjectLength(ParseMembers(body, map[]).value.value);
    }
  }

  lemma {:induction false} ElementsAreShortest(s: string, before: seq<Json>)
    requires ParseElements(s, before).Some?
    ensures var v := ParseElements(s, before).value.value;
            && v.JArr? && |before| < |v.items| && v.items[..|before|] == before
            && |ElementsFrom(v, |before|)| + 1 + |ParseElements(s, before).value.rest| <= |s|
    decreases |s|, 2
  {
    hide ParseValue, ValueText, SkipWs;
    var Parsed(x, rest) := ParseValue(s).value;
    ValueIsShortest(s);
    SkipShortens(rest);
    var t, v := SkipWs(rest), ParseElements(s, before).value.value;
    if HasPrefix(t, ",") {
      ElementsAreShortest(t[1..], before + [x]);
      NextElement(v, |before| + 1);
      assert v.items[..|before| + 1] == before + [x];
      assert v.items[..|before|] == v.items[..|before| + 1][..|before|] == before;
      assert v.items[|before|] == v.items[..|before| + 1][|before|] == x;
      ElementsLength(v, |before|);
    } else {
      assert v.items == before + [x];
      ElementsLength(v, |before|);
    }
  }

  lemma ElementsLength(v: Json, i: nat)
    requires v.JArr? && i < |v.items|
    ensures |ElementsFrom(v, i)| ==
            |ValueText(v.items[i])| + if i + 1 == |v.items| then 0 else 1 + |ElementsFrom(v, i + 1)|
  {
    hide ValueText;
    if i + 1 < |v.items| { NextElement(v, i + 1); }
  }

  lemma {:induction false} MembersAreShortest(s: string, before: map<string, Json>)
    requires ParseMembers(s, before).Some?
    ensures ParseMembers(s, before).value.value.JObj? && ParseMembers(s, before).value.value.fields != map[]
    ensures MembersLength(ParseMembers(s, before).value.value.fields) + |ParseMembers(s, before).value.rest|
            <= MembersLength(before) + |s|
    decreases |s|, 0
  {
    hide ParseString, ParseValue, ValueText, SkipWs, Escaped, MembersLength;
    var Parsed(key, afterKey) := ParseString(s[1..]).value;
    var t := SkipWs(afterKey);
    var Parsed(v, afterValue) := ParseValue(t[1..]).value;
    var u := SkipWs(afterValue);
    StringIsShortest(s[1..]);
    SkipShortens(afterKey);
    ValueIsShortest(t[1..]);
    SkipShortens(afterValue);
    WithMember(before, key, v);
    assert key in before[key := v];
    if HasPrefix(u, ",") {
      SkipShortens(u[1..]);
      MembersAreShortest(SkipWs(u[1..]), before[key := v]);
    }
  }

  /** **Canonical text is the shortest**: every JSON text of a value is at least as long. */
  lemma CanonicalIsShortest(t: string, v: Json)
    requires ParseText(t) == Some(v)
    ensures |ValueText(v)| <= |t|
  {
    hide ParseValue, ValueText;
    ValueIsShortest(t);
  }

  // ---- The order of members ------------------------------------------------

  /** The keys a parser meets in an object's text, in the order it meets them. */
  function KeysMet(s: string): seq<string>
    decreases |s|
  {
    if !HasPrefix(s, "\"") then []
    else
      match ParseString(s[1..])
      case None => []
      case Some(Parsed(key, afterKey)) =>
        var t := SkipWs(afterKey);
        if !HasPrefix(t, ":") then [key]
        else
          match ParseValue(t[1..])
          case None => [key]
          case Some(Parsed(_, afterValue)) =>
            var u := SkipWs(afterValue);
            if HasPrefix(u, ",") then [key] + KeysMet(SkipWs(u[1..])) else [key]
  }

  function KeysOf(t: string): seq<string> {
    if HasPrefix(SkipWs(t), "{") then KeysMet(SkipWs(SkipWs(t)[1..])) else []
  }

  /** `a` comes before `b`: it is a proper beginning of it, or smaller where they first differ. */
  predicate StrictlyBelow(a: string, b: string) {
    exists k :: 0 <= k <= |a| && k <= |b| && FirstDifference(a, b, k) && k < |b| && (k == |a| || a[k] < b[k])
  }

  predicate FirstDifference(a: string, b: string, k: nat)
    requires k <= |a| && k <= |b|
  {
    a[..k] == b[..k]
  }

  lemma {:induction false} LexIsBelow(a: string, b: string)
    requires LexLe(a, b) && a != b
    ensures StrictlyBelow(a, b)
  {
    if a == [] {
      assert FirstDifference(a, b, 0);
    } else if a[0] < b[0] {
      assert FirstDifference(a, b, 0);
    } else {
      assert a == [a[0]] + a[1..] && b == [b[0]] + b[1..];
      LexIsBelow(a[1..], b[1..]);
      var k :| 0 <= k <= |a[1..]| && k <= |b[1..]| && FirstDifference(a[1..], b[1..], k)
               && k < |b[1..]| && (k == |a[1..]| || a[1..][k] < b[1..][k]);
      assert a[..k + 1] == [a[0]] + a[1..][..k] && b[..k + 1] == [b[0]] + b[1..][..k];
      assert FirstDifference(a, b, k + 1);
    }
  }

  lemma OneKeyMet(s: string, key: string, valueText: string, v: Json, after: string)
    requires s != [] && s[0] == '\"'
    requires ParseString(s[1..]) == Some(Parsed(key, ":" + valueText))
    requires ParseValue(valueText) == Some(Parsed(v, after)) && after != []
    ensures after[0] == ',' && |after| > 1 && !IsWhitespace(after[1]) ==> KeysMet(s) == [key] + KeysMet(after[1..])
    ensures after[0] == '}' ==> KeysMet(s) == [key]
  {
    hide SkipWs, ParseValue, ParseString;
    var t := ":" + valueText;
    SkipNothing(t);
    assert HasPrefix(t, ":") && t[1..] == valueText;
    if !IsWhitespace(after[0]) { SkipNothing(after); }
    if |after| > 1 && !IsWhitespace(after[1]) { SkipNothing(after[1..]); }
  }

  lemma {:induction false} MembersMet(v: Json, ks: seq<string>, i: nat, tail: string)
    requires v.JObj? && i < |ks| && (forall k <- ks :: k in v.fields)
    requires tail != [] && tail[0] == '}'
    ensures KeysMet(MembersFrom(v, ks, i) + tail) == ks[i..]
    decreases |ks| - i
  {
    hide KeysMet, ParseValue, ParseString, MembersFrom, FieldsText, ValueText;
    var key, x, after := ks[i], v.fields[ks[i]], FieldsText(v, ks, i + 1) + tail;
    MemberSplits(v, ks, i, tail);
    ReadString(key, ":" + (ValueText(x) + after));
    AfterIs(v, ks, i, tail);
    ReadValue(x, after);
    OneKeyMet(MembersFrom(v, ks, i) + tail, key, ValueText(x) + after, x, after);
    if i + 1 < |ks| {
      MembersMet(v, ks, i + 1, tail);
      assert ks[i..] == [ks[i]] + ks[i + 1..];
    } else {
      assert ks[i..] == [ks[i]];
    }
  }

  lemma AfterIs(v: Json, ks: seq<string>, i: nat, tail: string)
    requires v.JObj? && i < |ks| && (forall k <- ks :: k in v.fields)
    requires tail != [] && tail[0] == '}'
    ensures var after := FieldsText(v, ks, i + 1) + tail;
            && after != []
            && (i + 1 == |ks| ==> after[0] == '}')
            && (i + 1 < |ks| ==> after[0] == ',' && |after| > 1 && !IsWhitespace(after[1])
                                 && after[1..] == MembersFrom(v, ks, i + 1) + tail)
  {
    if i + 1 == |ks| { assert FieldsText(v, ks, i + 1) == ""; }
    hide FieldsText, MembersFrom;
    if i + 1 < |ks| {
      AfterComma(v, ks, i + 1, tail);
      NextMember(v, ks, i + 1);
      var after := FieldsText(v, ks, i + 1) + tail;
      assert after[1..][0] == '\"' && after[1] == after[1..][0];
    }
  }

  /** **Members are printed in strictly ascending order of their keys**, by octet, as whoever
      parses the text meets them. */
  lemma KeysAscend(v: Json)
    requires v.JObj?
    ensures var ks := KeysOf(ValueText(v));
            && (forall k :: k in ks <==> k in v.fields)
            && (forall i, j :: 0 <= i < j < |ks| ==> StrictlyBelow(ks[i], ks[j]))
  {
    hide ValueText, FieldsText, KeysMet, Sorted, LexLe, StrictlyBelow;
    var ks, t := Sorted(v.fields.Keys), ValueText(v);
    ObjectText(v);
    var body := FieldsText(v, ks, 0) + "}";
    assert t == "{" + body;
    assert t[1..] == body && HasPrefix(t, "{");
    SkipNothing(t);
    BodyMet(v, ks);
    hide KeysOf;
    forall i, j | 0 <= i < j < |ks| ensures StrictlyBelow(ks[i], ks[j]) { LexIsBelow(ks[i], ks[j]); }
  }

  lemma BodyMet(v: Json, ks: seq<string>)
    requires v.JObj? && (forall k <- ks :: k in v.fields)
    ensures KeysMet(SkipWs(FieldsText(v, ks, 0) + "}")) == ks
  {
    hide FieldsText, MembersFrom, KeysMet;
    if ks == [] {
      NoKeysMet(v, ks);
    } else {
      NextMember(v, ks, 0);
      assert FieldsText(v, ks, 0) == MembersFrom(v, ks, 0);
      SkipNothing(MembersFrom(v, ks, 0) + "}");
      MembersMet(v, ks, 0, "}");
      assert ks[0..] == ks;
    }
  }

  lemma NoKeysMet(v: Json, ks: seq<string>)
    requires v.JObj? && ks == []
    ensures KeysMet(SkipWs(FieldsText(v, ks, 0) + "}")) == []
  {
    SkipNothing("}");
  }

  /** A six-byte escape is that of a control octet, in lowercase hexadecimal digits. */
  lemma EscapesAreLowercase(c: char)
    requires |EscapeChar(c)| == 6
    ensures EscapeChar(c)[..4] == "\\u00" && c as int < 0x20
    ensures forall i :: 4 <= i < 6 ==> EscapeChar(c)[i] in "0123456789abcdef"
  {}
}
