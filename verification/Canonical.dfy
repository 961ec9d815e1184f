/** The canonical JSON printer: sorted keys, no whitespace, minimal escaping. */
module Canonical {
  import opened Text
  import opened Json

  // ---- The canonical text as a function of the value ----------------------

  function Digits(n: nat): (ds: string)
    ensures ds != [] && forall d <- ds :: '0' <= d <= '9'
    ensures ds[0] == '0' ==> n == 0 && |ds| == 1
  {
    if n < 10 then ["0123456789"[n]] else Digits(n / 10) + ["0123456789"[n % 10]]
  }

  function NumText(n: int): string {
    if n < 0 then "-" + Digits(-n) else Digits(n)
  }

  function EscapeChar(c: char): string {
    if c == '\"' then "\\\""
    else if c == '\\' then "\\\\"
    else if c == '\n' then "\\n"
    else if c == '\r' then "\\r"
    else if c == '\t' then "\\t"
    else if c == '\U{8}' then "\\b"
    else if c == '\U{C}' then "\\f"
    else if c as int < 0x20 then "\\u00" + [HexDigit(c as int / 16), HexDigit(c as int % 16)]
    else [c]
  }

  function Escaped(s: string): string {
    if s == [] then [] else EscapeChar(s[0]) + Escaped(s[1..])
  }

  function StrText(s: string): string {
    "\"" + Escaped(s) + "\""
  }

  function ValueText(v: Json): string
    decreases v, 1, 0
  {
    match v
    case JNull => "null"
    case JBool(b) => if b then "true" else "false"
    case JNum(n) => NumText(n)
    case JStr(s) => StrText(s)
    case JArr(items) => "[" + ItemsText(v, 0) + "]"
    case JObj(fields) => "{" + FieldsText(v, Sorted(fields.Keys), 0) + "}"
  }

  /** The elements of array `v` from position `i`, comma-separated. */
  function ItemsText(v: Json, i: nat): string
    requires v.JArr? && i <= |v.items|
    decreases v, 0, |v.items| - i
  {
    if i == |v.items| then []
    else Separator(i) + ValueText(v.items[i]) + ItemsText(v, i + 1)
  }

  /** The members of object `v` named by `ks` from position `i`, comma-separated. */
  function FieldsText(v: Json, ks: seq<string>, i: nat): string
    requires v.JObj? && i <= |ks| && forall k <- ks :: k in v.fields
    decreases v, 0, |ks| - i
  {
    if i == |ks| then []
    else MemberText(Separator(i), ks[i], ValueText(v.fields[ks[i]])) + FieldsText(v, ks, i + 1)
  }

  function Separator(i: nat): string {
    if i > 0 then "," else ""
  }

  function MemberText(separator: string, key: string, value: string): string {
    separator + StrText(key) + ":" + value
  }

  // ---- The printer itself: it appends to one growing buffer ----------------

  class StringBuffer {
    var text: string

    constructor ()
      ensures text == ""
    {
      text := "";
    }

    method Push(s: string)
      modifies this
      ensures text == old(text) + s
    {
      text := text + s;
    }
  }

  /** Appending `part` moves it from what is left to what is written. */
  lemma Shift(was: string, part: string, rest: string, all: string)
    requires was + (part + rest) == all
    ensures (was + part) + rest == all
  {
    assert (was + part) + rest == was + (part + rest);
  }

  lemma Enclose(was: string, a: string, b: string, c: string)
    ensures was + a + b + c == was + (a + b + c)
  {}

  lemma Gather(was: string, a: string, b: string, c: string, d: string)
    ensures was + a + b + c + d == was + (a + b + c + d)
  {}

  method WriteSeparator(i: nat, out: StringBuffer)
    modifies out
    ensures out.text == old(out.text) + Separator(i)
  {
    if i > 0 { out.Push(","); }
  }

  method WriteJsonString(s: string, out: StringBuffer)
    modifies out
    ensures out.text == old(out.text) + StrText(s)
  {
    ghost var all := old(out.text) + ("\"" + Escaped(s));
    out.Push("\"");
    assert s[0..] == s;
    Shift(old(out.text), "\"", Escaped(s), all);
    for i := 0 to |s|
      invariant out.text + Escaped(s[i..]) == all
    {
      assert s[i..][1..] == s[i + 1..];
      Shift(out.text, EscapeChar(s[i]), Escaped(s[i + 1..]), all);
      out.Push(EscapeChar(s[i]));
    }
    assert Escaped(s[|s|..]) == "";
    assert out.text == all;
    out.Push("\"");
    assert all + "\"" == old(out.text) + StrText(s);
  }

  method WriteCanonical(v: Json, out: StringBuffer)
    modifies out
    ensures out.text == old(out.text) + ValueText(v)
    decreases v, 1
  {
    match v
    case JObj(fields) => WriteObject(v, out);
    case JArr(items) => WriteArray(v, out);
    case JStr(s) => WriteJsonString(s, out);
    case JNull => out.Push("null");
    case JBool(b) => out.Push(if b then "true" else "false");
    case JNum(n) => out.Push(NumText(n));
  }

  lemma MemberWritten(v: Json, ks: seq<string>, i: nat, was: string, all: string)
    requires v.JObj? && i < |ks| && forall k <- ks :: k in v.fields
    requires was + FieldsText(v, ks, i) == all
    ensures was + Separator(i) + StrText(ks[i]) + ":" + ValueText(v.fields[ks[i]]) + FieldsText(v, ks, i + 1) == all
  {
    var value := ValueText(v.fields[ks[i]]);
    Gather(was, Separator(i), StrText(ks[i]), ":", value);
    Shift(was, MemberText(Separator(i), ks[i], value), FieldsText(v, ks, i + 1), all);
  }

  lemma ElementWritten(v: Json, i: nat, was: string, all: string)
    requires v.JArr? && i < |v.items|
    requires was + ItemsText(v, i) == all
    ensures was + Separator(i) + ValueText(v.items[i]) + ItemsText(v, i + 1) == all
  {
    assert ItemsText(v, i) == Separator(i) + ValueText(v.items[i]) + ItemsText(v, i + 1);
    hide ItemsText, ValueText, Separator;
    Enclose(was, Separator(i), ValueText(v.items[i]), ItemsText(v, i + 1));
  }

  lemma ObjectText(v: Json, sorted: seq<string>)
    requires v.JObj? && sorted == Sorted(v.fields.Keys)
    ensures ValueText(v) == "{" + FieldsText(v, sorted, 0) + "}"
    ensures FieldsText(v, sorted, |sorted|) == ""
  {
    hide Sorted;
  }

  /** The `Value::Object` arm of `write_canonical`. */
  method WriteObject(v: Json, out: StringBuffer)
    requires v.JObj?
    modifies out
    ensures out.text == old(out.text) + ValueText(v)
    decreases v, 0
  {
    hide ValueText, FieldsText, Sorted, StrText, Separator;
    var sorted := Sorted(v.fields.Keys);
    ObjectText(v, sorted);
    out.Push("{");
    ghost var all := out.text + FieldsText(v, sorted, 0);
    for i := 0 to |sorted|
      invariant out.text + FieldsText(v, sorted, i) == all
    {
      MemberWritten(v, sorted, i, out.text, all);
      WriteSeparator(i, out);
      WriteJsonString(sorted[i], out);
      out.Push(":");
      WriteCanonical(v.fields[sorted[i]], out);
    }
    out.Push("}");
    Enclose(old(out.text), "{", FieldsText(v, sorted, 0), "}");
  }

  /** The `Value::Array` arm of `write_canonical`. */
  method WriteArray(v: Json, out: StringBuffer)
    requires v.JArr?
    modifies out
    ensures out.text == old(out.text) + ("[" + ItemsText(v, 0) + "]")
    decreases v, 0
  {
    hide ValueText, Separator;
    out.Push("[");
    ghost var all := out.text + ItemsText(v, 0);
    for i := 0 to |v.items|
      invariant out.text + ItemsText(v, i) == all
    {
      ElementWritten(v, i, out.text, all);
      WriteSeparator(i, out);
      WriteCanonical(v.items[i], out);
    }
    out.Push("]");
    Enclose(old(out.text), "[", ItemsText(v, 0), "]");
  }
}
