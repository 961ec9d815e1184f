/** A recursive-descent parser for RFC 8259 texts whose numbers are integers: the
    specification side of the printer's round trip and of the tolerant reader.
    Each function consumes a prefix of its input and returns what is left. */
module JsonParser {
  import opened Text
  import opened Json

  datatype Parsed<+T> = Parsed(value: T, rest: string)

  predicate IsWhitespace(c: char) {
    c == ' ' || c == '\t' || c == '\n' || c == '\r'
  }

  function SkipWs(s: string): (t: string)
    ensures |t| <= |s|
    ensures t != [] ==> !IsWhitespace(t[0])
  {
    if s != [] && IsWhitespace(s[0]) then SkipWs(s[1..]) else s
  }

  // ---- Numbers (section 6) -------------------------------------------------

  predicate IsDigit(c: char) { '0' <= c <= '9' }

  function DigitRun(s: string): (n: nat)
    ensures n <= |s|
    ensures forall i :: 0 <= i < n ==> IsDigit(s[i])
    ensures n < |s| ==> !IsDigit(s[n])
  {
    if s == [] || !IsDigit(s[0]) then 0 else 1 + DigitRun(s[1..])
  }

  function Decimal(ds: string): nat
    requires forall d <- ds :: IsDigit(d)
  {
    if ds == [] then 0
    else
      assert IsDigit(ds[|ds| - 1]);
      10 * Decimal(ds[..|ds| - 1]) + (ds[|ds| - 1] as int - '0' as int)
  }

  /** Whether `c` would turn an integer into a fraction or an exponent. */
  predicate ContinuesNumber(c: char) {
    c == '.' || c == 'e' || c == 'E'
  }

  /** How many leading characters form an integer: a lone zero or a run of digits, not
      continued by a fraction or an exponent. */
  function IntegerEnd(t: string): (r: Option<nat>)
    ensures r.Some? ==> 0 < r.value <= |t| && forall i :: 0 <= i < r.value ==> IsDigit(t[i])
  {
    var run := DigitRun(t);
    if run == 0 then None
    else
      var n := if t[0] == '0' then 1 else run;
      if n < |t| && ContinuesNumber(t[n]) then None else Some(n)
  }

  /** `-0` denotes a floating-point value, so it is refused like a fraction. */
  function ParseNumber(s: string): (r: Option<Parsed<Json>>)
    ensures r.Some? ==> |r.value.rest| < |s| && r.value.value.JNum?
  {
    if s != [] && s[0] == '-' then
      match IntegerEnd(s[1..])
      case None => None
      case Some(n) =>
        var magnitude: int := Decimal(s[1..][..n]);
        if magnitude == 0 then None else Some(Parsed(JNum(-magnitude), s[1..][n..]))
    else
      match IntegerEnd(s)
      case None => None
      case Some(n) => Some(Parsed(JNum(Decimal(s[..n])), s[n..]))
  }

  // ---- Strings (section 7) -------------------------------------------------

  function HexValue(c: char): Option<nat> {
    if IsDigit(c) then Some(c as int - '0' as int)
    else if 'a' <= c <= 'f' then Some(c as int - 'a' as int + 10)
    else if 'A' <= c <= 'F' then Some(c as int - 'A' as int + 10)
    else None
  }

  /** Four hexadecimal digits at the front of `s`. */
  function Hex4(s: string): (r: Option<nat>)
    ensures r.Some? ==> r.value < 0x10000 && |s| >= 4
  {
    if |s| < 4 then None
    else
      match (HexValue(s[0]), HexValue(s[1]), HexValue(s[2]), HexValue(s[3]))
      case (Some(a), Some(b), Some(c), Some(d)) =>
        if a < 16 && b < 16 && c < 16 && d < 16 then Some(((a * 16 + b) * 16 + c) * 16 + d) else None
      case _ => None
  }

  /** The UTF-8 octets of a Unicode scalar value. */
  function Utf8(u: nat): string
    requires u < 0x110000
  {
    if u < 0x80 then [u as char]
    else if u < 0x800 then [(0xC0 + u / 0x40) as char, (0x80 + u % 0x40) as char]
    else if u < 0x10000 then
      [(0xE0 + u / 0x1000) as char, (0x80 + u / 0x40 % 0x40) as char, (0x80 + u % 0x40) as char]
    else
      [(0xF0 + u / 0x40000) as char, (0x80 + u / 0x1000 % 0x40) as char,
       (0x80 + u / 0x40 % 0x40) as char, (0x80 + u % 0x40) as char]
  }

  /** What follows a backslash: one escaped character and the rest of the input. */
  function ParseEscape(s: string): (r: Option<Parsed<string>>)
    ensures r.Some? ==> |r.value.rest| < |s|
  {
    if s == [] then None
    else
      match s[0]
      case '\"' => Some(Parsed("\"", s[1..]))
      case '\\' => Some(Parsed("\\", s[1..]))
      case '/' => Some(Parsed("/", s[1..]))
      case 'b' => Some(Parsed("\U{8}", s[1..]))
      case 'f' => Some(Parsed("\U{C}", s[1..]))
      case 'n' => Some(Parsed("\n", s[1..]))
      case 'r' => Some(Parsed("\r", s[1..]))
      case 't' => Some(Parsed("\t", s[1..]))
      case 'u' => ParseUnicodeEscape(s)
      case _ => None
  }

  /** `uXXXX`, or a surrogate pair `uXXXX\uXXXX`; a lone surrogate is refused. */
  function ParseUnicodeEscape(s: string): (r: Option<Parsed<string>>)
    requires s != []
    ensures r.Some? ==> |r.value.rest| < |s|
  {
    match Hex4(s[1..])
    case None => None
    case Some(u) =>
      if u < 0xD800 || 0xDFFF < u then Some(Parsed(Utf8(u), s[5..]))
      else if 0xDBFF < u || |s| < 7 || s[5] != '\\' || s[6] != 'u' then None
      else
        match Hex4(s[7..])
        case None => None
        case Some(low) =>
          if low < 0xDC00 || 0xDFFF < low then None
          else Some(Parsed(Utf8(0x10000 + (u - 0xD800) * 0x400 + (low - 0xDC00)), s[11..]))
  }

  /** The characters after an opening quote, up to and past the closing one. */
  function ParseString(s: string): (r: Option<Parsed<string>>)
    ensures r.Some? ==> |r.value.rest| < |s|
  {
    if s == [] then None
    else if s[0] == '\"' then Some(Parsed("", s[1..]))
    else if s[0] == '\\' then
      match ParseEscape(s[1..])
      case None => None
      case Some(Parsed(c, t)) =>
        match ParseString(t)
        case None => None
        case Some(Parsed(cs, rest)) => Some(Parsed(c + cs, rest))
    else if s[0] as int < 0x20 then None
    else
      match ParseString(s[1..])
      case None => None
      case Some(Parsed(cs, rest)) => Some(Parsed([s[0]] + cs, rest))
  }

  // ---- Values, arrays and objects (sections 3 to 5) ------------------------

  function ParseLiteral(s: string, name: string, v: Json): (r: Option<Parsed<Json>>)
    requires name != []
    ensures r.Some? ==> |r.value.rest| < |s|
  {
    if HasPrefix(s, name) then Some(Parsed(v, s[|name|..])) else None
  }

  function ParseValue(s: string): (r: Option<Parsed<Json>>)
    ensures r.Some? ==> |r.value.rest| < |s|
    decreases |s|, 1
  {
    var t := SkipWs(s);
    if t == [] then None
    else
      match t[0]
      case '{' =>
        var body := SkipWs(t[1..]);
        if HasPrefix(body, "}") then Some(Parsed(JObj(map[]), body[1..])) else ParseMembers(body, map[])
      case '[' =>
        var body := SkipWs(t[1..]);
        if HasPrefix(body, "]") then Some(Parsed(JArr([]), body[1..])) else ParseElements(body, [])
      case '\"' =>
        (match ParseString(t[1..])
         case None => None
         case Some(Parsed(cs, rest)) => Some(Parsed(JStr(cs), rest)))
      case 't' => ParseLiteral(t, "true", JBool(true))
      case 'f' => ParseLiteral(t, "false", JBool(false))
      case 'n' => ParseLiteral(t, "null", JNull)
      case _ => ParseNumber(t)
  }

  /** One or more elements and the closing bracket, after the elements `before`. */
  function ParseElements(s: string, before: seq<Json>): (r: Option<Parsed<Json>>)
    ensures r.Some? ==> |r.value.rest| < |s| && r.value.value.JArr?
    decreases |s|, 2
  {
    match ParseValue(s)
    case None => None
    case Some(Parsed(v, rest)) =>
      var t := SkipWs(rest);
      if HasPrefix(t, ",") then ParseElements(t[1..], before + [v])
      else if HasPrefix(t, "]") then Some(Parsed(JArr(before + [v]), t[1..]))
      else None
  }

  /** One or more members and the closing brace; a repeated key keeps its last value. */
  function ParseMembers(s: string, before: map<string, Json>): (r: Option<Parsed<Json>>)
    ensures r.Some? ==> |r.value.rest| < |s| && r.value.value.JObj?
    decreases |s|, 0
  {
    if !HasPrefix(s, "\"") then None
    else
      match ParseString(s[1..])
      case None => None
      case Some(Parsed(key, afterKey)) =>
        var t := SkipWs(afterKey);
        if !HasPrefix(t, ":") then None
        else
          match ParseValue(t[1..])
          case None => None
          case Some(Parsed(v, afterValue)) =>
            var u := SkipWs(afterValue);
            if HasPrefix(u, ",") then ParseMembers(SkipWs(u[1..]), before[key := v])
            else if HasPrefix(u, "}") then Some(Parsed(JObj(before[key := v]), u[1..]))
            else None
  }

  /** A whole text: one value with nothing but whitespace around it. */
  function ParseText(s: string): Option<Json> {
    match ParseValue(s)
    case None => None
    case Some(Parsed(v, rest)) => if SkipWs(rest) == [] then Some(v) else None
  }
}
