/** Texts and records with a known meaning: what the formats' own documentation and tests give as
    examples, and what a reader makes of input no writer here produces. */
module KnownTexts {
  import opened Text
  import opened Json
  import opened JsonParser
  import opened Canonical
  import CanonicalProofs
  import Sha256
  import opened Sha256Vectors
  import opened BlobRef
  import S3Listing
  import opened FoldAttempts
  import opened Fold

  // ---- Addresses -----------------------------------------------------------

  lemma FileReference()
    ensures Print(BlobRef("file", "/var/lib/dagr/blobs", KeyFor(ABC))) ==
            "dagr-blob+file://" + "/var/lib/dagr/blobs" + "/sha256/" + ABC_HEX
    ensures Parse("dagr-blob+file://" + "/var/lib/dagr/blobs" + "/sha256/" + ABC_HEX) ==
            Ok(BlobRef("file", "/var/lib/dagr/blobs", KeyFor(ABC)))
  {
    hide KeyFor, Parse, Print, ABC_HEX, ABC, Expressible;
    AbcKey();
    FilePrints(KeyFor(ABC));
    FileExpressible();
    ParsePrints(BlobRef("file", "/var/lib/dagr/blobs", KeyFor(ABC)));
  }

  lemma FilePrints(key: BlobKey)
    requires key.algorithm == "sha256"
    ensures Print(BlobRef("file", "/var/lib/dagr/blobs", key)) ==
            "dagr-blob+file://" + "/var/lib/dagr/blobs" + "/sha256/" + key.hex
  {
    assert "dagr-blob+" + "file" + "://" == "dagr-blob+file://" && "/" + "sha256" + "/" == "/sha256/";
    Regroup("dagr-blob+" + "file" + "://", "/var/lib/dagr/blobs", "/", "sha256", "/", key.hex);
  }

  lemma Regroup(a: string, b: string, c: string, d: string, e: string, f: string)
    ensures a + b + c + d + e + f == a + b + (c + d + e) + f
  {}

  lemma FileExpressible()
    ensures Expressible(BlobRef("file", "/var/lib/dagr/blobs", KeyFor(ABC)))
  {
    hide KeyFor, ValidKey, ABC, Contains;
    FileIsABackend();
    ComputedKeysAreValid(ABC);
  }

  lemma FileIsABackend()
    ensures !Contains("file", "://")
  {
    NoColonNoScheme("file");
  }

  lemma {:induction false} NoColonNoScheme(s: string)
    requires ':' !in s
    ensures !Contains(s, "://")
  {
    assert |s| >= 3 ==> s[..3][0] == s[0] && s[0] in s;
    if s != [] { NoColonNoScheme(s[1..]); }
  }

  /** Where an object lies in a bucket, and how its container is named. */
  lemma BucketLayout(hex: string)
    ensures S3Listing.ObjectKey(S3Listing.S3Config("bucket", "a/b"), BlobKey("sha256", hex)) == "a/b/sha256/" + hex
    ensures S3Listing.ObjectKey(S3Listing.S3Config("bucket", ""), BlobKey("sha256", hex)) == "sha256/" + hex
    ensures S3Listing.Container(S3Listing.S3Config("bucket", "a/b")) == "bucket/a/b"
    ensures S3Listing.Container(S3Listing.S3Config("bucket", "")) == "bucket"
  {
    assert "a/b" + "/" + "sha256" + "/" + hex == "a/b/sha256/" + hex;
    assert "sha256" + "/" + hex == "sha256/" + hex;
    assert "bucket" + "/" + "a/b" == "bucket/a/b";
  }

  // ---- A listing page ------------------------------------------------------

  lemma {:induction false} PlainText(text: string)
    requires forall c <- text :: c !in "<>\"'&"
    ensures S3Listing.Escaped(S3Listing.EscapeAll(text)) == text
  {
    if text != [] {
      assert text[0] in text && forall c <- text[1..] :: c in text;
      PlainText(text[1..]);
      assert text == [text[0]] + text[1..];
    }
  }

  /** A page listing one object and naming the next page, as the protocol spells it. */
  lemma PageText(key: string, token: string)
    requires (forall c <- key :: c !in "<>\"'&") && forall c <- token :: c !in "<>\"'&"
    ensures S3Listing.Render(S3Listing.OneKeyPage(key, token)) ==
            "<" + "Key" + ">" + key + "</" + "Key" + ">"
            + ("<" + "NextContinuationToken" + ">" + token + "</" + "NextContinuationToken" + ">" + "")
  {
    hide S3Listing.EscapeAll, S3Listing.Escaped, S3Listing.Render, S3Listing.Element;
    PlainText(key);
    PlainText(token);
    ElementText("Key", key, S3Listing.Element("NextContinuationToken", token) + []);
    ElementText("NextContinuationToken", token, []);
    NothingRendered();
  }

  lemma NothingRendered()
    ensures S3Listing.Render([]) == ""
  {}

  lemma ElementText(tag: string, text: string, rest: seq<S3Listing.Item>)
    requires S3Listing.Escaped(S3Listing.EscapeAll(text)) == text
    ensures S3Listing.Render(S3Listing.Element(tag, text) + rest) ==
            "<" + tag + ">" + text + "</" + tag + ">" + S3Listing.Render(rest)
  {
    hide S3Listing.EscapeAll, S3Listing.Escaped, S3Listing.Render;
    var items := S3Listing.Element(tag, text);
    ThreeItems(items[0], items[1], items[2], rest);
    assert items == [items[0], items[1], items[2]];
  }

  lemma ThreeItems(a: S3Listing.Item, b: S3Listing.Item, c: S3Listing.Item, rest: seq<S3Listing.Item>)
    ensures S3Listing.Render([a, b, c] + rest) ==
            S3Listing.RenderItem(a) + S3Listing.RenderItem(b) + S3Listing.RenderItem(c) + S3Listing.Render(rest)
  {
    hide S3Listing.RenderItem, S3Listing.Render;
    var items := [a, b, c] + rest;
    S3Listing.RenderFirst(items, 0);
    S3Listing.RenderFirst(items, 1);
    S3Listing.RenderFirst(items, 2);
    assert items[0..] == items && items[3..] == rest;
  }

  /** The five predefined entities, by name. */
  lemma FiveEntities()
    ensures S3Listing.DecodeEntities("&lt;") == "<" && S3Listing.DecodeEntities("&gt;") == ">"
    ensures S3Listing.DecodeEntities("&quot;") == "\"" && S3Listing.DecodeEntities("&apos;") == "'"
    ensures S3Listing.DecodeEntities("&amp;") == "&"
  {
    hide S3Listing.DecodeEntities;
    OneEntity('<');
    OneEntity('>');
    OneEntity('"');
    OneEntity('\'');
    OneEntity('&');
  }

  lemma OneEntity(c: char)
    requires c in S3Listing.ESCAPABLE
    ensures S3Listing.DecodeEntities(S3Listing.EntityName(c)) == [c]
  {
    hide S3Listing.DecodeEntities, S3Listing.EntityName, S3Listing.ESCAPABLE;
    var ts := [S3Listing.Entity(c)];
    S3Listing.DecodingInvertsEscaping(ts);
    assert ts[1..] == [];
    assert S3Listing.Escaped([]) == "" && S3Listing.Unescaped([]) == "";
    assert S3Listing.EntityName(c) + "" == S3Listing.EntityName(c) && [c] + "" == [c];
  }

  // ---- JSON no writer here produces ----------------------------------------

  /** Every escape of section 7 of RFC 8259. */
  lemma ShortEscapesRead(rest: string)
    ensures ParseEscape("\"" + rest) == Some(Parsed("\"", rest)) && ParseEscape("\\" + rest) == Some(Parsed("\\", rest))
    ensures ParseEscape("/" + rest) == Some(Parsed("/", rest)) && ParseEscape("b" + rest) == Some(Parsed("\U{8}", rest))
    ensures ParseEscape("f" + rest) == Some(Parsed("\U{C}", rest))
    ensures ParseEscape("n" + rest) == Some(Parsed("\n", rest))
    ensures ParseEscape("r" + rest) == Some(Parsed("\r", rest)) && ParseEscape("t" + rest) == Some(Parsed("\t", rest))
    ensures ParseEscape("x" + rest) == None
  {
    hide ParseUnicodeEscape;
    Drop("\"", rest);
    Drop("\\", rest);
    Drop("/", rest);
    Drop("b", rest);
    Drop("f", rest);
    Drop("n", rest);
    Drop("r", rest);
    Drop("t", rest);
    Drop("x", rest);
  }

  lemma Drop(c: string, rest: string)
    requires |c| == 1
    ensures c + rest != [] && (c + rest)[0] == c[0] && (c + rest)[1..] == rest
  {}

  /** Four hexadecimal digits of either case, and two of them for a character beyond the first
      plane; half of such a pair is refused alone. */
  lemma UnicodeEscapesRead(rest: string)
    ensures ParseUnicodeEscape("u" + "0041" + rest) == Some(Parsed("A", rest))
    ensures ParseUnicodeEscape("u" + "00e9" + rest) == Some(Parsed("\U{C3}\U{A9}", rest))
    ensures ParseUnicodeEscape("u" + "20AC" + rest) == Some(Parsed("\U{E2}\U{82}\U{AC}", rest))
    ensures ParseUnicodeEscape("u" + "D83D" + "\\u" + "DE00" + rest) == Some(Parsed("\U{F0}\U{9F}\U{98}\U{80}", rest))
    ensures rest == [] || rest[0] != '\\' ==> ParseUnicodeEscape("u" + "D83D" + rest) == None
    ensures ParseUnicodeEscape("u" + "DE00" + rest) == None
  {
    hide Hex4, Utf8, ParseUnicodeEscape;
    FiveHex();
    FourEncodings();
    OneUnit("0041", rest, 0x41);
    OneUnit("00e9", rest, 0xe9);
    OneUnit("20AC", rest, 0x20ac);
    TwoUnits("D83D", "DE00", rest, 0xd83d, 0xde00);
    if rest == [] || rest[0] != '\\' { HalfRefused("D83D", rest, 0xd83d); }
    HalfRefused("DE00", rest, 0xde00);
  }

  lemma OneUnit(digits: string, rest: string, n: nat)
    requires |digits| == 4 && Hex4(digits) == Some(n) && !(0xD800 <= n <= 0xDFFF)
    ensures ParseUnicodeEscape("u" + digits + rest) == Some(Parsed(Utf8(n), rest))
  {
    hide Hex4, Utf8;
    var s := "u" + digits + rest;
    FourDigits(digits, rest, n);
    assert s[1..] == digits + rest && s[5..] == rest;
  }

  lemma TwoUnits(high: string, low: string, rest: string, n: nat, m: nat)
    requires |high| == 4 && |low| == 4 && Hex4(high) == Some(n) && Hex4(low) == Some(m)
    requires 0xD800 <= n <= 0xDBFF && 0xDC00 <= m <= 0xDFFF
    ensures ParseUnicodeEscape("u" + high + "\\u" + low + rest) ==
            Some(Parsed(Utf8(0x10000 + (n - 0xD800) * 0x400 + (m - 0xDC00)), rest))
  {
    hide Hex4, Utf8;
    var s := "u" + high + "\\u" + low + rest;
    FourDigits(high, "\\u" + low + rest, n);
    FourDigits(low, rest, m);
    assert s[1..] == high + ("\\u" + low + rest) && s[7..] == low + rest && s[11..] == rest;
    assert s[5] == '\\' && s[6] == 'u';
  }

  lemma HalfRefused(digits: string, rest: string, n: nat)
    requires |digits| == 4 && Hex4(digits) == Some(n) && 0xD800 <= n <= 0xDFFF
    requires n >= 0xDC00 || rest == [] || rest[0] != '\\'
    ensures ParseUnicodeEscape("u" + digits + rest) == None
  {
    hide Hex4, Utf8;
    var s := "u" + digits + rest;
    FourDigits(digits, rest, n);
    assert s[1..] == digits + rest;
    assert |s| > 5 ==> s[5] == rest[0];
  }

  lemma FiveHex()
    ensures Hex4("0041") == Some(0x41) && Hex4("00e9") == Some(0xe9) && Hex4("20AC") == Some(0x20ac)
    ensures Hex4("D83D") == Some(0xd83d) && Hex4("DE00") == Some(0xde00)
  {}

  lemma FourDigits(digits: string, rest: string, n: nat)
    requires |digits| == 4 && Hex4(digits) == Some(n)
    ensures Hex4(digits + rest) == Some(n)
  {}

  lemma FourEncodings()
    ensures Utf8(0x41) == "A" && Utf8(0xe9) == "\U{C3}\U{A9}" && Utf8(0x20ac) == "\U{E2}\U{82}\U{AC}"
    ensures Utf8(0x1F600) == "\U{F0}\U{9F}\U{98}\U{80}"
  {}

  /** Fractions and exponents are refused, and so is a zero with a sign; a leading zero ends the
      number. */
  lemma NumbersRead()
    ensures ParseNumber("1.5") == None && ParseNumber("1e3") == None && ParseNumber("1E3") == None
    ensures ParseNumber("-0") == None && ParseNumber("-") == None
    ensures ParseNumber("01") == Some(Parsed(JNum(0), "1")) && ParseNumber("-12,") == Some(Parsed(JNum(-12), ","))
  {
    hide Decimal;
    Runs();
    assert "1.5"[..1] == "1" && "01"[..1] == "0" && "-12,"[1..] == "12," && "12,"[..2] == "12" && "-0"[1..] == "0";
    assert "0"[..1] == "0" && "12,"[2..] == "," && "01"[1..] == "1" && "-"[1..] == "";
    Decimals();
  }

  lemma Decimals()
    ensures Decimal("0") == 0 && Decimal("12") == 12
  {
    assert "12"[..1] == "1" && "1"[..0] == "" && "0"[..0] == "";
    assert Decimal("1") == 1;
  }

  lemma Runs()
    ensures DigitRun("1.5") == 1 && DigitRun("1e3") == 1 && DigitRun("1E3") == 1 && DigitRun("0") == 1
    ensures DigitRun("01") == 2 && DigitRun("12,") == 2 && DigitRun("") == 0
  {
    assert "1.5"[1..] == ".5" && "1e3"[1..] == "e3" && "1E3"[1..] == "E3" && "0"[1..] == "";
    assert "01"[1..] == "1" && "1"[1..] == "" && "12,"[1..] == "2," && "2,"[1..] == ",";
  }

  predicate Blank(s: string) { forall c <- s :: c in " \t\n\r" }

  lemma {:induction false} BlankSkipped(s: string, rest: string)
    requires Blank(s)
    ensures SkipWs(s + rest) == SkipWs(rest)
  {
    if s == [] {
      assert s + rest == rest;
    } else {
      assert s[0] in s && forall c <- s[1..] :: c in s;
      assert (s + rest)[1..] == s[1..] + rest;
      BlankSkipped(s[1..], rest);
    }
  }

  /** White space around a value does not matter. */
  lemma BlanksDoNotMatter(before: string, v: Json, after: string)
    requires Blank(before) && Blank(after)
    ensures ParseText(before + (ValueText(v) + after)) == Some(v)
  {
    hide ParseValue, ValueText, SkipWs;
    var text := ValueText(v) + after;
    CanonicalProofs.ReadValue(v, after) by { BlankEndsNumber(after); }
    CanonicalProofs.SkippedValue(before + text);
    CanonicalProofs.SkippedValue(text);
    BlankSkipped(before, text);
    BlankSkipped(after, "");
    assert after + "" == after && SkipWs("") == "";
  }

  lemma BlankEndsNumber(s: string)
    requires Blank(s)
    ensures CanonicalProofs.EndsNumber(s)
  {
    if s != [] { assert s[0] in s; }
  }

  /** A repeated key keeps its last value. */
  lemma RepeatedKey(key: string, v: Json, w: Json)
    ensures ParseText("{" + (StrText(key) + ":" + ValueText(v) + ("," + (StrText(key) + ":" + ValueText(w) + "}")))) ==
            Some(JObj(map[key := w]))
  {
    hide ParseValue, ParseMembers, ParseString, ValueText, Escaped, SkipWs;
    var last := StrText(key) + ":" + ValueText(w) + "}";
    var both := StrText(key) + ":" + ValueText(v) + ("," + last);
    OneMember(key, v, "," + last, map[]);
    OneMember(key, w, "}", map[key := v]);
    assert both[0] == '\"' && last[0] == '\"';
    CanonicalProofs.StepOpenObject(both);
    assert ("," + last)[1..] == last && "}"[1..] == "";
    assert map[key := v][key := w] == map[key := w];
    CanonicalProofs.SkippedValue("{" + both);
    assert SkipWs("") == "" by { BlankSkipped("", ""); }
  }

  lemma OneMember(key: string, v: Json, after: string, before: map<string, Json>)
    requires after != [] && (after[0] == '}' || (after[0] == ',' && |after| > 1 && !IsWhitespace(after[1])))
    ensures var s := StrText(key) + ":" + ValueText(v) + after;
            ParseMembers(s, before) ==
            if after[0] == ',' then ParseMembers(after[1..], before[key := v])
            else Some(Parsed(JObj(before[key := v]), after[1..]))
  {
    hide ParseValue, ParseMembers, ParseString, ValueText, Escaped, SkipWs;
    var s := StrText(key) + ":" + ValueText(v) + after;
    CanonicalProofs.ReadString(key, ":" + (ValueText(v) + after));
    CanonicalProofs.ReadValue(v, after);
    assert s[1..] == Escaped(key) + "\"" + (":" + (ValueText(v) + after));
    CanonicalProofs.StepMembers(s, before, key, ValueText(v) + after, v, after);
  }

  /** The widths the readers narrow numbers to. */
  lemma Widths()
    ensures GetU64(JObj(map["n" := JNum(0x1_0000_0000_0000_0000)]), "n") == None
    ensures GetU64(JObj(map["n" := JNum(0xFFFF_FFFF_FFFF_FFFF)]), "n") == Some(0xFFFF_FFFF_FFFF_FFFF)
    ensures GetU64(JObj(map["n" := JNum(-1)]), "n") == None
    ensures GetU32(JObj(map["n" := JNum(0x1_0000_0000)]), "n") == None
    ensures GetU32(JObj(map["n" := JNum(0xFFFF_FFFF)]), "n") == Some(0xFFFF_FFFF)
  {}

  /** The readers take a value of their own type only. */
  lemma Types(v: Json, b: bool)
    ensures GetBool(JObj(map["f" := JBool(b)]), "f") == Some(b)
    ensures v.JStr? || v.JNum? || v.JArr? || v.JObj? || v.JNull? ==> GetBool(JObj(map["f" := v]), "f") == None
    ensures GetBool(v, "f").Some? ==> v.JObj? && "f" in v.fields
  {}

  // ---- Records no writer here produces --------------------------------------

  /** A bare outcome: attempt 1, failed, by an unknown worker, with nothing else. */
  lemma BareOutcome(s: Scan)
    ensures var rec := JObj(map["kind" := JStr("attempt-outcome"), "node" := JStr("n")]);
            BuildAttemptRecord(rec, "n", s) ==
            AttemptRecord("n", 1, "failed", BuildAttemptRecord(rec, "n", s).phases, "unknown", None, None,
                          JObj(map[]), None, None, None, None, None, None, [])
  {
    hide PhasesOf;
  }

  /** A bare terminal record of a node that never ran. */
  lemma BareTerminal()
    ensures var rec := JObj(map["kind" := JStr("node-terminal"), "node" := JStr("n")]);
            SynthesizeNeverRan("n", rec) ==
            AttemptRecord("n", 1, "upstream-failed", Phases(0, 0, 0, 0), "unknown", None, None,
                          JObj(map[]), None, None, None, None, None, None, [])
  {}

  /** The row of a node only the graph lists. */
  lemma GraphOnly(n: string)
    ensures RosterRow(n) ==
            AttemptRecord(n, 1, "upstream-failed", Phases(0, 0, 0, 0), "unknown", None, None,
                          JObj(map[]), None, None, None, None, None, None, [])
  {}

  /** A terminal record may say more of such a node than its state. */
  lemma FullTerminal(m: string, e: Json, r: Json, h: Json, o: string, f: string)
    requires e != JNull && r != JNull && h != JNull
    ensures var rec := JObj(map["node" := JStr("n"), "state" := JStr("skipped"), "message" := JStr(m), "error" := e,
                                "durable_reference" := r, "durable_reference_meta" := h,
                                "satisfied_from_run" := JStr(f), "originating_node" := JStr(o)]);
            SynthesizeNeverRan("n", rec) ==
            AttemptRecord("n", 1, "skipped", Phases(0, 0, 0, 0), "unknown", Some(m), Some(e),
                          JObj(map[]), None, None, Some(r), Some(h), Some(f), Some(o), [])
  {}

  /** A worker is named by its own field, else by pool and thread, the thread as number or text. */
  lemma Workers()
    ensures WorkerOf(JObj(map["worker" := JStr("w"), "pool" := JStr("p"), "thread" := JNum(3)])) == "w"
    ensures WorkerOf(JObj(map["pool" := JStr("p"), "thread" := JNum(3)])) == "p#3"
    ensures WorkerOf(JObj(map["pool" := JStr("p"), "thread" := JStr("t")])) == "p#t"
    ensures WorkerOf(JObj(map["pool" := JStr("p")])) == "p"
    ensures WorkerOf(JObj(map["thread" := JStr("t")])) == "unknown#t"
    ensures WorkerOf(JObj(map[])) == "unknown"
  {
    assert Digits(3) == "3";
  }

  /** A record without an offset counts as made at 0, one without a kind is passed over. */
  lemma BareRecord()
    ensures OffsetOf(JObj(map[])) == 0 && KindOf(JObj(map[])) == KOther
  {}

  /** A bare output is taken at its record's own offset. */
  lemma BareOutput(offset: nat)
    requires offset < U64_LIMIT
    ensures OutputOf(JObj(map["kind" := JStr("output-produced"), "offset_ns" := JNum(offset)])) ==
            ProducedOutput("", 1, "", None, None, None, offset, "")
  {}

  /** A bare run-finished means success; its errors are the texts it lists. */
  lemma Endings()
    ensures OverallOutcome(Some(JObj(map["kind" := JStr("run-finished")]))) == "succeeded"
    ensures ErrorsOf(Some(JObj(map["errors" := JArr([JStr("a"), JNum(1), JStr("b")])]))) == ["a", "b"]
  {
    var items := [JStr("a"), JNum(1), JStr("b")];
    assert items[1..] == [JNum(1), JStr("b")] && items[1..][1..] == [JStr("b")] && items[1..][1..][1..] == [];
    assert StringsIn([]) == [] && StringsIn([JStr("b")]) == ["b"];
  }

  /** A header that is no object publishes as one with the outcome alone, errors listed. */
  lemma ErrorsPublished(a: RunArtifact)
    requires a.errors != []
    ensures var header := Get(DocumentOf(a), "header");
            && header.Some? && GetStr(header.value, "overall_outcome") == Some(a.overallOutcome)
            && GetArr(header.value, "errors").Some?
            && var errors := GetArr(header.value, "errors").value;
               |errors| == |a.errors| && forall i :: 0 <= i < |errors| ==> errors[i] == JStr(a.errors[i])
  {
    hide AttemptValue, OutputValue, SummaryValue;
  }

  /** The document names the reader that made it and the streams it accepts. */
  lemma ReaderPublished(a: RunArtifact)
    ensures Get(DocumentOf(a), "fold_reader") ==
            Some(JObj(map["version" := JStr("dagr.run-fold@1"), "accepts" := JArr([JStr("dagr.event-stream@1")]),
                          "interrupted" := JBool(a.interrupted)]))
  {
    hide AttemptValue, OutputValue, SummaryValue;
    assert StrArray(["dagr.event-stream@1"]) == JArr([JStr("dagr.event-stream@1")]);
  }
}
