/** Enumerating an object-store container: XML scraps, paging, and object keys. */
module S3Listing {
  import opened Text
  import opened BlobRef

  // ---- Entities ------------------------------------------------------------

  /** `str::replace`: leftmost, non-overlapping. */
  function Replace(s: string, pattern: string, with: string): string
    requires pattern != []
  {
    if HasPrefix(s, pattern) then with + Replace(s[|pattern|..], pattern, with)
    else if s == [] then []
    else [s[0]] + Replace(s[1..], pattern, with)
  }

  const ESCAPABLE: set<char> := {'<', '>', '"', '\'', '&'}

  /** The predefined entity of a character (section 4.6 of XML 1.0). */
  function EntityName(c: char): (n: string)
    ensures n != [] && n[0] == '&' && '&' !in n[1..]
  {
    match c
    case '<' => "&lt;"
    case '>' => "&gt;"
    case '"' => "&quot;"
    case '\'' => "&apos;"
    case _ => "&amp;"
  }

  /** Five replacements, one after another, the ampersand last. */
  function DecodeEntities(text: string): string {
    var lt := Replace(text, EntityName('<'), "<");
    var gt := Replace(lt, EntityName('>'), ">");
    var quot := Replace(gt, EntityName('"'), "\"");
    var apos := Replace(quot, EntityName('\''), "'");
    Replace(apos, EntityName('&'), "&")
  }

  /** One character of escaped text: as itself, or as its entity. */
  datatype Token = Plain(c: char) | Entity(c: char)

  /** What an XML writer must escape it escapes; what it may escape it may leave. */
  predicate WellEscaped(ts: seq<Token>) {
    forall t <- ts :: match t
                      case Plain(c) => c != '&' && c != '<'
                      case Entity(c) => c in ESCAPABLE
  }

  /** The text with the entities of `done` already decoded. */
  function Partly(ts: seq<Token>, done: set<char>): string {
    if ts == [] then [] else PartlyOne(ts[0], done) + Partly(ts[1..], done)
  }

  function PartlyOne(t: Token, done: set<char>): string {
    if t.Plain? || t.c in done then [t.c] else EntityName(t.c)
  }

  function Escaped(ts: seq<Token>): string { Partly(ts, {}) }

  function Unescaped(ts: seq<Token>): string {
    if ts == [] then [] else [ts[0].c] + Unescaped(ts[1..])
  }

  lemma {:induction false} ReplaceSkips(head: string, rest: string, pattern: string, with: string)
    requires pattern != [] && pattern[0] == '&' && '&' !in head
    ensures Replace(head + rest, pattern, with) == head + Replace(rest, pattern, with)
  {
    hide Replace, HasPrefix;
    if head == [] {
      assert head + rest == rest;
    } else {
      assert (head + rest)[0] == head[0] && (head + rest)[1..] == head[1..] + rest;
      ReplaceSkips(head[1..], rest, pattern, with);
      StartsOtherwise(head + rest, pattern);
      ReplaceStep(head + rest, pattern, with);
      assert [head[0]] + (head[1..] + Replace(rest, pattern, with)) == head + Replace(rest, pattern, with);
    }
  }

  lemma ReplaceStep(s: string, pattern: string, with: string)
    requires pattern != [] && s != []
    ensures Replace(s, pattern, with) ==
            if HasPrefix(s, pattern) then with + Replace(s[|pattern|..], pattern, with)
            else [s[0]] + Replace(s[1..], pattern, with)
  {
    hide HasPrefix;
  }

  lemma StartsOtherwise(s: string, pattern: string)
    requires s != [] && pattern != [] && s[0] != pattern[0]
    ensures !HasPrefix(s, pattern)
  {
    if |pattern| <= |s| { assert s[..|pattern|][0] == s[0]; }
  }

  /** No entity name starts another, whatever follows. */
  lemma EntitiesDiffer(a: char, b: char, rest: string)
    requires a in ESCAPABLE && b in ESCAPABLE && a != b
    ensures !HasPrefix(EntityName(a) + rest, EntityName(b))
  {
    var s, p := EntityName(a) + rest, EntityName(b);
    if |p| <= |s| {
      assert s[1] == EntityName(a)[1] && s[2] == EntityName(a)[2];
      assert s[..|p|][1] == s[1] && s[..|p|][2] == s[2];
      assert EntityName(a)[1] != p[1] || EntityName(a)[2] != p[2];
    }
  }

  lemma {:induction false} ReplaceDecodes(ts: seq<Token>, done: set<char>, c: char)
    requires forall t <- ts :: t.c == '&' ==> t.Entity?
    requires forall t <- ts :: t.Entity? ==> t.c in ESCAPABLE
    requires c in ESCAPABLE && c !in done && '&' !in done
    ensures Replace(Partly(ts, done), EntityName(c), [c]) == Partly(ts, done + {c})
  {
    hide EntityName, HasPrefix, ESCAPABLE, Replace;
    if ts == [] {
      ReplaceNothing(EntityName(c), [c]);
    } else {
      var t, rest := ts[0], Partly(ts[1..], done);
      var head, name := PartlyOne(t, done), EntityName(c);
      ReplaceDecodes(ts[1..], done, c);
      if t == Entity(c) {
        PrefixOfItself(name, rest);
        ReplaceStep(name + rest, name, [c]);
      } else if t.Plain? || t.c in done {
        ReplaceSkips(head, rest, name, [c]);
      } else {
        EntitiesDiffer(t.c, c, rest);
        assert (head + rest)[0] == '&' && (head + rest)[1..] == head[1..] + rest;
        ReplaceSkips(head[1..], rest, name, [c]);
        ReplaceStep(head + rest, name, [c]);
        assert [head[0]] + (head[1..] + Replace(rest, name, [c])) == head + Replace(rest, name, [c]);
      }
    }
  }

  lemma ReplaceNothing(pattern: string, with: string)
    requires pattern != []
    ensures Replace("", pattern, with) == ""
  {}

  lemma PrefixOfItself(p: string, rest: string)
    ensures HasPrefix(p + rest, p) && (p + rest)[|p|..] == rest
  {}

  lemma {:induction false} AllDecoded(ts: seq<Token>)
    requires WellEscaped(ts)
    ensures Partly(ts, ESCAPABLE) == Unescaped(ts)
  {
    hide ESCAPABLE;
    if ts != [] {
      assert ts[0] in ts && forall t <- ts[1..] :: t in ts;
      AllDecoded(ts[1..]);
    }
  }

  /** **Decoding inverts escaping**: the five replacements in this order give back every
      string, however its characters were escaped. */
  lemma DecodingInvertsEscaping(ts: seq<Token>)
    requires WellEscaped(ts)
    ensures DecodeEntities(Escaped(ts)) == Unescaped(ts)
  {
    hide Partly, Replace, EntityName, Unescaped;
    ReplaceDecodes(ts, {}, '<');
    ReplaceDecodes(ts, {'<'}, '>');
    ReplaceDecodes(ts, {'<', '>'}, '"');
    ReplaceDecodes(ts, {'<', '>', '"'}, '\'');
    ReplaceDecodes(ts, {'<', '>', '"', '\''}, '&');
    assert {} + {'<'} == {'<'} && {'<'} + {'>'} == {'<', '>'} && {'<', '>'} + {'"'} == {'<', '>', '"'};
    assert {'<', '>', '"'} + {'\''} == {'<', '>', '"', '\''};
    assert {'<', '>', '"', '\''} + {'&'} == ESCAPABLE;
    AllDecoded(ts);
  }

  /** Every string has an escaping. */
  function EscapeAll(raw: string): (ts: seq<Token>)
    ensures WellEscaped(ts) && Unescaped(ts) == raw
  {
    if raw == [] then []
    else [if raw[0] in ESCAPABLE then Entity(raw[0]) else Plain(raw[0])] + EscapeAll(raw[1..])
  }

  // ---- Elements ------------------------------------------------------------

  datatype Item = Start(name: string) | End(name: string) | Chars(text: seq<Token>)

  function OpenTag(name: string): string { "<" + name + ">" }
  function CloseTag(name: string): string { "</" + name + ">" }

  function RenderItem(i: Item): string {
    match i
    case Start(name) => OpenTag(name)
    case End(name) => CloseTag(name)
    case Chars(text) => Escaped(text)
  }

  function Render(items: seq<Item>): string {
    if items == [] then [] else RenderItem(items[0]) + Render(items[1..])
  }

  predicate NameOk(n: string) { n != [] && '<' !in n && '>' !in n && n[0] != '/' }

  predicate ItemOk(i: Item) {
    match i
    case Start(name) => NameOk(name)
    case End(name) => NameOk(name)
    case Chars(text) => WellEscaped(text)
  }

  /** Every element of that name holds character data and nothing else. */
  predicate FlatFor(items: seq<Item>, tag: string) {
    items == []
    || (if items[0] == Start(tag) then |items| >= 3 && items[1].Chars? && items[2] == End(tag)
        && FlatFor(items[3..], tag)
        else FlatFor(items[1..], tag))
  }

  function ElementTexts(items: seq<Item>, tag: string): seq<string> {
    if items == [] then []
    else if items[0] == Start(tag) && |items| >= 3 && items[1].Chars? then
      [Unescaped(items[1].text)] + ElementTexts(items[3..], tag)
    else ElementTexts(items[1..], tag)
  }

  /** What the scan for `<tag>…</tag>` finds. */
  function XmlValues(xml: string, tag: string): seq<string>
    decreases |xml|
  {
    match SplitOnce(xml, OpenTag(tag))
    case None => []
    case Some((_, after)) =>
      match SplitOnce(after, CloseTag(tag))
      case None => []
      case Some((value, rest)) => [DecodeEntities(value)] + XmlValues(rest, tag)
  }

  /** `xml_values`. */
  method CollectValues(xml: string, tag: string) returns (out: seq<string>)
    ensures out == XmlValues(xml, tag)
  {
    hide SplitOnce, DecodeEntities;
    out := [];
    var rest := xml;
    while true
      invariant out + XmlValues(rest, tag) == XmlValues(xml, tag)
      decreases |rest|
    {
      var begun := SplitOnce(rest, OpenTag(tag));
      if begun.None? { return; }
      var ended := SplitOnce(begun.value.1, CloseTag(tag));
      if ended.None? { return; }
      out := out + [DecodeEntities(ended.value.0)];
      rest := ended.value.1;
    }
  }

  /** A split looks past text that cannot begin the separator. */
  lemma {:induction false} SplitPasses(head: string, rest: string, sep: string)
    requires sep != [] && sep[0] == '<' && '<' !in head
    ensures SplitOnce(head + rest, sep) ==
            match SplitOnce(rest, sep)
            case None => None
            case Some((h, t)) => Some((head + h, t))
  {
    hide HasPrefix, SplitOnce;
    if head == [] {
      assert head + rest == rest;
      if SplitOnce(rest, sep).Some? { assert head + SplitOnce(rest, sep).value.0 == SplitOnce(rest, sep).value.0; }
    } else {
      assert (head + rest)[0] == head[0] && (head + rest)[1..] == head[1..] + rest;
      StartsOtherwise(head + rest, sep);
      SplitPasses(head[1..], rest, sep);
      SplitStep(head + rest, sep);
      if SplitOnce(rest, sep).Some? {
        var h := SplitOnce(rest, sep).value.0;
        assert [head[0]] + (head[1..] + h) == head + h;
      }
    }
  }

  /** Nor does it stop at markup of another kind. */
  lemma SplitPassesMarkup(head: string, rest: string, sep: string)
    requires sep != [] && sep[0] == '<' && head != [] && '<' !in head[1..] && !HasPrefix(head + rest, sep)
    ensures SplitOnce(head + rest, sep) ==
            match SplitOnce(rest, sep)
            case None => None
            case Some((h, t)) => Some((head + h, t))
  {
    hide HasPrefix, SplitOnce;
    assert (head + rest)[0] == head[0] && (head + rest)[1..] == head[1..] + rest;
    SplitPasses(head[1..], rest, sep);
    SplitStep(head + rest, sep);
    if SplitOnce(rest, sep).Some? {
      var h := SplitOnce(rest, sep).value.0;
      assert [head[0]] + (head[1..] + h) == head + h;
    }
  }

  lemma TagsDiffer(n: string, tag: string, rest: string)
    requires NameOk(n) && NameOk(tag) && n != tag
    ensures !HasPrefix(OpenTag(n) + rest, OpenTag(tag))
  {
    hide HasPrefix;
    var s, p := OpenTag(n) + rest, OpenTag(tag);
    Pointwise(s, p);
    if |n| < |tag| {
      assert s[|n| + 1] == '>' && p[|n| + 1] == tag[|n|];
    } else if |tag| < |n| {
      assert s[|tag| + 1] == n[|tag|] && p[|tag| + 1] == '>';
    } else {
      var i :| 0 <= i < |n| && n[i] != tag[i];
      assert s[i + 1] == n[i] && p[i + 1] == tag[i];
    }
  }

  lemma Pointwise(s: string, p: string)
    ensures HasPrefix(s, p) <==> |p| <= |s| && forall i :: 0 <= i < |p| ==> s[i] == p[i]
  {
    if |p| <= |s| { assert forall i | 0 <= i < |p| :: s[..|p|][i] == s[i]; }
  }

  lemma CloseIsNoOpen(n: string, tag: string, rest: string)
    requires NameOk(tag)
    ensures !HasPrefix(CloseTag(n) + rest, OpenTag(tag))
  {
    var s, p := CloseTag(n) + rest, OpenTag(tag);
    assert s[1] == '/' && p[1] == tag[0];
    if |p| <= |s| { assert s[..|p|][1] == s[1]; }
  }

  lemma {:induction false} EscapedHasNoAngle(ts: seq<Token>)
    requires WellEscaped(ts)
    ensures '<' !in Escaped(ts)
  {
    hide ESCAPABLE, EntityName;
    if ts != [] {
      assert ts[0] in ts && forall t <- ts[1..] :: t in ts;
      EscapedHasNoAngle(ts[1..]);
      EntityHasNoAngle(ts[0].c);
    }
  }

  lemma EntityHasNoAngle(c: char)
    ensures '<' !in EntityName(c)
  {
  }

  lemma SplitAtPrefix(sep: string, rest: string)
    requires sep != []
    ensures SplitOnce(sep + rest, sep) == Some(("", rest))
  {
    PrefixOfItself(sep, rest);
  }

  /** An item that does not open the element adds nothing to what a scan finds. */
  lemma ItemPasses(i: Item, rest: string, tag: string)
    requires ItemOk(i) && NameOk(tag) && i != Start(tag)
    ensures XmlValues(RenderItem(i) + rest, tag) == XmlValues(rest, tag)
  {
    hide Partly, WellEscaped, HasPrefix, SplitOnce, DecodeEntities;
    var head := RenderItem(i);
    match i
    case Start(name) =>
      TagsDiffer(name, tag, rest);
      SplitPassesMarkup(head, rest, OpenTag(tag));
    case End(name) =>
      CloseIsNoOpen(name, tag, rest);
      SplitPassesMarkup(head, rest, OpenTag(tag));
    case Chars(text) =>
      EscapedHasNoAngle(text);
      SplitPasses(head, rest, OpenTag(tag));
  }

  lemma ElementFound(text: seq<Token>, rest: string, tag: string)
    requires WellEscaped(text)
    ensures XmlValues(OpenTag(tag) + (Escaped(text) + (CloseTag(tag) + rest)), tag) ==
            [Unescaped(text)] + XmlValues(rest, tag)
  {
    hide Partly, WellEscaped, HasPrefix, SplitOnce, DecodeEntities;
    SplitAtPrefix(OpenTag(tag), Escaped(text) + (CloseTag(tag) + rest));
    EscapedHasNoAngle(text);
    SplitPasses(Escaped(text), CloseTag(tag) + rest, CloseTag(tag));
    SplitAtPrefix(CloseTag(tag), rest);
    assert Escaped(text) + "" == Escaped(text);
    DecodingInvertsEscaping(text);
  }

  /** **On a flat page the scan is exact**: it finds the decoded text of every element of that
      name, in order, and nothing else. */
  lemma {:induction false} ScanIsExact(items: seq<Item>, tag: string)
    requires (forall i <- items :: ItemOk(i)) && NameOk(tag) && FlatFor(items, tag)
    ensures XmlValues(Render(items), tag) == ElementTexts(items, tag)
  {
    hide XmlValues, ItemOk, NameOk, Unescaped, Escaped;
    if items == [] {
      NothingFound(tag);
    } else if items[0] == Start(tag) {
      RenderElement(items, tag);
      assert items[1] in items && ItemOk(items[1]);
      ChunkOk(items[1]);
      ElementFound(items[1].text, Render(items[3..]), tag);
      ScanIsExact(items[3..], tag);
    } else {
      ItemPasses(items[0], Render(items[1..]), tag);
      ScanIsExact(items[1..], tag);
    }
  }

  lemma ChunkOk(i: Item)
    requires i.Chars? && ItemOk(i)
    ensures WellEscaped(i.text)
  {}

  lemma NothingFound(tag: string)
    ensures XmlValues("", tag) == []
  {}

  lemma RenderElement(items: seq<Item>, tag: string)
    requires |items| >= 3 && items[0] == Start(tag) && items[1].Chars? && items[2] == End(tag)
    ensures Render(items) == OpenTag(tag) + (Escaped(items[1].text) + (CloseTag(tag) + Render(items[3..])))
  {
    hide Escaped, Render;
    RenderFirst(items, 0);
    RenderFirst(items, 1);
    RenderFirst(items, 2);
    assert items[0..] == items;
  }

  lemma RenderFirst(items: seq<Item>, i: nat)
    requires i < |items|
    ensures Render(items[i..]) == RenderItem(items[i]) + Render(items[i + 1..])
  {
    hide RenderItem;
    assert items[i..][1..] == items[i + 1..];
  }

  // ---- Object keys ---------------------------------------------------------

  /** The bucket and the prefix within it, as the configuration keeps them. */
  datatype S3Config = S3Config(bucket: string, prefix: string)

  function ObjectKey(c: S3Config, key: BlobKey): string {
    if c.prefix == [] then key.algorithm + "/" + key.hex else c.prefix + "/" + key.algorithm + "/" + key.hex
  }

  function ListingPrefix(c: S3Config): string {
    if c.prefix == [] then ALGORITHM + "/" else c.prefix + "/" + ALGORITHM + "/"
  }

  /** The hex of the blob an object key names under this prefix, if it names one. */
  function KeyFromObjectKey(objectKey: string, prefix: string): Option<string> {
    if !HasPrefix(objectKey, prefix) then None
    else
      var hex := objectKey[|prefix|..];
      if '/' in hex then None
      else if FromParts(ALGORITHM, hex).Some? then Some(hex) else None
  }

  /** **Object keys and blob keys correspond**: an object under the listing prefix is taken
      for a blob exactly when it is where that blob is stored. */
  lemma ObjectKeysInvert(c: S3Config, objectKey: string, hex: string)
    ensures KeyFromObjectKey(objectKey, ListingPrefix(c)) == Some(hex) <==>
            ValidKey(BlobKey(ALGORITHM, hex)) && objectKey == ObjectKey(c, BlobKey(ALGORITHM, hex))
  {
    hide IsHash;
    var prefix, key := ListingPrefix(c), ObjectKey(c, BlobKey(ALGORITHM, hex));
    assert key == prefix + hex;
    PrefixOfItself(prefix, hex);
    if HasPrefix(objectKey, prefix) { assert objectKey == prefix + objectKey[|prefix|..]; }
    if IsHash(hex) { HashHasNoSlash(hex); }
  }

  function TrimStart(s: string): (t: string)
    ensures t == [] || t[0] != '/'
    ensures s == [] || s[0] != '/' ==> t == s
  {
    if s != [] && s[0] == '/' then TrimStart(s[1..]) else s
  }

  function TrimEnd(s: string): (t: string)
    ensures t <= s && (t == [] || t[|t| - 1] != '/')
    ensures s == [] || s[|s| - 1] != '/' ==> t == s
  {
    if s != [] && s[|s| - 1] == '/' then TrimEnd(s[..|s| - 1]) else s
  }

  /** `trim_matches('/')`. */
  function Trim(s: string): string { TrimEnd(TrimStart(s)) }

  predicate Trimmed(s: string) { s == [] || (s[0] != '/' && s[|s| - 1] != '/') }

  function Container(c: S3Config): string {
    if c.prefix == [] then c.bucket else c.bucket + "/" + c.prefix
  }

  function FromContainer(container: string): Option<S3Config> {
    var trimmed := Trim(container);
    if trimmed == [] then None
    else
      var (bucket, prefix) := (match SplitOnce(trimmed, "/") case Some(p) => p case None => (trimmed, ""));
      if bucket == [] then None else Some(S3Config(bucket, Trim(prefix)))
  }

  lemma {:induction false} SplitAtFirstSlash(a: string, b: string)
    requires '/' !in a
    ensures SplitOnce(a + "/" + b, "/") == Some((a, b))
  {
    var s := a + "/" + b;
    if a == [] {
      SplitAtPrefix("/", b);
      assert s == "/" + b;
    } else {
      SplitAtFirstSlash(a[1..], b);
      assert s[0] == a[0] && s[1..] == a[1..] + "/" + b;
      StartsOtherwise(s, "/");
      SplitStep(s, "/");
      assert [a[0]] + a[1..] == a;
    }
  }

  lemma {:induction false} NoSlashNoSplit(a: string)
    requires '/' !in a
    ensures SplitOnce(a, "/") == None
  {
    if a != [] {
      NoSlashNoSplit(a[1..]);
      StartsOtherwise(a, "/");
      SplitStep(a, "/");
    }
  }

  lemma {:induction false} SplitHeadHasNoSlash(s: string)
    ensures match SplitOnce(s, "/") case Some((head, _)) => '/' !in head case None => '/' !in s
  {
    if s != [] {
      if s[0] == '/' {
        assert s == "/" + s[1..];
        SplitAtPrefix("/", s[1..]);
      } else {
        StartsOtherwise(s, "/");
        SplitStep(s, "/");
        SplitHeadHasNoSlash(s[1..]);
      }
    }
  }

  /** **A container names its configuration**: reading the container a reference carries gives
      back bucket and prefix exactly when the bucket is non-empty and free of slashes. The
      prefix is always kept trimmed. */
  lemma ContainerRoundTrips(c: S3Config)
    requires Trimmed(c.prefix)
    ensures FromContainer(Container(c)) == Some(c) <==> c.bucket != [] && '/' !in c.bucket
  {
    hide SplitOnce;
    var text := Container(c);
    SplitHeadHasNoSlash(Trim(text));
    if c.bucket != [] && '/' !in c.bucket {
      assert text[0] == c.bucket[0];
      assert text[|text| - 1] != '/' by {
        if c.prefix != [] { assert text[|text| - 1] == c.prefix[|c.prefix| - 1]; }
      }
      if c.prefix == [] { NoSlashNoSplit(c.bucket); } else { SplitAtFirstSlash(c.bucket, c.prefix); }
    }
  }

  // ---- Paging --------------------------------------------------------------

  /** A listing request's answer: a page, a missing bucket, or any other failure once the
      retries are spent. */
  datatype Reply = Page(body: string) | NotFound | Failed

  type Server = Option<string> -> Reply

  const KEY_TAG := "Key"
  const TOKEN_TAG := "NextContinuationToken"

  function NextToken(body: string): Option<string> {
    var values := XmlValues(body, TOKEN_TAG);
    if values == [] then None else Some(values[0])
  }

  /** The server stops handing out continuation tokens within `n` more pages. */
  predicate Ends(serve: Server, token: Option<string>, n: nat)
    decreases n
  {
    match serve(token)
    case Page(body) => NextToken(body).None? || (n > 0 && Ends(serve, NextToken(body), n - 1))
    case _ => true
  }

  datatype Listing = Complete(objectKeys: seq<string>) | Gone | Refused

  /** What following every page yields, where the pages end within `n` more. */
  function Follow(serve: Server, token: Option<string>, n: nat): Listing
    decreases n
  {
    match serve(token)
    case NotFound => Gone
    case Failed => Refused
    case Page(body) =>
      if NextToken(body).None? then Complete(XmlValues(body, KEY_TAG))
      else if n == 0 then Refused
      else Behind(XmlValues(body, KEY_TAG), Follow(serve, NextToken(body), n - 1))
  }

  function Behind(objectKeys: seq<string>, l: Listing): Listing {
    match l case Complete(more) => Complete(objectKeys + more) case _ => l
  }

  lemma BehindTwice(a: seq<string>, b: seq<string>, l: Listing)
    ensures Behind(a + b, l) == Behind(a, Behind(b, l))
  {
    if l.Complete? { assert a + b + l.objectKeys == a + (b + l.objectKeys); }
  }

  predicate StrictlyAscending(xs: seq<string>) {
    forall i, j :: 0 <= i < j < |xs| ==> xs[i] != xs[j] && LexLe(xs[i], xs[j])
  }

  /** `Vec::dedup` on a sorted vector. */
  function Dedup(xs: seq<string>): (r: seq<string>)
    requires Ascending(xs)
    ensures forall x :: x in r <==> x in xs
    ensures StrictlyAscending(r)
    ensures xs != [] ==> r != [] && r[0] == xs[0]
  {
    if |xs| < 2 then xs
    else
      assert xs == [xs[0]] + xs[1..];
      var rest := Dedup(xs[1..]);
      if xs[0] == xs[1] then rest
      else
        DedupJoins(xs, rest);
        [xs[0]] + rest
  }

  lemma DedupJoins(xs: seq<string>, rest: seq<string>)
    requires |xs| >= 2 && xs[0] != xs[1] && Ascending(xs) && StrictlyAscending(rest)
    requires forall x :: x in rest <==> x in xs[1..]
    ensures StrictlyAscending([xs[0]] + rest)
  {
    hide LexLe;
    forall j | 0 <= j < |rest| ensures rest[j] != xs[0] && LexLe(xs[0], rest[j]) {
      assert rest[j] in rest;
      var k :| 0 <= k < |xs[1..]| && xs[1..][k] == rest[j];
      if xs[k + 1] == xs[0] {
        assert LexLe(xs[0], xs[1]) && LexLe(xs[1], xs[k + 1]) by { LexTotal(xs[1], xs[1]); }
        LexAntisymmetric(xs[0], xs[1]);
      }
    }
  }

  ghost predicate BlobsOf(keys: seq<string>, objectKeys: seq<string>, prefix: string) {
    forall hex :: hex in keys <==> exists k <- objectKeys :: KeyFromObjectKey(k, prefix) == Some(hex)
  }

  /** Keep the blobs among one page's object keys. */
  method KeepBlobs(keys: seq<string>, ghost before: seq<string>, page: seq<string>, prefix: string)
      returns (kept: seq<string>)
    requires BlobsOf(keys, before, prefix)
    ensures BlobsOf(kept, before + page, prefix)
  {
    hide KeyFromObjectKey;
    kept := keys;
    assert before + page[..0] == before;
    for i := 0 to |page|
      invariant BlobsOf(kept, before + page[..i], prefix)
    {
      assert before + page[..i + 1] == before + page[..i] + [page[i]];
      var key := KeyFromObjectKey(page[i], prefix);
      if key.Some? { kept := kept + [key.value]; }
    }
    assert page[..|page|] == page;
  }

  /** The blobs stored under this configuration among some object keys. */
  function BlobsUnder(config: S3Config, objectKeys: seq<string>): set<string> {
    set k | k in objectKeys && KeyFromObjectKey(k, ListingPrefix(config)).Some? ::
      KeyFromObjectKey(k, ListingPrefix(config)).value
  }

  /** What a listing answers, given what following the pages yields. */
  function Listed(config: S3Config, l: Listing): Option<seq<string>> {
    match l
    case Gone => Some([])
    case Refused => None
    case Complete(objectKeys) => Some(Sorted(BlobsUnder(config, objectKeys)))
  }

  lemma BlobsUnderAreStored(config: S3Config, objectKeys: seq<string>, hex: string)
    ensures hex in BlobsUnder(config, objectKeys) <==>
            ValidKey(BlobKey(ALGORITHM, hex)) && ObjectKey(config, BlobKey(ALGORITHM, hex)) in objectKeys
  {
    hide KeyFromObjectKey, ListingPrefix, ObjectKey, ValidKey;
    ObjectKeysInvert(config, ObjectKey(config, BlobKey(ALGORITHM, hex)), hex);
    if hex in BlobsUnder(config, objectKeys) {
      var k :| k in objectKeys && KeyFromObjectKey(k, ListingPrefix(config)) == Some(hex);
      ObjectKeysInvert(config, k, hex);
    }
  }

  lemma SortedBlobs(config: S3Config, objectKeys: seq<string>, r: seq<string>)
    requires StrictlyAscending(r)
    requires forall hex :: hex in r <==>
                           && ValidKey(BlobKey(ALGORITHM, hex))
                           && ObjectKey(config, BlobKey(ALGORITHM, hex)) in objectKeys
    ensures r == Sorted(BlobsUnder(config, objectKeys))
  {
    hide BlobsUnder, ObjectKey, ValidKey, LexLe, Sorted;
    forall hex ensures hex in r <==> hex in BlobsUnder(config, objectKeys)
        { BlobsUnderAreStored(config, objectKeys, hex); }
    SortedIs(BlobsUnder(config, objectKeys), r);
  }

  /** `list`: follow every page, keep the blobs, sort, drop duplicates. A missing bucket holds
      nothing; when a later page is missing, what earlier pages held is dropped with it. */
  method List(config: S3Config, serve: Server, ghost pages: nat) returns (r: Option<seq<string>>)
    requires Ends(serve, None, pages)
    ensures r == Listed(config, Follow(serve, None, pages))
    ensures match Follow(serve, None, pages)
            case Gone => r == Some([])
            case Refused => r == None
            case Complete(objectKeys) =>
              && r.Some? && StrictlyAscending(r.value)
              && forall hex :: hex in r.value <==>
                               && ValidKey(BlobKey(ALGORITHM, hex))
                               && ObjectKey(config, BlobKey(ALGORITHM, hex)) in objectKeys
  {
    hide XmlValues, KeyFromObjectKey, ListingPrefix, ObjectKey, ValidKey, SortText, Ascending, StrictlyAscending,
      BlobsUnder, Sorted;
    var prefix := ListingPrefix(config);
    var keys: seq<string>, token: Option<string> := [], None;
    ghost var seen: seq<string>, left := [], pages;
    var more := true;
    while more
      invariant more ==> Ends(serve, token, left)
      invariant more ==> Follow(serve, None, pages) == Behind(seen, Follow(serve, token, left))
      invariant !more ==> Follow(serve, None, pages) == Complete(seen)
      invariant BlobsOf(keys, seen, prefix)
      decreases more, left
    {
      match serve(token)
      case NotFound => return Some([]);
      case Failed => return None;
      case Page(body) =>
        var found := CollectValues(body, KEY_TAG);
        keys := KeepBlobs(keys, seen, found, prefix);
        var tokens := CollectValues(body, TOKEN_TAG);
        if tokens == [] {
          more := false;
        } else {
          BehindTwice(seen, found, Follow(serve, Some(tokens[0]), left - 1));
          token := Some(tokens[0]);
          left := left - 1;
        }
        seen := seen + found;
    }
    BlobsOfContainer(config, keys, seen);
    var ordered := SortText(keys);
    assert forall h :: h in ordered <==> h in multiset(ordered);
    assert forall h :: h in keys <==> h in multiset(keys);
    r := Some(Dedup(ordered));
    SortedBlobs(config, seen, r.value);
  }

  lemma BlobsOfContainer(config: S3Config, keys: seq<string>, objectKeys: seq<string>)
    requires BlobsOf(keys, objectKeys, ListingPrefix(config))
    ensures forall hex :: hex in keys <==>
                          && ValidKey(BlobKey(ALGORITHM, hex))
                          && ObjectKey(config, BlobKey(ALGORITHM, hex)) in objectKeys
  {
    hide KeyFromObjectKey, ListingPrefix, ObjectKey, ValidKey;
    forall k, hex ensures KeyFromObjectKey(k, ListingPrefix(config)) == Some(hex) <==>
                          ValidKey(BlobKey(ALGORITHM, hex)) && k == ObjectKey(config, BlobKey(ALGORITHM, hex)) {
      ObjectKeysInvert(config, k, hex);
    }
  }

  /** A container listed in pages: each page flat markup, all but the last with the token the
      next one answers to. */
  ghost predicate Serves(serve: Server, pages: seq<seq<Item>>, tokens: seq<string>) {
    && |pages| == |tokens| + 1
    && (forall i :: 0 <= i < |pages| ==>
          && FlatPage(pages[i])
          && serve(TokenFor(tokens, i)) == Page(Render(pages[i]))
          && ElementTexts(pages[i], TOKEN_TAG) == if i < |tokens| then [tokens[i]] else [])
  }

  predicate FlatPage(page: seq<Item>) {
    (forall item <- page :: ItemOk(item)) && FlatFor(page, KEY_TAG) && FlatFor(page, TOKEN_TAG)
  }

  function TokenFor(tokens: seq<string>, i: nat): Option<string>
    requires i <= |tokens|
  {
    if i == 0 then None else Some(tokens[i - 1])
  }

  function KeysFrom(pages: seq<seq<Item>>): seq<string> {
    if pages == [] then [] else ElementTexts(pages[0], KEY_TAG) + KeysFrom(pages[1..])
  }

  lemma PageRead(page: seq<Item>)
    requires FlatPage(page)
    ensures XmlValues(Render(page), KEY_TAG) == ElementTexts(page, KEY_TAG)
    ensures XmlValues(Render(page), TOKEN_TAG) == ElementTexts(page, TOKEN_TAG)
  {
    hide XmlValues, Render, FlatFor, ElementTexts, ItemOk;
    assert NameOk(KEY_TAG) && NameOk(TOKEN_TAG);
    ScanIsExact(page, KEY_TAG);
    ScanIsExact(page, TOKEN_TAG);
  }

  /** **Following every page recovers the container**: the object keys read are exactly those
      of all pages, unescaped, in order. */
  lemma {:induction false} FollowingRecoversEveryPage(serve: Server, pages: seq<seq<Item>>, tokens: seq<string>, i: nat)
    requires Serves(serve, pages, tokens) && i < |pages|
    ensures Ends(serve, TokenFor(tokens, i), |tokens| - i)
    ensures Follow(serve, TokenFor(tokens, i), |tokens| - i) == Complete(KeysFrom(pages[i..]))
    decreases |pages| - i
  {
    hide XmlValues, Render, ElementTexts, FlatPage, KEY_TAG, TOKEN_TAG, KeysFrom;
    PageRead(pages[i]);
    KeysFromStep(pages, i);
    assert serve(TokenFor(tokens, i)) == Page(Render(pages[i]));
    if i < |tokens| {
      FollowingRecoversEveryPage(serve, pages, tokens, i + 1);
      assert TokenFor(tokens, i + 1) == NextToken(Render(pages[i]));
    } else {
      assert pages[i + 1..] == [];
    }
  }

  lemma KeysFromStep(pages: seq<seq<Item>>, i: nat)
    requires i < |pages|
    ensures KeysFrom(pages[i..]) == ElementTexts(pages[i], KEY_TAG) + KeysFrom(pages[i + 1..])
    ensures KeysFrom([]) == []
  {
    hide ElementTexts;
    assert pages[i..][0] == pages[i] && pages[i..][1..] == pages[i + 1..];
  }

  lemma {:induction false} KeysOfPages(pages: seq<seq<Item>>, key: string)
    ensures key in KeysFrom(pages) <==> exists page <- pages :: key in ElementTexts(page, KEY_TAG)
  {
    hide ElementTexts;
    if pages != [] {
      KeysOfPages(pages[1..], key);
      if page :| page in pages && key in ElementTexts(page, KEY_TAG) {
        assert page == pages[0] || page in pages[1..];
      }
      if page :| page in pages[1..] && key in ElementTexts(page, KEY_TAG) {
        assert page in pages;
      }
    }
  }

  /** So the listing of a container served in any number of flat pages names exactly the blobs
      whose object key some page holds. */
  lemma ListingRecoversContainer(config: S3Config, serve: Server, pages: seq<seq<Item>>, tokens: seq<string>,
          hex: string)
    requires Serves(serve, pages, tokens)
    ensures Ends(serve, None, |tokens|) && Listed(config, Follow(serve, None, |tokens|)).Some?
    ensures hex in Listed(config, Follow(serve, None, |tokens|)).value <==>
            && ValidKey(BlobKey(ALGORITHM, hex))
            && exists page <- pages :: ObjectKey(config, BlobKey(ALGORITHM, hex)) in ElementTexts(page, KEY_TAG)
  {
    hide Follow, Ends, ElementTexts, KeysFrom, BlobsUnder, ObjectKey, ValidKey, Sorted, Serves;
    PagesAreServed(serve, pages, tokens);
    FollowingRecoversEveryPage(serve, pages, tokens, 0);
    assert pages[0..] == pages;
    BlobsUnderAreStored(config, KeysFrom(pages), hex);
    KeysOfPages(pages, ObjectKey(config, BlobKey(ALGORITHM, hex)));
  }

  lemma PagesAreServed(serve: Server, pages: seq<seq<Item>>, tokens: seq<string>)
    requires Serves(serve, pages, tokens)
    ensures |pages| > 0
  {}

  // ---- A page that is missing ----------------------------------------------

  /** The token of the `i`-th request after this one, if the listing makes it. */
  function RequestAt(serve: Server, token: Option<string>, i: nat): Option<Option<string>>
    decreases i
  {
    if i == 0 then Some(token)
    else
      match serve(token)
      case Page(body) => if NextToken(body).None? then None else RequestAt(serve, NextToken(body), i - 1)
      case _ => None
  }

  /** Some request from the `from`-th on is answered so. */
  ghost predicate Answered(serve: Server, token: Option<string>, from: nat, reply: Reply) {
    exists i: nat :: from <= i && RequestAt(serve, token, i).Some? && serve(RequestAt(serve, token, i).value) == reply
  }

  /** Some page the listing is served holds the object key. */
  ghost predicate Served(serve: Server, token: Option<string>, key: string) {
    exists i: nat :: RequestAt(serve, token, i).Some? && Holds(serve(RequestAt(serve, token, i).value), key)
  }

  predicate Holds(r: Reply, key: string) { r.Page? && key in XmlValues(r.body, KEY_TAG) }

  lemma RequestsShift(serve: Server, token: Option<string>, reply: Reply, key: string)
    requires serve(token).Page? && NextToken(serve(token).body).Some?
    ensures !reply.Page? ==>
              (Answered(serve, token, 0, reply) <==> Answered(serve, NextToken(serve(token).body), 0, reply))
    ensures Served(serve, token, key) <==>
            key in XmlValues(serve(token).body, KEY_TAG) || Served(serve, NextToken(serve(token).body), key)
  {
    hide NextToken, XmlValues;
    var next := NextToken(serve(token).body);
    assert forall i: nat :: RequestAt(serve, token, i + 1) == RequestAt(serve, next, i);
    assert RequestAt(serve, token, 0) == Some(token);
    if Answered(serve, token, 0, reply) && !reply.Page? {
      var i: nat :| RequestAt(serve, token, i).Some? && serve(RequestAt(serve, token, i).value) == reply;
      assert RequestAt(serve, next, i - 1) == RequestAt(serve, token, i);
    }
    if Answered(serve, next, 0, reply) {
      var i: nat :| RequestAt(serve, next, i).Some? && serve(RequestAt(serve, next, i).value) == reply;
      assert RequestAt(serve, token, i + 1) == RequestAt(serve, next, i);
    }
    if Served(serve, token, key) {
      var i: nat :| RequestAt(serve, token, i).Some? && Holds(serve(RequestAt(serve, token, i).value), key);
      if i > 0 { assert RequestAt(serve, next, i - 1) == RequestAt(serve, token, i); }
    }
    if Served(serve, next, key) {
      var i: nat :| RequestAt(serve, next, i).Some? && Holds(serve(RequestAt(serve, next, i).value), key);
      assert RequestAt(serve, token, i + 1) == RequestAt(serve, next, i);
    }
  }

  lemma OnlyRequest(serve: Server, token: Option<string>, reply: Reply, key: string)
    requires !serve(token).Page? || NextToken(serve(token).body).None?
    ensures Answered(serve, token, 0, reply) <==> serve(token) == reply
    ensures Served(serve, token, key) <==> Holds(serve(token), key)
  {
    hide NextToken, XmlValues;
    assert RequestAt(serve, token, 0) == Some(token);
    assert forall i: nat :: i > 0 ==> RequestAt(serve, token, i) == None;
  }

  /** Following the pages ends as the replies do, and yields what the pages hold. */
  lemma {:induction false} FollowMeansReplies(serve: Server, token: Option<string>, n: nat, key: string)
    requires Ends(serve, token, n)
    ensures Follow(serve, token, n) == Gone <==> Answered(serve, token, 0, NotFound)
    ensures Follow(serve, token, n) == Refused <==> Answered(serve, token, 0, Failed)
    ensures Follow(serve, token, n).Complete? ==> (key in Follow(serve, token, n).objectKeys <==>
              Served(serve, token, key))
    decreases n
  {
    hide NextToken, XmlValues, RequestAt, Answered, Served;
    if serve(token).Page? && NextToken(serve(token).body).Some? {
      RequestsShift(serve, token, NotFound, key);
      RequestsShift(serve, token, Failed, key);
      FollowMeansReplies(serve, NextToken(serve(token).body), n - 1, key);
    } else {
      OnlyRequest(serve, token, NotFound, key);
      OnlyRequest(serve, token, Failed, key);
    }
  }

  lemma FirstOrLater(serve: Server, token: Option<string>)
    requires Answered(serve, token, 0, NotFound) && !Answered(serve, token, 1, NotFound)
    ensures serve(token) == NotFound
  {
    hide NextToken;
    var i: nat :| RequestAt(serve, token, i).Some? && serve(RequestAt(serve, token, i).value) == NotFound;
    assert i == 0;
  }

  lemma LaterIsSome(serve: Server, token: Option<string>)
    requires Answered(serve, token, 1, NotFound)
    ensures Answered(serve, token, 0, NotFound)
  {
    hide RequestAt;
  }

  /** **A 404 after the first page loses blobs, and nothing else does.** Where no request
      fails otherwise, the listing names every blob some served page holds if and only if no
      request after the first is answered by a 404, or the pages served before it hold none. */
  lemma ListingIsWholeExactlyWhen(config: S3Config, serve: Server, n: nat)
    requires Ends(serve, None, n) && !Answered(serve, None, 0, Failed)
    ensures Listed(config, Follow(serve, None, n)).Some?
    ensures (forall hex :: BlobServed(config, serve, hex) ==> hex in Listed(config, Follow(serve, None, n)).value)
            <==> !Answered(serve, None, 1, NotFound) || forall hex :: !BlobServed(config, serve, hex)
  {
    hide Follow, Ends, Answered, BlobsUnder, Sorted, ObjectKey, ValidKey, RequestAt, Holds, Served;
    FollowMeansReplies(serve, None, n, "");
    forall hex
      ensures Follow(serve, None, n).Complete? ==>
                (BlobServed(config, serve, hex) <==> hex in BlobsUnder(config, Follow(serve, None, n).objectKeys))
    {
      FollowMeansReplies(serve, None, n, ObjectKey(config, BlobKey(ALGORITHM, hex)));
      if Follow(serve, None, n).Complete? { BlobsUnderAreStored(config, Follow(serve, None, n).objectKeys, hex); }
    }
    if Answered(serve, None, 1, NotFound) { LaterIsSome(serve, None); }
    if Answered(serve, None, 0, NotFound) && !Answered(serve, None, 1, NotFound) {
      FirstOrLater(serve, None);
      forall hex ensures !BlobServed(config, serve, hex) { NothingServed(config, serve, hex); }
    }
  }

  ghost predicate BlobServed(config: S3Config, serve: Server, hex: string) {
    ValidKey(BlobKey(ALGORITHM, hex)) && Served(serve, None, ObjectKey(config, BlobKey(ALGORITHM, hex)))
  }

  lemma NothingServed(config: S3Config, serve: Server, hex: string)
    requires serve(None) == NotFound
    ensures !BlobServed(config, serve, hex)
  {
    hide ObjectKey, ValidKey, Served, NextToken;
    OnlyRequest(serve, None, NotFound, ObjectKey(config, BlobKey(ALGORITHM, hex)));
  }

  function Element(tag: string, text: string): seq<Item> { [Start(tag), Chars(EscapeAll(text)), End(tag)] }

  /** A page with one object key and the token of a next page. */
  function OneKeyPage(key: string, token: string): seq<Item> {
    Element(KEY_TAG, key) + (Element(TOKEN_TAG, token) + [])
  }

  /** It answers the first request with that page and every later one with a 404. */
  function VanishingServer(key: string, token: string): Server {
    request => if request == None then Page(Render(OneKeyPage(key, token))) else NotFound
  }

  lemma ElementFirst(tag: string, text: string, other: string, rest: seq<Item>)
    requires NameOk(tag) && tag != other
    ensures forall item <- Element(tag, text) :: ItemOk(item)
    ensures FlatFor(Element(tag, text) + rest, tag) <==> FlatFor(rest, tag)
    ensures ElementTexts(Element(tag, text) + rest, tag) == [text] + ElementTexts(rest, tag)
    ensures FlatFor(Element(tag, text) + rest, other) <==> FlatFor(rest, other)
    ensures ElementTexts(Element(tag, text) + rest, other) == ElementTexts(rest, other)
  {
    hide Unescaped, WellEscaped, EscapeAll;
    var items := Element(tag, text) + rest;
    assert items[3..] == rest && items[1..][1..] == items[2..] && items[2..][1..] == items[3..];
    assert items[1..][0] == items[1] && items[2..][0] == items[2];
    OtherItem(End(tag), rest, other);
    OtherItem(Chars(EscapeAll(text)), [End(tag)] + rest, other);
    OtherItem(Start(tag), [Chars(EscapeAll(text))] + ([End(tag)] + rest), other);
    assert items == [Start(tag)] + ([Chars(EscapeAll(text))] + ([End(tag)] + rest));
  }

  lemma OtherItem(i: Item, rest: seq<Item>, tag: string)
    requires i != Start(tag)
    ensures FlatFor([i] + rest, tag) <==> FlatFor(rest, tag)
    ensures ElementTexts([i] + rest, tag) == ElementTexts(rest, tag)
  {
    hide Unescaped;
    assert ([i] + rest)[1..] == rest;
  }

  lemma OneKeyPageIsFlat(key: string, token: string)
    ensures FlatPage(OneKeyPage(key, token))
    ensures ElementTexts(OneKeyPage(key, token), KEY_TAG) == [key]
    ensures ElementTexts(OneKeyPage(key, token), TOKEN_TAG) == [token]
  {
    hide Element, ItemOk;
    assert KEY_TAG[0] != TOKEN_TAG[0] && NameOk(KEY_TAG) && NameOk(TOKEN_TAG);
    ElementFirst(TOKEN_TAG, token, KEY_TAG, []);
    ElementFirst(KEY_TAG, key, TOKEN_TAG, Element(TOKEN_TAG, token) + []);
    NoElements(KEY_TAG);
    NoElements(TOKEN_TAG);
    hide FlatFor, ElementTexts;
  }

  lemma NoElements(tag: string)
    ensures FlatFor([], tag) && ElementTexts([], tag) == []
  {}

  /** Two pages, the second gone: the blob on the first is served, and the listing is empty. */
  lemma VanishingPageEmptiesListing(config: S3Config, hex: string, token: string)
    requires ValidKey(BlobKey(ALGORITHM, hex))
    ensures var serve := VanishingServer(ObjectKey(config, BlobKey(ALGORITHM, hex)), token);
            && Ends(serve, None, 1) && BlobServed(config, serve, hex)
            && Listed(config, Follow(serve, None, 1)) == Some([])
  {
    hide XmlValues, Render, OneKeyPage, ElementTexts, FlatPage, ObjectKey, ValidKey, BlobsUnder, KEY_TAG, TOKEN_TAG;
    var key := ObjectKey(config, BlobKey(ALGORITHM, hex));
    var serve := VanishingServer(key, token);
    OneKeyPageIsFlat(key, token);
    PageRead(OneKeyPage(key, token));
    assert NextToken(serve(None).body) == Some(token);
    assert Holds(serve(RequestAt(serve, None, 0).value), key);
  }
}
