/** Content addresses and self-describing blob references. */
module BlobRef {
  import opened Text
  import opened Sha256

  const ALGORITHM := "sha256"
  const REFERENCE_SCHEME_PREFIX := "dagr-blob+"

  datatype BlobKey = BlobKey(algorithm: string, hex: string)

  function KeyFor(bytes: seq<byte>): BlobKey {
    BlobKey(ALGORITHM, ToHex(Computed(bytes)))
  }

  predicate Matches(key: BlobKey, bytes: seq<byte>) {
    key.algorithm == ALGORITHM && key.hex == ToHex(Computed(bytes))
  }

  predicate IsHash(hex: string) {
    |hex| == 64 && forall c <- hex :: IsHexDigit(c)
  }

  function FromParts(algorithm: string, hex: string): Option<BlobKey> {
    if algorithm == ALGORITHM && IsHash(hex) then Some(BlobKey(algorithm, hex)) else None
  }

  predicate ValidKey(key: BlobKey) {
    key.algorithm == ALGORITHM && IsHash(key.hex)
  }

  /** Every computed key is one a reference may carry, and matches exactly its own digest. */
  lemma ComputedKeysAreValid(bytes: seq<byte>)
    ensures ValidKey(KeyFor(bytes)) && FromParts(ALGORITHM, KeyFor(bytes).hex) == Some(KeyFor(bytes))
    ensures forall other :: Matches(KeyFor(bytes), other) <==> Computed(other) == Computed(bytes)
  {
    hide Computed;
    forall other | Matches(KeyFor(bytes), other) ensures Computed(other) == Computed(bytes) {
      HexIsInjective(Computed(other), Computed(bytes));
    }
  }

  // ---- Splitting text ------------------------------------------------------

  /** Split at the first occurrence of `sep`. */
  function SplitOnce(s: string, sep: string): (r: Option<(string, string)>)
    requires sep != []
    ensures r.Some? ==> s == r.value.0 + sep + r.value.1
  {
    if HasPrefix(s, sep) then Some(("", s[|sep|..]))
    else if s == [] then None
    else
      match SplitOnce(s[1..], sep)
      case None => None
      case Some((head, tail)) => Some(([s[0]] + head, tail))
  }

  /** Split at the last occurrence of `c`. */
  function RSplitOnce(s: string, c: char): (r: Option<(string, string)>)
    ensures r.Some? ==> s == r.value.0 + [c] + r.value.1 && c !in r.value.1
    ensures r.None? ==> c !in s
  {
    if s == [] then None
    else if s[|s| - 1] == c then Some((s[..|s| - 1], ""))
    else
      match RSplitOnce(s[..|s| - 1], c)
      case None => None
      case Some((head, tail)) => Some((head, tail + [s[|s| - 1]]))
  }

  predicate Contains(s: string, sep: string) {
    HasPrefix(s, sep) || (s != [] && Contains(s[1..], sep))
  }

  // ---- References ----------------------------------------------------------

  datatype BlobRef = BlobRef(backend: string, container: string, key: BlobKey)

  function Print(r: BlobRef): string {
    REFERENCE_SCHEME_PREFIX + (r.backend + "://" + (r.container + "/" + (r.key.algorithm + "/" + r.key.hex)))
  }

  /** The refusals of `BlobRef::parse`, in the order they are checked. */
  datatype RefError = WrongScheme | NoSeparator | EmptyBackend | NoAddress | EmptyContainer | BadAddress

  function Parse(text: string): Result<BlobRef, RefError> {
    if !HasPrefix(text, REFERENCE_SCHEME_PREFIX) then Err(WrongScheme)
    else
      match SplitOnce(text[|REFERENCE_SCHEME_PREFIX|..], "://")
      case None => Err(NoSeparator)
      case Some((backend, rest)) =>
        if backend == [] then Err(EmptyBackend)
        else
          match RSplitOnce(rest, '/')
          case None => Err(NoAddress)
          case Some((head, hex)) =>
            match RSplitOnce(head, '/')
            case None => Err(NoAddress)
            case Some((container, algorithm)) =>
              if container == [] then Err(EmptyContainer)
              else
                match FromParts(algorithm, hex)
                case None => Err(BadAddress)
                case Some(key) => Ok(BlobRef(backend, container, key))
  }

  /** A reference the grammar can carry; the container may hold slashes. */
  predicate Expressible(r: BlobRef) {
    r.backend != [] && !Contains(r.backend, "://") && r.container != [] && ValidKey(r.key)
  }

  lemma SplitStep(s: string, sep: string)
    requires sep != [] && s != [] && !HasPrefix(s, sep)
    ensures SplitOnce(s, sep) ==
            match SplitOnce(s[1..], sep)
            case None => None
            case Some((h, t)) => Some(([s[0]] + h, t))
  {
    hide HasPrefix;
  }

  lemma SplitAtFirst(a: string, b: string)
    requires !Contains(a, "://")
    ensures SplitOnce(a + "://" + b, "://") == Some((a, b))
  {
    if a == [] {
      SplitHere("", b);
    } else {
      ContainsNot(a);
      hide HasPrefix, Contains, SplitOnce;
      SplitAtFirst(a[1..], b);
      NoEarlyMatch(a, b);
      assert a + "://" + b == a + ("://" + b) && a[1..] + "://" + b == a[1..] + ("://" + b);
      SplitLater(a, "://" + b);
      assert [a[0]] + a[1..] == a;
    }
  }

  lemma ContainsNot(a: string)
    requires a != [] && !Contains(a, "://")
    ensures !HasPrefix(a, "://") && !Contains(a[1..], "://")
  {}

  lemma SplitHere(a: string, b: string)
    requires a == []
    ensures SplitOnce(a + "://" + b, "://") == Some((a, b))
  {
    var s := a + "://" + b;
    assert s == "://" + b && s[..3] == "://" && s[3..] == b;
  }

  lemma SplitLater(a: string, rest: string)
    requires a != [] && !HasPrefix(a + rest, "://")
    ensures SplitOnce(a + rest, "://") ==
            match SplitOnce(a[1..] + rest, "://")
            case None => None
            case Some((h, t)) => Some(([a[0]] + h, t))
  {
    hide HasPrefix, SplitOnce;
    assert (a + rest)[0] == a[0] && (a + rest)[1..] == a[1..] + rest;
    SplitStep(a + rest, "://");
  }

  lemma SeparatorChars(s: string)
    ensures HasPrefix(s, "://") <==> |s| >= 3 && s[0] == ':' && s[1] == '/' && s[2] == '/'
  {
    if |s| >= 3 { assert s[..3] == [s[0], s[1], s[2]]; }
  }

  /** The separator cannot straddle the end of a separator-free prefix. */
  lemma NoEarlyMatch(a: string, b: string)
    requires a != [] && !HasPrefix(a, "://")
    ensures !HasPrefix(a + "://" + b, "://")
  {
    hide HasPrefix;
    var s := a + "://" + b;
    SeparatorChars(a);
    SeparatorChars(s);
    assert |a| == 1 ==> s[1] == ':';
    assert |a| == 2 ==> s[2] == ':';
    assert |a| >= 3 ==> s[0] == a[0] && s[1] == a[1] && s[2] == a[2];
  }

  /** After the earlier of two splits the separator occurs again. */
  lemma EarlierSplit(h: string, t: string, a: string, b: string, c: char)
    requires h + [c] + t == a + [c] + b && |h| < |a|
    ensures c in t
  {
    assert (h + [c] + t)[|a|] == c;
    assert t[|a| - |h| - 1] == c;
  }

  /** So a last split is unique. */
  lemma SplitAtLast(a: string, c: char, b: string)
    requires c !in b
    ensures RSplitOnce(a + [c] + b, c) == Some((a, b))
  {
    hide RSplitOnce;
    var s := a + [c] + b;
    assert s[|a|] == c;
    var (h, t) := RSplitOnce(s, c).value;
    if |h| < |a| { EarlierSplit(h, t, a, b, c); }
    if |a| < |h| { EarlierSplit(a, b, h, t, c); }
    assert s[..|a|] == a && s[..|h|] == h && s[|a| + 1..] == b && s[|h| + 1..] == t;
  }

  lemma HashHasNoSlash(hex: string)
    requires IsHash(hex)
    ensures '/' !in hex
  {}

  lemma {:induction false} FirstSplitIsClean(s: string, head: string, tail: string)
    requires SplitOnce(s, "://") == Some((head, tail))
    ensures !Contains(head, "://")
  {
    if !HasPrefix(s, "://") {
      FirstSplitIsClean(s[1..], head[1..], tail);
      assert head[1..] == SplitOnce(s[1..], "://").value.0;
      SeparatorChars(s);
      SeparatorChars(head);
    }
  }

  /** Parsing a printed reference gives it back, for every expressible reference. */
  lemma ParsePrints(r: BlobRef)
    requires Expressible(r)
    ensures Parse(Print(r)) == Ok(r)
  {
    hide SplitOnce, RSplitOnce, Contains;
    var address := r.key.algorithm + "/" + r.key.hex;
    var rest := r.container + "/" + address;
    assert Print(r)[|REFERENCE_SCHEME_PREFIX|..] == r.backend + "://" + rest;
    SplitAtFirst(r.backend, rest);
    HashHasNoSlash(r.key.hex);
    var head := r.container + "/" + r.key.algorithm;
    assert rest == head + "/" + r.key.hex;
    SplitAtLast(head, '/', r.key.hex);
    assert '/' !in ALGORITHM;
    SplitAtLast(r.container, '/', r.key.algorithm);
  }

  /** Printing a parsed reference gives back every accepted text unchanged, and only
      expressible references are ever parsed. */
  lemma PrintParses(text: string)
    requires Parse(text).Ok?
    ensures Print(Parse(text).value) == text && Expressible(Parse(text).value)
  {
    hide SplitOnce, RSplitOnce, Contains;
    var body := text[|REFERENCE_SCHEME_PREFIX|..];
    var (backend, rest) := SplitOnce(body, "://").value;
    FirstSplitIsClean(body, backend, rest);
    var (head, hex) := RSplitOnce(rest, '/').value;
    var (container, algorithm) := RSplitOnce(head, '/').value;
    assert rest == container + "/" + (algorithm + "/" + hex);
    assert text == REFERENCE_SCHEME_PREFIX + body;
  }

  /** **References are a bijection**: a reference survives printing and parsing exactly when
      its backend is non-empty and free of `://`, its container non-empty, and its key valid. */
  lemma RoundTripsExactly(r: BlobRef)
    ensures Parse(Print(r)) == Ok(r) <==> Expressible(r)
  {
    hide Parse, Print, Expressible;
    if Parse(Print(r)) == Ok(r) { PrintParses(Print(r)); }
    if Expressible(r) { ParsePrints(r); }
  }

  /** Two accepted texts naming one reference are one text. */
  lemma OneTextPerReference(a: string, b: string)
    requires Parse(a).Ok? && Parse(a) == Parse(b)
    ensures a == b
  {
    hide Parse, Print, Expressible;
    PrintParses(a);
    PrintParses(b);
  }
}
