/** Octet strings and the orders and numerals the repository renders with.

    A `string` stands for a byte string, one `char` per octet. Text is UTF-8 in the
    repository, and every byte it escapes, splits on or searches for is ASCII, so no
    operation below ever depends on where a multi-byte character begins. */
module Text {

  datatype Option<+T> = None | Some(value: T)

  datatype Result<+T, +E> = Ok(value: T) | Err(error: E)

  function UnwrapOr<T>(o: Option<T>, default: T): T {
    match o case Some(v) => v case None => default
  }

  const U32_LIMIT := 0x1_0000_0000
  const U64_LIMIT := 0x1_0000_0000_0000_0000

  predicate HasPrefix(s: string, p: string) { |p| <= |s| && s[..|p|] == p }

  predicate IsHexDigit(c: char) { '0' <= c <= '9' || 'a' <= c <= 'f' }

  function HexDigit(d: nat): (c: char)
    requires d < 16
    ensures IsHexDigit(c)
  {
    "0123456789abcdef"[d]
  }

  // ---- Lexicographic byte order -------------------------------------------

  /** The order of a `BTreeMap<String, _>`: lexicographic by byte. */
  predicate LexLe(a: string, b: string) {
    a == [] || (b != [] && (a[0] < b[0] || (a[0] == b[0] && LexLe(a[1..], b[1..]))))
  }

  lemma LexTotal(a: string, b: string)
    ensures LexLe(a, b) || LexLe(b, a)
  {}

  lemma LexAntisymmetric(a: string, b: string)
    requires LexLe(a, b) && LexLe(b, a)
    ensures a == b
  {
    if a != [] {
      LexAntisymmetric(a[1..], b[1..]);
      assert a == [a[0]] + a[1..] && b == [b[0]] + b[1..];
    }
  }

  lemma LexTransitive(a: string, b: string, c: string)
    requires LexLe(a, b) && LexLe(b, c)
    ensures LexLe(a, c)
  {}

  predicate Least(x: string, s: set<string>) {
    x in s && forall y <- s :: LexLe(x, y)
  }

  lemma LeastExists(s: set<string>)
    requires s != {}
    ensures exists x :: Least(x, s)
  {
    var y :| y in s;
    LexTotal(y, y);
    if s == {y} {
      assert Least(y, s);
    } else {
      LeastExists(s - {y});
      var z :| Least(z, s - {y});
      LexTotal(y, z);
      var x := if LexLe(y, z) then y else z;
      forall w | w in s ensures LexLe(x, w) {
        if w != y && x == y { LexTransitive(y, z, w); }
      }
      assert Least(x, s);
    }
  }

  lemma LeastUnique(x: string, y: string, s: set<string>)
    requires Least(x, s) && Least(y, s)
    ensures x == y
  {
    LexAntisymmetric(x, y);
  }

  function Minimum(s: set<string>): (x: string)
    requires s != {}
    ensures Least(x, s)
  {
    LeastExists(s);
    assert forall x, y | Least(x, s) && Least(y, s) :: x == y by {
      forall x, y | Least(x, s) && Least(y, s) ensures x == y { LeastUnique(x, y, s); }
    }
    var x :| x in s && Least(x, s);
    x
  }

  /** A set's elements in ascending byte order: the iteration order of a `BTreeMap`. */
  function Sorted(s: set<string>): (ks: seq<string>)
    ensures forall k :: k in ks <==> k in s
    ensures forall i, j :: 0 <= i < j < |ks| ==> ks[i] != ks[j] && LexLe(ks[i], ks[j])
    ensures |ks| == |s|
  {
    if s == {} then []
    else
      var x := Minimum(s);
      [x] + Sorted(s - {x})
  }

  /** There is one such sequence. */
  lemma SortedIs(s: set<string>, ks: seq<string>)
    requires forall k :: k in ks <==> k in s
    requires forall i, j :: 0 <= i < j < |ks| ==> ks[i] != ks[j] && LexLe(ks[i], ks[j])
    ensures Sorted(s) == ks
  {
    hide LexLe;
    if ks == [] {
      assert s == {};
    } else {
      assert ks[0] in ks;
      LexTotal(ks[0], ks[0]);
      assert Least(ks[0], s);
      LeastUnique(Minimum(s), ks[0], s);
      forall k ensures k in ks[1..] <==> k in s - {ks[0]} {
        assert ks == [ks[0]] + ks[1..];
      }
      SortedIs(s - {ks[0]}, ks[1..]);
    }
  }

  // ---- Sorting -------------------------------------------------------------

  predicate Ascending(xs: seq<string>) {
    forall i, j :: 0 <= i < j < |xs| ==> LexLe(xs[i], xs[j])
  }

  function Inserted(x: string, xs: seq<string>): (r: seq<string>)
    ensures multiset(r) == multiset(xs) + multiset{x}
  {
    if xs == [] || LexLe(x, xs[0]) then
      assert [x] + xs == [x] + xs; [x] + xs
    else
      assert xs == [xs[0]] + xs[1..];
      [xs[0]] + Inserted(x, xs[1..])
  }

  /** `Vec::sort`: the same elements in ascending byte order. */
  function SortText(xs: seq<string>): (r: seq<string>)
    ensures multiset(r) == multiset(xs)
    ensures Ascending(r)
  {
    if xs == [] then []
    else
      assert xs == [xs[0]] + xs[1..];
      InsertedAscends(xs[0], SortText(xs[1..]));
      Inserted(xs[0], SortText(xs[1..]))
  }

  lemma {:induction false} InsertedAscends(x: string, xs: seq<string>)
    requires Ascending(xs)
    ensures Ascending(Inserted(x, xs))
  {
    hide LexLe;
    if xs != [] {
      if LexLe(x, xs[0]) {
        forall j | 0 <= j < |xs| ensures LexLe(x, xs[j]) {
          if 0 < j { LexTransitive(x, xs[0], xs[j]); }
        }
      } else {
        LexTotal(x, xs[0]);
        var rest := Inserted(x, xs[1..]);
        InsertedAscends(x, xs[1..]);
        forall j | 0 <= j < |rest| ensures LexLe(xs[0], rest[j]) {
          assert rest[j] in multiset(rest);
          if rest[j] != x { assert rest[j] in multiset(xs[1..]); }
        }
      }
    }
  }
}
