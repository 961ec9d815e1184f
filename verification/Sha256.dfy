/** Streaming SHA-256 against the algorithm of FIPS 180-4. */
module Sha256 {
  import opened Text

  type byte = b: int | 0 <= b < 256
  type word = bv32

  /** Addition modulo 2^32: `wrapping_add`. */
  function Plus(x: word, y: word): word { x + y }

  // ---- Section 4.1.2: functions on words -----------------------------------

  function Ch(x: word, y: word, z: word): word { (x & y) ^ (!x & z) }
  function Maj(x: word, y: word, z: word): word { (x & y) ^ (x & z) ^ (y & z) }
  function BigSigma0(x: word): word { x.RotateRight(2) ^ x.RotateRight(13) ^ x.RotateRight(22) }
  function BigSigma1(x: word): word { x.RotateRight(6) ^ x.RotateRight(11) ^ x.RotateRight(25) }
  function SmallSigma0(x: word): word { x.RotateRight(7) ^ x.RotateRight(18) ^ (x >> 3) }
  function SmallSigma1(x: word): word { x.RotateRight(17) ^ x.RotateRight(19) ^ (x >> 10) }

  // ---- Sections 4.2.2 and 5.3.3: constants ---------------------------------

  function K(): (k: seq<word>)
    ensures |k| == 64
  {
    [0x428a2f98, 0x71374491, 0xb5c0fbcf, 0xe9b5dba5, 0x3956c25b, 0x59f111f1, 0x923f82a4, 0xab1c5ed5] +
    [0xd807aa98, 0x12835b01, 0x243185be, 0x550c7dc3, 0x72be5d74, 0x80deb1fe, 0x9bdc06a7, 0xc19bf174] +
    [0xe49b69c1, 0xefbe4786, 0x0fc19dc6, 0x240ca1cc, 0x2de92c6f, 0x4a7484aa, 0x5cb0a9dc, 0x76f988da] +
    [0x983e5152, 0xa831c66d, 0xb00327c8, 0xbf597fc7, 0xc6e00bf3, 0xd5a79147, 0x06ca6351, 0x14292967] +
    [0x27b70a85, 0x2e1b2138, 0x4d2c6dfc, 0x53380d13, 0x650a7354, 0x766a0abb, 0x81c2c92e, 0x92722c85] +
    [0xa2bfe8a1, 0xa81a664b, 0xc24b8b70, 0xc76c51a3, 0xd192e819, 0xd6990624, 0xf40e3585, 0x106aa070] +
    [0x19a4c116, 0x1e376c08, 0x2748774c, 0x34b0bcb5, 0x391c0cb3, 0x4ed8aa4a, 0x5b9cca4f, 0x682e6ff3] +
    [0x748f82ee, 0x78a5636f, 0x84c87814, 0x8cc70208, 0x90befffa, 0xa4506ceb, 0xbef9a3f7, 0xc67178f2]
  }

  /** The eight working variables `a` to `h`, and equally a hash value `H0` to `H7`. */
  datatype Vars = Vars(a: word, b: word, c: word, d: word, e: word, f: word, g: word, h: word)

  const H0 := Vars(0x6a09e667, 0xbb67ae85, 0x3c6ef372, 0xa54ff53a, 0x510e527f, 0x9b05688c, 0x1f83d9ab, 0x5be0cd19)

  // ---- Section 6.2.2: one block --------------------------------------------

  function WordAt(block: seq<byte>, t: nat): word
    requires |block| == 64 && t < 16
  {
    (block[4 * t] as word << 24) | (block[4 * t + 1] as word << 16) | (block[4 * t + 2] as word << 8)
        | block[4 * t + 3] as word
  }

  function NextWord(w16: word, w15: word, w7: word, w2: word): word {
    Plus(Plus(Plus(w16, SmallSigma0(w15)), w7), SmallSigma1(w2))
  }

  /** The first `n` words of the message schedule. */
  function Schedule(block: seq<byte>, n: nat): (w: seq<word>)
    requires |block| == 64 && n <= 64
    ensures |w| == n
  {
    if n == 0 then []
    else
      var w := Schedule(block, n - 1);
      w + [if n - 1 < 16 then WordAt(block, n - 1) else NextWord(w[n - 17], w[n - 16], w[n - 8], w[n - 3])]
  }

  function Temp1(v: Vars, k: word, w: word): word {
    Plus(Plus(Plus(Plus(v.h, BigSigma1(v.e)), Ch(v.e, v.f, v.g)), k), w)
  }

  function Temp2(v: Vars): word {
    Plus(BigSigma0(v.a), Maj(v.a, v.b, v.c))
  }

  function Round(v: Vars, k: word, w: word): Vars {
    Vars(Plus(Temp1(v, k, w), Temp2(v)), v.a, v.b, v.c, Plus(v.d, Temp1(v, k, w)), v.e, v.f, v.g)
  }

  function Rounds(v: Vars, w: seq<word>, n: nat): Vars
    requires |w| == 64 && n <= 64
  {
    if n == 0 then v else Round(Rounds(v, w, n - 1), K()[n - 1], w[n - 1])
  }

  function Added(x: Vars, y: Vars): Vars {
    Vars(Plus(x.a, y.a), Plus(x.b, y.b), Plus(x.c, y.c), Plus(x.d, y.d),
         Plus(x.e, y.e), Plus(x.f, y.f), Plus(x.g, y.g), Plus(x.h, y.h))
  }

  function HashBlock(h: Vars, block: seq<byte>): Vars
    requires |block| == 64
  {
    Added(h, Rounds(h, Schedule(block, 64), 64))
  }

  /** The hash value after all the 64-byte blocks of `m`. */
  function HashBlocks(m: seq<byte>): Vars
    requires |m| % 64 == 0
  {
    if m == [] then H0 else HashBlock(HashBlocks(m[..|m| - 64]), m[|m| - 64..])
  }

  // ---- Section 5.1.1: padding; section 6.2: the digest ---------------------

  function Zeros(n: nat): (z: seq<byte>)
    ensures |z| == n
  {
    if n == 0 then [] else Zeros(n - 1) + [0]
  }

  /** `n` as `width` big-endian bytes. */
  function BigEndian(n: nat, width: nat): (bs: seq<byte>)
    ensures |bs| == width
  {
    if width == 0 then [] else BigEndian(n / 256, width - 1) + [n % 256]
  }

  /** The least number of zero bytes that leaves room for exactly the length. */
  function ZeroCount(length: nat): (k: nat)
    ensures k < 64 && (length + 1 + k) % 64 == 56
  {
    (119 - length % 64) % 64
  }

  /** The message, a one bit, zeros, and `bits` in eight bytes: a whole number of blocks. */
  function PaddedWith(m: seq<byte>, bits: nat): (p: seq<byte>)
    ensures |p| % 64 == 0
  {
    FillsBlock(|m| + 1 + ZeroCount(|m|));
    m + [0x80] + Zeros(ZeroCount(|m|)) + BigEndian(bits, 8)
  }

  lemma FillsBlock(n: nat)
    requires n % 64 == 56
    ensures (n + 8) % 64 == 0
  {}

  function WordBytes(w: word): (bs: seq<byte>)
    ensures |bs| == 4
  {
    BigEndian(w as int, 4)
  }

  function VarsBytes(v: Vars): (bs: seq<byte>)
    ensures |bs| == 32
  {
    WordBytes(v.a) + WordBytes(v.b) + WordBytes(v.c) + WordBytes(v.d) +
    WordBytes(v.e) + WordBytes(v.f) + WordBytes(v.g) + WordBytes(v.h)
  }

  /** The SHA-256 digest of a message: defined by the standard below 2^64 bits. */
  function Digest(m: seq<byte>): (d: seq<byte>)
    ensures |d| == 32
  {
    VarsBytes(HashBlocks(PaddedWith(m, 8 * |m|)))
  }

  // ---- The compression loop, in place --------------------------------------

  function At(v: Vars, i: nat): word
    requires i < 8
  {
    match i
    case 0 => v.a case 1 => v.b case 2 => v.c case 3 => v.d
    case 4 => v.e case 5 => v.f case 6 => v.g case _ => v.h
  }

  /** The array holds the working variables in order: v[0] is `a`, v[7] is `h`. */
  predicate Holds(arr: array<word>, v: Vars)
    reads arr
  {
    arr.Length == 8 && forall i :: 0 <= i < 8 ==> arr[i] == At(v, i)
  }

  method FillSchedule(block: seq<byte>) returns (w: array<word>)
    requires |block| == 64
    ensures fresh(w) && w.Length == 64 && w[..] == Schedule(block, 64)
  {
    hide NextWord, WordAt;
    w := new word[64];
    for i := 0 to 16
      invariant w[..i] == Schedule(block, i)
    {
      w[i] := WordAt(block, i);
    }
    for i := 16 to 64
      invariant w[..i] == Schedule(block, i)
    {
      ghost var before := w[..i];
      w[i] := NextWord(w[i - 16], w[i - 15], w[i - 7], w[i - 2]);
      assert w[..i] == before;
      assert before[i - 16] == w[i - 16] && before[i - 15] == w[i - 15] && before[i - 7] == w[i - 7]
          && before[i - 2] == w[i - 2];
    }
    assert w[..64] == w[..];
  }

  /** One iteration of the round loop: shift the variables down and mix two in. */
  method RunRound(v: array<word>, k: word, w: word, ghost r: Vars)
    requires Holds(v, r)
    modifies v
    ensures Holds(v, Round(r, k, w))
  {
    hide BigSigma0, BigSigma1, Ch, Maj, Plus, Round;
    RoundShifts(r, k, w);
    assert v[0] == r.a && v[1] == r.b && v[2] == r.c && v[3] == r.d;
    assert v[4] == r.e && v[5] == r.f && v[6] == r.g && v[7] == r.h;
    var temp1 := Plus(Plus(Plus(Plus(v[7], BigSigma1(v[4])), Ch(v[4], v[5], v[6])), k), w);
    var temp2 := Plus(BigSigma0(v[0]), Maj(v[0], v[1], v[2]));
    v[7] := v[6];
    v[6] := v[5];
    v[5] := v[4];
    v[4] := Plus(v[3], temp1);
    v[3] := v[2];
    v[2] := v[1];
    v[1] := v[0];
    v[0] := Plus(temp1, temp2);
  }

  lemma RoundShifts(r: Vars, k: word, w: word)
    ensures var temp1 := Plus(Plus(Plus(Plus(r.h, BigSigma1(r.e)), Ch(r.e, r.f, r.g)), k), w);
            Round(r, k, w) == Vars(Plus(temp1, Plus(BigSigma0(r.a), Maj(r.a, r.b, r.c))), r.a, r.b, r.c,
              Plus(r.d, temp1), r.e, r.f, r.g)
  {
    hide BigSigma0, BigSigma1, Ch, Maj, Plus;
  }

  method RunRounds(state: array<word>, w: array<word>, ghost h: Vars) returns (v: array<word>)
    requires Holds(state, h) && w.Length == 64
    ensures fresh(v) && Holds(v, Rounds(h, w[..], 64))
  {
    hide Round, At, K;
    ghost var ws := w[..];
    v := new word[8](i requires 0 <= i < 8 reads state requires state.Length == 8 => state[i]);
    var ks := K();
    for k := 0 to 64
      invariant w[..] == ws
      invariant Holds(v, Rounds(h, ws, k))
    {
      assert w[k] == ws[k];
      RunRound(v, ks[k], w[k], Rounds(h, ws, k));
    }
  }

  lemma AddedAt(x: Vars, y: Vars, i: nat)
    requires i < 8
    ensures At(Added(x, y), i) == Plus(At(x, i), At(y, i))
  {
    hide Plus;
  }

  method Compress(state: array<word>, block: seq<byte>, ghost h: Vars)
    requires |block| == 64 && Holds(state, h)
    modifies state
    ensures Holds(state, HashBlock(h, block))
  {
    hide Schedule, Rounds, At, Added, Plus;
    var w := FillSchedule(block);
    var v := RunRounds(state, w, h);
    ghost var r := Rounds(h, Schedule(block, 64), 64);
    for i := 0 to 8
      invariant Holds(v, r)
      invariant forall j :: 0 <= j < i ==> state[j] == Plus(At(h, j), At(r, j))
      invariant forall j :: i <= j < 8 ==> state[j] == At(h, j)
    {
      state[i] := Plus(state[i], v[i]);
    }
    forall i | 0 <= i < 8 ensures state[i] == At(Added(h, r), i) { AddedAt(h, r, i); }
  }

  // ---- The streaming hasher ------------------------------------------------

  class Sha256 {
    var state: array<word>
    /** The partial block not yet compressed, and how much of it is filled. */
    var block: array<byte>
    var filled: nat
    /** The length of the counted message in bits, wrapping at 64 bits. */
    var totalBits: nat
    /** The whole blocks compressed so far. */
    ghost var compressed: seq<byte>

    ghost predicate Valid()
      reads this, state, block
    {
      && block.Length == 64 && filled < 64 && totalBits < U64_LIMIT
      && |compressed| % 64 == 0
      && Holds(state, HashBlocks(compressed))
    }

    /** Every byte absorbed so far, padding included. */
    ghost function Absorbed(): seq<byte>
      reads this, block
      requires filled <= block.Length
    {
      compressed + block[..filled]
    }

    constructor ()
      ensures Valid() && fresh(state) && fresh(block) && Absorbed() == [] && totalBits == 0
    {
      state := new word[8](i requires 0 <= i < 8 => At(H0, i));
      block := new byte[64](_ => 0);
      filled, totalBits, compressed := 0, 0, [];
    }

    /** Compress the block just filled. */
    method FlushBlock()
      requires block.Length == 64 && filled == 64 && totalBits < U64_LIMIT
      requires |compressed| % 64 == 0 && Holds(state, HashBlocks(compressed))
      modifies this`filled, this`compressed, state
      ensures Valid() && filled == 0 && Absorbed() == old(Absorbed())
    {
      hide HashBlocks, HashBlock, At;
      BlockAppended(compressed, block[..]);
      Compress(state, block[..], HashBlocks(compressed));
      compressed := compressed + block[..];
      filled := 0;
      assert block[..64] == block[..];
      assert compressed + block[..0] == compressed;
    }

    /** Copy part of a block's worth of bytes behind the partial block. */
    method Fill(head: seq<byte>)
      requires Valid() && |head| <= 64 - filled
      modifies this`filled, this`compressed, state, block
      ensures Valid() && Absorbed() == old(Absorbed()) + head
      ensures filled == (old(filled) + |head|) % 64
    {
      hide HashBlocks, At;
      ghost var partial := block[..filled];
      forall i | 0 <= i < |head| { block[filled + i] := head[i]; }
      assert block[..filled + |head|] == partial + head;
      assert compressed + (partial + head) == (compressed + partial) + head;
      filled := filled + |head|;
      if filled == 64 { FlushBlock(); }
    }

    method Update(data: seq<byte>)
      requires Valid()
      modifies this`filled, this`compressed, this`totalBits, state, block
      ensures Valid() && Absorbed() == old(Absorbed()) + data
      ensures totalBits == (old(totalBits) + 8 * |data|) % U64_LIMIT
    {
      hide HashBlocks, At;
      totalBits := (totalBits + 8 * |data|) % U64_LIMIT;
      ghost var bits, all := totalBits, Absorbed() + data;
      var rest := data;
      while rest != []
        invariant Valid() && totalBits == bits && Absorbed() + rest == all
        decreases |rest|
      {
        var take := if 64 - filled < |rest| then 64 - filled else |rest|;
        var head, tail := rest[..take], rest[take..];
        Regroup(Absorbed(), rest, take);
        Fill(head);
        rest := tail;
      }
    }

    /** Absorb padding bytes without counting them toward the message length. */
    method UpdateRaw(data: seq<byte>)
      requires Valid()
      modifies this`filled, this`compressed, state, block
      ensures Valid() && Absorbed() == old(Absorbed()) + data && filled == (old(filled) + |data|) % 64
    {
      hide HashBlocks, At;
      ghost var was := Absorbed();
      for i := 0 to |data|
        invariant Valid() && Absorbed() == was + data[..i] && filled == (old(filled) + i) % 64
      {
        NextRemainder(old(filled) + i);
        Fill([data[i]]);
        assert data[..i + 1] == data[..i] + [data[i]];
        assert was + (data[..i] + [data[i]]) == (was + data[..i]) + [data[i]];
      }
      assert data[..|data|] == data;
    }

    /** Pad with the counted length and leave a whole number of blocks. */
    method Pad()
      requires Valid()
      modifies this`filled, this`compressed, state, block
      ensures Valid() && filled == 0 && compressed == PaddedWith(old(Absorbed()), old(totalBits))
    {
      hide HashBlocks, At, BigEndian, PaddedWith, Marked, ZeroCount;
      var bits := totalBits;
      ghost var m, j := Absorbed(), 0;
      FilledIs(compressed, block[..filled]);
      MarkedStarts(m, bits);
      UpdateRaw([0x80]);
      while filled != 56
        invariant Valid() && totalBits == bits && j <= ZeroCount(|m|)
        invariant Absorbed() == Marked(m, j) && filled == (|m| + 1 + j) % 64
        decreases ZeroCount(|m|) - j
      {
        NextRemainder(|m| + 1 + j);
        MarkedGrows(m, j);
        UpdateRaw([0x00]);
        j := j + 1;
      }
      OnlyZeroCount(|m|, j);
      UpdateRaw(BigEndian(bits, 8));
      assert compressed + block[..0] == compressed;
    }

    /** The digest of what was absorbed, padded with the counted length. */
    method Finish() returns (digest: seq<byte>)
      requires Valid()
      modifies this`filled, this`compressed, state, block
      ensures digest == VarsBytes(HashBlocks(PaddedWith(old(Absorbed()), old(totalBits))))
    {
      hide HashBlocks, PaddedWith, WordBytes, VarsBytes, At;
      Pad();
      ghost var h := HashBlocks(compressed);
      digest := [];
      for i := 0 to 8
        invariant Holds(state, h) && digest == FirstWords(h, i)
      {
        digest := digest + WordBytes(state[i]);
      }
      AllWords(h);
    }
  }

  lemma Regroup(absorbed: seq<byte>, rest: seq<byte>, take: nat)
    requires take <= |rest|
    ensures (absorbed + rest[..take]) + rest[take..] == absorbed + rest
  {
    assert rest == rest[..take] + rest[take..];
  }

  /** A message, the one bit, and `j` zero bytes. */
  function Marked(m: seq<byte>, j: nat): seq<byte> {
    m + [0x80] + Zeros(j)
  }

  lemma MarkedStarts(m: seq<byte>, bits: nat)
    ensures m + [0x80] == Marked(m, 0)
    ensures PaddedWith(m, bits) == Marked(m, ZeroCount(|m|)) + BigEndian(bits, 8)
  {
    hide BigEndian, ZeroCount;
  }

  lemma MarkedGrows(m: seq<byte>, j: nat)
    ensures Marked(m, j) + [0x00] == Marked(m, j + 1)
  {
    assert Zeros(j + 1) == Zeros(j) + [0];
  }

  lemma NextRemainder(n: nat)
    ensures (n % 64 + 1) % 64 == (n + 1) % 64
  {}

  lemma FilledIs(whole: seq<byte>, part: seq<byte>)
    requires |whole| % 64 == 0 && |part| < 64
    ensures |whole + part| % 64 == |part| && (|part| + 1) % 64 == (|whole + part| + 1) % 64
  {}

  lemma OnlyZeroCount(length: nat, j: nat)
    requires j < 64 && (length + 1 + j) % 64 == 56
    ensures j == ZeroCount(length)
  {}

  /** The bytes of the first `n` words of a hash value. */
  function FirstWords(v: Vars, n: nat): seq<byte>
    requires n <= 8
  {
    if n == 0 then [] else FirstWords(v, n - 1) + WordBytes(At(v, n - 1))
  }

  lemma AllWords(v: Vars)
    ensures FirstWords(v, 8) == VarsBytes(v)
  {
    hide WordBytes;
    assert FirstWords(v, 0) == [];
    assert FirstWords(v, 1) == WordBytes(v.a);
    assert FirstWords(v, 2) == FirstWords(v, 1) + WordBytes(v.b);
    assert FirstWords(v, 3) == FirstWords(v, 2) + WordBytes(v.c);
    assert FirstWords(v, 4) == FirstWords(v, 3) + WordBytes(v.d);
    assert FirstWords(v, 5) == FirstWords(v, 4) + WordBytes(v.e);
    assert FirstWords(v, 6) == FirstWords(v, 5) + WordBytes(v.f);
    assert FirstWords(v, 7) == FirstWords(v, 6) + WordBytes(v.g);
  }

  // ---- Blocks and splits ---------------------------------------------------

  lemma BlockAppended(m: seq<byte>, block: seq<byte>)
    requires |m| % 64 == 0 && |block| == 64
    ensures |m + block| % 64 == 0 && HashBlocks(m + block) == HashBlock(HashBlocks(m), block)
  {
    hide HashBlock;
    assert (m + block)[..|m|] == m && (m + block)[|m|..] == block;
  }

  // ---- What the hasher computes --------------------------------------------

  /** The digest the hasher produces: the length field wraps at 64 bits. */
  function Computed(m: seq<byte>): (d: seq<byte>)
    ensures |d| == 32
  {
    VarsBytes(HashBlocks(PaddedWith(m, 8 * |m| % U64_LIMIT)))
  }

  /** Within the standard's domain (messages shorter than 2^64 bits) it is the standard's digest. */
  lemma ComputedIsDigest(m: seq<byte>)
    requires 8 * |m| < U64_LIMIT
    ensures Computed(m) == Digest(m)
  {
    hide HashBlocks, PaddedWith, VarsBytes;
    assert 8 * |m| % U64_LIMIT == 8 * |m|;
  }

  function Joined(pieces: seq<seq<byte>>): seq<byte> {
    if pieces == [] then [] else Joined(pieces[..|pieces| - 1]) + pieces[|pieces| - 1]
  }

  lemma CountedBits(n: nat, k: nat)
    ensures (8 * n % U64_LIMIT + 8 * k) % U64_LIMIT == 8 * (n + k) % U64_LIMIT
  {
    var q := 8 * n / U64_LIMIT;
    assert 8 * n == U64_LIMIT * q + 8 * n % U64_LIMIT;
    Wraps(8 * n % U64_LIMIT + 8 * k, q);
  }

  lemma Wraps(x: nat, q: nat)
    ensures (x + U64_LIMIT * q) % U64_LIMIT == x % U64_LIMIT
  {}

  /** **Splitting does not matter**: however a message is cut into updates, the hasher ends
      with the digest of the whole message. */
  method HashPieces(pieces: seq<seq<byte>>) returns (digest: seq<byte>)
    ensures digest == Computed(Joined(pieces))
    ensures 8 * |Joined(pieces)| < U64_LIMIT ==> digest == Digest(Joined(pieces))
  {
    hide Computed, Digest, HashBlocks, PaddedWith, VarsBytes;
    var hasher := new Sha256();
    for i := 0 to |pieces|
      invariant fresh(hasher) && fresh(hasher.state) && fresh(hasher.block)
      invariant hasher.Valid() && hasher.Absorbed() == Joined(pieces[..i])
      invariant hasher.totalBits == 8 * |Joined(pieces[..i])| % U64_LIMIT
    {
      assert pieces[..i + 1][..i] == pieces[..i];
      CountedBits(|Joined(pieces[..i])|, |pieces[i]|);
      hasher.Update(pieces[i]);
    }
    assert pieces[..|pieces|] == pieces;
    digest := hasher.Finish();
    ComputedUnfolds(Joined(pieces));
    if 8 * |Joined(pieces)| < U64_LIMIT { ComputedIsDigest(Joined(pieces)); }
  }

  lemma ComputedUnfolds(m: seq<byte>)
    ensures Computed(m) == VarsBytes(HashBlocks(PaddedWith(m, 8 * |m| % U64_LIMIT)))
  {
    hide HashBlocks, PaddedWith, VarsBytes;
  }

  /** `sha256`: the digest of `bytes` in one call. */
  method HashOnce(bytes: seq<byte>) returns (digest: seq<byte>)
    ensures digest == Computed(bytes)
  {
    hide Computed;
    assert [bytes][..0] == [];
    assert Joined([bytes]) == [] + bytes == bytes;
    digest := HashPieces([bytes]);
  }

  // ---- Hexadecimal rendering -----------------------------------------------

  /** Two lowercase digits per byte, high nibble first. */
  function ToHex(bs: seq<byte>): (t: string)
    ensures |t| == 2 * |bs| && forall c <- t :: IsHexDigit(c)
  {
    if bs == [] then ""
    else ToHex(bs[..|bs| - 1]) + [HexDigit(bs[|bs| - 1] / 16), HexDigit(bs[|bs| - 1] % 16)]
  }

  lemma {:induction false} HexIsInjective(a: seq<byte>, b: seq<byte>)
    requires ToHex(a) == ToHex(b)
    ensures a == b
  {
    hide ToHex, HexDigit;
    assert |a| == |b|;
    if a != [] {
      var x, y := a[|a| - 1], b[|b| - 1];
      LastHex(a);
      LastHex(b);
      HexIsInjective(a[..|a| - 1], b[..|b| - 1]);
      DigitsDiffer(x / 16, y / 16);
      DigitsDiffer(x % 16, y % 16);
      assert a == a[..|a| - 1] + [x] && b == b[..|b| - 1] + [y];
    }
  }

  lemma LastHex(bs: seq<byte>)
    requires bs != []
    ensures var n, t := |bs| - 1, ToHex(bs);
            && t[..2 * n] == ToHex(bs[..n])
            && t[2 * n] == HexDigit(bs[n] / 16) && t[2 * n + 1] == HexDigit(bs[n] % 16)
  {
    hide HexDigit;
  }

  lemma DigitsDiffer(d: nat, e: nat)
    requires d < 16 && e < 16 && HexDigit(d) == HexDigit(e)
    ensures d == e
  {}
}
