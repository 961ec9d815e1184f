/** HMAC over the streaming hasher, against section 2 of RFC 2104. */
module Hmac {
  import opened Sha256

  const BLOCK: nat := 64

  function Xor(a: byte, b: byte): byte {
    ((a as bv8) ^ (b as bv8)) as int
  }

  /** A key reduced to one block: hashed when longer, then zero-padded. */
  function BlockKey(key: seq<byte>): (k: seq<byte>)
    ensures |k| == BLOCK
  {
    var k := if |key| > BLOCK then Computed(key) else key;
    k + Zeros(BLOCK - |k|)
  }

  function XorEach(k: seq<byte>, pad: byte): (r: seq<byte>)
    ensures |r| == |k|
  {
    seq(|k|, i requires 0 <= i < |k| => Xor(pad, k[i]))
  }

  /** H(K xor opad, H(K xor ipad, text)). */
  function HmacSha256(key: seq<byte>, message: seq<byte>): seq<byte> {
    var k := BlockKey(key);
    Computed(XorEach(k, 0x5c) + Computed(XorEach(k, 0x36) + message))
  }

  lemma TwoPieces(a: seq<byte>, b: seq<byte>)
    ensures Joined([a, b]) == a + b
  {
    assert [a, b][..1] == [a] && [a][..0] == [];
    assert Joined([a]) == [] + a == a;
  }

  lemma ZerosAreZero(n: nat)
    ensures forall i :: 0 <= i < n ==> Zeros(n)[i] == 0
  {}

  method ComputeHmac(key: seq<byte>, message: seq<byte>) returns (mac: seq<byte>)
    ensures mac == HmacSha256(key, message)
  {
    hide Computed, Digest, Xor;
    var reduced := key;
    if |key| > BLOCK { reduced := HashOnce(key); }
    var block := new byte[BLOCK](i requires 0 <= i < BLOCK => if i < |reduced| then reduced[i] else 0);
    ZerosAreZero(BLOCK - |reduced|);
    assert block[..] == BlockKey(key);

    var innerPad := new byte[BLOCK](_ => 0x36);
    var outerPad := new byte[BLOCK](_ => 0x5c);
    for i := 0 to BLOCK
      invariant block[..] == BlockKey(key)
      invariant forall j :: 0 <= j < i ==> innerPad[j] == Xor(0x36, block[j]) && outerPad[j] == Xor(0x5c, block[j])
      invariant forall j :: i <= j < BLOCK ==> innerPad[j] == 0x36 && outerPad[j] == 0x5c
    {
      innerPad[i] := Xor(innerPad[i], block[i]);
      outerPad[i] := Xor(outerPad[i], block[i]);
    }
    assert innerPad[..] == XorEach(BlockKey(key), 0x36);
    assert outerPad[..] == XorEach(BlockKey(key), 0x5c);
    TwoPieces(innerPad[..], message);
    var inner := HashPieces([innerPad[..], message]);
    TwoPieces(outerPad[..], inner);
    mac := HashPieces([outerPad[..], inner]);
  }

  /** Octet `i` of a key filled up with zeros. */
  function KeyOctet(key: seq<byte>, i: nat): bv8 { if i < |key| then key[i] as bv8 else 0 }

  /** **What a message is signed with**, for a key of at most a block: pads whose octets are
      those of the zero-filled key with 0x5c, outermost, and with 0x36 flipped in. */
  lemma SignsWithItsPads(key: seq<byte>, message: seq<byte>, outer: seq<byte>, inner: seq<byte>)
    requires |key| <= 64 && |outer| == 64 && |inner| == 64
    requires forall i :: 0 <= i < 64 ==> outer[i] == (KeyOctet(key, i) ^ 0x5c) as int
    requires forall i :: 0 <= i < 64 ==> inner[i] == (KeyOctet(key, i) ^ 0x36) as int
    ensures HmacSha256(key, message) == Computed(outer + Computed(inner + message))
  {
    hide Computed, XorEach, BlockKey, KeyOctet;
    PadIs(key, 0x5c, outer);
    PadIs(key, 0x36, inner);
  }

  lemma PadIs(key: seq<byte>, pad: byte, octets: seq<byte>)
    requires |key| <= 64 && |octets| == 64
    requires forall i :: 0 <= i < 64 ==> octets[i] == (KeyOctet(key, i) ^ (pad as bv8)) as int
    ensures XorEach(BlockKey(key), pad) == octets
  {
    hide Xor, BlockKey, KeyOctet;
    var k := BlockKey(key);
    forall i | 0 <= i < 64 ensures XorEach(k, pad)[i] == octets[i] {
      BlockKeyIs(key, i);
      XorIs(pad, k[i]);
    }
  }

  lemma BlockKeyIs(key: seq<byte>, i: nat)
    requires |key| <= 64 && i < 64
    ensures BlockKey(key)[i] as bv8 == KeyOctet(key, i)
  {
    hide Computed;
    ZerosAreZero(BLOCK - |key|);
  }

  lemma XorIs(pad: byte, k: byte)
    ensures Xor(pad, k) == ((k as bv8) ^ (pad as bv8)) as int
  {
    Commutes(pad as bv8, k as bv8);
  }

  lemma Commutes(a: bv8, b: bv8)
    ensures a ^ b == b ^ a
  {}

  /** A longer key signs as its digest does. */
  lemma LongKeySignsAsDigest(key: seq<byte>, message: seq<byte>)
    requires |key| > 64
    ensures HmacSha256(key, message) == HmacSha256(Computed(key), message)
  {
    hide Computed;
  }
}
