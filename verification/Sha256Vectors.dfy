/** The constants of sections 4.2.2 and 5.3.3 of FIPS 180-4 as the roots of primes they are, and
    the digest of the standard's one-block message, traced round by round. */
module Sha256Vectors {
  import opened Text
  import opened Sha256
  import opened BlobRef

  // ---- The first sixty-four primes -----------------------------------------

  predicate IsPrime(n: nat) { n >= 2 && forall d :: 2 <= d < n ==> n % d != 0 }

  const PRIMES: seq<nat> :=
    [2, 3, 5, 7, 11, 13, 17, 19, 23] +
    [29, 31, 37, 41, 43, 47] +
    [53, 59, 61, 67, 71, 73] +
    [79, 83, 89, 97, 101, 103] +
    [107, 109, 113, 127] +
    [131, 137, 139, 149, 151] +
    [157, 163, 167, 173, 179, 181] +
    [191, 193, 197, 199] +
    [211, 223, 227, 229, 233] +
    [239, 241, 251, 257] +
    [263, 269, 271, 277, 281, 283] +
    [293, 307, 311]

  /** No prime up to 17 divides `n`, unless it is `n`. */
  predicate Sieved(n: nat) {
    && n >= 2 && (n % 2 != 0 || n == 2) && (n % 3 != 0 || n == 3) && (n % 5 != 0 || n == 5)
    && (n % 7 != 0 || n == 7) && (n % 11 != 0 || n == 11) && (n % 13 != 0 || n == 13) && (n % 17 != 0 || n == 17)
  }

  lemma PrimeMultiple(q: nat, x: nat)
    requires q in {2, 3, 5, 7, 11, 13, 17} && 2 <= x
    ensures !Sieved(q * x)
  {
    hide Sieved;
    Multiples(x);
    if q == 2 { SievedOut(2 * x, 2); }
    else if q == 3 { SievedOut(3 * x, 3); }
    else if q == 5 { SievedOut(5 * x, 5); }
    else if q == 7 { SievedOut(7 * x, 7); }
    else if q == 11 { SievedOut(11 * x, 11); }
    else if q == 13 { SievedOut(13 * x, 13); }
    else { SievedOut(17 * x, 17); }
  }

  lemma Multiples(x: nat)
    ensures (2 * x) % 2 == 0 && (3 * x) % 3 == 0 && (5 * x) % 5 == 0 && (7 * x) % 7 == 0
    ensures (11 * x) % 11 == 0 && (13 * x) % 13 == 0 && (17 * x) % 17 == 0
  {}

  lemma SievedOut(n: nat, q: nat)
    requires q in {2, 3, 5, 7, 11, 13, 17} && n > q && n % q == 0
    ensures !Sieved(n)
  {}

  lemma SmallDivisor(d: nat, e: nat)
    requires 2 <= d <= 17 && 2 <= e
    ensures !Sieved(d * e)
  {
    hide Sieved;
    var q := if d % 2 == 0 then 2 else if d % 3 == 0 then 3 else d;
    var k := d / q;
    assert d == q * k && k >= 1;
    assert d * e == q * (k * e);
    assert k * e >= e;
    PrimeMultiple(q, k * e);
  }

  lemma LargeDivisors(d: nat, e: nat)
    requires 18 <= d && 18 <= e
    ensures d * e >= 324
  {
    assert d * e >= 18 * e;
  }

  lemma Cofactor(n: nat, d: nat) returns (e: nat)
    requires 2 <= d < n && n % d == 0
    ensures n == d * e && 2 <= e
  {
    e := n / d;
    assert n == d * e;
    assert d * 0 == 0 && d * 1 == d;
  }

  lemma HasDivisor(n: nat)
    requires n >= 2 && !Sieved(n)
    ensures exists d :: 2 <= d < n && n % d == 0
  {
    var d := if n % 2 == 0 && n != 2 then 2 else if n % 3 == 0 && n != 3 then 3 else if n % 5 == 0 && n != 5 then 5
             else if n % 7 == 0 && n != 7 then 7 else if n % 11 == 0 && n != 11 then 11
             else if n % 13 == 0 && n != 13 then 13 else 17;
    assert 2 <= d < n && n % d == 0;
  }

  /** Below the square of 18 the sieve leaves exactly the primes. */
  lemma SievedIsPrime(n: nat)
    requires n < 324
    ensures Sieved(n) <==> IsPrime(n)
  {
    if IsPrime(n) && !Sieved(n) { HasDivisor(n); }
    if Sieved(n) && !IsPrime(n) {
      var d :| 2 <= d < n && n % d == 0;
      var e := Cofactor(n, d);
      if d <= 17 { SmallDivisor(d, e); } else if e <= 17 { SmallDivisor(e, d); } else { LargeDivisors(d, e); }
    }
  }

  lemma Primes0(n: nat)
    requires n < 13
    ensures Sieved(n) <==> n in [2, 3, 5, 7, 11, 13, 17, 19, 23]
  {}

  lemma Primes13(n: nat)
    requires 13 <= n < 26
    ensures Sieved(n) <==> n in [2, 3, 5, 7, 11, 13, 17, 19, 23]
  {}

  lemma Primes26(n: nat)
    requires 26 <= n < 39
    ensures Sieved(n) <==> n in [29, 31, 37, 41, 43, 47]
  {}

  lemma Primes39(n: nat)
    requires 39 <= n < 52
    ensures Sieved(n) <==> n in [29, 31, 37, 41, 43, 47]
  {}

  lemma Primes52(n: nat)
    requires 52 <= n < 65
    ensures Sieved(n) <==> n in [53, 59, 61, 67, 71, 73]
  {}

  lemma Primes65(n: nat)
    requires 65 <= n < 78
    ensures Sieved(n) <==> n in [53, 59, 61, 67, 71, 73]
  {}

  lemma Primes78(n: nat)
    requires 78 <= n < 91
    ensures Sieved(n) <==> n in [79, 83, 89, 97, 101, 103]
  {}

  lemma Primes91(n: nat)
    requires 91 <= n < 104
    ensures Sieved(n) <==> n in [79, 83, 89, 97, 101, 103]
  {}

  lemma Primes104(n: nat)
    requires 104 <= n < 117
    ensures Sieved(n) <==> n in [107, 109, 113, 127]
  {}

  lemma Primes117(n: nat)
    requires 117 <= n < 130
    ensures Sieved(n) <==> n in [107, 109, 113, 127]
  {}

  lemma Primes130(n: nat)
    requires 130 <= n < 143
    ensures Sieved(n) <==> n in [131, 137, 139, 149, 151]
  {}

  lemma Primes143(n: nat)
    requires 143 <= n < 156
    ensures Sieved(n) <==> n in [131, 137, 139, 149, 151]
  {}

  lemma Primes156(n: nat)
    requires 156 <= n < 169
    ensures Sieved(n) <==> n in [157, 163, 167, 173, 179, 181]
  {}

  lemma Primes169(n: nat)
    requires 169 <= n < 182
    ensures Sieved(n) <==> n in [157, 163, 167, 173, 179, 181]
  {}

  lemma Primes182(n: nat)
    requires 182 <= n < 195
    ensures Sieved(n) <==> n in [191, 193, 197, 199]
  {}

  lemma Primes195(n: nat)
    requires 195 <= n < 208
    ensures Sieved(n) <==> n in [191, 193, 197, 199]
  {}

  lemma Primes208(n: nat)
    requires 208 <= n < 221
    ensures Sieved(n) <==> n in [211, 223, 227, 229, 233]
  {}

  lemma Primes221(n: nat)
    requires 221 <= n < 234
    ensures Sieved(n) <==> n in [211, 223, 227, 229, 233]
  {}

  lemma Primes234(n: nat)
    requires 234 <= n < 247
    ensures Sieved(n) <==> n in [239, 241, 251, 257]
  {}

  lemma Primes247(n: nat)
    requires 247 <= n < 260
    ensures Sieved(n) <==> n in [239, 241, 251, 257]
  {}

  lemma Primes260(n: nat)
    requires 260 <= n < 273
    ensures Sieved(n) <==> n in [263, 269, 271, 277, 281, 283]
  {}

  lemma Primes273(n: nat)
    requires 273 <= n < 286
    ensures Sieved(n) <==> n in [263, 269, 271, 277, 281, 283]
  {}

  lemma Primes286(n: nat)
    requires 286 <= n < 299
    ensures Sieved(n) <==> n in [293, 307, 311]
  {}

  lemma Primes299(n: nat)
    requires 299 <= n < 312
    ensures Sieved(n) <==> n in [293, 307, 311]
  {}

  lemma InSomePart(n: nat)
    ensures n in PRIMES <==>
            (n in [2, 3, 5, 7, 11, 13, 17, 19, 23] ||
             n in [29, 31, 37, 41, 43, 47] ||
             n in [53, 59, 61, 67, 71, 73] ||
             n in [79, 83, 89, 97, 101, 103] ||
             n in [107, 109, 113, 127] ||
             n in [131, 137, 139, 149, 151] ||
             n in [157, 163, 167, 173, 179, 181] ||
             n in [191, 193, 197, 199] ||
             n in [211, 223, 227, 229, 233] ||
             n in [239, 241, 251, 257] ||
             n in [263, 269, 271, 277, 281, 283] ||
             n in [293, 307, 311])
  {}

  lemma SievedIsListed(n: nat)
    requires n < 312
    ensures Sieved(n) <==> n in PRIMES
  {
    hide Sieved, PRIMES;
    InSomePart(n);
    if n < 13 { Primes0(n); }
    else if n < 26 { Primes13(n); }
    else if n < 39 { Primes26(n); }
    else if n < 52 { Primes39(n); }
    else if n < 65 { Primes52(n); }
    else if n < 78 { Primes65(n); }
    else if n < 91 { Primes78(n); }
    else if n < 104 { Primes91(n); }
    else if n < 117 { Primes104(n); }
    else if n < 130 { Primes117(n); }
    else if n < 143 { Primes130(n); }
    else if n < 156 { Primes143(n); }
    else if n < 169 { Primes156(n); }
    else if n < 182 { Primes169(n); }
    else if n < 195 { Primes182(n); }
    else if n < 208 { Primes195(n); }
    else if n < 221 { Primes208(n); }
    else if n < 234 { Primes221(n); }
    else if n < 247 { Primes234(n); }
    else if n < 260 { Primes247(n); }
    else if n < 273 { Primes260(n); }
    else if n < 286 { Primes273(n); }
    else if n < 299 { Primes286(n); }
    else { Primes299(n); }
  }

  /** The list holds the first sixty-four primes in order: every prime below 312 and no other. */
  lemma FirstPrimes()
    ensures |PRIMES| == 64 && forall i :: 0 <= i < 63 ==> PRIMES[i] < PRIMES[i + 1]
    ensures forall n: nat :: n < 312 ==> (n in PRIMES <==> IsPrime(n))
    ensures forall p <- PRIMES :: p < 312
  {
    PrimesAscend();
    hide PRIMES, Sieved, IsPrime;
    forall n: nat | n < 312 ensures n in PRIMES <==> IsPrime(n) {
      SievedIsPrime(n);
      SievedIsListed(n);
    }
  }

  lemma PrimesBelow()
    ensures |PRIMES| == 64 && forall p <- PRIMES :: p < 312
  {
    hide PRIMES;
    Primes0To7();
    forall p | p in PRIMES ensures p < 312 { InSomePart(p); }
  }

  lemma PrimesAscend()
    ensures |PRIMES| == 64 && (forall i :: 0 <= i < 63 ==> PRIMES[i] < PRIMES[i + 1])
    ensures forall p <- PRIMES :: p < 312
  {
    hide PRIMES;
    PrimesBelow();
    Ascend0();
    Ascend8();
    Ascend16();
    Ascend24();
    Ascend32();
    Ascend40();
    Ascend48();
    Ascend56();
  }

  lemma Primes0To7()
    ensures |PRIMES| == 64 && PRIMES[0] == 2 && PRIMES[1] == 3 && PRIMES[2] == 5 && PRIMES[3] == 7
    ensures PRIMES[4] == 11 && PRIMES[5] == 13 && PRIMES[6] == 17 && PRIMES[7] == 19
  {}

  lemma Ascend0()
    ensures |PRIMES| == 64 && forall i :: 0 <= i < 8 ==> PRIMES[i] < PRIMES[i + 1]
  {
    hide PRIMES;
    Primes0To7();
    Primes8To15();
  }

  lemma Primes8To15()
    ensures |PRIMES| == 64 && PRIMES[8] == 23 && PRIMES[9] == 29 && PRIMES[10] == 31 && PRIMES[11] == 37
    ensures PRIMES[12] == 41 && PRIMES[13] == 43 && PRIMES[14] == 47 && PRIMES[15] == 53
  {}

  lemma Ascend8()
    ensures |PRIMES| == 64 && forall i :: 8 <= i < 16 ==> PRIMES[i] < PRIMES[i + 1]
  {
    hide PRIMES;
    Primes8To15();
    Primes16To23();
  }

  lemma Primes16To23()
    ensures |PRIMES| == 64 && PRIMES[16] == 59 && PRIMES[17] == 61 && PRIMES[18] == 67 && PRIMES[19] == 71
    ensures PRIMES[20] == 73 && PRIMES[21] == 79 && PRIMES[22] == 83 && PRIMES[23] == 89
  {}

  lemma Ascend16()
    ensures |PRIMES| == 64 && forall i :: 16 <= i < 24 ==> PRIMES[i] < PRIMES[i + 1]
  {
    hide PRIMES;
    Primes16To23();
    Primes24To31();
  }

  lemma Primes24To31()
    ensures |PRIMES| == 64 && PRIMES[24] == 97 && PRIMES[25] == 101 && PRIMES[26] == 103 && PRIMES[27] == 107
    ensures PRIMES[28] == 109 && PRIMES[29] == 113 && PRIMES[30] == 127 && PRIMES[31] == 131
  {}

  lemma Ascend24()
    ensures |PRIMES| == 64 && forall i :: 24 <= i < 32 ==> PRIMES[i] < PRIMES[i + 1]
  {
    hide PRIMES;
    Primes24To31();
    Primes32To39();
  }

  lemma Primes32To39()
    ensures |PRIMES| == 64 && PRIMES[32] == 137 && PRIMES[33] == 139 && PRIMES[34] == 149 && PRIMES[35] == 151
    ensures PRIMES[36] == 157 && PRIMES[37] == 163 && PRIMES[38] == 167 && PRIMES[39] == 173
  {}

  lemma Ascend32()
    ensures |PRIMES| == 64 && forall i :: 32 <= i < 40 ==> PRIMES[i] < PRIMES[i + 1]
  {
    hide PRIMES;
    Primes32To39();
    Primes40To47();
  }

  lemma Primes40To47()
    ensures |PRIMES| == 64 && PRIMES[40] == 179 && PRIMES[41] == 181 && PRIMES[42] == 191 && PRIMES[43] == 193
    ensures PRIMES[44] == 197 && PRIMES[45] == 199 && PRIMES[46] == 211 && PRIMES[47] == 223
  {}

  lemma Ascend40()
    ensures |PRIMES| == 64 && forall i :: 40 <= i < 48 ==> PRIMES[i] < PRIMES[i + 1]
  {
    hide PRIMES;
    Primes40To47();
    Primes48To55();
  }

  lemma Primes48To55()
    ensures |PRIMES| == 64 && PRIMES[48] == 227 && PRIMES[49] == 229 && PRIMES[50] == 233 && PRIMES[51] == 239
    ensures PRIMES[52] == 241 && PRIMES[53] == 251 && PRIMES[54] == 257 && PRIMES[55] == 263
  {}

  lemma Ascend48()
    ensures |PRIMES| == 64 && forall i :: 48 <= i < 56 ==> PRIMES[i] < PRIMES[i + 1]
  {
    hide PRIMES;
    Primes48To55();
    Primes56To63();
  }

  lemma Primes56To63()
    ensures |PRIMES| == 64 && PRIMES[56] == 269 && PRIMES[57] == 271 && PRIMES[58] == 277 && PRIMES[59] == 281
    ensures PRIMES[60] == 283 && PRIMES[61] == 293 && PRIMES[62] == 307 && PRIMES[63] == 311
  {}

  lemma Ascend56()
    ensures |PRIMES| == 64 && forall i :: 56 <= i < 63 ==> PRIMES[i] < PRIMES[i + 1]
  {
    hide PRIMES;
    Primes56To63();
  }

  // ---- The constants -------------------------------------------------------

  /** `w` is the first 32 bits of the fractional part of the cube root of `p`. */
  ghost predicate IsCubeRootFraction(w: word, p: nat) {
    exists r: nat ::
      && r * r * r <= p * 0x1_0000_0000_0000_0000_0000_0000 < (r + 1) * (r + 1) * (r + 1)
      && w as int == r % 0x1_0000_0000
  }

  lemma CubeRoot(w: word, p: nat, r: nat)
    requires r * r * r <= p * 0x1_0000_0000_0000_0000_0000_0000 < (r + 1) * (r + 1) * (r + 1)
    requires w as int == r % 0x1_0000_0000
    ensures IsCubeRootFraction(w, p)
  {}

  /** `w` is the first 32 bits of the fractional part of the square root of `p`. */
  ghost predicate IsSquareRootFraction(w: word, p: nat) {
    exists r: nat :: r * r <= p * 0x1_0000_0000_0000_0000 < (r + 1) * (r + 1) && w as int == r % 0x1_0000_0000
  }

  lemma SquareRoot(w: word, p: nat, r: nat)
    requires r * r <= p * 0x1_0000_0000_0000_0000 < (r + 1) * (r + 1) && w as int == r % 0x1_0000_0000
    ensures IsSquareRootFraction(w, p)
  {}

  lemma Constants0()
    ensures K()[0] == 0x428a2f98 && K()[1] == 0x71374491 && K()[2] == 0xb5c0fbcf && K()[3] == 0xe9b5dba5
    ensures K()[4] == 0x3956c25b && K()[5] == 0x59f111f1 && K()[6] == 0x923f82a4 && K()[7] == 0xab1c5ed5
  {}

  lemma Cubes0()
    ensures IsCubeRootFraction(0x428a2f98, 2)
    ensures IsCubeRootFraction(0x71374491, 3)
    ensures IsCubeRootFraction(0xb5c0fbcf, 5)
    ensures IsCubeRootFraction(0xe9b5dba5, 7)
  {
    hide IsCubeRootFraction;
    CubeRoot(0x428a2f98, 2, 0x1428a2f98);
    CubeRoot(0x71374491, 3, 0x171374491);
    CubeRoot(0xb5c0fbcf, 5, 0x1b5c0fbcf);
    CubeRoot(0xe9b5dba5, 7, 0x1e9b5dba5);
  }

  lemma Cubes4()
    ensures IsCubeRootFraction(0x3956c25b, 11)
    ensures IsCubeRootFraction(0x59f111f1, 13)
    ensures IsCubeRootFraction(0x923f82a4, 17)
    ensures IsCubeRootFraction(0xab1c5ed5, 19)
  {
    hide IsCubeRootFraction;
    CubeRoot(0x3956c25b, 11, 0x23956c25b);
    CubeRoot(0x59f111f1, 13, 0x259f111f1);
    CubeRoot(0x923f82a4, 17, 0x2923f82a4);
    CubeRoot(0xab1c5ed5, 19, 0x2ab1c5ed5);
  }

  lemma Roots0()
    ensures forall i :: 0 <= i < 8 ==> IsCubeRootFraction(K()[i], PRIMES[i])
  {
    hide IsCubeRootFraction, K, PRIMES;
    Primes0To7();
    Constants0();
    Cubes0();
    Cubes4();
  }

  lemma Constants8()
    ensures K()[8] == 0xd807aa98 && K()[9] == 0x12835b01 && K()[10] == 0x243185be && K()[11] == 0x550c7dc3
    ensures K()[12] == 0x72be5d74 && K()[13] == 0x80deb1fe && K()[14] == 0x9bdc06a7 && K()[15] == 0xc19bf174
  {}

  lemma Cubes8()
    ensures IsCubeRootFraction(0xd807aa98, 23)
    ensures IsCubeRootFraction(0x12835b01, 29)
    ensures IsCubeRootFraction(0x243185be, 31)
    ensures IsCubeRootFraction(0x550c7dc3, 37)
  {
    hide IsCubeRootFraction;
    CubeRoot(0xd807aa98, 23, 0x2d807aa98);
    CubeRoot(0x12835b01, 29, 0x312835b01);
    CubeRoot(0x243185be, 31, 0x3243185be);
    CubeRoot(0x550c7dc3, 37, 0x3550c7dc3);
  }

  lemma Cubes12()
    ensures IsCubeRootFraction(0x72be5d74, 41)
    ensures IsCubeRootFraction(0x80deb1fe, 43)
    ensures IsCubeRootFraction(0x9bdc06a7, 47)
    ensures IsCubeRootFraction(0xc19bf174, 53)
  {
    hide IsCubeRootFraction;
    CubeRoot(0x72be5d74, 41, 0x372be5d74);
    CubeRoot(0x80deb1fe, 43, 0x380deb1fe);
    CubeRoot(0x9bdc06a7, 47, 0x39bdc06a7);
    CubeRoot(0xc19bf174, 53, 0x3c19bf174);
  }

  lemma Roots8()
    ensures forall i :: 8 <= i < 16 ==> IsCubeRootFraction(K()[i], PRIMES[i])
  {
    hide IsCubeRootFraction, K, PRIMES;
    Primes8To15();
    Constants8();
    Cubes8();
    Cubes12();
  }

  lemma Constants16()
    ensures K()[16] == 0xe49b69c1 && K()[17] == 0xefbe4786 && K()[18] == 0x0fc19dc6 && K()[19] == 0x240ca1cc
    ensures K()[20] == 0x2de92c6f && K()[21] == 0x4a7484aa && K()[22] == 0x5cb0a9dc && K()[23] == 0x76f988da
  {}

  lemma Cubes16()
    ensures IsCubeRootFraction(0xe49b69c1, 59)
    ensures IsCubeRootFraction(0xefbe4786, 61)
    ensures IsCubeRootFraction(0x0fc19dc6, 67)
    ensures IsCubeRootFraction(0x240ca1cc, 71)
  {
    hide IsCubeRootFraction;
    CubeRoot(0xe49b69c1, 59, 0x3e49b69c1);
    CubeRoot(0xefbe4786, 61, 0x3efbe4786);
    CubeRoot(0x0fc19dc6, 67, 0x40fc19dc6);
    CubeRoot(0x240ca1cc, 71, 0x4240ca1cc);
  }

  lemma Cubes20()
    ensures IsCubeRootFraction(0x2de92c6f, 73)
    ensures IsCubeRootFraction(0x4a7484aa, 79)
    ensures IsCubeRootFraction(0x5cb0a9dc, 83)
    ensures IsCubeRootFraction(0x76f988da, 89)
  {
    hide IsCubeRootFraction;
    CubeRoot(0x2de92c6f, 73, 0x42de92c6f);
    CubeRoot(0x4a7484aa, 79, 0x44a7484aa);
    CubeRoot(0x5cb0a9dc, 83, 0x45cb0a9dc);
    CubeRoot(0x76f988da, 89, 0x476f988da);
  }

  lemma Roots16()
    ensures forall i :: 16 <= i < 24 ==> IsCubeRootFraction(K()[i], PRIMES[i])
  {
    hide IsCubeRootFraction, K, PRIMES;
    Primes16To23();
    Constants16();
    Cubes16();
    Cubes20();
  }

  lemma Constants24()
    ensures K()[24] == 0x983e5152 && K()[25] == 0xa831c66d && K()[26] == 0xb00327c8 && K()[27] == 0xbf597fc7
    ensures K()[28] == 0xc6e00bf3 && K()[29] == 0xd5a79147 && K()[30] == 0x06ca6351 && K()[31] == 0x14292967
  {}

  lemma Cubes24()
    ensures IsCubeRootFraction(0x983e5152, 97)
    ensures IsCubeRootFraction(0xa831c66d, 101)
    ensures IsCubeRootFraction(0xb00327c8, 103)
    ensures IsCubeRootFraction(0xbf597fc7, 107)
  {
    hide IsCubeRootFraction;
    CubeRoot(0x983e5152, 97, 0x4983e5152);
    CubeRoot(0xa831c66d, 101, 0x4a831c66d);
    CubeRoot(0xb00327c8, 103, 0x4b00327c8);
    CubeRoot(0xbf597fc7, 107, 0x4bf597fc7);
  }

  lemma Cubes28()
    ensures IsCubeRootFraction(0xc6e00bf3, 109)
    ensures IsCubeRootFraction(0xd5a79147, 113)
    ensures IsCubeRootFraction(0x06ca6351, 127)
    ensures IsCubeRootFraction(0x14292967, 131)
  {
    hide IsCubeRootFraction;
    CubeRoot(0xc6e00bf3, 109, 0x4c6e00bf3);
    CubeRoot(0xd5a79147, 113, 0x4d5a79147);
    CubeRoot(0x06ca6351, 127, 0x506ca6351);
    CubeRoot(0x14292967, 131, 0x514292967);
  }

  lemma Roots24()
    ensures forall i :: 24 <= i < 32 ==> IsCubeRootFraction(K()[i], PRIMES[i])
  {
    hide IsCubeRootFraction, K, PRIMES;
    Primes24To31();
    Constants24();
    Cubes24();
    Cubes28();
  }

  lemma Constants32()
    ensures K()[32] == 0x27b70a85 && K()[33] == 0x2e1b2138 && K()[34] == 0x4d2c6dfc && K()[35] == 0x53380d13
    ensures K()[36] == 0x650a7354 && K()[37] == 0x766a0abb && K()[38] == 0x81c2c92e && K()[39] == 0x92722c85
  {}

  lemma Cubes32()
    ensures IsCubeRootFraction(0x27b70a85, 137)
    ensures IsCubeRootFraction(0x2e1b2138, 139)
    ensures IsCubeRootFraction(0x4d2c6dfc, 149)
    ensures IsCubeRootFraction(0x53380d13, 151)
  {
    hide IsCubeRootFraction;
    CubeRoot(0x27b70a85, 137, 0x527b70a85);
    CubeRoot(0x2e1b2138, 139, 0x52e1b2138);
    CubeRoot(0x4d2c6dfc, 149, 0x54d2c6dfc);
    CubeRoot(0x53380d13, 151, 0x553380d13);
  }

  lemma Cubes36()
    ensures IsCubeRootFraction(0x650a7354, 157)
    ensures IsCubeRootFraction(0x766a0abb, 163)
    ensures IsCubeRootFraction(0x81c2c92e, 167)
    ensures IsCubeRootFraction(0x92722c85, 173)
  {
    hide IsCubeRootFraction;
    CubeRoot(0x650a7354, 157, 0x5650a7354);
    CubeRoot(0x766a0abb, 163, 0x5766a0abb);
    CubeRoot(0x81c2c92e, 167, 0x581c2c92e);
    CubeRoot(0x92722c85, 173, 0x592722c85);
  }

  lemma Roots32()
    ensures forall i :: 32 <= i < 40 ==> IsCubeRootFraction(K()[i], PRIMES[i])
  {
    hide IsCubeRootFraction, K, PRIMES;
    Primes32To39();
    Constants32();
    Cubes32();
    Cubes36();
  }

  lemma Constants40()
    ensures K()[40] == 0xa2bfe8a1 && K()[41] == 0xa81a664b && K()[42] == 0xc24b8b70 && K()[43] == 0xc76c51a3
    ensures K()[44] == 0xd192e819 && K()[45] == 0xd6990624 && K()[46] == 0xf40e3585 && K()[47] == 0x106aa070
  {}

  lemma Cubes40()
    ensures IsCubeRootFraction(0xa2bfe8a1, 179)
    ensures IsCubeRootFraction(0xa81a664b, 181)
    ensures IsCubeRootFraction(0xc24b8b70, 191)
    ensures IsCubeRootFraction(0xc76c51a3, 193)
  {
    hide IsCubeRootFraction;
    CubeRoot(0xa2bfe8a1, 179, 0x5a2bfe8a1);
    CubeRoot(0xa81a664b, 181, 0x5a81a664b);
    CubeRoot(0xc24b8b70, 191, 0x5c24b8b70);
    CubeRoot(0xc76c51a3, 193, 0x5c76c51a3);
  }

  lemma Cubes44()
    ensures IsCubeRootFraction(0xd192e819, 197)
    ensures IsCubeRootFraction(0xd6990624, 199)
    ensures IsCubeRootFraction(0xf40e3585, 211)
    ensures IsCubeRootFraction(0x106aa070, 223)
  {
    hide IsCubeRootFraction;
    CubeRoot(0xd192e819, 197, 0x5d192e819);
    CubeRoot(0xd6990624, 199, 0x5d6990624);
    CubeRoot(0xf40e3585, 211, 0x5f40e3585);
    CubeRoot(0x106aa070, 223, 0x6106aa070);
  }

  lemma Roots40()
    ensures forall i :: 40 <= i < 48 ==> IsCubeRootFraction(K()[i], PRIMES[i])
  {
    hide IsCubeRootFraction, K, PRIMES;
    Primes40To47();
    Constants40();
    Cubes40();
    Cubes44();
  }

  lemma Constants48()
    ensures K()[48] == 0x19a4c116 && K()[49] == 0x1e376c08 && K()[50] == 0x2748774c && K()[51] == 0x34b0bcb5
    ensures K()[52] == 0x391c0cb3 && K()[53] == 0x4ed8aa4a && K()[54] == 0x5b9cca4f && K()[55] == 0x682e6ff3
  {}

  lemma Cubes48()
    ensures IsCubeRootFraction(0x19a4c116, 227)
    ensures IsCubeRootFraction(0x1e376c08, 229)
    ensures IsCubeRootFraction(0x2748774c, 233)
    ensures IsCubeRootFraction(0x34b0bcb5, 239)
  {
    hide IsCubeRootFraction;
    CubeRoot(0x19a4c116, 227, 0x619a4c116);
    CubeRoot(0x1e376c08, 229, 0x61e376c08);
    CubeRoot(0x2748774c, 233, 0x62748774c);
    CubeRoot(0x34b0bcb5, 239, 0x634b0bcb5);
  }

  lemma Cubes52()
    ensures IsCubeRootFraction(0x391c0cb3, 241)
    ensures IsCubeRootFraction(0x4ed8aa4a, 251)
    ensures IsCubeRootFraction(0x5b9cca4f, 257)
    ensures IsCubeRootFraction(0x682e6ff3, 263)
  {
    hide IsCubeRootFraction;
    CubeRoot(0x391c0cb3, 241, 0x6391c0cb3);
    CubeRoot(0x4ed8aa4a, 251, 0x64ed8aa4a);
    CubeRoot(0x5b9cca4f, 257, 0x65b9cca4f);
    CubeRoot(0x682e6ff3, 263, 0x6682e6ff3);
  }

  lemma Roots48()
    ensures forall i :: 48 <= i < 56 ==> IsCubeRootFraction(K()[i], PRIMES[i])
  {
    hide IsCubeRootFraction, K, PRIMES;
    Primes48To55();
    Constants48();
    Cubes48();
    Cubes52();
  }

  lemma Constants56()
    ensures K()[56] == 0x748f82ee && K()[57] == 0x78a5636f && K()[58] == 0x84c87814 && K()[59] == 0x8cc70208
    ensures K()[60] == 0x90befffa && K()[61] == 0xa4506ceb && K()[62] == 0xbef9a3f7 && K()[63] == 0xc67178f2
  {}

  lemma Cubes56()
    ensures IsCubeRootFraction(0x748f82ee, 269)
    ensures IsCubeRootFraction(0x78a5636f, 271)
    ensures IsCubeRootFraction(0x84c87814, 277)
    ensures IsCubeRootFraction(0x8cc70208, 281)
  {
    hide IsCubeRootFraction;
    CubeRoot(0x748f82ee, 269, 0x6748f82ee);
    CubeRoot(0x78a5636f, 271, 0x678a5636f);
    CubeRoot(0x84c87814, 277, 0x684c87814);
    CubeRoot(0x8cc70208, 281, 0x68cc70208);
  }

  lemma Cubes60()
    ensures IsCubeRootFraction(0x90befffa, 283)
    ensures IsCubeRootFraction(0xa4506ceb, 293)
    ensures IsCubeRootFraction(0xbef9a3f7, 307)
    ensures IsCubeRootFraction(0xc67178f2, 311)
  {
    hide IsCubeRootFraction;
    CubeRoot(0x90befffa, 283, 0x690befffa);
    CubeRoot(0xa4506ceb, 293, 0x6a4506ceb);
    CubeRoot(0xbef9a3f7, 307, 0x6bef9a3f7);
    CubeRoot(0xc67178f2, 311, 0x6c67178f2);
  }

  lemma Roots56()
    ensures forall i :: 56 <= i < 64 ==> IsCubeRootFraction(K()[i], PRIMES[i])
  {
    hide IsCubeRootFraction, K, PRIMES;
    Primes56To63();
    Constants56();
    Cubes56();
    Cubes60();
  }

  /** **The round constants are what the standard says**: the first 32 bits of the fractional
      parts of the cube roots of the first sixty-four primes, in order. */
  lemma RoundConstantsAreCubeRoots()
    ensures forall i :: 0 <= i < 64 ==> IsCubeRootFraction(K()[i], PRIMES[i])
  {
    hide IsCubeRootFraction, K, PRIMES;
    PrimesAscend();
    Roots0();
    Roots8();
    Roots16();
    Roots24();
    Roots32();
    Roots40();
    Roots48();
    Roots56();
  }

  /** And the initial hash value those of the square roots of the first eight. */
  lemma InitialValueIsSquareRoots()
    ensures forall i :: 0 <= i < 8 ==> IsSquareRootFraction(At(H0, i), PRIMES[i])
  {
    Primes0To7();
    hide IsSquareRootFraction, PRIMES;
    SquareRoot(At(H0, 0), 2, 0x16a09e667);
    SquareRoot(At(H0, 1), 3, 0x1bb67ae85);
    SquareRoot(At(H0, 2), 5, 0x23c6ef372);
    SquareRoot(At(H0, 3), 7, 0x2a54ff53a);
    SquareRoot(At(H0, 4), 11, 0x3510e527f);
    SquareRoot(At(H0, 5), 13, 0x39b05688c);
    SquareRoot(At(H0, 6), 17, 0x41f83d9ab);
    SquareRoot(At(H0, 7), 19, 0x45be0cd19);
  }

  // ---- The one-block message -----------------------------------------------

  /** The octets of "abc". */
  const ABC: seq<byte> := [0x61, 0x62, 0x63]

  /** The working variables before each round and after the last. */
  const V0 := H0
  const V1 := Vars(0x5d6aebcd, 0x6a09e667, 0xbb67ae85, 0x3c6ef372, 0xfa2a4622, 0x510e527f, 0x9b05688c, 0x1f83d9ab)
  const V2 := Vars(0x5a6ad9ad, 0x5d6aebcd, 0x6a09e667, 0xbb67ae85, 0x78ce7989, 0xfa2a4622, 0x510e527f, 0x9b05688c)
  const V3 := Vars(0xc8c347a7, 0x5a6ad9ad, 0x5d6aebcd, 0x6a09e667, 0xf92939eb, 0x78ce7989, 0xfa2a4622, 0x510e527f)
  const V4 := Vars(0xd550f666, 0xc8c347a7, 0x5a6ad9ad, 0x5d6aebcd, 0x24e00850, 0xf92939eb, 0x78ce7989, 0xfa2a4622)
  const V5 := Vars(0x04409a6a, 0xd550f666, 0xc8c347a7, 0x5a6ad9ad, 0x43ada245, 0x24e00850, 0xf92939eb, 0x78ce7989)
  const V6 := Vars(0x2b4209f5, 0x04409a6a, 0xd550f666, 0xc8c347a7, 0x714260ad, 0x43ada245, 0x24e00850, 0xf92939eb)
  const V7 := Vars(0xe5030380, 0x2b4209f5, 0x04409a6a, 0xd550f666, 0x9b27a401, 0x714260ad, 0x43ada245, 0x24e00850)
  const V8 := Vars(0x85a07b5f, 0xe5030380, 0x2b4209f5, 0x04409a6a, 0x0c657a79, 0x9b27a401, 0x714260ad, 0x43ada245)
  const V9 := Vars(0x8e04ecb9, 0x85a07b5f, 0xe5030380, 0x2b4209f5, 0x32ca2d8c, 0x0c657a79, 0x9b27a401, 0x714260ad)
  const V10 := Vars(0x8c87346b, 0x8e04ecb9, 0x85a07b5f, 0xe5030380, 0x1cc92596, 0x32ca2d8c, 0x0c657a79, 0x9b27a401)
  const V11 := Vars(0x4798a3f4, 0x8c87346b, 0x8e04ecb9, 0x85a07b5f, 0x436b23e8, 0x1cc92596, 0x32ca2d8c, 0x0c657a79)
  const V12 := Vars(0xf71fc5a9, 0x4798a3f4, 0x8c87346b, 0x8e04ecb9, 0x816fd6e9, 0x436b23e8, 0x1cc92596, 0x32ca2d8c)
  const V13 := Vars(0x87912990, 0xf71fc5a9, 0x4798a3f4, 0x8c87346b, 0x1e578218, 0x816fd6e9, 0x436b23e8, 0x1cc92596)
  const V14 := Vars(0xd932eb16, 0x87912990, 0xf71fc5a9, 0x4798a3f4, 0x745a48de, 0x1e578218, 0x816fd6e9, 0x436b23e8)
  const V15 := Vars(0xc0645fde, 0xd932eb16, 0x87912990, 0xf71fc5a9, 0x0b92f20c, 0x745a48de, 0x1e578218, 0x816fd6e9)
  const V16 := Vars(0xb0fa238e, 0xc0645fde, 0xd932eb16, 0x87912990, 0x07590dcd, 0x0b92f20c, 0x745a48de, 0x1e578218)
  const V17 := Vars(0x21da9a9b, 0xb0fa238e, 0xc0645fde, 0xd932eb16, 0x8034229c, 0x07590dcd, 0x0b92f20c, 0x745a48de)
  const V18 := Vars(0xc2fbd9d1, 0x21da9a9b, 0xb0fa238e, 0xc0645fde, 0x846ee454, 0x8034229c, 0x07590dcd, 0x0b92f20c)
  const V19 := Vars(0xfe777bbf, 0xc2fbd9d1, 0x21da9a9b, 0xb0fa238e, 0xcc899961, 0x846ee454, 0x8034229c, 0x07590dcd)
  const V20 := Vars(0xe1f20c33, 0xfe777bbf, 0xc2fbd9d1, 0x21da9a9b, 0xb0638179, 0xcc899961, 0x846ee454, 0x8034229c)
  const V21 := Vars(0x9dc68b63, 0xe1f20c33, 0xfe777bbf, 0xc2fbd9d1, 0x8ada8930, 0xb0638179, 0xcc899961, 0x846ee454)
  const V22 := Vars(0xc2606d6d, 0x9dc68b63, 0xe1f20c33, 0xfe777bbf, 0xe1257970, 0x8ada8930, 0xb0638179, 0xcc899961)
  const V23 := Vars(0xa7a3623f, 0xc2606d6d, 0x9dc68b63, 0xe1f20c33, 0x49f5114a, 0xe1257970, 0x8ada8930, 0xb0638179)
  const V24 := Vars(0xc5d53d8d, 0xa7a3623f, 0xc2606d6d, 0x9dc68b63, 0xaa47c347, 0x49f5114a, 0xe1257970, 0x8ada8930)
  const V25 := Vars(0x1c2c2838, 0xc5d53d8d, 0xa7a3623f, 0xc2606d6d, 0x2823ef91, 0xaa47c347, 0x49f5114a, 0xe1257970)
  const V26 := Vars(0xcde8037d, 0x1c2c2838, 0xc5d53d8d, 0xa7a3623f, 0x14383d8e, 0x2823ef91, 0xaa47c347, 0x49f5114a)
  const V27 := Vars(0xb62ec4bc, 0xcde8037d, 0x1c2c2838, 0xc5d53d8d, 0xc74c6516, 0x14383d8e, 0x2823ef91, 0xaa47c347)
  const V28 := Vars(0x77d37528, 0xb62ec4bc, 0xcde8037d, 0x1c2c2838, 0xedffbff8, 0xc74c6516, 0x14383d8e, 0x2823ef91)
  const V29 := Vars(0x363482c9, 0x77d37528, 0xb62ec4bc, 0xcde8037d, 0x6112a3b7, 0xedffbff8, 0xc74c6516, 0x14383d8e)
  const V30 := Vars(0xa0060b30, 0x363482c9, 0x77d37528, 0xb62ec4bc, 0xade79437, 0x6112a3b7, 0xedffbff8, 0xc74c6516)
  const V31 := Vars(0xea992a22, 0xa0060b30, 0x363482c9, 0x77d37528, 0x0109ab3a, 0xade79437, 0x6112a3b7, 0xedffbff8)
  const V32 := Vars(0x73b33bf5, 0xea992a22, 0xa0060b30, 0x363482c9, 0xba591112, 0x0109ab3a, 0xade79437, 0x6112a3b7)
  const V33 := Vars(0x98e12507, 0x73b33bf5, 0xea992a22, 0xa0060b30, 0x9cd9f5f6, 0xba591112, 0x0109ab3a, 0xade79437)
  const V34 := Vars(0xfe604df5, 0x98e12507, 0x73b33bf5, 0xea992a22, 0x59249dd3, 0x9cd9f5f6, 0xba591112, 0x0109ab3a)
  const V35 := Vars(0xa9a7738c, 0xfe604df5, 0x98e12507, 0x73b33bf5, 0x085f3833, 0x59249dd3, 0x9cd9f5f6, 0xba591112)
  const V36 := Vars(0x65a0cfe4, 0xa9a7738c, 0xfe604df5, 0x98e12507, 0xf4b002d6, 0x085f3833, 0x59249dd3, 0x9cd9f5f6)
  const V37 := Vars(0x41a65cb1, 0x65a0cfe4, 0xa9a7738c, 0xfe604df5, 0x0772a26b, 0xf4b002d6, 0x085f3833, 0x59249dd3)
  const V38 := Vars(0x34df1604, 0x41a65cb1, 0x65a0cfe4, 0xa9a7738c, 0xa507a53d, 0x0772a26b, 0xf4b002d6, 0x085f3833)
  const V39 := Vars(0x6dc57a8a, 0x34df1604, 0x41a65cb1, 0x65a0cfe4, 0xf0781bc8, 0xa507a53d, 0x0772a26b, 0xf4b002d6)
  const V40 := Vars(0x79ea687a, 0x6dc57a8a, 0x34df1604, 0x41a65cb1, 0x1efbc0a0, 0xf0781bc8, 0xa507a53d, 0x0772a26b)
  const V41 := Vars(0xd6670766, 0x79ea687a, 0x6dc57a8a, 0x34df1604, 0x26352d63, 0x1efbc0a0, 0xf0781bc8, 0xa507a53d)
  const V42 := Vars(0xdf46652f, 0xd6670766, 0x79ea687a, 0x6dc57a8a, 0x838b2711, 0x26352d63, 0x1efbc0a0, 0xf0781bc8)
  const V43 := Vars(0x17aa0dfe, 0xdf46652f, 0xd6670766, 0x79ea687a, 0xdecd4715, 0x838b2711, 0x26352d63, 0x1efbc0a0)
  const V44 := Vars(0x9d4baf93, 0x17aa0dfe, 0xdf46652f, 0xd6670766, 0xfda24c2e, 0xdecd4715, 0x838b2711, 0x26352d63)
  const V45 := Vars(0x26628815, 0x9d4baf93, 0x17aa0dfe, 0xdf46652f, 0xa80f11f0, 0xfda24c2e, 0xdecd4715, 0x838b2711)
  const V46 := Vars(0x72ab4b91, 0x26628815, 0x9d4baf93, 0x17aa0dfe, 0xb7755da1, 0xa80f11f0, 0xfda24c2e, 0xdecd4715)
  const V47 := Vars(0xa14c14b0, 0x72ab4b91, 0x26628815, 0x9d4baf93, 0xd57b94a9, 0xb7755da1, 0xa80f11f0, 0xfda24c2e)
  const V48 := Vars(0x4172328d, 0xa14c14b0, 0x72ab4b91, 0x26628815, 0xfecf0bc6, 0xd57b94a9, 0xb7755da1, 0xa80f11f0)
  const V49 := Vars(0x05757ceb, 0x4172328d, 0xa14c14b0, 0x72ab4b91, 0xbd714038, 0xfecf0bc6, 0xd57b94a9, 0xb7755da1)
  const V50 := Vars(0xf11bfaa8, 0x05757ceb, 0x4172328d, 0xa14c14b0, 0x6e5c390c, 0xbd714038, 0xfecf0bc6, 0xd57b94a9)
  const V51 := Vars(0x7a0508a1, 0xf11bfaa8, 0x05757ceb, 0x4172328d, 0x52f1ccf7, 0x6e5c390c, 0xbd714038, 0xfecf0bc6)
  const V52 := Vars(0x886e7a22, 0x7a0508a1, 0xf11bfaa8, 0x05757ceb, 0x49231c1e, 0x52f1ccf7, 0x6e5c390c, 0xbd714038)
  const V53 := Vars(0x101fd28f, 0x886e7a22, 0x7a0508a1, 0xf11bfaa8, 0x529e7d00, 0x49231c1e, 0x52f1ccf7, 0x6e5c390c)
  const V54 := Vars(0xf5702fdb, 0x101fd28f, 0x886e7a22, 0x7a0508a1, 0x9f4787c3, 0x529e7d00, 0x49231c1e, 0x52f1ccf7)
  const V55 := Vars(0x3ec45cdb, 0xf5702fdb, 0x101fd28f, 0x886e7a22, 0xe50e1b4f, 0x9f4787c3, 0x529e7d00, 0x49231c1e)
  const V56 := Vars(0x38cc9913, 0x3ec45cdb, 0xf5702fdb, 0x101fd28f, 0x54cb266b, 0xe50e1b4f, 0x9f4787c3, 0x529e7d00)
  const V57 := Vars(0xfcd1887b, 0x38cc9913, 0x3ec45cdb, 0xf5702fdb, 0x9b5e906c, 0x54cb266b, 0xe50e1b4f, 0x9f4787c3)
  const V58 := Vars(0xc062d46f, 0xfcd1887b, 0x38cc9913, 0x3ec45cdb, 0x7e44008e, 0x9b5e906c, 0x54cb266b, 0xe50e1b4f)
  const V59 := Vars(0xffb70472, 0xc062d46f, 0xfcd1887b, 0x38cc9913, 0x6d83bfc6, 0x7e44008e, 0x9b5e906c, 0x54cb266b)
  const V60 := Vars(0xb6ae8fff, 0xffb70472, 0xc062d46f, 0xfcd1887b, 0xb21bad3d, 0x6d83bfc6, 0x7e44008e, 0x9b5e906c)
  const V61 := Vars(0xb85e2ce9, 0xb6ae8fff, 0xffb70472, 0xc062d46f, 0x961f4894, 0xb21bad3d, 0x6d83bfc6, 0x7e44008e)
  const V62 := Vars(0x04d24d6c, 0xb85e2ce9, 0xb6ae8fff, 0xffb70472, 0x948d25b6, 0x961f4894, 0xb21bad3d, 0x6d83bfc6)
  const V63 := Vars(0xd39a2165, 0x04d24d6c, 0xb85e2ce9, 0xb6ae8fff, 0xfb121210, 0x948d25b6, 0x961f4894, 0xb21bad3d)
  const V64 := Vars(0x506e3058, 0xd39a2165, 0x04d24d6c, 0xb85e2ce9, 0x5ef50f24, 0xfb121210, 0x948d25b6, 0x961f4894)

  /** Eight words of the schedule, from number `t`. */
  predicate Row(s: seq<word>, t: nat, a: word, b: word, c: word, d: word, e: word, f: word, g: word, h: word) {
    |s| == 64 && t + 8 <= 64
    && s[t] == a && s[t + 1] == b && s[t + 2] == c && s[t + 3] == d
    && s[t + 4] == e && s[t + 5] == f && s[t + 6] == g && s[t + 7] == h
  }

  predicate Follows(s: seq<word>, t: nat)
    requires 16 <= t < |s|
  {
    s[t] == NextWord(s[t - 16], s[t - 15], s[t - 7], s[t - 2])
  }

  predicate IsSchedule(s: seq<word>) {
    |s| == 64 && forall t :: 16 <= t < 64 ==> Follows(s, t)
  }

  lemma Next(s: seq<word>, t: nat)
    requires IsSchedule(s) && 16 <= t < 64
    ensures s[t] == NextWord(s[t - 16], s[t - 15], s[t - 7], s[t - 2])
  {
    hide NextWord;
    assert Follows(s, t);
  }

  lemma {:induction false} BigEndianOfZero(width: nat)
    ensures forall i :: 0 <= i < width ==> BigEndian(0, width)[i] == 0
  {
    if width > 0 { BigEndianOfZero(width - 1); }
  }

  lemma {:induction false} ZerosAreZero(n: nat)
    ensures forall i :: 0 <= i < n ==> Zeros(n)[i] == 0
  {
    if n > 0 { ZerosAreZero(n - 1); }
  }

  lemma AbcBlock()
    ensures var b := PaddedWith(ABC, 24);
            && |b| == 64 && b[..4] == [0x61, 0x62, 0x63, 0x80] && b[63] == 24
            && forall i :: 4 <= i < 63 ==> b[i] == 0
  {
    hide Zeros, BigEndian;
    ZerosAreZero(52);
    BigEndianOfZero(7);
    assert BigEndian(24, 8) == BigEndian(0, 7) + [24] by { LastByte(24, 8); }
  }

  lemma LastByte(n: nat, width: nat)
    requires width > 0
    ensures BigEndian(n, width) == BigEndian(n / 256, width - 1) + [n % 256]
  {}

  /** A word of the schedule does not depend on how much of it is computed. */
  lemma {:induction false} ScheduleStays(block: seq<byte>, t: nat, n: nat)
    requires |block| == 64 && t < n <= 64
    ensures Schedule(block, n)[t] == Schedule(block, t + 1)[t]
    decreases n
  {
    hide WordAt, NextWord;
    if t < n - 1 { ScheduleStays(block, t, n - 1); }
  }

  lemma ScheduleAt(block: seq<byte>, t: nat)
    requires |block| == 64 && t < 64
    ensures var w := Schedule(block, 64);
            w[t] == if t < 16 then WordAt(block, t) else NextWord(w[t - 16], w[t - 15], w[t - 7], w[t - 2])
  {
    hide WordAt, NextWord;
    ScheduleStays(block, t, 64);
    if t >= 16 {
      ScheduleStays(block, t - 16, 64);
      ScheduleStays(block, t - 15, 64);
      ScheduleStays(block, t - 7, 64);
      ScheduleStays(block, t - 2, 64);
      ScheduleStays(block, t - 16, t);
      ScheduleStays(block, t - 15, t);
      ScheduleStays(block, t - 7, t);
      ScheduleStays(block, t - 2, t);
    }
  }

  lemma AbcFirstWords(s: seq<word>, block: seq<byte>)
    requires |block| == 64 && block[..4] == [0x61, 0x62, 0x63, 0x80] && block[63] == 24
    requires forall i :: 4 <= i < 63 ==> block[i] == 0
    requires |s| == 64 && forall t :: 0 <= t < 16 ==> s[t] == WordAt(block, t)
    ensures Row(s, 0, 0x61626380, 0, 0, 0, 0, 0, 0, 0)
    ensures Row(s, 8, 0, 0, 0, 0, 0, 0, 0, 24)
  {
    assert block[0] == 0x61 && block[1] == 0x62 && block[2] == 0x63 && block[3] == 0x80;
    FirstWord(block);
    LastWord(block);
    hide WordAt;
    forall t | 0 < t < 15 ensures s[t] == 0 { ZeroWord(block, t); }
    assert s[0] == WordAt(block, 0) && s[15] == WordAt(block, 15);
  }

  lemma FirstWord(block: seq<byte>)
    requires |block| == 64 && block[0] == 0x61 && block[1] == 0x62 && block[2] == 0x63 && block[3] == 0x80
    ensures WordAt(block, 0) == 0x61626380
  {
    assert block[0] as word << 24 == 0x61000000 && block[1] as word << 16 == 0x620000;
    assert block[2] as word << 8 == 0x6300 && block[3] as word == 0x80;
  }

  lemma LastWord(block: seq<byte>)
    requires |block| == 64 && block[60] == 0 && block[61] == 0 && block[62] == 0 && block[63] == 24
    ensures WordAt(block, 15) == 24
  {}

  lemma ZeroWord(block: seq<byte>, t: nat)
    requires |block| == 64 && t < 16 && block[4 * t] == 0 && block[4 * t + 1] == 0
    requires block[4 * t + 2] == 0 && block[4 * t + 3] == 0
    ensures WordAt(block, t) == 0
  {}

  lemma AbcNext16()
    ensures NextWord(0x61626380, 0x00000000, 0x00000000, 0x00000000) == 0x61626380
    ensures NextWord(0x00000000, 0x00000000, 0x00000000, 0x00000018) == 0x000f0000
    ensures NextWord(0x00000000, 0x00000000, 0x00000000, 0x61626380) == 0x7da86405
    ensures NextWord(0x00000000, 0x00000000, 0x00000000, 0x000f0000) == 0x600003c6
    ensures NextWord(0x00000000, 0x00000000, 0x00000000, 0x7da86405) == 0x3e9d7b78
    ensures NextWord(0x00000000, 0x00000000, 0x00000000, 0x600003c6) == 0x0183fc00
    ensures NextWord(0x00000000, 0x00000000, 0x00000018, 0x3e9d7b78) == 0x12dcbfdb
    ensures NextWord(0x00000000, 0x00000000, 0x61626380, 0x0183fc00) == 0xe2e2c38e
  {}

  lemma AbcWords16(s: seq<word>)
    requires IsSchedule(s)
    requires Row(s, 0, 0x61626380, 0, 0, 0, 0, 0, 0, 0)
    requires Row(s, 8, 0, 0, 0, 0, 0, 0, 0, 24)
    ensures Row(s, 16, 0x61626380, 0x000f0000, 0x7da86405, 0x600003c6, 0x3e9d7b78, 0x0183fc00, 0x12dcbfdb, 0xe2e2c38e)
  {
    hide IsSchedule, NextWord;
    AbcNext16();
    Next(s, 16);
    Next(s, 17);
    Next(s, 18);
    Next(s, 19);
    Next(s, 20);
    Next(s, 21);
    Next(s, 22);
    Next(s, 23);
  }

  lemma AbcNext24()
    ensures NextWord(0x00000000, 0x00000000, 0x000f0000, 0x12dcbfdb) == 0xc8215c1a
    ensures NextWord(0x00000000, 0x00000000, 0x7da86405, 0xe2e2c38e) == 0xb73679a2
    ensures NextWord(0x00000000, 0x00000000, 0x600003c6, 0xc8215c1a) == 0xe5bc3909
    ensures NextWord(0x00000000, 0x00000000, 0x3e9d7b78, 0xb73679a2) == 0x32663c5b
    ensures NextWord(0x00000000, 0x00000000, 0x0183fc00, 0xe5bc3909) == 0x9d209d67
    ensures NextWord(0x00000000, 0x00000000, 0x12dcbfdb, 0x32663c5b) == 0xec8726cb
    ensures NextWord(0x00000000, 0x00000018, 0xe2e2c38e, 0x9d209d67) == 0x702138a4
    ensures NextWord(0x00000018, 0x61626380, 0xc8215c1a, 0xec8726cb) == 0xd3b7973b
  {}

  lemma AbcWords24(s: seq<word>)
    requires IsSchedule(s)
    requires Row(s, 8, 0, 0, 0, 0, 0, 0, 0, 24)
    requires Row(s, 16, 0x61626380, 0x000f0000, 0x7da86405, 0x600003c6, 0x3e9d7b78, 0x0183fc00, 0x12dcbfdb, 0xe2e2c38e)
    ensures Row(s, 24, 0xc8215c1a, 0xb73679a2, 0xe5bc3909, 0x32663c5b, 0x9d209d67, 0xec8726cb, 0x702138a4, 0xd3b7973b)
  {
    hide IsSchedule, NextWord;
    AbcNext24();
    Next(s, 24);
    Next(s, 25);
    Next(s, 26);
    Next(s, 27);
    Next(s, 28);
    Next(s, 29);
    Next(s, 30);
    Next(s, 31);
  }

  lemma AbcNext32()
    ensures NextWord(0x61626380, 0x000f0000, 0xb73679a2, 0x702138a4) == 0x93f5997f
    ensures NextWord(0x000f0000, 0x7da86405, 0xe5bc3909, 0xd3b7973b) == 0x3b68ba73
    ensures NextWord(0x7da86405, 0x600003c6, 0x32663c5b, 0x93f5997f) == 0xaff4ffc1
    ensures NextWord(0x600003c6, 0x3e9d7b78, 0x9d209d67, 0x3b68ba73) == 0xf10a5c62
    ensures NextWord(0x3e9d7b78, 0x0183fc00, 0xec8726cb, 0xaff4ffc1) == 0x0a8b3996
    ensures NextWord(0x0183fc00, 0x12dcbfdb, 0x702138a4, 0xf10a5c62) == 0x72af830a
    ensures NextWord(0x12dcbfdb, 0xe2e2c38e, 0xd3b7973b, 0x0a8b3996) == 0x9409e33e
    ensures NextWord(0xe2e2c38e, 0xc8215c1a, 0x93f5997f, 0x72af830a) == 0x24641522
  {}

  lemma AbcWords32(s: seq<word>)
    requires IsSchedule(s)
    requires Row(s, 16, 0x61626380, 0x000f0000, 0x7da86405, 0x600003c6, 0x3e9d7b78, 0x0183fc00, 0x12dcbfdb, 0xe2e2c38e)
    requires Row(s, 24, 0xc8215c1a, 0xb73679a2, 0xe5bc3909, 0x32663c5b, 0x9d209d67, 0xec8726cb, 0x702138a4, 0xd3b7973b)
    ensures Row(s, 32, 0x93f5997f, 0x3b68ba73, 0xaff4ffc1, 0xf10a5c62, 0x0a8b3996, 0x72af830a, 0x9409e33e, 0x24641522)
  {
    hide IsSchedule, NextWord;
    AbcNext32();
    Next(s, 32);
    Next(s, 33);
    Next(s, 34);
    Next(s, 35);
    Next(s, 36);
    Next(s, 37);
    Next(s, 38);
    Next(s, 39);
  }

  lemma AbcNext40()
    ensures NextWord(0xc8215c1a, 0xb73679a2, 0x3b68ba73, 0x9409e33e) == 0x9f47bf94
    ensures NextWord(0xb73679a2, 0xe5bc3909, 0xaff4ffc1, 0x24641522) == 0xf0a64f5a
    ensures NextWord(0xe5bc3909, 0x32663c5b, 0xf10a5c62, 0x9f47bf94) == 0x3e246a79
    ensures NextWord(0x32663c5b, 0x9d209d67, 0x0a8b3996, 0xf0a64f5a) == 0x27333ba3
    ensures NextWord(0x9d209d67, 0xec8726cb, 0x72af830a, 0x3e246a79) == 0x0c4763f2
    ensures NextWord(0xec8726cb, 0x702138a4, 0x9409e33e, 0x27333ba3) == 0x840abf27
    ensures NextWord(0x702138a4, 0xd3b7973b, 0x24641522, 0x0c4763f2) == 0x7a290d5d
    ensures NextWord(0xd3b7973b, 0x93f5997f, 0x9f47bf94, 0x840abf27) == 0x065c43da
  {}

  lemma AbcWords40(s: seq<word>)
    requires IsSchedule(s)
    requires Row(s, 24, 0xc8215c1a, 0xb73679a2, 0xe5bc3909, 0x32663c5b, 0x9d209d67, 0xec8726cb, 0x702138a4, 0xd3b7973b)
    requires Row(s, 32, 0x93f5997f, 0x3b68ba73, 0xaff4ffc1, 0xf10a5c62, 0x0a8b3996, 0x72af830a, 0x9409e33e, 0x24641522)
    ensures Row(s, 40, 0x9f47bf94, 0xf0a64f5a, 0x3e246a79, 0x27333ba3, 0x0c4763f2, 0x840abf27, 0x7a290d5d, 0x065c43da)
  {
    hide IsSchedule, NextWord;
    AbcNext40();
    Next(s, 40);
    Next(s, 41);
    Next(s, 42);
    Next(s, 43);
    Next(s, 44);
    Next(s, 45);
    Next(s, 46);
    Next(s, 47);
  }

  lemma AbcNext48()
    ensures NextWord(0x93f5997f, 0x3b68ba73, 0xf0a64f5a, 0x7a290d5d) == 0xfb3e89cb
    ensures NextWord(0x3b68ba73, 0xaff4ffc1, 0x3e246a79, 0x065c43da) == 0xcc7617db
    ensures NextWord(0xaff4ffc1, 0xf10a5c62, 0x27333ba3, 0xfb3e89cb) == 0xb9e66c34
    ensures NextWord(0xf10a5c62, 0x0a8b3996, 0x0c4763f2, 0xcc7617db) == 0xa9993667
    ensures NextWord(0x0a8b3996, 0x72af830a, 0x840abf27, 0xb9e66c34) == 0x84badedd
    ensures NextWord(0x72af830a, 0x9409e33e, 0x7a290d5d, 0xa9993667) == 0xc21462bc
    ensures NextWord(0x9409e33e, 0x24641522, 0x065c43da, 0x84badedd) == 0x1487472c
    ensures NextWord(0x24641522, 0x9f47bf94, 0xfb3e89cb, 0xc21462bc) == 0xb20f7a99
  {}

  lemma AbcWords48(s: seq<word>)
    requires IsSchedule(s)
    requires Row(s, 32, 0x93f5997f, 0x3b68ba73, 0xaff4ffc1, 0xf10a5c62, 0x0a8b3996, 0x72af830a, 0x9409e33e, 0x24641522)
    requires Row(s, 40, 0x9f47bf94, 0xf0a64f5a, 0x3e246a79, 0x27333ba3, 0x0c4763f2, 0x840abf27, 0x7a290d5d, 0x065c43da)
    ensures Row(s, 48, 0xfb3e89cb, 0xcc7617db, 0xb9e66c34, 0xa9993667, 0x84badedd, 0xc21462bc, 0x1487472c, 0xb20f7a99)
  {
    hide IsSchedule, NextWord;
    AbcNext48();
    Next(s, 48);
    Next(s, 49);
    Next(s, 50);
    Next(s, 51);
    Next(s, 52);
    Next(s, 53);
    Next(s, 54);
    Next(s, 55);
  }

  lemma AbcNext56()
    ensures NextWord(0x9f47bf94, 0xf0a64f5a, 0xcc7617db, 0x1487472c) == 0xef57b9cd
    ensures NextWord(0xf0a64f5a, 0x3e246a79, 0xb9e66c34, 0xb20f7a99) == 0xebe6b238
    ensures NextWord(0x3e246a79, 0x27333ba3, 0xa9993667, 0xef57b9cd) == 0x9fe3095e
    ensures NextWord(0x27333ba3, 0x0c4763f2, 0x84badedd, 0xebe6b238) == 0x78bc8d4b
    ensures NextWord(0x0c4763f2, 0x840abf27, 0xc21462bc, 0x9fe3095e) == 0xa43fcf15
    ensures NextWord(0x840abf27, 0x7a290d5d, 0x1487472c, 0x78bc8d4b) == 0x668b2ff8
    ensures NextWord(0x7a290d5d, 0x065c43da, 0xb20f7a99, 0xa43fcf15) == 0xeeaba2cc
    ensures NextWord(0x065c43da, 0xfb3e89cb, 0xef57b9cd, 0x668b2ff8) == 0x12b1edeb
  {}

  lemma AbcWords56(s: seq<word>)
    requires IsSchedule(s)
    requires Row(s, 40, 0x9f47bf94, 0xf0a64f5a, 0x3e246a79, 0x27333ba3, 0x0c4763f2, 0x840abf27, 0x7a290d5d, 0x065c43da)
    requires Row(s, 48, 0xfb3e89cb, 0xcc7617db, 0xb9e66c34, 0xa9993667, 0x84badedd, 0xc21462bc, 0x1487472c, 0xb20f7a99)
    ensures Row(s, 56, 0xef57b9cd, 0xebe6b238, 0x9fe3095e, 0x78bc8d4b, 0xa43fcf15, 0x668b2ff8, 0xeeaba2cc, 0x12b1edeb)
  {
    hide IsSchedule, NextWord;
    AbcNext56();
    Next(s, 56);
    Next(s, 57);
    Next(s, 58);
    Next(s, 59);
    Next(s, 60);
    Next(s, 61);
    Next(s, 62);
    Next(s, 63);
  }

  lemma AbcSchedule(s: seq<word>, block: seq<byte>)
    requires |block| == 64 && block[..4] == [0x61, 0x62, 0x63, 0x80] && block[63] == 24
    requires forall i :: 4 <= i < 63 ==> block[i] == 0
    requires |s| == 64 && forall t :: 0 <= t < 16 ==> s[t] == WordAt(block, t)
    requires IsSchedule(s)
    ensures Row(s, 0, 0x61626380, 0, 0, 0, 0, 0, 0, 0)
    ensures Row(s, 8, 0, 0, 0, 0, 0, 0, 0, 24)
    ensures Row(s, 16, 0x61626380, 0x000f0000, 0x7da86405, 0x600003c6, 0x3e9d7b78, 0x0183fc00, 0x12dcbfdb, 0xe2e2c38e)
    ensures Row(s, 24, 0xc8215c1a, 0xb73679a2, 0xe5bc3909, 0x32663c5b, 0x9d209d67, 0xec8726cb, 0x702138a4, 0xd3b7973b)
    ensures Row(s, 32, 0x93f5997f, 0x3b68ba73, 0xaff4ffc1, 0xf10a5c62, 0x0a8b3996, 0x72af830a, 0x9409e33e, 0x24641522)
    ensures Row(s, 40, 0x9f47bf94, 0xf0a64f5a, 0x3e246a79, 0x27333ba3, 0x0c4763f2, 0x840abf27, 0x7a290d5d, 0x065c43da)
    ensures Row(s, 48, 0xfb3e89cb, 0xcc7617db, 0xb9e66c34, 0xa9993667, 0x84badedd, 0xc21462bc, 0x1487472c, 0xb20f7a99)
    ensures Row(s, 56, 0xef57b9cd, 0xebe6b238, 0x9fe3095e, 0x78bc8d4b, 0xa43fcf15, 0x668b2ff8, 0xeeaba2cc, 0x12b1edeb)
  {
    hide WordAt, Row, IsSchedule;
    AbcFirstWords(s, block);
    AbcWords16(s);
    AbcWords24(s);
    AbcWords32(s);
    AbcWords40(s);
    AbcWords48(s);
    AbcWords56(s);
  }

  lemma ScheduleIs(block: seq<byte>)
    requires |block| == 64
    ensures var s := Schedule(block, 64);
            IsSchedule(s) && forall t :: 0 <= t < 16 ==> s[t] == WordAt(block, t)
  {
    hide WordAt, NextWord, Schedule;
    forall t | 0 <= t < 16 ensures Schedule(block, 64)[t] == WordAt(block, t) { ScheduleAt(block, t); }
    forall t | 16 <= t < 64 ensures Follows(Schedule(block, 64), t) { ScheduleAt(block, t); }
  }

  lemma RoundsStep(v: Vars, w: seq<word>, t: nat)
    requires |w| == 64 && t < 64
    ensures Rounds(v, w, t + 1) == Round(Rounds(v, w, t), K()[t], w[t])
  {}

  lemma AbcSteps0()
    ensures Round(V0, 0x428a2f98, 0x61626380) == V1
    ensures Round(V1, 0x71374491, 0x00000000) == V2
    ensures Round(V2, 0xb5c0fbcf, 0x00000000) == V3
    ensures Round(V3, 0xe9b5dba5, 0x00000000) == V4
    ensures Round(V4, 0x3956c25b, 0x00000000) == V5
    ensures Round(V5, 0x59f111f1, 0x00000000) == V6
    ensures Round(V6, 0x923f82a4, 0x00000000) == V7
    ensures Round(V7, 0xab1c5ed5, 0x00000000) == V8
  {}

  lemma AbcRounds0(s: seq<word>)
    requires Row(s, 0, 0x61626380, 0, 0, 0, 0, 0, 0, 0)
    requires Rounds(H0, s, 0) == V0
    ensures Rounds(H0, s, 8) == V8
  {
    hide Rounds, Round, K;
    AbcSteps0();
    Constants0();
    RoundsStep(H0, s, 0);
    RoundsStep(H0, s, 1);
    RoundsStep(H0, s, 2);
    RoundsStep(H0, s, 3);
    RoundsStep(H0, s, 4);
    RoundsStep(H0, s, 5);
    RoundsStep(H0, s, 6);
    RoundsStep(H0, s, 7);
  }

  lemma AbcSteps8()
    ensures Round(V8, 0xd807aa98, 0x00000000) == V9
    ensures Round(V9, 0x12835b01, 0x00000000) == V10
    ensures Round(V10, 0x243185be, 0x00000000) == V11
    ensures Round(V11, 0x550c7dc3, 0x00000000) == V12
    ensures Round(V12, 0x72be5d74, 0x00000000) == V13
    ensures Round(V13, 0x80deb1fe, 0x00000000) == V14
    ensures Round(V14, 0x9bdc06a7, 0x00000000) == V15
    ensures Round(V15, 0xc19bf174, 0x00000018) == V16
  {}

  lemma AbcRounds8(s: seq<word>)
    requires Row(s, 8, 0, 0, 0, 0, 0, 0, 0, 24)
    requires Rounds(H0, s, 8) == V8
    ensures Rounds(H0, s, 16) == V16
  {
    hide Rounds, Round, K;
    AbcSteps8();
    Constants8();
    RoundsStep(H0, s, 8);
    RoundsStep(H0, s, 9);
    RoundsStep(H0, s, 10);
    RoundsStep(H0, s, 11);
    RoundsStep(H0, s, 12);
    RoundsStep(H0, s, 13);
    RoundsStep(H0, s, 14);
    RoundsStep(H0, s, 15);
  }

  lemma AbcSteps16()
    ensures Round(V16, 0xe49b69c1, 0x61626380) == V17
    ensures Round(V17, 0xefbe4786, 0x000f0000) == V18
    ensures Round(V18, 0x0fc19dc6, 0x7da86405) == V19
    ensures Round(V19, 0x240ca1cc, 0x600003c6) == V20
    ensures Round(V20, 0x2de92c6f, 0x3e9d7b78) == V21
    ensures Round(V21, 0x4a7484aa, 0x0183fc00) == V22
    ensures Round(V22, 0x5cb0a9dc, 0x12dcbfdb) == V23
    ensures Round(V23, 0x76f988da, 0xe2e2c38e) == V24
  {}

  lemma AbcRounds16(s: seq<word>)
    requires Row(s, 16, 0x61626380, 0x000f0000, 0x7da86405, 0x600003c6, 0x3e9d7b78, 0x0183fc00, 0x12dcbfdb, 0xe2e2c38e)
    requires Rounds(H0, s, 16) == V16
    ensures Rounds(H0, s, 24) == V24
  {
    hide Rounds, Round, K;
    AbcSteps16();
    Constants16();
    RoundsStep(H0, s, 16);
    RoundsStep(H0, s, 17);
    RoundsStep(H0, s, 18);
    RoundsStep(H0, s, 19);
    RoundsStep(H0, s, 20);
    RoundsStep(H0, s, 21);
    RoundsStep(H0, s, 22);
    RoundsStep(H0, s, 23);
  }

  lemma AbcSteps24()
    ensures Round(V24, 0x983e5152, 0xc8215c1a) == V25
    ensures Round(V25, 0xa831c66d, 0xb73679a2) == V26
    ensures Round(V26, 0xb00327c8, 0xe5bc3909) == V27
    ensures Round(V27, 0xbf597fc7, 0x32663c5b) == V28
    ensures Round(V28, 0xc6e00bf3, 0x9d209d67) == V29
    ensures Round(V29, 0xd5a79147, 0xec8726cb) == V30
    ensures Round(V30, 0x06ca6351, 0x702138a4) == V31
    ensures Round(V31, 0x14292967, 0xd3b7973b) == V32
  {}

  lemma AbcRounds24(s: seq<word>)
    requires Row(s, 24, 0xc8215c1a, 0xb73679a2, 0xe5bc3909, 0x32663c5b, 0x9d209d67, 0xec8726cb, 0x702138a4, 0xd3b7973b)
    requires Rounds(H0, s, 24) == V24
    ensures Rounds(H0, s, 32) == V32
  {
    hide Rounds, Round, K;
    AbcSteps24();
    Constants24();
    RoundsStep(H0, s, 24);
    RoundsStep(H0, s, 25);
    RoundsStep(H0, s, 26);
    RoundsStep(H0, s, 27);
    RoundsStep(H0, s, 28);
    RoundsStep(H0, s, 29);
    RoundsStep(H0, s, 30);
    RoundsStep(H0, s, 31);
  }

  lemma AbcSteps32()
    ensures Round(V32, 0x27b70a85, 0x93f5997f) == V33
    ensures Round(V33, 0x2e1b2138, 0x3b68ba73) == V34
    ensures Round(V34, 0x4d2c6dfc, 0xaff4ffc1) == V35
    ensures Round(V35, 0x53380d13, 0xf10a5c62) == V36
    ensures Round(V36, 0x650a7354, 0x0a8b3996) == V37
    ensures Round(V37, 0x766a0abb, 0x72af830a) == V38
    ensures Round(V38, 0x81c2c92e, 0x9409e33e) == V39
    ensures Round(V39, 0x92722c85, 0x24641522) == V40
  {}

  lemma AbcRounds32(s: seq<word>)
    requires Row(s, 32, 0x93f5997f, 0x3b68ba73, 0xaff4ffc1, 0xf10a5c62, 0x0a8b3996, 0x72af830a, 0x9409e33e, 0x24641522)
    requires Rounds(H0, s, 32) == V32
    ensures Rounds(H0, s, 40) == V40
  {
    hide Rounds, Round, K;
    AbcSteps32();
    Constants32();
    RoundsStep(H0, s, 32);
    RoundsStep(H0, s, 33);
    RoundsStep(H0, s, 34);
    RoundsStep(H0, s, 35);
    RoundsStep(H0, s, 36);
    RoundsStep(H0, s, 37);
    RoundsStep(H0, s, 38);
    RoundsStep(H0, s, 39);
  }

  lemma AbcSteps40()
    ensures Round(V40, 0xa2bfe8a1, 0x9f47bf94) == V41
    ensures Round(V41, 0xa81a664b, 0xf0a64f5a) == V42
    ensures Round(V42, 0xc24b8b70, 0x3e246a79) == V43
    ensures Round(V43, 0xc76c51a3, 0x27333ba3) == V44
    ensures Round(V44, 0xd192e819, 0x0c4763f2) == V45
    ensures Round(V45, 0xd6990624, 0x840abf27) == V46
    ensures Round(V46, 0xf40e3585, 0x7a290d5d) == V47
    ensures Round(V47, 0x106aa070, 0x065c43da) == V48
  {}

  lemma AbcRounds40(s: seq<word>)
    requires Row(s, 40, 0x9f47bf94, 0xf0a64f5a, 0x3e246a79, 0x27333ba3, 0x0c4763f2, 0x840abf27, 0x7a290d5d, 0x065c43da)
    requires Rounds(H0, s, 40) == V40
    ensures Rounds(H0, s, 48) == V48
  {
    hide Rounds, Round, K;
    AbcSteps40();
    Constants40();
    RoundsStep(H0, s, 40);
    RoundsStep(H0, s, 41);
    RoundsStep(H0, s, 42);
    RoundsStep(H0, s, 43);
    RoundsStep(H0, s, 44);
    RoundsStep(H0, s, 45);
    RoundsStep(H0, s, 46);
    RoundsStep(H0, s, 47);
  }

  lemma AbcSteps48()
    ensures Round(V48, 0x19a4c116, 0xfb3e89cb) == V49
    ensures Round(V49, 0x1e376c08, 0xcc7617db) == V50
    ensures Round(V50, 0x2748774c, 0xb9e66c34) == V51
    ensures Round(V51, 0x34b0bcb5, 0xa9993667) == V52
    ensures Round(V52, 0x391c0cb3, 0x84badedd) == V53
    ensures Round(V53, 0x4ed8aa4a, 0xc21462bc) == V54
    ensures Round(V54, 0x5b9cca4f, 0x1487472c) == V55
    ensures Round(V55, 0x682e6ff3, 0xb20f7a99) == V56
  {}

  lemma AbcRounds48(s: seq<word>)
    requires Row(s, 48, 0xfb3e89cb, 0xcc7617db, 0xb9e66c34, 0xa9993667, 0x84badedd, 0xc21462bc, 0x1487472c, 0xb20f7a99)
    requires Rounds(H0, s, 48) == V48
    ensures Rounds(H0, s, 56) == V56
  {
    hide Rounds, Round, K;
    AbcSteps48();
    Constants48();
    RoundsStep(H0, s, 48);
    RoundsStep(H0, s, 49);
    RoundsStep(H0, s, 50);
    RoundsStep(H0, s, 51);
    RoundsStep(H0, s, 52);
    RoundsStep(H0, s, 53);
    RoundsStep(H0, s, 54);
    RoundsStep(H0, s, 55);
  }

  lemma AbcSteps56()
    ensures Round(V56, 0x748f82ee, 0xef57b9cd) == V57
    ensures Round(V57, 0x78a5636f, 0xebe6b238) == V58
    ensures Round(V58, 0x84c87814, 0x9fe3095e) == V59
    ensures Round(V59, 0x8cc70208, 0x78bc8d4b) == V60
    ensures Round(V60, 0x90befffa, 0xa43fcf15) == V61
    ensures Round(V61, 0xa4506ceb, 0x668b2ff8) == V62
    ensures Round(V62, 0xbef9a3f7, 0xeeaba2cc) == V63
    ensures Round(V63, 0xc67178f2, 0x12b1edeb) == V64
  {}

  lemma AbcRounds56(s: seq<word>)
    requires Row(s, 56, 0xef57b9cd, 0xebe6b238, 0x9fe3095e, 0x78bc8d4b, 0xa43fcf15, 0x668b2ff8, 0xeeaba2cc, 0x12b1edeb)
    requires Rounds(H0, s, 56) == V56
    ensures Rounds(H0, s, 64) == V64
  {
    hide Rounds, Round, K;
    AbcSteps56();
    Constants56();
    RoundsStep(H0, s, 56);
    RoundsStep(H0, s, 57);
    RoundsStep(H0, s, 58);
    RoundsStep(H0, s, 59);
    RoundsStep(H0, s, 60);
    RoundsStep(H0, s, 61);
    RoundsStep(H0, s, 62);
    RoundsStep(H0, s, 63);
  }

  lemma NoRounds(s: seq<word>)
    requires |s| == 64
    ensures Rounds(H0, s, 0) == H0
  {}

  lemma AbcBlockHash(block: seq<byte>)
    requires |block| == 64 && block[..4] == [0x61, 0x62, 0x63, 0x80] && block[63] == 24
    requires forall i :: 4 <= i < 63 ==> block[i] == 0
    ensures Rounds(H0, Schedule(block, 64), 64) == V64
  {
    hide Schedule, Row, Rounds, IsSchedule, WordAt;
    var s := Schedule(block, 64);
    ScheduleIs(block);
    AbcSchedule(s, block);
    NoRounds(s);
    AbcRounds0(s);
    AbcRounds8(s);
    AbcRounds16(s);
    AbcRounds24(s);
    AbcRounds32(s);
    AbcRounds40(s);
    AbcRounds48(s);
    AbcRounds56(s);
  }

  lemma OneBlock(block: seq<byte>)
    requires |block| == 64
    ensures HashBlocks(block) == HashBlock(H0, block)
  {
    hide HashBlock;
    assert block[..0] == [] && block[0..] == block;
  }

  /** The hash value after the one block. */
  const ABC_HASH :=
    Vars(0xba7816bf, 0x8f01cfea, 0x414140de, 0x5dae2223, 0xb00361a3, 0x96177a9c, 0xb410ff61, 0xf20015ad)

  lemma AbcHash()
    ensures HashBlocks(PaddedWith(ABC, 24)) == ABC_HASH
  {
    hide PaddedWith, Schedule, Rounds, HashBlocks;
    var block := PaddedWith(ABC, 24);
    AbcBlock();
    AbcBlockHash(block);
    OneBlock(block);
  }

  /** What the standard publishes for this message, as octets and in hexadecimal. */
  const ABC_DIGEST: seq<byte> :=
    [0xba, 0x78, 0x16, 0xbf] + [0x8f, 0x01, 0xcf, 0xea] +
    [0x41, 0x41, 0x40, 0xde] + [0x5d, 0xae, 0x22, 0x23] +
    [0xb0, 0x03, 0x61, 0xa3] + [0x96, 0x17, 0x7a, 0x9c] +
    [0xb4, 0x10, 0xff, 0x61] + [0xf2, 0x00, 0x15, 0xad]
  const ABC_HEX :=
    "ba7816bf" + "8f01cfea" + "414140de" + "5dae2223" + "b00361a3" + "96177a9c" + "b410ff61" + "f20015ad"

  /** **The digest is the published one.** */
  lemma AbcDigest()
    ensures Digest(ABC) == ABC_DIGEST && Computed(ABC) == ABC_DIGEST
  {
    hide HashBlocks, PaddedWith, WordBytes;
    AbcHash();
    AbcBytes();
    ComputedIsDigest(ABC);
  }

  lemma FourBytes(w: word, n: nat, a: byte, b: byte, c: byte, d: byte)
    requires w as int == n && n == 0x100_0000 * a + 0x1_0000 * b + 0x100 * c + d
    ensures WordBytes(w) == [a, b, c, d]
  {
    hide BigEndian;
    FourDigits(n, a, b, c, d);
  }

  lemma NoBytes()
    ensures BigEndian(0, 0) == []
  {}

  lemma NextByte(n: nat, width: nat, b: byte)
    ensures BigEndian(0x100 * n + b, width + 1) == BigEndian(n, width) + [b]
  {
    hide BigEndian;
    Quotient(n, b);
    LastByte(0x100 * n + b, width + 1);
  }

  lemma Quotient(n: nat, b: byte)
    ensures (0x100 * n + b) / 0x100 == n && (0x100 * n + b) % 0x100 == b
  {}

  lemma FourDigits(n: nat, a: byte, b: byte, c: byte, d: byte)
    requires n == 0x100_0000 * a + 0x1_0000 * b + 0x100 * c + d
    ensures BigEndian(n, 4) == [a, b, c, d]
  {
    hide BigEndian;
    var two, three := 0x100 * a + b, 0x1_0000 * a + 0x100 * b + c;
    NoBytes();
    NextByte(0, 0, a);
    NextByte(a, 1, b);
    NextByte(two, 2, c);
    NextByte(three, 3, d);
    assert [] + [a] == [a] && [a] + [b] == [a, b] && [a, b] + [c] == [a, b, c] && [a, b, c] + [d] == [a, b, c, d];
  }

  lemma AbcBytes()
    ensures VarsBytes(ABC_HASH) == ABC_DIGEST
  {
    hide WordBytes;
    FourBytes(0xba7816bf, 0xba7816bf, 0xba, 0x78, 0x16, 0xbf);
    FourBytes(0x8f01cfea, 0x8f01cfea, 0x8f, 0x01, 0xcf, 0xea);
    FourBytes(0x414140de, 0x414140de, 0x41, 0x41, 0x40, 0xde);
    FourBytes(0x5dae2223, 0x5dae2223, 0x5d, 0xae, 0x22, 0x23);
    FourBytes(0xb00361a3, 0xb00361a3, 0xb0, 0x03, 0x61, 0xa3);
    FourBytes(0x96177a9c, 0x96177a9c, 0x96, 0x17, 0x7a, 0x9c);
    FourBytes(0xb410ff61, 0xb410ff61, 0xb4, 0x10, 0xff, 0x61);
    FourBytes(0xf20015ad, 0xf20015ad, 0xf2, 0x00, 0x15, 0xad);
  }

  lemma {:induction false} HexConcat(a: seq<byte>, b: seq<byte>)
    ensures ToHex(a + b) == ToHex(a) + ToHex(b)
  {
    hide HexDigit;
    if b == [] {
      assert a + b == a;
    } else {
      HexConcat(a, b[..|b| - 1]);
      assert (a + b)[..|a + b| - 1] == a + b[..|b| - 1];
    }
  }

  lemma HexOfFour(a: byte, b: byte, c: byte, d: byte)
    ensures ToHex([a, b, c, d]) ==
            [HexDigit(a / 16), HexDigit(a % 16), HexDigit(b / 16), HexDigit(b % 16),
             HexDigit(c / 16), HexDigit(c % 16), HexDigit(d / 16), HexDigit(d % 16)]
  {
    hide HexDigit;
    assert [a, b, c, d][..3] == [a, b, c] && [a, b, c][..2] == [a, b] && [a, b][..1] == [a] && [a][..0] == [];
    assert ToHex([a]) == [HexDigit(a / 16), HexDigit(a % 16)];
    assert ToHex([a, b]) == ToHex([a]) + [HexDigit(b / 16), HexDigit(b % 16)];
    assert ToHex([a, b, c]) == ToHex([a, b]) + [HexDigit(c / 16), HexDigit(c % 16)];
  }

  lemma AbcHex0()
    ensures ToHex([0xba, 0x78, 0x16, 0xbf]) == "ba7816bf"
  {
    HexOfFour(0xba, 0x78, 0x16, 0xbf);
  }

  lemma AbcHex1()
    ensures ToHex([0x8f, 0x01, 0xcf, 0xea]) == "8f01cfea"
  {
    HexOfFour(0x8f, 0x01, 0xcf, 0xea);
  }

  lemma AbcHex2()
    ensures ToHex([0x41, 0x41, 0x40, 0xde]) == "414140de"
  {
    HexOfFour(0x41, 0x41, 0x40, 0xde);
  }

  lemma AbcHex3()
    ensures ToHex([0x5d, 0xae, 0x22, 0x23]) == "5dae2223"
  {
    HexOfFour(0x5d, 0xae, 0x22, 0x23);
  }

  lemma AbcHex4()
    ensures ToHex([0xb0, 0x03, 0x61, 0xa3]) == "b00361a3"
  {
    HexOfFour(0xb0, 0x03, 0x61, 0xa3);
  }

  lemma AbcHex5()
    ensures ToHex([0x96, 0x17, 0x7a, 0x9c]) == "96177a9c"
  {
    HexOfFour(0x96, 0x17, 0x7a, 0x9c);
  }

  lemma AbcHex6()
    ensures ToHex([0xb4, 0x10, 0xff, 0x61]) == "b410ff61"
  {
    HexOfFour(0xb4, 0x10, 0xff, 0x61);
  }

  lemma AbcHex7()
    ensures ToHex([0xf2, 0x00, 0x15, 0xad]) == "f20015ad"
  {
    HexOfFour(0xf2, 0x00, 0x15, 0xad);
  }

  /** So the message is kept under the address everyone else computes for it. */
  lemma AbcKey()
    ensures KeyFor(ABC) == BlobKey("sha256", ABC_HEX)
  {
    hide Computed, ToHex;
    AbcDigest();
    var b0: seq<byte> := [0xba, 0x78, 0x16, 0xbf];
    var b1: seq<byte> := [0x8f, 0x01, 0xcf, 0xea];
    var b2: seq<byte> := [0x41, 0x41, 0x40, 0xde];
    var b3: seq<byte> := [0x5d, 0xae, 0x22, 0x23];
    var b4: seq<byte> := [0xb0, 0x03, 0x61, 0xa3];
    var b5: seq<byte> := [0x96, 0x17, 0x7a, 0x9c];
    var b6: seq<byte> := [0xb4, 0x10, 0xff, 0x61];
    var b7: seq<byte> := [0xf2, 0x00, 0x15, 0xad];
    HexConcat(b0, b1);
    HexConcat(b0 + b1, b2);
    HexConcat(b0 + b1 + b2, b3);
    HexConcat(b0 + b1 + b2 + b3, b4);
    HexConcat(b0 + b1 + b2 + b3 + b4, b5);
    HexConcat(b0 + b1 + b2 + b3 + b4 + b5, b6);
    HexConcat(b0 + b1 + b2 + b3 + b4 + b5 + b6, b7);
    AbcHex0();
    AbcHex1();
    AbcHex2();
    AbcHex3();
    AbcHex4();
    AbcHex5();
    AbcHex6();
    AbcHex7();
  }
}
