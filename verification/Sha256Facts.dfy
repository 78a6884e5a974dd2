/**
 What the constants and functions of SHA-256 are: fractional parts of roots of the
 first primes, a choice and a majority bit by bit, and a chain over the blocks of
 the padded message.
 */
module Sha256Facts {
  import opened Sha256

  // --------------------------------------------------------------- the primes

  ghost predicate IsPrime(n: nat) {
    n >= 2 && forall d: nat :: 2 <= d < n ==> n % d != 0
  }

  /** The first 64 primes. */
  const PRIMES: seq<nat> :=
    [2, 3, 5, 7, 11, 13, 17, 19] +
    [23, 29, 31, 37, 41, 43, 47, 53] +
    [59, 61, 67, 71, 73, 79, 83, 89] +
    [97, 101, 103, 107, 109, 113, 127, 131] +
    [137, 139, 149, 151, 157, 163, 167, 173] +
    [179, 181, 191, 193, 197, 199, 211, 223] +
    [227, 229, 233, 239, 241, 251, 257, 263] +
    [269, 271, 277, 281, 283, 293, 307, 311]

  /** No prime up to 17 divides `n`, unless it is that prime. */
  predicate Trial(n: nat) {
    && n >= 2 && (n == 2 || n % 2 != 0) && (n == 3 || n % 3 != 0) && (n == 5 || n % 5 != 0) && (n == 7 || n % 7 != 0)
    && (n == 11 || n % 11 != 0) && (n == 13 || n % 13 != 0) && (n == 17 || n % 17 != 0)
  }

  lemma Times2(n: nat, m: nat)
    requires n == 2 * m && n > 2
    ensures !Trial(n)
  {
    assert n % 2 == 0;
  }

  lemma Times3(n: nat, m: nat)
    requires n == 3 * m && n > 3
    ensures !Trial(n)
  {
    assert n % 3 == 0;
  }

  lemma Times5(n: nat, m: nat)
    requires n == 5 * m && n > 5
    ensures !Trial(n)
  {
    assert n % 5 == 0;
  }

  lemma Times7(n: nat, m: nat)
    requires n == 7 * m && n > 7
    ensures !Trial(n)
  {
    assert n % 7 == 0;
  }

  lemma Times11(n: nat, m: nat)
    requires n == 11 * m && n > 11
    ensures !Trial(n)
  {
    assert n % 11 == 0;
  }

  lemma Times13(n: nat, m: nat)
    requires n == 13 * m && n > 13
    ensures !Trial(n)
  {
    assert n % 13 == 0;
  }

  lemma Times17(n: nat, m: nat)
    requires n == 17 * m && n > 17
    ensures !Trial(n)
  {
    assert n % 17 == 0;
  }

  lemma SmallDivisor(n: nat, d: nat, e: nat)
    requires 2 <= d < 19 && n == d * e && d < n
    ensures !Trial(n)
  {
    hide Trial;
    if d % 2 == 0 {
      Times(2, d / 2, e);
      Times2(n, d / 2 * e);
    } else if d % 3 == 0 {
      Times(3, d / 3, e);
      Times3(n, d / 3 * e);
    } else if d == 5 {
      Times5(n, e);
    } else if d == 7 {
      Times7(n, e);
    } else if d == 11 {
      Times11(n, e);
    } else if d == 13 {
      Times13(n, e);
    } else {
      Times17(n, e);
    }
  }

  lemma Times(q: nat, k: nat, e: nat)
    ensures (q * k) * e == q * (k * e)
  {
  }

  lemma Large(d: nat, e: nat)
    requires d >= 19 && e >= 19
    ensures d * e >= 361
  {
    assert d * e >= 19 * e;
  }

  lemma Divided(n: nat, d: nat) returns (e: nat)
    requires 2 <= d < n < 361 && n % d == 0
    ensures n == d * e && 2 <= e < n && (d < 19 || e < 19)
  {
    e := n / d;
    if e >= 19 && d >= 19 { Large(d, e); }
  }

  lemma TrialIsPrime(n: nat)
    requires n < 361
    ensures Trial(n) <==> IsPrime(n)
  {
    if Trial(n) {
      forall d: nat | 2 <= d < n ensures n % d != 0 {
        if n % d == 0 {
          var e := Divided(n, d);
          if d < 19 { SmallDivisor(n, d, e); } else { SmallDivisor(n, e, d); }
        }
      }
    }
  }

  lemma Primes0(n: nat)
    requires 0 <= n < 8
    ensures Trial(n) <==> n in [2, 3, 5, 7]
  {
  }

  lemma Primes4(n: nat)
    requires 8 <= n < 20
    ensures Trial(n) <==> n in [11, 13, 17, 19]
  {
  }

  lemma Primes8(n: nat)
    requires 20 <= n < 38
    ensures Trial(n) <==> n in [23, 29, 31, 37]
  {
  }

  lemma Primes12(n: nat)
    requires 38 <= n < 54
    ensures Trial(n) <==> n in [41, 43, 47, 53]
  {
  }

  lemma Primes16(n: nat)
    requires 54 <= n < 72
    ensures Trial(n) <==> n in [59, 61, 67, 71]
  {
  }

  lemma Primes20(n: nat)
    requires 72 <= n < 90
    ensures Trial(n) <==> n in [73, 79, 83, 89]
  {
  }

  lemma Primes24(n: nat)
    requires 90 <= n < 108
    ensures Trial(n) <==> n in [97, 101, 103, 107]
  {
  }

  lemma Primes28(n: nat)
    requires 108 <= n < 114
    ensures Trial(n) <==> n in [109, 113]
  {
  }

  lemma Primes30(n: nat)
    requires 114 <= n < 132
    ensures Trial(n) <==> n in [127, 131]
  {
  }

  lemma Primes32(n: nat)
    requires 132 <= n < 152
    ensures Trial(n) <==> n in [137, 139, 149, 151]
  {
  }

  lemma Primes36(n: nat)
    requires 152 <= n < 174
    ensures Trial(n) <==> n in [157, 163, 167, 173]
  {
  }

  lemma Primes40(n: nat)
    requires 174 <= n < 194
    ensures Trial(n) <==> n in [179, 181, 191, 193]
  {
  }

  lemma Primes44(n: nat)
    requires 194 <= n < 224
    ensures Trial(n) <==> n in [197, 199, 211, 223]
  {
  }

  lemma Primes48(n: nat)
    requires 224 <= n < 240
    ensures Trial(n) <==> n in [227, 229, 233, 239]
  {
  }

  lemma Primes52(n: nat)
    requires 240 <= n < 252
    ensures Trial(n) <==> n in [241, 251]
  {
  }

  lemma Primes54(n: nat)
    requires 252 <= n < 264
    ensures Trial(n) <==> n in [257, 263]
  {
  }

  lemma Primes56(n: nat)
    requires 264 <= n < 282
    ensures Trial(n) <==> n in [269, 271, 277, 281]
  {
  }

  lemma Primes60(n: nat)
    requires 282 <= n < 294
    ensures Trial(n) <==> n in [283, 293]
  {
  }

  lemma Primes62(n: nat)
    requires 294 <= n < 312
    ensures Trial(n) <==> n in [307, 311]
  {
  }

  lemma Listed0()
    ensures PRIMES[0] == 2 && PRIMES[1] == 3 && PRIMES[2] == 5 && PRIMES[3] == 7
    ensures PRIMES[4] == 11 && PRIMES[5] == 13 && PRIMES[6] == 17 && PRIMES[7] == 19
  {
  }

  lemma Listed8()
    ensures PRIMES[8] == 23 && PRIMES[9] == 29 && PRIMES[10] == 31 && PRIMES[11] == 37
    ensures PRIMES[12] == 41 && PRIMES[13] == 43 && PRIMES[14] == 47 && PRIMES[15] == 53
  {
  }

  lemma Listed16()
    ensures PRIMES[16] == 59 && PRIMES[17] == 61 && PRIMES[18] == 67 && PRIMES[19] == 71
    ensures PRIMES[20] == 73 && PRIMES[21] == 79 && PRIMES[22] == 83 && PRIMES[23] == 89
  {
  }

  lemma Listed24()
    ensures PRIMES[24] == 97 && PRIMES[25] == 101 && PRIMES[26] == 103 && PRIMES[27] == 107
    ensures PRIMES[28] == 109 && PRIMES[29] == 113 && PRIMES[30] == 127 && PRIMES[31] == 131
  {
  }

  lemma Listed32()
    ensures PRIMES[32] == 137 && PRIMES[33] == 139 && PRIMES[34] == 149 && PRIMES[35] == 151
    ensures PRIMES[36] == 157 && PRIMES[37] == 163 && PRIMES[38] == 167 && PRIMES[39] == 173
  {
  }

  lemma Listed40()
    ensures PRIMES[40] == 179 && PRIMES[41] == 181 && PRIMES[42] == 191 && PRIMES[43] == 193
    ensures PRIMES[44] == 197 && PRIMES[45] == 199 && PRIMES[46] == 211 && PRIMES[47] == 223
  {
  }

  lemma Listed48()
    ensures PRIMES[48] == 227 && PRIMES[49] == 229 && PRIMES[50] == 233 && PRIMES[51] == 239
    ensures PRIMES[52] == 241 && PRIMES[53] == 251 && PRIMES[54] == 257 && PRIMES[55] == 263
  {
  }

  lemma Listed56()
    ensures PRIMES[56] == 269 && PRIMES[57] == 271 && PRIMES[58] == 277 && PRIMES[59] == 281
    ensures PRIMES[60] == 283 && PRIMES[61] == 293 && PRIMES[62] == 307 && PRIMES[63] == 311
  {
  }

  /** The list has the first 64 primes, and no others, in order. */
  lemma PrimesAreFirst(n: nat)
    requires n < 312
    ensures |PRIMES| == 64 && (n in PRIMES <==> IsPrime(n))
  {
    TrialIsPrime(n);
    hide IsPrime, Trial;
    if n in PRIMES {
      var i :| 0 <= i < |PRIMES| && PRIMES[i] == n;
      ListedIsPrime(i);
    }
    if Trial(n) { PrimeIsListed(n); }
  }

  lemma ListedIsPrime(i: nat)
    requires i < 64
    ensures |PRIMES| == 64 && Trial(PRIMES[i])
  {
    hide Trial;
    if i < 32 { EarlyIsPrime(i); } else { LateIsPrime(i); }
  }

  lemma EarlyIsPrime(i: nat)
    requires i < 32
    ensures |PRIMES| == 64 && Trial(PRIMES[i])
  {
    hide Trial;
    if i < 8 {
      Listed0();
      if i < 4 { Primes0(PRIMES[i]); } else { Primes4(PRIMES[i]); }
    } else if i < 16 {
      Listed8();
      if i < 12 { Primes8(PRIMES[i]); } else { Primes12(PRIMES[i]); }
    } else if i < 24 {
      Listed16();
      if i < 20 { Primes16(PRIMES[i]); } else { Primes20(PRIMES[i]); }
    } else {
      Listed24();
      if i < 28 { Primes24(PRIMES[i]); } else if i < 30 { Primes28(PRIMES[i]); } else { Primes30(PRIMES[i]); }
    }
  }

  lemma LateIsPrime(i: nat)
    requires 32 <= i < 64
    ensures |PRIMES| == 64 && Trial(PRIMES[i])
  {
    hide Trial;
    if i < 40 {
      Listed32();
      if i < 36 { Primes32(PRIMES[i]); } else { Primes36(PRIMES[i]); }
    } else if i < 48 {
      Listed40();
      if i < 44 { Primes40(PRIMES[i]); } else { Primes44(PRIMES[i]); }
    } else if i < 56 {
      Listed48();
      if i < 52 { Primes48(PRIMES[i]); } else if i < 54 { Primes52(PRIMES[i]); } else { Primes54(PRIMES[i]); }
    } else {
      Listed56();
      if i < 60 { Primes56(PRIMES[i]); } else if i < 62 { Primes60(PRIMES[i]); } else { Primes62(PRIMES[i]); }
    }
  }

  lemma PrimeIsListed(n: nat)
    requires n < 312 && Trial(n)
    ensures n in PRIMES
  {
    hide Trial;
    if n < 20 {
      Listed0();
      if n < 8 { Primes0(n); } else { Primes4(n); }
    } else if n < 54 {
      Listed8();
      if n < 38 { Primes8(n); } else { Primes12(n); }
    } else if n < 90 {
      Listed16();
      if n < 72 { Primes16(n); } else { Primes20(n); }
    } else if n < 132 {
      Listed24();
      if n < 108 { Primes24(n); } else if n < 114 { Primes28(n); } else { Primes30(n); }
    } else if n < 174 {
      Listed32();
      if n < 152 { Primes32(n); } else { Primes36(n); }
    } else if n < 224 {
      Listed40();
      if n < 194 { Primes40(n); } else { Primes44(n); }
    } else if n < 264 {
      Listed48();
      if n < 240 { Primes48(n); } else if n < 252 { Primes52(n); } else { Primes54(n); }
    } else {
      Listed56();
      if n < 282 { Primes56(n); } else if n < 294 { Primes60(n); } else { Primes62(n); }
    }
  }

  // ---------------------------------------------------------------- the roots

  const TWO32: nat := 0x1_0000_0000

  /** `k` is the first 32 bits of the fractional part of the cube root of `p`,
      whose whole part is `whole`. */
  predicate CubeRootBits(whole: nat, k: Word, p: nat) {
    var r := whole * TWO32 + k as nat;
    r * r * r <= p * (TWO32 * TWO32 * TWO32) < (r + 1) * (r + 1) * (r + 1)
  }

  /** The same of the square root. */
  predicate SquareRootBits(whole: nat, k: Word, p: nat) {
    var r := whole * TWO32 + k as nat;
    r * r <= p * (TWO32 * TWO32) < (r + 1) * (r + 1)
  }

  ghost predicate IsRoundConstant(t: nat)
    requires t < 64
  {
    |K| == 64 && |PRIMES| == 64 && exists whole :: CubeRootBits(whole, K[t], PRIMES[t])
  }

  lemma Constants0()
    ensures K[0] == 0x428a2f98 && K[1] == 0x71374491 && K[2] == 0xb5c0fbcf && K[3] == 0xe9b5dba5
    ensures K[4] == 0x3956c25b && K[5] == 0x59f111f1 && K[6] == 0x923f82a4 && K[7] == 0xab1c5ed5
  {
  }

  lemma Constants8()
    ensures K[8] == 0xd807aa98 && K[9] == 0x12835b01 && K[10] == 0x243185be && K[11] == 0x550c7dc3
    ensures K[12] == 0x72be5d74 && K[13] == 0x80deb1fe && K[14] == 0x9bdc06a7 && K[15] == 0xc19bf174
  {
  }

  lemma Constants16()
    ensures K[16] == 0xe49b69c1 && K[17] == 0xefbe4786 && K[18] == 0x0fc19dc6 && K[19] == 0x240ca1cc
    ensures K[20] == 0x2de92c6f && K[21] == 0x4a7484aa && K[22] == 0x5cb0a9dc && K[23] == 0x76f988da
  {
  }

  lemma Constants24()
    ensures K[24] == 0x983e5152 && K[25] == 0xa831c66d && K[26] == 0xb00327c8 && K[27] == 0xbf597fc7
    ensures K[28] == 0xc6e00bf3 && K[29] == 0xd5a79147 && K[30] == 0x06ca6351 && K[31] == 0x14292967
  {
  }

  lemma Constants32()
    ensures K[32] == 0x27b70a85 && K[33] == 0x2e1b2138 && K[34] == 0x4d2c6dfc && K[35] == 0x53380d13
    ensures K[36] == 0x650a7354 && K[37] == 0x766a0abb && K[38] == 0x81c2c92e && K[39] == 0x92722c85
  {
  }

  lemma Constants40()
    ensures K[40] == 0xa2bfe8a1 && K[41] == 0xa81a664b && K[42] == 0xc24b8b70 && K[43] == 0xc76c51a3
    ensures K[44] == 0xd192e819 && K[45] == 0xd6990624 && K[46] == 0xf40e3585 && K[47] == 0x106aa070
  {
  }

  lemma Constants48()
    ensures K[48] == 0x19a4c116 && K[49] == 0x1e376c08 && K[50] == 0x2748774c && K[51] == 0x34b0bcb5
    ensures K[52] == 0x391c0cb3 && K[53] == 0x4ed8aa4a && K[54] == 0x5b9cca4f && K[55] == 0x682e6ff3
  {
  }

  lemma Constants56()
    ensures K[56] == 0x748f82ee && K[57] == 0x78a5636f && K[58] == 0x84c87814 && K[59] == 0x8cc70208
    ensures K[60] == 0x90befffa && K[61] == 0xa4506ceb && K[62] == 0xbef9a3f7 && K[63] == 0xc67178f2
  {
  }

  lemma Roots0(t: nat)
    requires 0 <= t < 4
    ensures IsRoundConstant(t)
  {
    Constants0();
    Listed0();
    assert CubeRootBits(1, 0x428a2f98, 2) && CubeRootBits(1, 0x71374491, 3);
    assert CubeRootBits(1, 0xb5c0fbcf, 5) && CubeRootBits(1, 0xe9b5dba5, 7);
    hide CubeRootBits;
  }

  lemma Roots4(t: nat)
    requires 4 <= t < 8
    ensures IsRoundConstant(t)
  {
    Constants0();
    Listed0();
    assert CubeRootBits(2, 0x3956c25b, 11) && CubeRootBits(2, 0x59f111f1, 13);
    assert CubeRootBits(2, 0x923f82a4, 17) && CubeRootBits(2, 0xab1c5ed5, 19);
    hide CubeRootBits;
  }

  lemma Roots8(t: nat)
    requires 8 <= t < 12
    ensures IsRoundConstant(t)
  {
    Constants8();
    Listed8();
    assert CubeRootBits(2, 0xd807aa98, 23) && CubeRootBits(3, 0x12835b01, 29);
    assert CubeRootBits(3, 0x243185be, 31) && CubeRootBits(3, 0x550c7dc3, 37);
    hide CubeRootBits;
  }

  lemma Roots12(t: nat)
    requires 12 <= t < 16
    ensures IsRoundConstant(t)
  {
    Constants8();
    Listed8();
    assert CubeRootBits(3, 0x72be5d74, 41) && CubeRootBits(3, 0x80deb1fe, 43);
    assert CubeRootBits(3, 0x9bdc06a7, 47) && CubeRootBits(3, 0xc19bf174, 53);
    hide CubeRootBits;
  }

  lemma Roots16(t: nat)
    requires 16 <= t < 20
    ensures IsRoundConstant(t)
  {
    Constants16();
    Listed16();
    assert CubeRootBits(3, 0xe49b69c1, 59) && CubeRootBits(3, 0xefbe4786, 61);
    assert CubeRootBits(4, 0x0fc19dc6, 67) && CubeRootBits(4, 0x240ca1cc, 71);
    hide CubeRootBits;
  }

  lemma Roots20(t: nat)
    requires 20 <= t < 24
    ensures IsRoundConstant(t)
  {
    Constants16();
    Listed16();
    assert CubeRootBits(4, 0x2de92c6f, 73) && CubeRootBits(4, 0x4a7484aa, 79);
    assert CubeRootBits(4, 0x5cb0a9dc, 83) && CubeRootBits(4, 0x76f988da, 89);
    hide CubeRootBits;
  }

  lemma Roots24(t: nat)
    requires 24 <= t < 28
    ensures IsRoundConstant(t)
  {
    Constants24();
    Listed24();
    assert CubeRootBits(4, 0x983e5152, 97) && CubeRootBits(4, 0xa831c66d, 101);
    assert CubeRootBits(4, 0xb00327c8, 103) && CubeRootBits(4, 0xbf597fc7, 107);
    hide CubeRootBits;
  }

  lemma Roots28(t: nat)
    requires 28 <= t < 32
    ensures IsRoundConstant(t)
  {
    Constants24();
    Listed24();
    assert CubeRootBits(4, 0xc6e00bf3, 109) && CubeRootBits(4, 0xd5a79147, 113);
    assert CubeRootBits(5, 0x06ca6351, 127) && CubeRootBits(5, 0x14292967, 131);
    hide CubeRootBits;
  }

  lemma Roots32(t: nat)
    requires 32 <= t < 36
    ensures IsRoundConstant(t)
  {
    Constants32();
    Listed32();
    assert CubeRootBits(5, 0x27b70a85, 137) && CubeRootBits(5, 0x2e1b2138, 139);
    assert CubeRootBits(5, 0x4d2c6dfc, 149) && CubeRootBits(5, 0x53380d13, 151);
    hide CubeRootBits;
  }

  lemma Roots36(t: nat)
    requires 36 <= t < 40
    ensures IsRoundConstant(t)
  {
    Constants32();
    Listed32();
    assert CubeRootBits(5, 0x650a7354, 157) && CubeRootBits(5, 0x766a0abb, 163);
    assert CubeRootBits(5, 0x81c2c92e, 167) && CubeRootBits(5, 0x92722c85, 173);
    hide CubeRootBits;
  }

  lemma Roots40(t: nat)
    requires 40 <= t < 44
    ensures IsRoundConstant(t)
  {
    Constants40();
    Listed40();
    assert CubeRootBits(5, 0xa2bfe8a1, 179) && CubeRootBits(5, 0xa81a664b, 181);
    assert CubeRootBits(5, 0xc24b8b70, 191) && CubeRootBits(5, 0xc76c51a3, 193);
    hide CubeRootBits;
  }

  lemma Roots44(t: nat)
    requires 44 <= t < 48
    ensures IsRoundConstant(t)
  {
    Constants40();
    Listed40();
    assert CubeRootBits(5, 0xd192e819, 197) && CubeRootBits(5, 0xd6990624, 199);
    assert CubeRootBits(5, 0xf40e3585, 211) && CubeRootBits(6, 0x106aa070, 223);
    hide CubeRootBits;
  }

  lemma Roots48(t: nat)
    requires 48 <= t < 52
    ensures IsRoundConstant(t)
  {
    Constants48();
    Listed48();
    assert CubeRootBits(6, 0x19a4c116, 227) && CubeRootBits(6, 0x1e376c08, 229);
    assert CubeRootBits(6, 0x2748774c, 233) && CubeRootBits(6, 0x34b0bcb5, 239);
    hide CubeRootBits;
  }

  lemma Roots52(t: nat)
    requires 52 <= t < 56
    ensures IsRoundConstant(t)
  {
    Constants48();
    Listed48();
    assert CubeRootBits(6, 0x391c0cb3, 241) && CubeRootBits(6, 0x4ed8aa4a, 251);
    assert CubeRootBits(6, 0x5b9cca4f, 257) && CubeRootBits(6, 0x682e6ff3, 263);
    hide CubeRootBits;
  }

  lemma Roots56(t: nat)
    requires 56 <= t < 60
    ensures IsRoundConstant(t)
  {
    Constants56();
    Listed56();
    assert CubeRootBits(6, 0x748f82ee, 269) && CubeRootBits(6, 0x78a5636f, 271);
    assert CubeRootBits(6, 0x84c87814, 277) && CubeRootBits(6, 0x8cc70208, 281);
    hide CubeRootBits;
  }

  lemma Roots60(t: nat)
    requires 60 <= t < 64
    ensures IsRoundConstant(t)
  {
    Constants56();
    Listed56();
    assert CubeRootBits(6, 0x90befffa, 283) && CubeRootBits(6, 0xa4506ceb, 293);
    assert CubeRootBits(6, 0xbef9a3f7, 307) && CubeRootBits(6, 0xc67178f2, 311);
    hide CubeRootBits;
  }

  /** The round constants are the fractional parts of the cube roots of the first
      64 primes. */
  lemma ConstantsAreCubeRoots(t: nat)
    requires t < 64
    ensures IsRoundConstant(t)
  {
    hide IsRoundConstant;
    if t < 8 {
      if t < 4 { Roots0(t); } else { Roots4(t); }
    } else if t < 16 {
      if t < 12 { Roots8(t); } else { Roots12(t); }
    } else if t < 24 {
      if t < 20 { Roots16(t); } else { Roots20(t); }
    } else if t < 32 {
      if t < 28 { Roots24(t); } else { Roots28(t); }
    } else if t < 40 {
      if t < 36 { Roots32(t); } else { Roots36(t); }
    } else if t < 48 {
      if t < 44 { Roots40(t); } else { Roots44(t); }
    } else if t < 56 {
      if t < 52 { Roots48(t); } else { Roots52(t); }
    } else {
      if t < 60 { Roots56(t); } else { Roots60(t); }
    }
  }

  /** The initial hash value is that of the square roots of the first eight. */
  lemma InitialIsSquareRoots()
    ensures SquareRootBits(1, H0.a, 2) && SquareRootBits(1, H0.b, 3)
    ensures SquareRootBits(2, H0.c, 5) && SquareRootBits(2, H0.d, 7)
    ensures SquareRootBits(3, H0.e, 11) && SquareRootBits(3, H0.f, 13)
    ensures SquareRootBits(4, H0.g, 17) && SquareRootBits(4, H0.h, 19)
  {
  }

  // ------------------------------------------------------------ the functions

  /** `x` chooses, bit by bit, between `y` and `z`. */
  lemma ChChooses(x: Word, y: Word, z: Word)
    ensures Ch(x, y, z) & x == y & x && Ch(x, y, z) & !x == z & !x
  {
  }

  /** Where two of the three agree, `Maj` is with them. */
  lemma MajIsMajority(x: Word, y: Word, z: Word, bits: Word)
    requires x & bits == y & bits
    ensures Maj(x, y, z) & bits == x & bits
  {
  }

  lemma MajIsSymmetric(x: Word, y: Word, z: Word)
    ensures Maj(x, y, z) == Maj(y, z, x)
  {
  }

  // -------------------------------------------------------------- the message

  function WordBytes(w: Word): seq<Byte> {
    [((w >> 24) & 0xff) as Byte, ((w >> 16) & 0xff) as Byte, ((w >> 8) & 0xff) as Byte, (w & 0xff) as Byte]
  }

  function BlockBytes(block: seq<Word>): seq<Byte> {
    if block == [] then [] else BlockBytes(block[..|block| - 1]) + WordBytes(block[|block| - 1])
  }

  function Bytes(blocks: seq<seq<Word>>): seq<Byte> {
    if blocks == [] then [] else Bytes(blocks[..|blocks| - 1]) + BlockBytes(blocks[|blocks| - 1])
  }

  lemma WordReadsBack(b0: Byte, b1: Byte, b2: Byte, b3: Byte)
    ensures WordBytes(WordOf(b0, b1, b2, b3)) == [b0, b1, b2, b3]
  {
  }

  lemma {:induction false} WordsReadBack(m: seq<Byte>, i: nat, n: nat)
    requires 64 * i + 64 <= |m| && n <= 16
    ensures BlockBytes(BlockAt(m, i)[..n]) == m[64 * i..64 * i + 4 * n]
  {
    hide WordOf, WordBytes;
    if n > 0 {
      WordsReadBack(m, i, n - 1);
      var words, k := BlockAt(m, i)[..n], 64 * i + 4 * (n - 1);
      assert words[..n - 1] == BlockAt(m, i)[..n - 1] && words[n - 1] == WordAt(m, k);
      WordReadsBack(m[k], m[k + 1], m[k + 2], m[k + 3]);
      hide BlockAt, WordAt;
      assert m[64 * i..k] + [m[k], m[k + 1], m[k + 2], m[k + 3]] == m[64 * i..64 * i + 4 * n];
    }
  }

  /** The hash values from block to block. */
  ghost predicate Chain(hs: seq<Regs>, blocks: seq<seq<Word>>) {
    && |hs| == |blocks| + 1 && hs[0] == H0 && (forall i :: 0 <= i < |blocks| ==> |blocks[i]| == 16)
    && forall i :: 0 <= i < |blocks| ==> hs[i + 1] == Compress(hs[i], blocks[i])
  }

  lemma BytesOfOneMore(blocks: seq<seq<Word>>, block: seq<Word>)
    ensures Bytes(blocks + [block]) == Bytes(blocks) + BlockBytes(block)
  {
    hide BlockBytes;
    assert (blocks + [block])[..|blocks|] == blocks;
  }

  lemma {:induction false} HashIsChain(m: seq<Byte>, n: nat) returns (hs: seq<Regs>, blocks: seq<seq<Word>>)
    requires 64 * n <= |m|
    ensures Chain(hs, blocks) && |blocks| == n && hs[n] == HashBlocks(m, n) && Bytes(blocks) == m[..64 * n]
  {
    hide Compress, BlockAt;
    if n == 0 {
      hs, blocks := [H0], [];
    } else {
      hs, blocks := HashIsChain(m, n - 1);
      var block, k := BlockAt(m, n - 1), 64 * (n - 1);
      assert block[..16] == block;
      WordsReadBack(m, n - 1, 16);
      BytesOfOneMore(blocks, block);
      hide Bytes, BlockBytes;
      assert m[..k + 64] == m[..k] + m[k..k + 64];
      hs, blocks := hs + [HashBlocks(m, n)], blocks + [block];
    }
  }

  /** The digest is the end of a chain whose blocks hold exactly the message, a
      byte `0x80`, fewer than 64 zero bytes, and the message's length in bits. */
  lemma DigestIsChain(m: seq<Byte>) returns (hs: seq<Regs>, blocks: seq<seq<Word>>, zeros: nat)
    requires 8 * |m| < TWO64
    ensures Chain(hs, blocks) && Digest(m) == hs[|blocks|] && zeros < 64
    ensures Bytes(blocks) == m + [0x80] + seq(zeros, _ => 0 as Byte) + LengthBytes((8 * |m|) as bv64)
  {
    PaddedLength(m);
    var p := Pad(m);
    zeros := ZeroCount(|m|);
    hide Pad, ZeroCount, LengthBytes, Chain, Bytes;
    hs, blocks := HashIsChain(p, |p| / 64);
    assert p[..64 * (|p| / 64)] == p;
    PadParts(m);
  }

  lemma PadParts(m: seq<Byte>)
    requires 8 * |m| < TWO64
    ensures ZeroCount(|m|) < 64
    ensures Pad(m) == m + [0x80] + seq(ZeroCount(|m|), _ => 0 as Byte) + LengthBytes((8 * |m|) as bv64)
  {
    hide LengthBytes;
    assert Zeros(ZeroCount(|m|)) == seq(ZeroCount(|m|), _ => 0 as Byte);
  }
}
