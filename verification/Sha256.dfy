/**
 SHA-256 as FIPS 180-4 defines it, and the loops that compute it.
 */
module Sha256 {

  type Word = bv32
  type Byte = bv8

  // -------------------------------------- FIPS 180-4, sections 3.2 and 4.1.2

  // A rotation to the right by n is written (x >> n) | (x << 32 - n).

  function Ch(x: Word, y: Word, z: Word): Word { (x & y) ^ (!x & z) }
  function Maj(x: Word, y: Word, z: Word): Word { (x & y) ^ (x & z) ^ (y & z) }

  function BigSigma0(x: Word): Word { ((x >> 2) | (x << 30)) ^ ((x >> 13) | (x << 19)) ^ ((x >> 22) | (x << 10)) }
  function BigSigma1(x: Word): Word { ((x >> 6) | (x << 26)) ^ ((x >> 11) | (x << 21)) ^ ((x >> 25) | (x << 7)) }
  function SmallSigma0(x: Word): Word { ((x >> 7) | (x << 25)) ^ ((x >> 18) | (x << 14)) ^ (x >> 3) }
  function SmallSigma1(x: Word): Word { ((x >> 17) | (x << 15)) ^ ((x >> 19) | (x << 13)) ^ (x >> 10) }

  /** Addition modulo 2 to the power 32. */
  function Add(x: Word, y: Word): Word { x + y }

  /** Four words added up, modulo 2 to the power 32. */
  function Sum4(a: Word, b: Word, c: Word, d: Word): Word { a + b + c + d }

  lemma BigSigmasAgree(x: Word)
    ensures x.RotateRight(2) ^ x.RotateRight(13) ^ x.RotateRight(22) == BigSigma0(x)
    ensures x.RotateRight(6) ^ x.RotateRight(11) ^ x.RotateRight(25) == BigSigma1(x)
  {
  }

  lemma SmallSigmasAgree(x: Word)
    ensures x.RotateRight(7) ^ x.RotateRight(18) ^ (x >> 3) == SmallSigma0(x)
    ensures x.RotateRight(17) ^ x.RotateRight(19) ^ (x >> 10) == SmallSigma1(x)
  {
  }

  lemma Sum4Agrees(a: Word, b: Word, c: Word, d: Word)
    ensures Sum4(d, c, b, a) == Sum4(a, b, c, d)
  {
  }

  lemma AddsSwap(r: Regs, h: Regs)
    ensures Sum(r, h) == Sum(h, r)
  {
  }

  const K: seq<Word> :=
    [0x428a2f98, 0x71374491, 0xb5c0fbcf, 0xe9b5dba5, 0x3956c25b, 0x59f111f1, 0x923f82a4, 0xab1c5ed5] +
    [0xd807aa98, 0x12835b01, 0x243185be, 0x550c7dc3, 0x72be5d74, 0x80deb1fe, 0x9bdc06a7, 0xc19bf174] +
    [0xe49b69c1, 0xefbe4786, 0x0fc19dc6, 0x240ca1cc, 0x2de92c6f, 0x4a7484aa, 0x5cb0a9dc, 0x76f988da] +
    [0x983e5152, 0xa831c66d, 0xb00327c8, 0xbf597fc7, 0xc6e00bf3, 0xd5a79147, 0x06ca6351, 0x14292967] +
    [0x27b70a85, 0x2e1b2138, 0x4d2c6dfc, 0x53380d13, 0x650a7354, 0x766a0abb, 0x81c2c92e, 0x92722c85] +
    [0xa2bfe8a1, 0xa81a664b, 0xc24b8b70, 0xc76c51a3, 0xd192e819, 0xd6990624, 0xf40e3585, 0x106aa070] +
    [0x19a4c116, 0x1e376c08, 0x2748774c, 0x34b0bcb5, 0x391c0cb3, 0x4ed8aa4a, 0x5b9cca4f, 0x682e6ff3] +
    [0x748f82ee, 0x78a5636f, 0x84c87814, 0x8cc70208, 0x90befffa, 0xa4506ceb, 0xbef9a3f7, 0xc67178f2]

  /** The working variables, and the hash value, as eight words. */
  datatype Regs = Regs(a: Word, b: Word, c: Word, d: Word, e: Word, f: Word, g: Word, h: Word)

  const H0 := Regs(
    0x6a09e667, 0xbb67ae85, 0x3c6ef372, 0xa54ff53a, 0x510e527f, 0x9b05688c, 0x1f83d9ab, 0x5be0cd19)

  // ------------------------------------------------ FIPS 180-4, section 6.2.2

  /** Step 1: the message schedule of a block of 16 words. */
  function W(block: seq<Word>, t: nat): Word
    requires |block| == 16
  {
    if t < 16 then block[t]
    else
      Sum4(SmallSigma1(W(block, t - 2)), W(block, t - 7), SmallSigma0(W(block, t - 15)), W(block, t - 16))
  }

  /** Step 3, once. */
  function Round(r: Regs, k: Word, w: Word): Regs {
    var t1 := Add(Add(Add(Add(r.h, BigSigma1(r.e)), Ch(r.e, r.f, r.g)), k), w);
    var t2 := Add(BigSigma0(r.a), Maj(r.a, r.b, r.c));
    Regs(Add(t1, t2), r.a, r.b, r.c, Add(r.d, t1), r.e, r.f, r.g)
  }

  function Rounds(r: Regs, block: seq<Word>, t: nat): Regs
    requires |block| == 16 && t <= 64
  {
    if t == 0 then r else Round(Rounds(r, block, t - 1), K[t - 1], W(block, t - 1))
  }

  function Sum(r: Regs, h: Regs): Regs {
    Regs(Add(r.a, h.a), Add(r.b, h.b), Add(r.c, h.c), Add(r.d, h.d),
         Add(r.e, h.e), Add(r.f, h.f), Add(r.g, h.g), Add(r.h, h.h))
  }

  /** Step 4. */
  function Compress(h: Regs, block: seq<Word>): Regs
    requires |block| == 16
  {
    Sum(Rounds(h, block, 64), h)
  }

  // ---------------------------------- FIPS 180-4, sections 5.1.1 and 5.2.1

  function WordOf(b0: Byte, b1: Byte, b2: Byte, b3: Byte): Word {
    ((b0 as Word) << 24) | ((b1 as Word) << 16) | ((b2 as Word) << 8) | (b3 as Word)
  }

  function WordAt(m: seq<Byte>, i: nat): Word
    requires i + 4 <= |m|
  {
    WordOf(m[i], m[i + 1], m[i + 2], m[i + 3])
  }

  function BlockAt(m: seq<Byte>, i: nat): (block: seq<Word>)
    requires 64 * i + 64 <= |m|
    ensures |block| == 16
  {
    seq(16, j requires 0 <= j < 16 => WordAt(m, 64 * i + 4 * j))
  }

  function HashBlocks(m: seq<Byte>, n: nat): Regs
    requires 64 * n <= |m|
  {
    if n == 0 then H0 else Compress(HashBlocks(m, n - 1), BlockAt(m, n - 1))
  }

  function Zeros(k: nat): seq<Byte> {
    seq(k, i => 0)
  }

  /** The eight bytes of a 64-bit number, the highest first. */
  function LengthBytes(l: bv64): seq<Byte> {
    [((l >> 56) & 0xff) as Byte, ((l >> 48) & 0xff) as Byte, ((l >> 40) & 0xff) as Byte, ((l >> 32) & 0xff) as Byte,
     ((l >> 24) & 0xff) as Byte, ((l >> 16) & 0xff) as Byte, ((l >> 8) & 0xff) as Byte, (l & 0xff) as Byte]
  }

  /** How many zero bytes follow the byte `0x80`. */
  function ZeroCount(length: nat): nat {
    (119 - length % 64) % 64
  }

  const TWO64 := 0x1_0000_0000_0000_0000

  function Pad(m: seq<Byte>): seq<Byte>
    requires 8 * |m| < TWO64
  {
    m + [0x80] + Zeros(ZeroCount(|m|)) + LengthBytes((8 * |m|) as bv64)
  }

  function Digest(m: seq<Byte>): Regs
    requires 8 * |m| < TWO64
  {
    PaddedLength(m);
    HashBlocks(Pad(m), |Pad(m)| / 64)
  }

  lemma PaddedLength(m: seq<Byte>)
    requires 8 * |m| < TWO64
    ensures |Pad(m)| % 64 == 0 && |Pad(m)| == |m| + 9 + ZeroCount(|m|)
  {
    assert |LengthBytes((8 * |m|) as bv64)| == 8;
    hide LengthBytes;
    var n := |m|;
    FillsBlocks(n);
  }

  lemma FillsBlocks(length: nat)
    ensures (length + 9 + ZeroCount(length)) % 64 == 0
  {
    var q, r := length / 64, length % 64;
    assert length == 64 * q + r;
  }

  /** The padding is the standard's: `l + 1 + k` is 448 modulo 512 for the `k`
      zero bits after the 1, and for no smaller number of zero bits. */
  lemma PaddingIsMinimal(m: seq<Byte>, z: nat)
    requires 8 * |m| < TWO64
    ensures (8 * |m| + 1 + (7 + 8 * ZeroCount(|m|))) % 512 == 448
    ensures z < 7 + 8 * ZeroCount(|m|) ==> (8 * |m| + 1 + z) % 512 != 448
  {
    var q, r := |m| / 64, |m| % 64;
    assert 8 * |m| == 512 * q + 8 * r;
  }

  /** Read back, the eight length bytes are the number itself. */
  lemma LengthReadsBack(l: bv64)
    ensures var b := LengthBytes(l);
            ((b[0] as bv64) << 56) | ((b[1] as bv64) << 48) | ((b[2] as bv64) << 40) | ((b[3] as bv64) << 32) |
            ((b[4] as bv64) << 24) | ((b[5] as bv64) << 16) | ((b[6] as bv64) << 8) | (b[7] as bv64) == l
  {
  }

  // --------------------------------------------------------------- the output

  const DIGITS := "0123456789abcdef"

  function Digit(n: Word): char
    requires n < 16
  {
    DIGITS[n as nat]
  }

  /** `{:08x}`. */
  function HexWord(w: Word): string {
    [Digit((w >> 28) & 0xf), Digit((w >> 24) & 0xf), Digit((w >> 20) & 0xf), Digit((w >> 16) & 0xf),
     Digit((w >> 12) & 0xf), Digit((w >> 8) & 0xf), Digit((w >> 4) & 0xf), Digit(w & 0xf)]
  }

  lemma NibblesReadBack(w: Word)
    ensures w == (((w >> 28) & 0xf) << 28) | (((w >> 24) & 0xf) << 24) | (((w >> 20) & 0xf) << 20) |
                 (((w >> 16) & 0xf) << 16) | (((w >> 12) & 0xf) << 12) | (((w >> 8) & 0xf) << 8) |
                 (((w >> 4) & 0xf) << 4) | (w & 0xf)
  {
  }

  /** The number a hexadecimal digit stands for, in lower case. */
  function DigitValue(c: char): Word {
    match c
    case '1' => 1
    case '2' => 2
    case '3' => 3
    case '4' => 4
    case '5' => 5
    case '6' => 6
    case '7' => 7
    case '8' => 8
    case '9' => 9
    case 'a' => 10
    case 'b' => 11
    case 'c' => 12
    case 'd' => 13
    case 'e' => 14
    case 'f' => 15
    case _ => 0
  }

  lemma DigitReadsBack(n: Word)
    requires n < 16
    ensures DigitValue(Digit(n)) == n
  {
  }

  /** Eight digits as a word, the highest first. */
  function ReadWord(s: string): Word
    requires |s| == 8
  {
    (DigitValue(s[0]) << 28) | (DigitValue(s[1]) << 24) | (DigitValue(s[2]) << 20) | (DigitValue(s[3]) << 16) |
    (DigitValue(s[4]) << 12) | (DigitValue(s[5]) << 8) | (DigitValue(s[6]) << 4) | DigitValue(s[7])
  }

  lemma HexWordReadsBack(w: Word)
    ensures |HexWord(w)| == 8 && ReadWord(HexWord(w)) == w
  {
    hide Digit, DigitValue;
    DigitReadsBack((w >> 28) & 0xf);
    DigitReadsBack((w >> 24) & 0xf);
    DigitReadsBack((w >> 20) & 0xf);
    DigitReadsBack((w >> 16) & 0xf);
    DigitReadsBack((w >> 12) & 0xf);
    DigitReadsBack((w >> 8) & 0xf);
    DigitReadsBack((w >> 4) & 0xf);
    DigitReadsBack(w & 0xf);
    NibblesReadBack(w);
  }

  function Words(r: Regs): seq<Word> {
    [r.a, r.b, r.c, r.d, r.e, r.f, r.g, r.h]
  }

  function Hex(ws: seq<Word>): string {
    if ws == [] then "" else Hex(ws[..|ws| - 1]) + HexWord(ws[|ws| - 1])
  }

  function ReadHex(s: string): seq<Word> {
    if |s| < 8 then [] else ReadHex(s[..|s| - 8]) + [ReadWord(s[|s| - 8..])]
  }

  /** The text holds the words, so digests with one text are equal. */
  lemma {:induction false} HexReadsBack(ws: seq<Word>)
    ensures ReadHex(Hex(ws)) == ws
  {
    hide HexWord, ReadWord;
    if ws != [] {
      var front, last := ws[..|ws| - 1], ws[|ws| - 1];
      HexReadsBack(front);
      HexWordReadsBack(last);
      assert Hex(ws)[..|Hex(ws)| - 8] == Hex(front) && Hex(ws)[|Hex(ws)| - 8..] == HexWord(last);
    }
  }

  // --------------------------------------------------------------- the loops

  /** The schedule: 16 words of the chunk, then 48 computed ones. */
  method Schedule(m: seq<Byte>, chunk: nat) returns (w: array<Word>)
    requires 64 * chunk + 64 <= |m|
    ensures fresh(w) && w.Length == 64
    ensures forall t :: 0 <= t < 64 ==> w[t] == W(BlockAt(m, chunk), t)
  {
    hide W, NextWord, WordOf;
    w := new Word[64](_ => 0);
    ghost var block := BlockAt(m, chunk);
    for i := 0 to 16
      invariant forall t :: 0 <= t < i ==> w[t] == W(block, t)
    {
      var offset := 64 * chunk + i * 4;
      w[i] := WordOf(m[offset], m[offset + 1], m[offset + 2], m[offset + 3]);
      FirstWords(m, chunk, i);
    }
    for i := 16 to 64
      invariant forall t :: 0 <= t < i ==> w[t] == W(block, t)
    {
      w[i] := NextWord(w[i - 16], w[i - 15], w[i - 7], w[i - 2]);
      ScheduleSum(block, i);
    }
  }

  lemma FirstWords(m: seq<Byte>, chunk: nat, i: nat)
    requires 64 * chunk + 64 <= |m| && i < 16
    ensures WordAt(m, 64 * chunk + i * 4) == W(BlockAt(m, chunk), i)
  {
  }

  function NextWord(w16: Word, w15: Word, w7: Word, w2: Word): Word {
    var s0 := w15.RotateRight(7) ^ w15.RotateRight(18) ^ (w15 >> 3);
    var s1 := w2.RotateRight(17) ^ w2.RotateRight(19) ^ (w2 >> 10);
    Sum4(w16, s0, w7, s1)
  }

  lemma ScheduleSum(block: seq<Word>, t: nat)
    requires |block| == 16 && 16 <= t < 64
    ensures NextWord(W(block, t - 16), W(block, t - 15), W(block, t - 7), W(block, t - 2)) == W(block, t)
  {
    var w15, w2 := W(block, t - 15), W(block, t - 2);
    SmallSigmasAgree(w15);
    SmallSigmasAgree(w2);
    Sum4Agrees(SmallSigma1(w2), W(block, t - 7), SmallSigma0(w15), W(block, t - 16));
    hide Sum4, SmallSigma0, SmallSigma1;
  }

  /** The 64 rounds on one chunk, added to the hash so far. */
  method Rounds64(hash: Regs, w: array<Word>, ghost block: seq<Word>) returns (next: Regs)
    requires w.Length == 64 && |block| == 16
    requires forall t :: 0 <= t < 64 ==> w[t] == W(block, t)
    ensures next == Compress(hash, block)
  {
    hide W, Ch, Maj, Add, BigSigma0, BigSigma1;
    var a, b, c, d := hash.a, hash.b, hash.c, hash.d;
    var e, f, g, hh := hash.e, hash.f, hash.g, hash.h;
    for i := 0 to 64
      invariant Regs(a, b, c, d, e, f, g, hh) == Rounds(hash, block, i)
    {
      BigSigmasAgree(e);
      BigSigmasAgree(a);
      var s1 := e.RotateRight(6) ^ e.RotateRight(11) ^ e.RotateRight(25);
      var ch := Ch(e, f, g);
      var temp1 := Add(Add(Add(Add(hh, s1), ch), K[i]), w[i]);
      var s0 := a.RotateRight(2) ^ a.RotateRight(13) ^ a.RotateRight(22);
      var maj := Maj(a, b, c);
      var temp2 := Add(s0, maj);
      hh := g;
      g := f;
      f := e;
      e := Add(d, temp1);
      d := c;
      c := b;
      b := a;
      a := Add(temp1, temp2);
    }
    next := Sum(hash, Regs(a, b, c, d, e, f, g, hh));
    AddsSwap(Rounds(hash, block, 64), hash);
  }

  /** One zero byte at a time, until eight bytes more fill a block. */
  method PadMessage(bytes: seq<Byte>) returns (msg: seq<Byte>)
    ensures 8 * |bytes| < TWO64 ==> msg == Pad(bytes)
  {
    var bitLength := ((8 * |bytes|) % TWO64) as bv64;
    msg := bytes + [0x80];
    ghost var k := 0;
    while (|msg| + 8) % 64 != 0
      invariant 0 <= k <= ZeroCount(|bytes|)
      invariant msg == bytes + [0x80] + Zeros(k)
      decreases ZeroCount(|bytes|) - k
    {
      NotYetFull(|bytes|, k);
      msg := msg + [0];
      k := k + 1;
    }
    FullAt(|bytes|, k);
    msg := msg + LengthBytes(bitLength);
  }

  lemma NotYetFull(length: nat, k: nat)
    requires k <= ZeroCount(length) && (length + 1 + k + 8) % 64 != 0
    ensures k < ZeroCount(length)
  {
  }

  lemma FullAt(length: nat, k: nat)
    requires k <= ZeroCount(length) && (length + 1 + k + 8) % 64 == 0
    ensures k == ZeroCount(length)
  {
  }

  /** `sha256_hex`. */
  method Sha256Hex(bytes: seq<Byte>) returns (hex: string)
    ensures 8 * |bytes| < TWO64 ==> hex == Hex(Words(Digest(bytes)))
  {
    var h := H0;
    var msg := PadMessage(bytes);
    hide Pad, Compress, BlockAt, W;
    for i := 0 to |msg| / 64
      invariant h == HashBlocks(msg, i)
    {
      var w := Schedule(msg, i);
      h := Rounds64(h, w, BlockAt(msg, i));
    }
    var words := Words(h);
    hex := "";
    for i := 0 to |words|
      invariant hex == Hex(words[..i])
    {
      assert words[..i + 1][..i] == words[..i];
      hex := hex + HexWord(words[i]);
    }
    assert words[..|words|] == words;
  }
}
