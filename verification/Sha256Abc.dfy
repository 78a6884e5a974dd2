/**
 The digest of "abc", round by round: what the repository's own test expects.
 */
module Sha256Abc {
  import opened Sha256
  import opened Sha256Facts

  const ABC: seq<Byte> := [0x61, 0x62, 0x63]

  const BLOCK: seq<Word> := [0x61626380, 0, 0, 0, 0, 0, 0, 0] + [0, 0, 0, 0, 0, 0, 0, 24]

  lemma LengthOfAbc()
    ensures LengthBytes(24) == [0, 0, 0, 0, 0, 0, 0, 24]
  {
  }

  lemma PadOfAbc()
    ensures |Pad(ABC)| == 64 && BlockAt(Pad(ABC), 0) == BLOCK
  {
    var p := Pad(ABC);
    LengthOfAbc();
    assert p == [0x61, 0x62, 0x63, 0x80] + Zeros(52) + [0, 0, 0, 0, 0, 0, 0, 24];
    assert forall j :: 4 <= j < 63 ==> p[j] == 0;
    assert p[63] == 24;
    forall j | 0 <= j < 16 ensures WordAt(p, 4 * j) == BLOCK[j] {
    }
  }

  // ------------------------------------------------------------ the schedule

  lemma Words0()
    ensures W(BLOCK, 0) == 0x61626380 && W(BLOCK, 1) == 0x00000000
    ensures W(BLOCK, 2) == 0x00000000 && W(BLOCK, 3) == 0x00000000
  {
  }

  lemma Words4()
    ensures W(BLOCK, 4) == 0x00000000 && W(BLOCK, 5) == 0x00000000
    ensures W(BLOCK, 6) == 0x00000000 && W(BLOCK, 7) == 0x00000000
  {
  }

  lemma Words8()
    ensures W(BLOCK, 8) == 0x00000000 && W(BLOCK, 9) == 0x00000000
    ensures W(BLOCK, 10) == 0x00000000 && W(BLOCK, 11) == 0x00000000
  {
  }

  lemma Words12()
    ensures W(BLOCK, 12) == 0x00000000 && W(BLOCK, 13) == 0x00000000
    ensures W(BLOCK, 14) == 0x00000000 && W(BLOCK, 15) == 0x00000018
  {
  }

  lemma Words16()
    ensures W(BLOCK, 16) == 0x61626380 && W(BLOCK, 17) == 0x000f0000
    ensures W(BLOCK, 18) == 0x7da86405 && W(BLOCK, 19) == 0x600003c6
  {
    Words0();
    Words4();
    Words8();
    Words12();
    assert W(BLOCK, 16) == Sum4(SmallSigma1(0x00000000), 0x00000000, SmallSigma0(0x00000000), 0x61626380);
    assert W(BLOCK, 17) == Sum4(SmallSigma1(0x00000018), 0x00000000, SmallSigma0(0x00000000), 0x00000000);
    assert W(BLOCK, 18) == Sum4(SmallSigma1(0x61626380), 0x00000000, SmallSigma0(0x00000000), 0x00000000);
    assert W(BLOCK, 19) == Sum4(SmallSigma1(0x000f0000), 0x00000000, SmallSigma0(0x00000000), 0x00000000);
  }

  lemma Words20()
    ensures W(BLOCK, 20) == 0x3e9d7b78 && W(BLOCK, 21) == 0x0183fc00
    ensures W(BLOCK, 22) == 0x12dcbfdb && W(BLOCK, 23) == 0xe2e2c38e
  {
    Words4();
    Words8();
    Words12();
    Words16();
    assert W(BLOCK, 20) == Sum4(SmallSigma1(0x7da86405), 0x00000000, SmallSigma0(0x00000000), 0x00000000);
    assert W(BLOCK, 21) == Sum4(SmallSigma1(0x600003c6), 0x00000000, SmallSigma0(0x00000000), 0x00000000);
    assert W(BLOCK, 22) == Sum4(SmallSigma1(0x3e9d7b78), 0x00000018, SmallSigma0(0x00000000), 0x00000000);
    assert W(BLOCK, 23) == Sum4(SmallSigma1(0x0183fc00), 0x61626380, SmallSigma0(0x00000000), 0x00000000);
  }

  lemma Words24()
    ensures W(BLOCK, 24) == 0xc8215c1a && W(BLOCK, 25) == 0xb73679a2
    ensures W(BLOCK, 26) == 0xe5bc3909 && W(BLOCK, 27) == 0x32663c5b
  {
    Words8();
    Words12();
    Words16();
    Words20();
    assert W(BLOCK, 24) == Sum4(SmallSigma1(0x12dcbfdb), 0x000f0000, SmallSigma0(0x00000000), 0x00000000);
    assert W(BLOCK, 25) == Sum4(SmallSigma1(0xe2e2c38e), 0x7da86405, SmallSigma0(0x00000000), 0x00000000);
    assert W(BLOCK, 26) == Sum4(SmallSigma1(0xc8215c1a), 0x600003c6, SmallSigma0(0x00000000), 0x00000000);
    assert W(BLOCK, 27) == Sum4(SmallSigma1(0xb73679a2), 0x3e9d7b78, SmallSigma0(0x00000000), 0x00000000);
  }

  lemma Words28()
    ensures W(BLOCK, 28) == 0x9d209d67 && W(BLOCK, 29) == 0xec8726cb
    ensures W(BLOCK, 30) == 0x702138a4 && W(BLOCK, 31) == 0xd3b7973b
  {
    Words12();
    Words16();
    Words20();
    Words24();
    assert W(BLOCK, 28) == Sum4(SmallSigma1(0xe5bc3909), 0x0183fc00, SmallSigma0(0x00000000), 0x00000000);
    assert W(BLOCK, 29) == Sum4(SmallSigma1(0x32663c5b), 0x12dcbfdb, SmallSigma0(0x00000000), 0x00000000);
    assert W(BLOCK, 30) == Sum4(SmallSigma1(0x9d209d67), 0xe2e2c38e, SmallSigma0(0x00000018), 0x00000000);
    assert W(BLOCK, 31) == Sum4(SmallSigma1(0xec8726cb), 0xc8215c1a, SmallSigma0(0x61626380), 0x00000018);
  }

  lemma Words32()
    ensures W(BLOCK, 32) == 0x93f5997f && W(BLOCK, 33) == 0x3b68ba73
    ensures W(BLOCK, 34) == 0xaff4ffc1 && W(BLOCK, 35) == 0xf10a5c62
  {
    Words16();
    Words20();
    Words24();
    Words28();
    assert W(BLOCK, 32) == Sum4(SmallSigma1(0x702138a4), 0xb73679a2, SmallSigma0(0x000f0000), 0x61626380);
    assert W(BLOCK, 33) == Sum4(SmallSigma1(0xd3b7973b), 0xe5bc3909, SmallSigma0(0x7da86405), 0x000f0000);
    assert W(BLOCK, 34) == Sum4(SmallSigma1(0x93f5997f), 0x32663c5b, SmallSigma0(0x600003c6), 0x7da86405);
    assert W(BLOCK, 35) == Sum4(SmallSigma1(0x3b68ba73), 0x9d209d67, SmallSigma0(0x3e9d7b78), 0x600003c6);
  }

  lemma Words36()
    ensures W(BLOCK, 36) == 0x0a8b3996 && W(BLOCK, 37) == 0x72af830a
    ensures W(BLOCK, 38) == 0x9409e33e && W(BLOCK, 39) == 0x24641522
  {
    Words20();
    Words24();
    Words28();
    Words32();
    assert W(BLOCK, 36) == Sum4(SmallSigma1(0xaff4ffc1), 0xec8726cb, SmallSigma0(0x0183fc00), 0x3e9d7b78);
    assert W(BLOCK, 37) == Sum4(SmallSigma1(0xf10a5c62), 0x702138a4, SmallSigma0(0x12dcbfdb), 0x0183fc00);
    assert W(BLOCK, 38) == Sum4(SmallSigma1(0x0a8b3996), 0xd3b7973b, SmallSigma0(0xe2e2c38e), 0x12dcbfdb);
    assert W(BLOCK, 39) == Sum4(SmallSigma1(0x72af830a), 0x93f5997f, SmallSigma0(0xc8215c1a), 0xe2e2c38e);
  }

  lemma Words40()
    ensures W(BLOCK, 40) == 0x9f47bf94 && W(BLOCK, 41) == 0xf0a64f5a
    ensures W(BLOCK, 42) == 0x3e246a79 && W(BLOCK, 43) == 0x27333ba3
  {
    Words24();
    Words28();
    Words32();
    Words36();
    assert W(BLOCK, 40) == Sum4(SmallSigma1(0x9409e33e), 0x3b68ba73, SmallSigma0(0xb73679a2), 0xc8215c1a);
    assert W(BLOCK, 41) == Sum4(SmallSigma1(0x24641522), 0xaff4ffc1, SmallSigma0(0xe5bc3909), 0xb73679a2);
    assert W(BLOCK, 42) == Sum4(SmallSigma1(0x9f47bf94), 0xf10a5c62, SmallSigma0(0x32663c5b), 0xe5bc3909);
    assert W(BLOCK, 43) == Sum4(SmallSigma1(0xf0a64f5a), 0x0a8b3996, SmallSigma0(0x9d209d67), 0x32663c5b);
  }

  lemma Words44()
    ensures W(BLOCK, 44) == 0x0c4763f2 && W(BLOCK, 45) == 0x840abf27
    ensures W(BLOCK, 46) == 0x7a290d5d && W(BLOCK, 47) == 0x065c43da
  {
    Words28();
    Words32();
    Words36();
    Words40();
    assert W(BLOCK, 44) == Sum4(SmallSigma1(0x3e246a79), 0x72af830a, SmallSigma0(0xec8726cb), 0x9d209d67);
    assert W(BLOCK, 45) == Sum4(SmallSigma1(0x27333ba3), 0x9409e33e, SmallSigma0(0x702138a4), 0xec8726cb);
    assert W(BLOCK, 46) == Sum4(SmallSigma1(0x0c4763f2), 0x24641522, SmallSigma0(0xd3b7973b), 0x702138a4);
    assert W(BLOCK, 47) == Sum4(SmallSigma1(0x840abf27), 0x9f47bf94, SmallSigma0(0x93f5997f), 0xd3b7973b);
  }

  lemma Words48()
    ensures W(BLOCK, 48) == 0xfb3e89cb && W(BLOCK, 49) == 0xcc7617db
    ensures W(BLOCK, 50) == 0xb9e66c34 && W(BLOCK, 51) == 0xa9993667
  {
    Words32();
    Words36();
    Words40();
    Words44();
    assert W(BLOCK, 48) == Sum4(SmallSigma1(0x7a290d5d), 0xf0a64f5a, SmallSigma0(0x3b68ba73), 0x93f5997f);
    assert W(BLOCK, 49) == Sum4(SmallSigma1(0x065c43da), 0x3e246a79, SmallSigma0(0xaff4ffc1), 0x3b68ba73);
    assert W(BLOCK, 50) == Sum4(SmallSigma1(0xfb3e89cb), 0x27333ba3, SmallSigma0(0xf10a5c62), 0xaff4ffc1);
    assert W(BLOCK, 51) == Sum4(SmallSigma1(0xcc7617db), 0x0c4763f2, SmallSigma0(0x0a8b3996), 0xf10a5c62);
  }

  lemma Words52()
    ensures W(BLOCK, 52) == 0x84badedd && W(BLOCK, 53) == 0xc21462bc
    ensures W(BLOCK, 54) == 0x1487472c && W(BLOCK, 55) == 0xb20f7a99
  {
    Words36();
    Words40();
    Words44();
    Words48();
    assert W(BLOCK, 52) == Sum4(SmallSigma1(0xb9e66c34), 0x840abf27, SmallSigma0(0x72af830a), 0x0a8b3996);
    assert W(BLOCK, 53) == Sum4(SmallSigma1(0xa9993667), 0x7a290d5d, SmallSigma0(0x9409e33e), 0x72af830a);
    assert W(BLOCK, 54) == Sum4(SmallSigma1(0x84badedd), 0x065c43da, SmallSigma0(0x24641522), 0x9409e33e);
    assert W(BLOCK, 55) == Sum4(SmallSigma1(0xc21462bc), 0xfb3e89cb, SmallSigma0(0x9f47bf94), 0x24641522);
  }

  lemma Words56()
    ensures W(BLOCK, 56) == 0xef57b9cd && W(BLOCK, 57) == 0xebe6b238
    ensures W(BLOCK, 58) == 0x9fe3095e && W(BLOCK, 59) == 0x78bc8d4b
  {
    Words40();
    Words44();
    Words48();
    Words52();
    assert W(BLOCK, 56) == Sum4(SmallSigma1(0x1487472c), 0xcc7617db, SmallSigma0(0xf0a64f5a), 0x9f47bf94);
    assert W(BLOCK, 57) == Sum4(SmallSigma1(0xb20f7a99), 0xb9e66c34, SmallSigma0(0x3e246a79), 0xf0a64f5a);
    assert W(BLOCK, 58) == Sum4(SmallSigma1(0xef57b9cd), 0xa9993667, SmallSigma0(0x27333ba3), 0x3e246a79);
    assert W(BLOCK, 59) == Sum4(SmallSigma1(0xebe6b238), 0x84badedd, SmallSigma0(0x0c4763f2), 0x27333ba3);
  }

  lemma Words60()
    ensures W(BLOCK, 60) == 0xa43fcf15 && W(BLOCK, 61) == 0x668b2ff8
    ensures W(BLOCK, 62) == 0xeeaba2cc && W(BLOCK, 63) == 0x12b1edeb
  {
    Words44();
    Words48();
    Words52();
    Words56();
    assert W(BLOCK, 60) == Sum4(SmallSigma1(0x9fe3095e), 0xc21462bc, SmallSigma0(0x840abf27), 0x0c4763f2);
    assert W(BLOCK, 61) == Sum4(SmallSigma1(0x78bc8d4b), 0x1487472c, SmallSigma0(0x7a290d5d), 0x840abf27);
    assert W(BLOCK, 62) == Sum4(SmallSigma1(0xa43fcf15), 0xb20f7a99, SmallSigma0(0x065c43da), 0x7a290d5d);
    assert W(BLOCK, 63) == Sum4(SmallSigma1(0x668b2ff8), 0xef57b9cd, SmallSigma0(0xfb3e89cb), 0x065c43da);
  }

  // --------------------------------------------------------------- the rounds

  lemma NextRound(t: nat, r: Regs, k: Word, w: Word)
    requires t < 64 && Rounds(H0, BLOCK, t) == r && K[t] == k && W(BLOCK, t) == w
    ensures Rounds(H0, BLOCK, t + 1) == Round(r, k, w)
  {
  }

  lemma NoRound()
    ensures Rounds(H0, BLOCK, 0) == H0
  {
  }

  lemma After4()
    ensures Rounds(H0, BLOCK, 4)
         == Regs(0xd550f666, 0xc8c347a7, 0x5a6ad9ad, 0x5d6aebcd, 0x24e00850, 0xf92939eb, 0x78ce7989, 0xfa2a4622)
  {
    hide Rounds, W;
    NoRound();
    Words0();
    Constants0();
    NextRound(0, Regs(0x6a09e667, 0xbb67ae85, 0x3c6ef372, 0xa54ff53a, 0x510e527f, 0x9b05688c, 0x1f83d9ab, 0x5be0cd19),
              0x428a2f98, 0x61626380);
    NextRound(1, Regs(0x5d6aebcd, 0x6a09e667, 0xbb67ae85, 0x3c6ef372, 0xfa2a4622, 0x510e527f, 0x9b05688c, 0x1f83d9ab),
              0x71374491, 0x00000000);
    NextRound(2, Regs(0x5a6ad9ad, 0x5d6aebcd, 0x6a09e667, 0xbb67ae85, 0x78ce7989, 0xfa2a4622, 0x510e527f, 0x9b05688c),
              0xb5c0fbcf, 0x00000000);
    NextRound(3, Regs(0xc8c347a7, 0x5a6ad9ad, 0x5d6aebcd, 0x6a09e667, 0xf92939eb, 0x78ce7989, 0xfa2a4622, 0x510e527f),
              0xe9b5dba5, 0x00000000);
  }

  lemma After8()
    ensures Rounds(H0, BLOCK, 8)
         == Regs(0x85a07b5f, 0xe5030380, 0x2b4209f5, 0x04409a6a, 0x0c657a79, 0x9b27a401, 0x714260ad, 0x43ada245)
  {
    hide Rounds, W;
    After4();
    Words4();
    Constants0();
    NextRound(4, Regs(0xd550f666, 0xc8c347a7, 0x5a6ad9ad, 0x5d6aebcd, 0x24e00850, 0xf92939eb, 0x78ce7989, 0xfa2a4622),
              0x3956c25b, 0x00000000);
    NextRound(5, Regs(0x04409a6a, 0xd550f666, 0xc8c347a7, 0x5a6ad9ad, 0x43ada245, 0x24e00850, 0xf92939eb, 0x78ce7989),
              0x59f111f1, 0x00000000);
    NextRound(6, Regs(0x2b4209f5, 0x04409a6a, 0xd550f666, 0xc8c347a7, 0x714260ad, 0x43ada245, 0x24e00850, 0xf92939eb),
              0x923f82a4, 0x00000000);
    NextRound(7, Regs(0xe5030380, 0x2b4209f5, 0x04409a6a, 0xd550f666, 0x9b27a401, 0x714260ad, 0x43ada245, 0x24e00850),
              0xab1c5ed5, 0x00000000);
  }

  lemma After12()
    ensures Rounds(H0, BLOCK, 12)
         == Regs(0xf71fc5a9, 0x4798a3f4, 0x8c87346b, 0x8e04ecb9, 0x816fd6e9, 0x436b23e8, 0x1cc92596, 0x32ca2d8c)
  {
    hide Rounds, W;
    After8();
    Words8();
    Constants8();
    NextRound(8, Regs(0x85a07b5f, 0xe5030380, 0x2b4209f5, 0x04409a6a, 0x0c657a79, 0x9b27a401, 0x714260ad, 0x43ada245),
              0xd807aa98, 0x00000000);
    NextRound(9, Regs(0x8e04ecb9, 0x85a07b5f, 0xe5030380, 0x2b4209f5, 0x32ca2d8c, 0x0c657a79, 0x9b27a401, 0x714260ad),
              0x12835b01, 0x00000000);
    NextRound(10, Regs(0x8c87346b, 0x8e04ecb9, 0x85a07b5f, 0xe5030380, 0x1cc92596, 0x32ca2d8c, 0x0c657a79, 0x9b27a401),
              0x243185be, 0x00000000);
    NextRound(11, Regs(0x4798a3f4, 0x8c87346b, 0x8e04ecb9, 0x85a07b5f, 0x436b23e8, 0x1cc92596, 0x32ca2d8c, 0x0c657a79),
              0x550c7dc3, 0x00000000);
  }

  lemma After16()
    ensures Rounds(H0, BLOCK, 16)
         == Regs(0xb0fa238e, 0xc0645fde, 0xd932eb16, 0x87912990, 0x07590dcd, 0x0b92f20c, 0x745a48de, 0x1e578218)
  {
    hide Rounds, W;
    After12();
    Words12();
    Constants8();
    NextRound(12, Regs(0xf71fc5a9, 0x4798a3f4, 0x8c87346b, 0x8e04ecb9, 0x816fd6e9, 0x436b23e8, 0x1cc92596, 0x32ca2d8c),
              0x72be5d74, 0x00000000);
    NextRound(13, Regs(0x87912990, 0xf71fc5a9, 0x4798a3f4, 0x8c87346b, 0x1e578218, 0x816fd6e9, 0x436b23e8, 0x1cc92596),
              0x80deb1fe, 0x00000000);
    NextRound(14, Regs(0xd932eb16, 0x87912990, 0xf71fc5a9, 0x4798a3f4, 0x745a48de, 0x1e578218, 0x816fd6e9, 0x436b23e8),
              0x9bdc06a7, 0x00000000);
    NextRound(15, Regs(0xc0645fde, 0xd932eb16, 0x87912990, 0xf71fc5a9, 0x0b92f20c, 0x745a48de, 0x1e578218, 0x816fd6e9),
              0xc19bf174, 0x00000018);
  }

  lemma After20()
    ensures Rounds(H0, BLOCK, 20)
         == Regs(0xe1f20c33, 0xfe777bbf, 0xc2fbd9d1, 0x21da9a9b, 0xb0638179, 0xcc899961, 0x846ee454, 0x8034229c)
  {
    hide Rounds, W;
    After16();
    Words16();
    Constants16();
    NextRound(16, Regs(0xb0fa238e, 0xc0645fde, 0xd932eb16, 0x87912990, 0x07590dcd, 0x0b92f20c, 0x745a48de, 0x1e578218),
              0xe49b69c1, 0x61626380);
    NextRound(17, Regs(0x21da9a9b, 0xb0fa238e, 0xc0645fde, 0xd932eb16, 0x8034229c, 0x07590dcd, 0x0b92f20c, 0x745a48de),
              0xefbe4786, 0x000f0000);
    NextRound(18, Regs(0xc2fbd9d1, 0x21da9a9b, 0xb0fa238e, 0xc0645fde, 0x846ee454, 0x8034229c, 0x07590dcd, 0x0b92f20c),
              0x0fc19dc6, 0x7da86405);
    NextRound(19, Regs(0xfe777bbf, 0xc2fbd9d1, 0x21da9a9b, 0xb0fa238e, 0xcc899961, 0x846ee454, 0x8034229c, 0x07590dcd),
              0x240ca1cc, 0x600003c6);
  }

  lemma After24()
    ensures Rounds(H0, BLOCK, 24)
         == Regs(0xc5d53d8d, 0xa7a3623f, 0xc2606d6d, 0x9dc68b63, 0xaa47c347, 0x49f5114a, 0xe1257970, 0x8ada8930)
  {
    hide Rounds, W;
    After20();
    Words20();
    Constants16();
    NextRound(20, Regs(0xe1f20c33, 0xfe777bbf, 0xc2fbd9d1, 0x21da9a9b, 0xb0638179, 0xcc899961, 0x846ee454, 0x8034229c),
              0x2de92c6f, 0x3e9d7b78);
    NextRound(21, Regs(0x9dc68b63, 0xe1f20c33, 0xfe777bbf, 0xc2fbd9d1, 0x8ada8930, 0xb0638179, 0xcc899961, 0x846ee454),
              0x4a7484aa, 0x0183fc00);
    NextRound(22, Regs(0xc2606d6d, 0x9dc68b63, 0xe1f20c33, 0xfe777bbf, 0xe1257970, 0x8ada8930, 0xb0638179, 0xcc899961),
              0x5cb0a9dc, 0x12dcbfdb);
    NextRound(23, Regs(0xa7a3623f, 0xc2606d6d, 0x9dc68b63, 0xe1f20c33, 0x49f5114a, 0xe1257970, 0x8ada8930, 0xb0638179),
              0x76f988da, 0xe2e2c38e);
  }

  lemma After28()
    ensures Rounds(H0, BLOCK, 28)
         == Regs(0x77d37528, 0xb62ec4bc, 0xcde8037d, 0x1c2c2838, 0xedffbff8, 0xc74c6516, 0x14383d8e, 0x2823ef91)
  {
    hide Rounds, W;
    After24();
    Words24();
    Constants24();
    NextRound(24, Regs(0xc5d53d8d, 0xa7a3623f, 0xc2606d6d, 0x9dc68b63, 0xaa47c347, 0x49f5114a, 0xe1257970, 0x8ada8930),
              0x983e5152, 0xc8215c1a);
    NextRound(25, Regs(0x1c2c2838, 0xc5d53d8d, 0xa7a3623f, 0xc2606d6d, 0x2823ef91, 0xaa47c347, 0x49f5114a, 0xe1257970),
              0xa831c66d, 0xb73679a2);
    NextRound(26, Regs(0xcde8037d, 0x1c2c2838, 0xc5d53d8d, 0xa7a3623f, 0x14383d8e, 0x2823ef91, 0xaa47c347, 0x49f5114a),
              0xb00327c8, 0xe5bc3909);
    NextRound(27, Regs(0xb62ec4bc, 0xcde8037d, 0x1c2c2838, 0xc5d53d8d, 0xc74c6516, 0x14383d8e, 0x2823ef91, 0xaa47c347),
              0xbf597fc7, 0x32663c5b);
  }

  lemma After32()
    ensures Rounds(H0, BLOCK, 32)
         == Regs(0x73b33bf5, 0xea992a22, 0xa0060b30, 0x363482c9, 0xba591112, 0x0109ab3a, 0xade79437, 0x6112a3b7)
  {
    hide Rounds, W;
    After28();
    Words28();
    Constants24();
    NextRound(28, Regs(0x77d37528, 0xb62ec4bc, 0xcde8037d, 0x1c2c2838, 0xedffbff8, 0xc74c6516, 0x14383d8e, 0x2823ef91),
              0xc6e00bf3, 0x9d209d67);
    NextRound(29, Regs(0x363482c9, 0x77d37528, 0xb62ec4bc, 0xcde8037d, 0x6112a3b7, 0xedffbff8, 0xc74c6516, 0x14383d8e),
              0xd5a79147, 0xec8726cb);
    NextRound(30, Regs(0xa0060b30, 0x363482c9, 0x77d37528, 0xb62ec4bc, 0xade79437, 0x6112a3b7, 0xedffbff8, 0xc74c6516),
              0x06ca6351, 0x702138a4);
    NextRound(31, Regs(0xea992a22, 0xa0060b30, 0x363482c9, 0x77d37528, 0x0109ab3a, 0xade79437, 0x6112a3b7, 0xedffbff8),
              0x14292967, 0xd3b7973b);
  }

  lemma After36()
    ensures Rounds(H0, BLOCK, 36)
         == Regs(0x65a0cfe4, 0xa9a7738c, 0xfe604df5, 0x98e12507, 0xf4b002d6, 0x085f3833, 0x59249dd3, 0x9cd9f5f6)
  {
    hide Rounds, W;
    After32();
    Words32();
    Constants32();
    NextRound(32, Regs(0x73b33bf5, 0xea992a22, 0xa0060b30, 0x363482c9, 0xba591112, 0x0109ab3a, 0xade79437, 0x6112a3b7),
              0x27b70a85, 0x93f5997f);
    NextRound(33, Regs(0x98e12507, 0x73b33bf5, 0xea992a22, 0xa0060b30, 0x9cd9f5f6, 0xba591112, 0x0109ab3a, 0xade79437),
              0x2e1b2138, 0x3b68ba73);
    NextRound(34, Regs(0xfe604df5, 0x98e12507, 0x73b33bf5, 0xea992a22, 0x59249dd3, 0x9cd9f5f6, 0xba591112, 0x0109ab3a),
              0x4d2c6dfc, 0xaff4ffc1);
    NextRound(35, Regs(0xa9a7738c, 0xfe604df5, 0x98e12507, 0x73b33bf5, 0x085f3833, 0x59249dd3, 0x9cd9f5f6, 0xba591112),
              0x53380d13, 0xf10a5c62);
  }

  lemma After40()
    ensures Rounds(H0, BLOCK, 40)
         == Regs(0x79ea687a, 0x6dc57a8a, 0x34df1604, 0x41a65cb1, 0x1efbc0a0, 0xf0781bc8, 0xa507a53d, 0x0772a26b)
  {
    hide Rounds, W;
    After36();
    Words36();
    Constants32();
    NextRound(36, Regs(0x65a0cfe4, 0xa9a7738c, 0xfe604df5, 0x98e12507, 0xf4b002d6, 0x085f3833, 0x59249dd3, 0x9cd9f5f6),
              0x650a7354, 0x0a8b3996);
    NextRound(37, Regs(0x41a65cb1, 0x65a0cfe4, 0xa9a7738c, 0xfe604df5, 0x0772a26b, 0xf4b002d6, 0x085f3833, 0x59249dd3),
              0x766a0abb, 0x72af830a);
    NextRound(38, Regs(0x34df1604, 0x41a65cb1, 0x65a0cfe4, 0xa9a7738c, 0xa507a53d, 0x0772a26b, 0xf4b002d6, 0x085f3833),
              0x81c2c92e, 0x9409e33e);
    NextRound(39, Regs(0x6dc57a8a, 0x34df1604, 0x41a65cb1, 0x65a0cfe4, 0xf0781bc8, 0xa507a53d, 0x0772a26b, 0xf4b002d6),
              0x92722c85, 0x24641522);
  }

  lemma After44()
    ensures Rounds(H0, BLOCK, 44)
         == Regs(0x9d4baf93, 0x17aa0dfe, 0xdf46652f, 0xd6670766, 0xfda24c2e, 0xdecd4715, 0x838b2711, 0x26352d63)
  {
    hide Rounds, W;
    After40();
    Words40();
    Constants40();
    NextRound(40, Regs(0x79ea687a, 0x6dc57a8a, 0x34df1604, 0x41a65cb1, 0x1efbc0a0, 0xf0781bc8, 0xa507a53d, 0x0772a26b),
              0xa2bfe8a1, 0x9f47bf94);
    NextRound(41, Regs(0xd6670766, 0x79ea687a, 0x6dc57a8a, 0x34df1604, 0x26352d63, 0x1efbc0a0, 0xf0781bc8, 0xa507a53d),
              0xa81a664b, 0xf0a64f5a);
    NextRound(42, Regs(0xdf46652f, 0xd6670766, 0x79ea687a, 0x6dc57a8a, 0x838b2711, 0x26352d63, 0x1efbc0a0, 0xf0781bc8),
              0xc24b8b70, 0x3e246a79);
    NextRound(43, Regs(0x17aa0dfe, 0xdf46652f, 0xd6670766, 0x79ea687a, 0xdecd4715, 0x838b2711, 0x26352d63, 0x1efbc0a0),
              0xc76c51a3, 0x27333ba3);
  }

  lemma After48()
    ensures Rounds(H0, BLOCK, 48)
         == Regs(0x4172328d, 0xa14c14b0, 0x72ab4b91, 0x26628815, 0xfecf0bc6, 0xd57b94a9, 0xb7755da1, 0xa80f11f0)
  {
    hide Rounds, W;
    After44();
    Words44();
    Constants40();
    NextRound(44, Regs(0x9d4baf93, 0x17aa0dfe, 0xdf46652f, 0xd6670766, 0xfda24c2e, 0xdecd4715, 0x838b2711, 0x26352d63),
              0xd192e819, 0x0c4763f2);
    NextRound(45, Regs(0x26628815, 0x9d4baf93, 0x17aa0dfe, 0xdf46652f, 0xa80f11f0, 0xfda24c2e, 0xdecd4715, 0x838b2711),
              0xd6990624, 0x840abf27);
    NextRound(46, Regs(0x72ab4b91, 0x26628815, 0x9d4baf93, 0x17aa0dfe, 0xb7755da1, 0xa80f11f0, 0xfda24c2e, 0xdecd4715),
              0xf40e3585, 0x7a290d5d);
    NextRound(47, Regs(0xa14c14b0, 0x72ab4b91, 0x26628815, 0x9d4baf93, 0xd57b94a9, 0xb7755da1, 0xa80f11f0, 0xfda24c2e),
              0x106aa070, 0x065c43da);
  }

  lemma After52()
    ensures Rounds(H0, BLOCK, 52)
         == Regs(0x886e7a22, 0x7a0508a1, 0xf11bfaa8, 0x05757ceb, 0x49231c1e, 0x52f1ccf7, 0x6e5c390c, 0xbd714038)
  {
    hide Rounds, W;
    After48();
    Words48();
    Constants48();
    NextRound(48, Regs(0x4172328d, 0xa14c14b0, 0x72ab4b91, 0x26628815, 0xfecf0bc6, 0xd57b94a9, 0xb7755da1, 0xa80f11f0),
              0x19a4c116, 0xfb3e89cb);
    NextRound(49, Regs(0x05757ceb, 0x4172328d, 0xa14c14b0, 0x72ab4b91, 0xbd714038, 0xfecf0bc6, 0xd57b94a9, 0xb7755da1),
              0x1e376c08, 0xcc7617db);
    NextRound(50, Regs(0xf11bfaa8, 0x05757ceb, 0x4172328d, 0xa14c14b0, 0x6e5c390c, 0xbd714038, 0xfecf0bc6, 0xd57b94a9),
              0x2748774c, 0xb9e66c34);
    NextRound(51, Regs(0x7a0508a1, 0xf11bfaa8, 0x05757ceb, 0x4172328d, 0x52f1ccf7, 0x6e5c390c, 0xbd714038, 0xfecf0bc6),
              0x34b0bcb5, 0xa9993667);
  }

  lemma After56()
    ensures Rounds(H0, BLOCK, 56)
         == Regs(0x38cc9913, 0x3ec45cdb, 0xf5702fdb, 0x101fd28f, 0x54cb266b, 0xe50e1b4f, 0x9f4787c3, 0x529e7d00)
  {
    hide Rounds, W;
    After52();
    Words52();
    Constants48();
    NextRound(52, Regs(0x886e7a22, 0x7a0508a1, 0xf11bfaa8, 0x05757ceb, 0x49231c1e, 0x52f1ccf7, 0x6e5c390c, 0xbd714038),
              0x391c0cb3, 0x84badedd);
    NextRound(53, Regs(0x101fd28f, 0x886e7a22, 0x7a0508a1, 0xf11bfaa8, 0x529e7d00, 0x49231c1e, 0x52f1ccf7, 0x6e5c390c),
              0x4ed8aa4a, 0xc21462bc);
    NextRound(54, Regs(0xf5702fdb, 0x101fd28f, 0x886e7a22, 0x7a0508a1, 0x9f4787c3, 0x529e7d00, 0x49231c1e, 0x52f1ccf7),
              0x5b9cca4f, 0x1487472c);
    NextRound(55, Regs(0x3ec45cdb, 0xf5702fdb, 0x101fd28f, 0x886e7a22, 0xe50e1b4f, 0x9f4787c3, 0x529e7d00, 0x49231c1e),
              0x682e6ff3, 0xb20f7a99);
  }

  lemma After60()
    ensures Rounds(H0, BLOCK, 60)
         == Regs(0xb6ae8fff, 0xffb70472, 0xc062d46f, 0xfcd1887b, 0xb21bad3d, 0x6d83bfc6, 0x7e44008e, 0x9b5e906c)
  {
    hide Rounds, W;
    After56();
    Words56();
    Constants56();
    NextRound(56, Regs(0x38cc9913, 0x3ec45cdb, 0xf5702fdb, 0x101fd28f, 0x54cb266b, 0xe50e1b4f, 0x9f4787c3, 0x529e7d00),
              0x748f82ee, 0xef57b9cd);
    NextRound(57, Regs(0xfcd1887b, 0x38cc9913, 0x3ec45cdb, 0xf5702fdb, 0x9b5e906c, 0x54cb266b, 0xe50e1b4f, 0x9f4787c3),
              0x78a5636f, 0xebe6b238);
    NextRound(58, Regs(0xc062d46f, 0xfcd1887b, 0x38cc9913, 0x3ec45cdb, 0x7e44008e, 0x9b5e906c, 0x54cb266b, 0xe50e1b4f),
              0x84c87814, 0x9fe3095e);
    NextRound(59, Regs(0xffb70472, 0xc062d46f, 0xfcd1887b, 0x38cc9913, 0x6d83bfc6, 0x7e44008e, 0x9b5e906c, 0x54cb266b),
              0x8cc70208, 0x78bc8d4b);
  }

  lemma After64()
    ensures Rounds(H0, BLOCK, 64)
         == Regs(0x506e3058, 0xd39a2165, 0x04d24d6c, 0xb85e2ce9, 0x5ef50f24, 0xfb121210, 0x948d25b6, 0x961f4894)
  {
    hide Rounds, W;
    After60();
    Words60();
    Constants56();
    NextRound(60, Regs(0xb6ae8fff, 0xffb70472, 0xc062d46f, 0xfcd1887b, 0xb21bad3d, 0x6d83bfc6, 0x7e44008e, 0x9b5e906c),
              0x90befffa, 0xa43fcf15);
    NextRound(61, Regs(0xb85e2ce9, 0xb6ae8fff, 0xffb70472, 0xc062d46f, 0x961f4894, 0xb21bad3d, 0x6d83bfc6, 0x7e44008e),
              0xa4506ceb, 0x668b2ff8);
    NextRound(62, Regs(0x04d24d6c, 0xb85e2ce9, 0xb6ae8fff, 0xffb70472, 0x948d25b6, 0x961f4894, 0xb21bad3d, 0x6d83bfc6),
              0xbef9a3f7, 0xeeaba2cc);
    NextRound(63, Regs(0xd39a2165, 0x04d24d6c, 0xb85e2ce9, 0xb6ae8fff, 0xfb121210, 0x948d25b6, 0x961f4894, 0xb21bad3d),
              0xc67178f2, 0x12b1edeb);
  }

  const DIGEST := Regs(
    0xba7816bf, 0x8f01cfea, 0x414140de, 0x5dae2223, 0xb00361a3, 0x96177a9c, 0xb410ff61, 0xf20015ad)

  lemma CompressOfAbc()
    ensures Compress(H0, BLOCK) == DIGEST
  {
    hide Rounds;
    After64();
  }

  lemma HexOfEight(a: Word, b: Word, c: Word, d: Word, e: Word, f: Word, g: Word, h: Word)
    ensures Hex([a, b, c, d, e, f, g, h])
         == HexWord(a) + HexWord(b) + HexWord(c) + HexWord(d) + HexWord(e) + HexWord(f) + HexWord(g) + HexWord(h)
  {
    hide HexWord;
    HexOfOne(a);
    HexOneMore([a], b);
    HexOneMore([a, b], c);
    HexOneMore([a, b, c], d);
    HexOneMore([a, b, c, d], e);
    HexOneMore([a, b, c, d, e], f);
    HexOneMore([a, b, c, d, e, f], g);
    HexOneMore([a, b, c, d, e, f, g], h);
    hide Hex;
    assert [a] + [b] == [a, b] && [a, b] + [c] == [a, b, c] && [a, b, c] + [d] == [a, b, c, d];
    assert [a, b, c, d] + [e] == [a, b, c, d, e] && [a, b, c, d, e] + [f] == [a, b, c, d, e, f];
    assert [a, b, c, d, e, f] + [g] == [a, b, c, d, e, f, g];
    assert [a, b, c, d, e, f, g] + [h] == [a, b, c, d, e, f, g, h];
  }

  lemma HexOfOne(w: Word)
    ensures Hex([w]) == HexWord(w)
  {
    hide HexWord;
    assert [w][..0] == [];
  }

  lemma HexOneMore(ws: seq<Word>, w: Word)
    ensures Hex(ws + [w]) == Hex(ws) + HexWord(w)
  {
    hide HexWord;
    assert (ws + [w])[..|ws|] == ws;
  }

  lemma DigestWords()
    ensures HexWord(DIGEST.a) == "ba7816bf" && HexWord(DIGEST.b) == "8f01cfea" && HexWord(DIGEST.c) == "414140de"
    ensures HexWord(DIGEST.d) == "5dae2223" && HexWord(DIGEST.e) == "b00361a3" && HexWord(DIGEST.f) == "96177a9c"
    ensures HexWord(DIGEST.g) == "b410ff61" && HexWord(DIGEST.h) == "f20015ad"
  {
  }

  /** The digest that the repository's test expects. */
  lemma DigestOfAbc()
    ensures Hex(Words(Digest(ABC)))
         == "ba7816bf" + "8f01cfea" + "414140de" + "5dae2223" + "b00361a3" + "96177a9c" + "b410ff61" + "f20015ad"
  {
    PadOfAbc();
    CompressOfAbc();
    DigestWords();
    hide Compress, Pad, BlockAt, Hex, HexWord, W;
    var m := Pad(ABC);
    assert HashBlocks(m, 0) == H0;
    assert HashBlocks(m, 1) == Compress(H0, BLOCK);
    var d := DIGEST;
    HexOfEight(d.a, d.b, d.c, d.d, d.e, d.f, d.g, d.h);
  }
}
