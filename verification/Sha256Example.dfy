/** The example the program's own tests take from FIPS 180-4: the hash of "abc", word by word and round by round. */
module Sha256Example {
  import opened Basics
  import opened Sha256

  const ABC: bytes := [0x61, 0x62, 0x63]

  // ----- the one block -----

  lemma Padded()
    ensures var p := Pad(ABC);
            |p| == 64 && p[..4] == [0x61, 0x62, 0x63, 0x80] && p[4..56] == Zeros(52) && p[56..] == [0, 0, 0, 0, 0, 0, 0, 0x18]
  {
    assert ZeroBytes(3) == 52;
    assert BigEndian(8, 24) == [0, 0, 0, 0, 0, 0, 0, 24];
    hide BigEndian, ZeroBytes, Zeros;
  }

  lemma FirstWords()
    ensures Word(0x61, 0x62, 0x63, 0x80) == 0x61626380 && Word(0, 0, 0, 0) == 0 && Word(0, 0, 0, 0x18) == 0x18
  {
  }

  lemma BlockWords(t: nat)
    requires t < 16
    ensures |Pad(ABC)| == 64 && Schedule(Pad(ABC), t) == if t == 0 then 0x61626380 else if t == 15 then 0x18 else 0
  {
    Padded();
    FirstWords();
    hide Pad, Word;
    var p := Pad(ABC);
    assert forall j :: 0 <= j < 4 ==> p[j] == p[..4][j];
    assert forall j :: 4 <= j < 56 ==> p[j] == p[4..56][j - 4];
    assert forall j :: 56 <= j < 64 ==> p[j] == p[56..][j - 56];
  }

  // ----- the schedule, eight words at a time -----

  predicate Words0(b: bytes)
    requires |b| == 64
  {
    && Schedule(b, 0) == 0x61626380 && Schedule(b, 1) == 0x00000000 && Schedule(b, 2) == 0x00000000 && Schedule(b, 3) == 0x00000000
    && Schedule(b, 4) == 0x00000000 && Schedule(b, 5) == 0x00000000 && Schedule(b, 6) == 0x00000000 && Schedule(b, 7) == 0x00000000
  }

  predicate Words8(b: bytes)
    requires |b| == 64
  {
    && Schedule(b, 8) == 0x00000000 && Schedule(b, 9) == 0x00000000 && Schedule(b, 10) == 0x00000000 && Schedule(b, 11) == 0x00000000
    && Schedule(b, 12) == 0x00000000 && Schedule(b, 13) == 0x00000000 && Schedule(b, 14) == 0x00000000 && Schedule(b, 15) == 0x00000018
  }

  predicate Words16(b: bytes)
    requires |b| == 64
  {
    && Schedule(b, 16) == 0x61626380 && Schedule(b, 17) == 0x000f0000 && Schedule(b, 18) == 0x7da86405 && Schedule(b, 19) == 0x600003c6
    && Schedule(b, 20) == 0x3e9d7b78 && Schedule(b, 21) == 0x0183fc00 && Schedule(b, 22) == 0x12dcbfdb && Schedule(b, 23) == 0xe2e2c38e
  }

  predicate Words24(b: bytes)
    requires |b| == 64
  {
    && Schedule(b, 24) == 0xc8215c1a && Schedule(b, 25) == 0xb73679a2 && Schedule(b, 26) == 0xe5bc3909 && Schedule(b, 27) == 0x32663c5b
    && Schedule(b, 28) == 0x9d209d67 && Schedule(b, 29) == 0xec8726cb && Schedule(b, 30) == 0x702138a4 && Schedule(b, 31) == 0xd3b7973b
  }

  predicate Words32(b: bytes)
    requires |b| == 64
  {
    && Schedule(b, 32) == 0x93f5997f && Schedule(b, 33) == 0x3b68ba73 && Schedule(b, 34) == 0xaff4ffc1 && Schedule(b, 35) == 0xf10a5c62
    && Schedule(b, 36) == 0x0a8b3996 && Schedule(b, 37) == 0x72af830a && Schedule(b, 38) == 0x9409e33e && Schedule(b, 39) == 0x24641522
  }

  predicate Words40(b: bytes)
    requires |b| == 64
  {
    && Schedule(b, 40) == 0x9f47bf94 && Schedule(b, 41) == 0xf0a64f5a && Schedule(b, 42) == 0x3e246a79 && Schedule(b, 43) == 0x27333ba3
    && Schedule(b, 44) == 0x0c4763f2 && Schedule(b, 45) == 0x840abf27 && Schedule(b, 46) == 0x7a290d5d && Schedule(b, 47) == 0x065c43da
  }

  predicate Words48(b: bytes)
    requires |b| == 64
  {
    && Schedule(b, 48) == 0xfb3e89cb && Schedule(b, 49) == 0xcc7617db && Schedule(b, 50) == 0xb9e66c34 && Schedule(b, 51) == 0xa9993667
    && Schedule(b, 52) == 0x84badedd && Schedule(b, 53) == 0xc21462bc && Schedule(b, 54) == 0x1487472c && Schedule(b, 55) == 0xb20f7a99
  }

  predicate Words56(b: bytes)
    requires |b| == 64
  {
    && Schedule(b, 56) == 0xef57b9cd && Schedule(b, 57) == 0xebe6b238 && Schedule(b, 58) == 0x9fe3095e && Schedule(b, 59) == 0x78bc8d4b
    && Schedule(b, 60) == 0xa43fcf15 && Schedule(b, 61) == 0x668b2ff8 && Schedule(b, 62) == 0xeeaba2cc && Schedule(b, 63) == 0x12b1edeb
  }

  lemma WordsOfBlock()
    ensures |Pad(ABC)| == 64 && Words0(Pad(ABC)) && Words8(Pad(ABC))
  {
    hide Pad, Schedule;
    forall t: nat | t < 16
      ensures |Pad(ABC)| == 64 && Schedule(Pad(ABC), t) == if t == 0 then 0x61626380 else if t == 15 then 0x18 else 0 {
      BlockWords(t);
    }
    assert |Pad(ABC)| == 64 by { BlockWords(0); }
  }

  lemma Expand16()
    ensures Expand(0x61626380, 0x00000000, 0x00000000, 0x00000000) == 0x61626380
    ensures Expand(0x00000000, 0x00000000, 0x00000000, 0x00000018) == 0x000f0000
    ensures Expand(0x00000000, 0x00000000, 0x00000000, 0x61626380) == 0x7da86405
    ensures Expand(0x00000000, 0x00000000, 0x00000000, 0x000f0000) == 0x600003c6
    ensures Expand(0x00000000, 0x00000000, 0x00000000, 0x7da86405) == 0x3e9d7b78
    ensures Expand(0x00000000, 0x00000000, 0x00000000, 0x600003c6) == 0x0183fc00
    ensures Expand(0x00000000, 0x00000000, 0x00000018, 0x3e9d7b78) == 0x12dcbfdb
    ensures Expand(0x00000000, 0x00000000, 0x61626380, 0x0183fc00) == 0xe2e2c38e
  {
  }

  lemma MoreWords16(b: bytes)
    requires |b| == 64 && Words0(b) && Words8(b)
    ensures Words16(b)
  {
    Expand16();
    hide Expand, BlockWord;
  }

  lemma Expand24()
    ensures Expand(0x00000000, 0x00000000, 0x000f0000, 0x12dcbfdb) == 0xc8215c1a
    ensures Expand(0x00000000, 0x00000000, 0x7da86405, 0xe2e2c38e) == 0xb73679a2
    ensures Expand(0x00000000, 0x00000000, 0x600003c6, 0xc8215c1a) == 0xe5bc3909
    ensures Expand(0x00000000, 0x00000000, 0x3e9d7b78, 0xb73679a2) == 0x32663c5b
    ensures Expand(0x00000000, 0x00000000, 0x0183fc00, 0xe5bc3909) == 0x9d209d67
    ensures Expand(0x00000000, 0x00000000, 0x12dcbfdb, 0x32663c5b) == 0xec8726cb
    ensures Expand(0x00000000, 0x00000018, 0xe2e2c38e, 0x9d209d67) == 0x702138a4
    ensures Expand(0x00000018, 0x61626380, 0xc8215c1a, 0xec8726cb) == 0xd3b7973b
  {
  }

  lemma MoreWords24(b: bytes)
    requires |b| == 64 && Words8(b) && Words16(b)
    ensures Words24(b)
  {
    Expand24();
    hide Expand, BlockWord;
  }

  lemma Expand32()
    ensures Expand(0x61626380, 0x000f0000, 0xb73679a2, 0x702138a4) == 0x93f5997f
    ensures Expand(0x000f0000, 0x7da86405, 0xe5bc3909, 0xd3b7973b) == 0x3b68ba73
    ensures Expand(0x7da86405, 0x600003c6, 0x32663c5b, 0x93f5997f) == 0xaff4ffc1
    ensures Expand(0x600003c6, 0x3e9d7b78, 0x9d209d67, 0x3b68ba73) == 0xf10a5c62
    ensures Expand(0x3e9d7b78, 0x0183fc00, 0xec8726cb, 0xaff4ffc1) == 0x0a8b3996
    ensures Expand(0x0183fc00, 0x12dcbfdb, 0x702138a4, 0xf10a5c62) == 0x72af830a
    ensures Expand(0x12dcbfdb, 0xe2e2c38e, 0xd3b7973b, 0x0a8b3996) == 0x9409e33e
    ensures Expand(0xe2e2c38e, 0xc8215c1a, 0x93f5997f, 0x72af830a) == 0x24641522
  {
  }

  lemma MoreWords32(b: bytes)
    requires |b| == 64 && Words16(b) && Words24(b)
    ensures Words32(b)
  {
    Expand32();
    hide Expand, BlockWord;
  }

  lemma Expand40()
    ensures Expand(0xc8215c1a, 0xb73679a2, 0x3b68ba73, 0x9409e33e) == 0x9f47bf94
    ensures Expand(0xb73679a2, 0xe5bc3909, 0xaff4ffc1, 0x24641522) == 0xf0a64f5a
    ensures Expand(0xe5bc3909, 0x32663c5b, 0xf10a5c62, 0x9f47bf94) == 0x3e246a79
    ensures Expand(0x32663c5b, 0x9d209d67, 0x0a8b3996, 0xf0a64f5a) == 0x27333ba3
    ensures Expand(0x9d209d67, 0xec8726cb, 0x72af830a, 0x3e246a79) == 0x0c4763f2
    ensures Expand(0xec8726cb, 0x702138a4, 0x9409e33e, 0x27333ba3) == 0x840abf27
    ensures Expand(0x702138a4, 0xd3b7973b, 0x24641522, 0x0c4763f2) == 0x7a290d5d
    ensures Expand(0xd3b7973b, 0x93f5997f, 0x9f47bf94, 0x840abf27) == 0x065c43da
  {
  }

  lemma MoreWords40(b: bytes)
    requires |b| == 64 && Words24(b) && Words32(b)
    ensures Words40(b)
  {
    Expand40();
    hide Expand, BlockWord;
  }

  lemma Expand48()
    ensures Expand(0x93f5997f, 0x3b68ba73, 0xf0a64f5a, 0x7a290d5d) == 0xfb3e89cb
    ensures Expand(0x3b68ba73, 0xaff4ffc1, 0x3e246a79, 0x065c43da) == 0xcc7617db
    ensures Expand(0xaff4ffc1, 0xf10a5c62, 0x27333ba3, 0xfb3e89cb) == 0xb9e66c34
    ensures Expand(0xf10a5c62, 0x0a8b3996, 0x0c4763f2, 0xcc7617db) == 0xa9993667
    ensures Expand(0x0a8b3996, 0x72af830a, 0x840abf27, 0xb9e66c34) == 0x84badedd
    ensures Expand(0x72af830a, 0x9409e33e, 0x7a290d5d, 0xa9993667) == 0xc21462bc
    ensures Expand(0x9409e33e, 0x24641522, 0x065c43da, 0x84badedd) == 0x1487472c
    ensures Expand(0x24641522, 0x9f47bf94, 0xfb3e89cb, 0xc21462bc) == 0xb20f7a99
  {
  }

  lemma MoreWords48(b: bytes)
    requires |b| == 64 && Words32(b) && Words40(b)
    ensures Words48(b)
  {
    Expand48();
    hide Expand, BlockWord;
  }

  lemma Expand56()
    ensures Expand(0x9f47bf94, 0xf0a64f5a, 0xcc7617db, 0x1487472c) == 0xef57b9cd
    ensures Expand(0xf0a64f5a, 0x3e246a79, 0xb9e66c34, 0xb20f7a99) == 0xebe6b238
    ensures Expand(0x3e246a79, 0x27333ba3, 0xa9993667, 0xef57b9cd) == 0x9fe3095e
    ensures Expand(0x27333ba3, 0x0c4763f2, 0x84badedd, 0xebe6b238) == 0x78bc8d4b
    ensures Expand(0x0c4763f2, 0x840abf27, 0xc21462bc, 0x9fe3095e) == 0xa43fcf15
    ensures Expand(0x840abf27, 0x7a290d5d, 0x1487472c, 0x78bc8d4b) == 0x668b2ff8
    ensures Expand(0x7a290d5d, 0x065c43da, 0xb20f7a99, 0xa43fcf15) == 0xeeaba2cc
    ensures Expand(0x065c43da, 0xfb3e89cb, 0xef57b9cd, 0x668b2ff8) == 0x12b1edeb
  {
  }

  lemma MoreWords56(b: bytes)
    requires |b| == 64 && Words40(b) && Words48(b)
    ensures Words56(b)
  {
    Expand56();
    hide Expand, BlockWord;
  }

  // ----- the rounds, eight at a time -----

  lemma Constants0()
    ensures RoundConstant(0) == 0x428a2f98 && RoundConstant(1) == 0x71374491 && RoundConstant(2) == 0xb5c0fbcf && RoundConstant(3) == 0xe9b5dba5
    ensures RoundConstant(4) == 0x3956c25b && RoundConstant(5) == 0x59f111f1 && RoundConstant(6) == 0x923f82a4 && RoundConstant(7) == 0xab1c5ed5
  {
  }

  lemma Temps0()
    ensures Temp1(0x510e527f, 0x9b05688c, 0x1f83d9ab, 0x5be0cd19, 0x428a2f98, 0x61626380) == 0x54da50e8
            && Temp2(0x6a09e667, 0xbb67ae85, 0x3c6ef372) == 0x08909ae5
    ensures Temp1(0xfa2a4622, 0x510e527f, 0x9b05688c, 0x1f83d9ab, 0x71374491, 0x00000000) == 0x3c5f8617
            && Temp2(0x5d6aebcd, 0x6a09e667, 0xbb67ae85) == 0x1e0b5396
    ensures Temp1(0x78ce7989, 0xfa2a4622, 0x510e527f, 0x9b05688c, 0xb5c0fbcf, 0x00000000) == 0x3dc18b66
            && Temp2(0x5a6ad9ad, 0x5d6aebcd, 0x6a09e667) == 0x8b01bc41
    ensures Temp1(0xf92939eb, 0x78ce7989, 0xfa2a4622, 0x510e527f, 0xe9b5dba5, 0x00000000) == 0xbad621e9
            && Temp2(0xc8c347a7, 0x5a6ad9ad, 0x5d6aebcd) == 0x1a7ad47d
    ensures Temp1(0x24e00850, 0xf92939eb, 0x78ce7989, 0xfa2a4622, 0x3956c25b, 0x00000000) == 0xe642b678
            && Temp2(0xd550f666, 0xc8c347a7, 0x5a6ad9ad) == 0x1dfde3f2
    ensures Temp1(0x43ada245, 0x24e00850, 0xf92939eb, 0x78ce7989, 0x59f111f1, 0x00000000) == 0x16d78700
            && Temp2(0x04409a6a, 0xd550f666, 0xc8c347a7) == 0x146a82f5
    ensures Temp1(0x714260ad, 0x43ada245, 0x24e00850, 0xf92939eb, 0x923f82a4, 0x00000000) == 0xd2645c5a
            && Temp2(0x2b4209f5, 0x04409a6a, 0xd550f666) == 0x129ea726
    ensures Temp1(0x9b27a401, 0x714260ad, 0x43ada245, 0x24e00850, 0xab1c5ed5, 0x00000000) == 0x37148413
            && Temp2(0xe5030380, 0x2b4209f5, 0x04409a6a) == 0x4e8bf74c
  {
  }

  lemma Rounds0(b: bytes, h: Working)
    requires |b| == 64 && Words0(b)
    requires Rounds(h, b, 0) == Working(0x6a09e667, 0xbb67ae85, 0x3c6ef372, 0xa54ff53a, 0x510e527f, 0x9b05688c, 0x1f83d9ab, 0x5be0cd19)
    ensures Rounds(h, b, 8) == Working(0x85a07b5f, 0xe5030380, 0x2b4209f5, 0x04409a6a, 0x0c657a79, 0x9b27a401, 0x714260ad, 0x43ada245)
  {
    Constants0();
    Temps0();
    hide Temp1, Temp2, Schedule, RoundConstant;
    assert Rounds(h, b, 1) == Working(0x5d6aebcd, 0x6a09e667, 0xbb67ae85, 0x3c6ef372, 0xfa2a4622, 0x510e527f, 0x9b05688c, 0x1f83d9ab);
    assert Rounds(h, b, 2) == Working(0x5a6ad9ad, 0x5d6aebcd, 0x6a09e667, 0xbb67ae85, 0x78ce7989, 0xfa2a4622, 0x510e527f, 0x9b05688c);
    assert Rounds(h, b, 3) == Working(0xc8c347a7, 0x5a6ad9ad, 0x5d6aebcd, 0x6a09e667, 0xf92939eb, 0x78ce7989, 0xfa2a4622, 0x510e527f);
    assert Rounds(h, b, 4) == Working(0xd550f666, 0xc8c347a7, 0x5a6ad9ad, 0x5d6aebcd, 0x24e00850, 0xf92939eb, 0x78ce7989, 0xfa2a4622);
    assert Rounds(h, b, 5) == Working(0x04409a6a, 0xd550f666, 0xc8c347a7, 0x5a6ad9ad, 0x43ada245, 0x24e00850, 0xf92939eb, 0x78ce7989);
    assert Rounds(h, b, 6) == Working(0x2b4209f5, 0x04409a6a, 0xd550f666, 0xc8c347a7, 0x714260ad, 0x43ada245, 0x24e00850, 0xf92939eb);
    assert Rounds(h, b, 7) == Working(0xe5030380, 0x2b4209f5, 0x04409a6a, 0xd550f666, 0x9b27a401, 0x714260ad, 0x43ada245, 0x24e00850);
  }

  lemma Constants8()
    ensures RoundConstant(8) == 0xd807aa98 && RoundConstant(9) == 0x12835b01 && RoundConstant(10) == 0x243185be && RoundConstant(11) == 0x550c7dc3
    ensures RoundConstant(12) == 0x72be5d74 && RoundConstant(13) == 0x80deb1fe && RoundConstant(14) == 0x9bdc06a7 && RoundConstant(15) == 0xc19bf174
  {
  }

  lemma Temps8()
    ensures Temp1(0x0c657a79, 0x9b27a401, 0x714260ad, 0x43ada245, 0xd807aa98, 0x00000000) == 0x2e899322
            && Temp2(0x85a07b5f, 0xe5030380, 0x2b4209f5) == 0x5f7b5997
    ensures Temp1(0x32ca2d8c, 0x0c657a79, 0x9b27a401, 0x714260ad, 0x12835b01, 0x00000000) == 0xf1871ba1
            && Temp2(0x8e04ecb9, 0x85a07b5f, 0xe5030380) == 0x9b0018ca
    ensures Temp1(0x1cc92596, 0x32ca2d8c, 0x0c657a79, 0x9b27a401, 0x243185be, 0x00000000) == 0x5e682068
            && Temp2(0x8c87346b, 0x8e04ecb9, 0x85a07b5f) == 0xe930838c
    ensures Temp1(0x436b23e8, 0x1cc92596, 0x32ca2d8c, 0x0c657a79, 0x550c7dc3, 0x00000000) == 0xfbcf5b8a
            && Temp2(0x4798a3f4, 0x8c87346b, 0x8e04ecb9) == 0xfb506a1f
    ensures Temp1(0x816fd6e9, 0x436b23e8, 0x1cc92596, 0x32ca2d8c, 0x72be5d74, 0x00000000) == 0x9052955f
            && Temp2(0xf71fc5a9, 0x4798a3f4, 0x8c87346b) == 0xf73e9431
    ensures Temp1(0x1e578218, 0x816fd6e9, 0x436b23e8, 0x1cc92596, 0x80deb1fe, 0x00000000) == 0xe7d31473
            && Temp2(0x87912990, 0xf71fc5a9, 0x4798a3f4) == 0xf15fd6a3
    ensures Temp1(0x745a48de, 0x1e578218, 0x816fd6e9, 0x436b23e8, 0x9bdc06a7, 0x00000000) == 0xc3fa4e18
            && Temp2(0xd932eb16, 0x87912990, 0xf71fc5a9) == 0xfc6a11c6
    ensures Temp1(0x0b92f20c, 0x745a48de, 0x1e578218, 0x816fd6e9, 0xc19bf174, 0x00000018) == 0x10394824
            && Temp2(0xc0645fde, 0xd932eb16, 0x87912990) == 0xa0c0db6a
  {
  }

  lemma Rounds8(b: bytes, h: Working)
    requires |b| == 64 && Words8(b)
    requires Rounds(h, b, 8) == Working(0x85a07b5f, 0xe5030380, 0x2b4209f5, 0x04409a6a, 0x0c657a79, 0x9b27a401, 0x714260ad, 0x43ada245)
    ensures Rounds(h, b, 16) == Working(0xb0fa238e, 0xc0645fde, 0xd932eb16, 0x87912990, 0x07590dcd, 0x0b92f20c, 0x745a48de, 0x1e578218)
  {
    Constants8();
    Temps8();
    hide Temp1, Temp2, Schedule, RoundConstant;
    assert Rounds(h, b, 9) == Working(0x8e04ecb9, 0x85a07b5f, 0xe5030380, 0x2b4209f5, 0x32ca2d8c, 0x0c657a79, 0x9b27a401, 0x714260ad);
    assert Rounds(h, b, 10) == Working(0x8c87346b, 0x8e04ecb9, 0x85a07b5f, 0xe5030380, 0x1cc92596, 0x32ca2d8c, 0x0c657a79, 0x9b27a401);
    assert Rounds(h, b, 11) == Working(0x4798a3f4, 0x8c87346b, 0x8e04ecb9, 0x85a07b5f, 0x436b23e8, 0x1cc92596, 0x32ca2d8c, 0x0c657a79);
    assert Rounds(h, b, 12) == Working(0xf71fc5a9, 0x4798a3f4, 0x8c87346b, 0x8e04ecb9, 0x816fd6e9, 0x436b23e8, 0x1cc92596, 0x32ca2d8c);
    assert Rounds(h, b, 13) == Working(0x87912990, 0xf71fc5a9, 0x4798a3f4, 0x8c87346b, 0x1e578218, 0x816fd6e9, 0x436b23e8, 0x1cc92596);
    assert Rounds(h, b, 14) == Working(0xd932eb16, 0x87912990, 0xf71fc5a9, 0x4798a3f4, 0x745a48de, 0x1e578218, 0x816fd6e9, 0x436b23e8);
    assert Rounds(h, b, 15) == Working(0xc0645fde, 0xd932eb16, 0x87912990, 0xf71fc5a9, 0x0b92f20c, 0x745a48de, 0x1e578218, 0x816fd6e9);
  }

  lemma Constants16()
    ensures RoundConstant(16) == 0xe49b69c1 && RoundConstant(17) == 0xefbe4786 && RoundConstant(18) == 0x0fc19dc6 && RoundConstant(19) == 0x240ca1cc
    ensures RoundConstant(20) == 0x2de92c6f && RoundConstant(21) == 0x4a7484aa && RoundConstant(22) == 0x5cb0a9dc && RoundConstant(23) == 0x76f988da
  {
  }

  lemma Temps16()
    ensures Temp1(0x07590dcd, 0x0b92f20c, 0x745a48de, 0x1e578218, 0xe49b69c1, 0x61626380) == 0xf8a2f90c
            && Temp2(0xb0fa238e, 0xc0645fde, 0xd932eb16) == 0x2937a18f
    ensures Temp1(0x8034229c, 0x07590dcd, 0x0b92f20c, 0x745a48de, 0xefbe4786, 0x000f0000) == 0xab3bf93e
            && Temp2(0x21da9a9b, 0xb0fa238e, 0xc0645fde) == 0x17bfe093
    ensures Temp1(0x846ee454, 0x8034229c, 0x07590dcd, 0x0b92f20c, 0x0fc19dc6, 0x7da86405) == 0x0c253983
            && Temp2(0xc2fbd9d1, 0x21da9a9b, 0xb0fa238e) == 0xf252423c
    ensures Temp1(0xcc899961, 0x846ee454, 0x8034229c, 0x07590dcd, 0x240ca1cc, 0x600003c6) == 0xff695deb
            && Temp2(0xfe777bbf, 0xc2fbd9d1, 0x21da9a9b) == 0xe288ae48
    ensures Temp1(0xb0638179, 0xcc899961, 0x846ee454, 0x8034229c, 0x2de92c6f, 0x3e9d7b78) == 0x68ffee95
            && Temp2(0xe1f20c33, 0xfe777bbf, 0xc2fbd9d1) == 0x34c69cce
    ensures Temp1(0x8ada8930, 0xb0638179, 0xcc899961, 0x846ee454, 0x4a7484aa, 0x0183fc00) == 0x1e299f9f
            && Temp2(0x9dc68b63, 0xe1f20c33, 0xfe777bbf) == 0xa436cdce
    ensures Temp1(0xe1257970, 0x8ada8930, 0xb0638179, 0xcc899961, 0x5cb0a9dc, 0x12dcbfdb) == 0x4b7d958b
            && Temp2(0xc2606d6d, 0x9dc68b63, 0xe1f20c33) == 0x5c25ccb4
    ensures Temp1(0x49f5114a, 0xe1257970, 0x8ada8930, 0xb0638179, 0x76f988da, 0xe2e2c38e) == 0xc855b714
            && Temp2(0xa7a3623f, 0xc2606d6d, 0x9dc68b63) == 0xfd7f8679
  {
  }

  lemma Rounds16(b: bytes, h: Working)
    requires |b| == 64 && Words16(b)
    requires Rounds(h, b, 16) == Working(0xb0fa238e, 0xc0645fde, 0xd932eb16, 0x87912990, 0x07590dcd, 0x0b92f20c, 0x745a48de, 0x1e578218)
    ensures Rounds(h, b, 24) == Working(0xc5d53d8d, 0xa7a3623f, 0xc2606d6d, 0x9dc68b63, 0xaa47c347, 0x49f5114a, 0xe1257970, 0x8ada8930)
  {
    Constants16();
    Temps16();
    hide Temp1, Temp2, Schedule, RoundConstant;
    assert Rounds(h, b, 17) == Working(0x21da9a9b, 0xb0fa238e, 0xc0645fde, 0xd932eb16, 0x8034229c, 0x07590dcd, 0x0b92f20c, 0x745a48de);
    assert Rounds(h, b, 18) == Working(0xc2fbd9d1, 0x21da9a9b, 0xb0fa238e, 0xc0645fde, 0x846ee454, 0x8034229c, 0x07590dcd, 0x0b92f20c);
    assert Rounds(h, b, 19) == Working(0xfe777bbf, 0xc2fbd9d1, 0x21da9a9b, 0xb0fa238e, 0xcc899961, 0x846ee454, 0x8034229c, 0x07590dcd);
    assert Rounds(h, b, 20) == Working(0xe1f20c33, 0xfe777bbf, 0xc2fbd9d1, 0x21da9a9b, 0xb0638179, 0xcc899961, 0x846ee454, 0x8034229c);
    assert Rounds(h, b, 21) == Working(0x9dc68b63, 0xe1f20c33, 0xfe777bbf, 0xc2fbd9d1, 0x8ada8930, 0xb0638179, 0xcc899961, 0x846ee454);
    assert Rounds(h, b, 22) == Working(0xc2606d6d, 0x9dc68b63, 0xe1f20c33, 0xfe777bbf, 0xe1257970, 0x8ada8930, 0xb0638179, 0xcc899961);
    assert Rounds(h, b, 23) == Working(0xa7a3623f, 0xc2606d6d, 0x9dc68b63, 0xe1f20c33, 0x49f5114a, 0xe1257970, 0x8ada8930, 0xb0638179);
  }

  lemma Constants24()
    ensures RoundConstant(24) == 0x983e5152 && RoundConstant(25) == 0xa831c66d && RoundConstant(26) == 0xb00327c8 && RoundConstant(27) == 0xbf597fc7
    ensures RoundConstant(28) == 0xc6e00bf3 && RoundConstant(29) == 0xd5a79147 && RoundConstant(30) == 0x06ca6351 && RoundConstant(31) == 0x14292967
  {
  }

  lemma Temps24()
    ensures Temp1(0xaa47c347, 0x49f5114a, 0xe1257970, 0x8ada8930, 0x983e5152, 0xc8215c1a) == 0x8a5d642e
            && Temp2(0xc5d53d8d, 0xa7a3623f, 0xc2606d6d) == 0x91cec40a
    ensures Temp1(0x2823ef91, 0xaa47c347, 0x49f5114a, 0xe1257970, 0xa831c66d, 0xb73679a2) == 0x51d7d021
            && Temp2(0x1c2c2838, 0xc5d53d8d, 0xa7a3623f) == 0x7c10335c
    ensures Temp1(0x14383d8e, 0x2823ef91, 0xaa47c347, 0x49f5114a, 0xb00327c8, 0xe5bc3909) == 0x1fa902d7
            && Temp2(0xcde8037d, 0x1c2c2838, 0xc5d53d8d) == 0x9685c1e5
    ensures Temp1(0xc74c6516, 0x14383d8e, 0x2823ef91, 0xaa47c347, 0xbf597fc7, 0x32663c5b) == 0x282a826b
            && Temp2(0xb62ec4bc, 0xcde8037d, 0x1c2c2838) == 0x4fa8f2bd
    ensures Temp1(0xedffbff8, 0xc74c6516, 0x14383d8e, 0x2823ef91, 0xc6e00bf3, 0x9d209d67) == 0x44e67b7f
            && Temp2(0x77d37528, 0xb62ec4bc, 0xcde8037d) == 0xf14e074a
    ensures Temp1(0x6112a3b7, 0xedffbff8, 0xc74c6516, 0x14383d8e, 0xd5a79147, 0xec8726cb) == 0xdfff90ba
            && Temp2(0x363482c9, 0x77d37528, 0xb62ec4bc) == 0xc0067a76
    ensures Temp1(0xade79437, 0x6112a3b7, 0xedffbff8, 0xc74c6516, 0x06ca6351, 0x702138a4) == 0x4adae67e
            && Temp2(0xa0060b30, 0x363482c9, 0x77d37528) == 0x9fbe43a4
    ensures Temp1(0x0109ab3a, 0xade79437, 0x6112a3b7, 0xedffbff8, 0x14292967, 0xd3b7973b) == 0x42859bea
            && Temp2(0xea992a22, 0xa0060b30, 0x363482c9) == 0x312da00b
  {
  }

  lemma Rounds24(b: bytes, h: Working)
    requires |b| == 64 && Words24(b)
    requires Rounds(h, b, 24) == Working(0xc5d53d8d, 0xa7a3623f, 0xc2606d6d, 0x9dc68b63, 0xaa47c347, 0x49f5114a, 0xe1257970, 0x8ada8930)
    ensures Rounds(h, b, 32) == Working(0x73b33bf5, 0xea992a22, 0xa0060b30, 0x363482c9, 0xba591112, 0x0109ab3a, 0xade79437, 0x6112a3b7)
  {
    Constants24();
    Temps24();
    hide Temp1, Temp2, Schedule, RoundConstant;
    assert Rounds(h, b, 25) == Working(0x1c2c2838, 0xc5d53d8d, 0xa7a3623f, 0xc2606d6d, 0x2823ef91, 0xaa47c347, 0x49f5114a, 0xe1257970);
    assert Rounds(h, b, 26) == Working(0xcde8037d, 0x1c2c2838, 0xc5d53d8d, 0xa7a3623f, 0x14383d8e, 0x2823ef91, 0xaa47c347, 0x49f5114a);
    assert Rounds(h, b, 27) == Working(0xb62ec4bc, 0xcde8037d, 0x1c2c2838, 0xc5d53d8d, 0xc74c6516, 0x14383d8e, 0x2823ef91, 0xaa47c347);
    assert Rounds(h, b, 28) == Working(0x77d37528, 0xb62ec4bc, 0xcde8037d, 0x1c2c2838, 0xedffbff8, 0xc74c6516, 0x14383d8e, 0x2823ef91);
    assert Rounds(h, b, 29) == Working(0x363482c9, 0x77d37528, 0xb62ec4bc, 0xcde8037d, 0x6112a3b7, 0xedffbff8, 0xc74c6516, 0x14383d8e);
    assert Rounds(h, b, 30) == Working(0xa0060b30, 0x363482c9, 0x77d37528, 0xb62ec4bc, 0xade79437, 0x6112a3b7, 0xedffbff8, 0xc74c6516);
    assert Rounds(h, b, 31) == Working(0xea992a22, 0xa0060b30, 0x363482c9, 0x77d37528, 0x0109ab3a, 0xade79437, 0x6112a3b7, 0xedffbff8);
  }

  lemma Constants32()
    ensures RoundConstant(32) == 0x27b70a85 && RoundConstant(33) == 0x2e1b2138 && RoundConstant(34) == 0x4d2c6dfc && RoundConstant(35) == 0x53380d13
    ensures RoundConstant(36) == 0x650a7354 && RoundConstant(37) == 0x766a0abb && RoundConstant(38) == 0x81c2c92e && RoundConstant(39) == 0x92722c85
  {
  }

  lemma Temps32()
    ensures Temp1(0xba591112, 0x0109ab3a, 0xade79437, 0x6112a3b7, 0x27b70a85, 0x93f5997f) == 0x66a5732d
            && Temp2(0x73b33bf5, 0xea992a22, 0xa0060b30) == 0x323bb1da
    ensures Temp1(0x9cd9f5f6, 0xba591112, 0x0109ab3a, 0xade79437, 0x2e1b2138, 0x3b68ba73) == 0xb91e92a3
            && Temp2(0x98e12507, 0x73b33bf5, 0xea992a22) == 0x4541bb52
    ensures Temp1(0x59249dd3, 0x9cd9f5f6, 0xba591112, 0x0109ab3a, 0x4d2c6dfc, 0xaff4ffc1) == 0x1dc60e11
            && Temp2(0xfe604df5, 0x98e12507, 0x73b33bf5) == 0x8be1657b
    ensures Temp1(0x085f3833, 0x59249dd3, 0x9cd9f5f6, 0xba591112, 0x53380d13, 0xf10a5c62) == 0x80fcc6e1
            && Temp2(0xa9a7738c, 0xfe604df5, 0x98e12507) == 0xe4a40903
    ensures Temp1(0xf4b002d6, 0x085f3833, 0x59249dd3, 0x9cd9f5f6, 0x650a7354, 0x0a8b3996) == 0x6e917d64
            && Temp2(0x65a0cfe4, 0xa9a7738c, 0xfe604df5) == 0xd314df4d
    ensures Temp1(0x0772a26b, 0xf4b002d6, 0x085f3833, 0x59249dd3, 0x766a0abb, 0x72af830a) == 0xa6a75748
            && Temp2(0x41a65cb1, 0x65a0cfe4, 0xa9a7738c) == 0x8e37bebc
    ensures Temp1(0xa507a53d, 0x0772a26b, 0xf4b002d6, 0x085f3833, 0x81c2c92e, 0x9409e33e) == 0x46d0a83c
            && Temp2(0x34df1604, 0x41a65cb1, 0x65a0cfe4) == 0x26f4d24e
    ensures Temp1(0xf0781bc8, 0xa507a53d, 0x0772a26b, 0xf4b002d6, 0x92722c85, 0x24641522) == 0xb95af0bc
            && Temp2(0x6dc57a8a, 0x34df1604, 0x41a65cb1) == 0xc08f77be
  {
  }

  lemma Rounds32(b: bytes, h: Working)
    requires |b| == 64 && Words32(b)
    requires Rounds(h, b, 32) == Working(0x73b33bf5, 0xea992a22, 0xa0060b30, 0x363482c9, 0xba591112, 0x0109ab3a, 0xade79437, 0x6112a3b7)
    ensures Rounds(h, b, 40) == Working(0x79ea687a, 0x6dc57a8a, 0x34df1604, 0x41a65cb1, 0x1efbc0a0, 0xf0781bc8, 0xa507a53d, 0x0772a26b)
  {
    Constants32();
    Temps32();
    hide Temp1, Temp2, Schedule, RoundConstant;
    assert Rounds(h, b, 33) == Working(0x98e12507, 0x73b33bf5, 0xea992a22, 0xa0060b30, 0x9cd9f5f6, 0xba591112, 0x0109ab3a, 0xade79437);
    assert Rounds(h, b, 34) == Working(0xfe604df5, 0x98e12507, 0x73b33bf5, 0xea992a22, 0x59249dd3, 0x9cd9f5f6, 0xba591112, 0x0109ab3a);
    assert Rounds(h, b, 35) == Working(0xa9a7738c, 0xfe604df5, 0x98e12507, 0x73b33bf5, 0x085f3833, 0x59249dd3, 0x9cd9f5f6, 0xba591112);
    assert Rounds(h, b, 36) == Working(0x65a0cfe4, 0xa9a7738c, 0xfe604df5, 0x98e12507, 0xf4b002d6, 0x085f3833, 0x59249dd3, 0x9cd9f5f6);
    assert Rounds(h, b, 37) == Working(0x41a65cb1, 0x65a0cfe4, 0xa9a7738c, 0xfe604df5, 0x0772a26b, 0xf4b002d6, 0x085f3833, 0x59249dd3);
    assert Rounds(h, b, 38) == Working(0x34df1604, 0x41a65cb1, 0x65a0cfe4, 0xa9a7738c, 0xa507a53d, 0x0772a26b, 0xf4b002d6, 0x085f3833);
    assert Rounds(h, b, 39) == Working(0x6dc57a8a, 0x34df1604, 0x41a65cb1, 0x65a0cfe4, 0xf0781bc8, 0xa507a53d, 0x0772a26b, 0xf4b002d6);
  }

  lemma Constants40()
    ensures RoundConstant(40) == 0xa2bfe8a1 && RoundConstant(41) == 0xa81a664b && RoundConstant(42) == 0xc24b8b70 && RoundConstant(43) == 0xc76c51a3
    ensures RoundConstant(44) == 0xd192e819 && RoundConstant(45) == 0xd6990624 && RoundConstant(46) == 0xf40e3585 && RoundConstant(47) == 0x106aa070
  {
  }

  lemma Temps40()
    ensures Temp1(0x1efbc0a0, 0xf0781bc8, 0xa507a53d, 0x0772a26b, 0xa2bfe8a1, 0x9f47bf94) == 0xe48ed0b2
            && Temp2(0x79ea687a, 0x6dc57a8a, 0x34df1604) == 0xf1d836b4
    ensures Temp1(0x26352d63, 0x1efbc0a0, 0xf0781bc8, 0xa507a53d, 0xa81a664b, 0xf0a64f5a) == 0x4eac110d
            && Temp2(0xd6670766, 0x79ea687a, 0x6dc57a8a) == 0x909a5422
    ensures Temp1(0x838b2711, 0x26352d63, 0x1efbc0a0, 0xf0781bc8, 0xc24b8b70, 0x3e246a79) == 0x7107cc8b
            && Temp2(0xdf46652f, 0xd6670766, 0x79ea687a) == 0xa6a24173
    ensures Temp1(0xdecd4715, 0x838b2711, 0x26352d63, 0x1efbc0a0, 0xc76c51a3, 0x27333ba3) == 0x83b7e3b4
            && Temp2(0x17aa0dfe, 0xdf46652f, 0xd6670766) == 0x1993cbdf
    ensures Temp1(0xfda24c2e, 0xdecd4715, 0x838b2711, 0x26352d63, 0xd192e819, 0x0c4763f2) == 0xd1a80a8a
            && Temp2(0x9d4baf93, 0x17aa0dfe, 0xdf46652f) == 0x54ba7d8b
    ensures Temp1(0xa80f11f0, 0xfda24c2e, 0xdecd4715, 0x838b2711, 0xd6990624, 0x840abf27) == 0xd82ef872
            && Temp2(0x26628815, 0x9d4baf93, 0x17aa0dfe) == 0x9a7c531f
    ensures Temp1(0xb7755da1, 0xa80f11f0, 0xfda24c2e, 0xdecd4715, 0xf40e3585, 0x7a290d5d) == 0xbdd186ab
            && Temp2(0x72ab4b91, 0x26628815, 0x9d4baf93) == 0xe37a8e05
    ensures Temp1(0xd57b94a9, 0xb7755da1, 0xa80f11f0, 0xfda24c2e, 0x106aa070, 0x065c43da) == 0x61835c33
            && Temp2(0xa14c14b0, 0x72ab4b91, 0x26628815) == 0xdfeed65a
  {
  }

  lemma Rounds40(b: bytes, h: Working)
    requires |b| == 64 && Words40(b)
    requires Rounds(h, b, 40) == Working(0x79ea687a, 0x6dc57a8a, 0x34df1604, 0x41a65cb1, 0x1efbc0a0, 0xf0781bc8, 0xa507a53d, 0x0772a26b)
    ensures Rounds(h, b, 48) == Working(0x4172328d, 0xa14c14b0, 0x72ab4b91, 0x26628815, 0xfecf0bc6, 0xd57b94a9, 0xb7755da1, 0xa80f11f0)
  {
    Constants40();
    Temps40();
    hide Temp1, Temp2, Schedule, RoundConstant;
    assert Rounds(h, b, 41) == Working(0xd6670766, 0x79ea687a, 0x6dc57a8a, 0x34df1604, 0x26352d63, 0x1efbc0a0, 0xf0781bc8, 0xa507a53d);
    assert Rounds(h, b, 42) == Working(0xdf46652f, 0xd6670766, 0x79ea687a, 0x6dc57a8a, 0x838b2711, 0x26352d63, 0x1efbc0a0, 0xf0781bc8);
    assert Rounds(h, b, 43) == Working(0x17aa0dfe, 0xdf46652f, 0xd6670766, 0x79ea687a, 0xdecd4715, 0x838b2711, 0x26352d63, 0x1efbc0a0);
    assert Rounds(h, b, 44) == Working(0x9d4baf93, 0x17aa0dfe, 0xdf46652f, 0xd6670766, 0xfda24c2e, 0xdecd4715, 0x838b2711, 0x26352d63);
    assert Rounds(h, b, 45) == Working(0x26628815, 0x9d4baf93, 0x17aa0dfe, 0xdf46652f, 0xa80f11f0, 0xfda24c2e, 0xdecd4715, 0x838b2711);
    assert Rounds(h, b, 46) == Working(0x72ab4b91, 0x26628815, 0x9d4baf93, 0x17aa0dfe, 0xb7755da1, 0xa80f11f0, 0xfda24c2e, 0xdecd4715);
    assert Rounds(h, b, 47) == Working(0xa14c14b0, 0x72ab4b91, 0x26628815, 0x9d4baf93, 0xd57b94a9, 0xb7755da1, 0xa80f11f0, 0xfda24c2e);
  }

  lemma Constants48()
    ensures RoundConstant(48) == 0x19a4c116 && RoundConstant(49) == 0x1e376c08 && RoundConstant(50) == 0x2748774c && RoundConstant(51) == 0x34b0bcb5
    ensures RoundConstant(52) == 0x391c0cb3 && RoundConstant(53) == 0x4ed8aa4a && RoundConstant(54) == 0x5b9cca4f && RoundConstant(55) == 0x682e6ff3
  {
  }

  lemma Temps48()
    ensures Temp1(0xfecf0bc6, 0xd57b94a9, 0xb7755da1, 0xa80f11f0, 0x19a4c116, 0xfb3e89cb) == 0x970eb823
            && Temp2(0x4172328d, 0xa14c14b0, 0x72ab4b91) == 0x6e66c4c8
    ensures Temp1(0xbd714038, 0xfecf0bc6, 0xd57b94a9, 0xb7755da1, 0x1e376c08, 0xcc7617db) == 0xfbb0ed7b
            && Temp2(0x05757ceb, 0x4172328d, 0xa14c14b0) == 0xf56b0d2d
    ensures Temp1(0x6e5c390c, 0xbd714038, 0xfecf0bc6, 0xd57b94a9, 0x2748774c, 0xb9e66c34) == 0xb1a5b847
            && Temp2(0xf11bfaa8, 0x05757ceb, 0x4172328d) == 0xc85f505a
    ensures Temp1(0x52f1ccf7, 0x6e5c390c, 0xbd714038, 0xfecf0bc6, 0x34b0bcb5, 0xa9993667) == 0x07b0e991
            && Temp2(0x7a0508a1, 0xf11bfaa8, 0x05757ceb) == 0x80bd9091
    ensures Temp1(0x49231c1e, 0x52f1ccf7, 0x6e5c390c, 0xbd714038, 0x391c0cb3, 0x84badedd) == 0x4d290015
            && Temp2(0x886e7a22, 0x7a0508a1, 0xf11bfaa8) == 0xc2f6d27a
    ensures Temp1(0x529e7d00, 0x49231c1e, 0x52f1ccf7, 0x6e5c390c, 0x4ed8aa4a, 0xc21462bc) == 0xae2b8d1b
            && Temp2(0x101fd28f, 0x886e7a22, 0x7a0508a1) == 0x4744a2c0
    ensures Temp1(0x9f4787c3, 0x529e7d00, 0x49231c1e, 0x52f1ccf7, 0x5b9cca4f, 0x1487472c) == 0x6b0912ae
            && Temp2(0xf5702fdb, 0x101fd28f, 0x886e7a22) == 0xd3bb4a2d
    ensures Temp1(0xe50e1b4f, 0x9f4787c3, 0x529e7d00, 0x49231c1e, 0x682e6ff3, 0xb20f7a99) == 0xcc5cac49
            && Temp2(0x3ec45cdb, 0xf5702fdb, 0x101fd28f) == 0x6c6fecca
  {
  }

  lemma Rounds48(b: bytes, h: Working)
    requires |b| == 64 && Words48(b)
    requires Rounds(h, b, 48) == Working(0x4172328d, 0xa14c14b0, 0x72ab4b91, 0x26628815, 0xfecf0bc6, 0xd57b94a9, 0xb7755da1, 0xa80f11f0)
    ensures Rounds(h, b, 56) == Working(0x38cc9913, 0x3ec45cdb, 0xf5702fdb, 0x101fd28f, 0x54cb266b, 0xe50e1b4f, 0x9f4787c3, 0x529e7d00)
  {
    Constants48();
    Temps48();
    hide Temp1, Temp2, Schedule, RoundConstant;
    assert Rounds(h, b, 49) == Working(0x05757ceb, 0x4172328d, 0xa14c14b0, 0x72ab4b91, 0xbd714038, 0xfecf0bc6, 0xd57b94a9, 0xb7755da1);
    assert Rounds(h, b, 50) == Working(0xf11bfaa8, 0x05757ceb, 0x4172328d, 0xa14c14b0, 0x6e5c390c, 0xbd714038, 0xfecf0bc6, 0xd57b94a9);
    assert Rounds(h, b, 51) == Working(0x7a0508a1, 0xf11bfaa8, 0x05757ceb, 0x4172328d, 0x52f1ccf7, 0x6e5c390c, 0xbd714038, 0xfecf0bc6);
    assert Rounds(h, b, 52) == Working(0x886e7a22, 0x7a0508a1, 0xf11bfaa8, 0x05757ceb, 0x49231c1e, 0x52f1ccf7, 0x6e5c390c, 0xbd714038);
    assert Rounds(h, b, 53) == Working(0x101fd28f, 0x886e7a22, 0x7a0508a1, 0xf11bfaa8, 0x529e7d00, 0x49231c1e, 0x52f1ccf7, 0x6e5c390c);
    assert Rounds(h, b, 54) == Working(0xf5702fdb, 0x101fd28f, 0x886e7a22, 0x7a0508a1, 0x9f4787c3, 0x529e7d00, 0x49231c1e, 0x52f1ccf7);
    assert Rounds(h, b, 55) == Working(0x3ec45cdb, 0xf5702fdb, 0x101fd28f, 0x886e7a22, 0xe50e1b4f, 0x9f4787c3, 0x529e7d00, 0x49231c1e);
  }

  lemma Constants56()
    ensures RoundConstant(56) == 0x748f82ee && RoundConstant(57) == 0x78a5636f && RoundConstant(58) == 0x84c87814 && RoundConstant(59) == 0x8cc70208
    ensures RoundConstant(60) == 0x90befffa && RoundConstant(61) == 0xa4506ceb && RoundConstant(62) == 0xbef9a3f7 && RoundConstant(63) == 0xc67178f2
  {
  }

  lemma Temps56()
    ensures Temp1(0x54cb266b, 0xe50e1b4f, 0x9f4787c3, 0x529e7d00, 0x748f82ee, 0xef57b9cd) == 0x8b3ebddd
            && Temp2(0x38cc9913, 0x3ec45cdb, 0xf5702fdb) == 0x7192ca9e
    ensures Temp1(0x9b5e906c, 0x54cb266b, 0xe50e1b4f, 0x9f4787c3, 0x78a5636f, 0xebe6b238) == 0x88d3d0b3
            && Temp2(0xfcd1887b, 0x38cc9913, 0x3ec45cdb) == 0x378f03bc
    ensures Temp1(0x7e44008e, 0x9b5e906c, 0x54cb266b, 0xe50e1b4f, 0x84c87814, 0x9fe3095e) == 0x2ebf62eb
            && Temp2(0xc062d46f, 0xfcd1887b, 0x38cc9913) == 0xd0f7a187
    ensures Temp1(0x6d83bfc6, 0x7e44008e, 0x9b5e906c, 0x54cb266b, 0x8cc70208, 0x78bc8d4b) == 0x794f142a
            && Temp2(0xffb70472, 0xc062d46f, 0xfcd1887b) == 0x3d5f7bd5
    ensures Temp1(0xb21bad3d, 0x6d83bfc6, 0x7e44008e, 0x9b5e906c, 0x90befffa, 0xa43fcf15) == 0x994dc019
            && Temp2(0xb6ae8fff, 0xffb70472, 0xc062d46f) == 0x1f106cd0
    ensures Temp1(0x961f4894, 0xb21bad3d, 0x6d83bfc6, 0x7e44008e, 0xa4506ceb, 0x668b2ff8) == 0xd42a5147
            && Temp2(0xb85e2ce9, 0xb6ae8fff, 0xffb70472) == 0x30a7fc25
    ensures Temp1(0x948d25b6, 0x961f4894, 0xb21bad3d, 0x6d83bfc6, 0xbef9a3f7, 0xeeaba2cc) == 0xfb5b0d9e
            && Temp2(0x04d24d6c, 0xb85e2ce9, 0xb6ae8fff) == 0xd83f13c7
    ensures Temp1(0xfb121210, 0x948d25b6, 0x961f4894, 0xb21bad3d, 0xc67178f2, 0x12b1edeb) == 0xa8467f25
            && Temp2(0xd39a2165, 0x04d24d6c, 0xb85e2ce9) == 0xa827b133
  {
  }

  lemma Rounds56(b: bytes, h: Working)
    requires |b| == 64 && Words56(b)
    requires Rounds(h, b, 56) == Working(0x38cc9913, 0x3ec45cdb, 0xf5702fdb, 0x101fd28f, 0x54cb266b, 0xe50e1b4f, 0x9f4787c3, 0x529e7d00)
    ensures Rounds(h, b, 64) == Working(0x506e3058, 0xd39a2165, 0x04d24d6c, 0xb85e2ce9, 0x5ef50f24, 0xfb121210, 0x948d25b6, 0x961f4894)
  {
    Constants56();
    Temps56();
    hide Temp1, Temp2, Schedule, RoundConstant;
    assert Rounds(h, b, 57) == Working(0xfcd1887b, 0x38cc9913, 0x3ec45cdb, 0xf5702fdb, 0x9b5e906c, 0x54cb266b, 0xe50e1b4f, 0x9f4787c3);
    assert Rounds(h, b, 58) == Working(0xc062d46f, 0xfcd1887b, 0x38cc9913, 0x3ec45cdb, 0x7e44008e, 0x9b5e906c, 0x54cb266b, 0xe50e1b4f);
    assert Rounds(h, b, 59) == Working(0xffb70472, 0xc062d46f, 0xfcd1887b, 0x38cc9913, 0x6d83bfc6, 0x7e44008e, 0x9b5e906c, 0x54cb266b);
    assert Rounds(h, b, 60) == Working(0xb6ae8fff, 0xffb70472, 0xc062d46f, 0xfcd1887b, 0xb21bad3d, 0x6d83bfc6, 0x7e44008e, 0x9b5e906c);
    assert Rounds(h, b, 61) == Working(0xb85e2ce9, 0xb6ae8fff, 0xffb70472, 0xc062d46f, 0x961f4894, 0xb21bad3d, 0x6d83bfc6, 0x7e44008e);
    assert Rounds(h, b, 62) == Working(0x04d24d6c, 0xb85e2ce9, 0xb6ae8fff, 0xffb70472, 0x948d25b6, 0x961f4894, 0xb21bad3d, 0x6d83bfc6);
    assert Rounds(h, b, 63) == Working(0xd39a2165, 0x04d24d6c, 0xb85e2ce9, 0xb6ae8fff, 0xfb121210, 0x948d25b6, 0x961f4894, 0xb21bad3d);
  }

  // ----- the hash -----

  lemma StartOfRounds(b: bytes)
    requires |b| == 64
    ensures Rounds(Start(INITIAL), b, 0) == Working(0x6a09e667, 0xbb67ae85, 0x3c6ef372, 0xa54ff53a, 0x510e527f, 0x9b05688c, 0x1f83d9ab, 0x5be0cd19)
  {
  }

  lemma LastAdditions()
    ensures AddHash(INITIAL, Working(0x506e3058, 0xd39a2165, 0x04d24d6c, 0xb85e2ce9, 0x5ef50f24, 0xfb121210, 0x948d25b6, 0x961f4894)) == [0xba7816bf, 0x8f01cfea, 0x414140de, 0x5dae2223, 0xb00361a3, 0x96177a9c, 0xb410ff61, 0xf20015ad]
  {
  }

  lemma FinalWords()
    requires |Pad(ABC)| == 64
    ensures Compress(INITIAL, Pad(ABC)) == [0xba7816bf, 0x8f01cfea, 0x414140de, 0x5dae2223, 0xb00361a3, 0x96177a9c, 0xb410ff61, 0xf20015ad]
  {
    WordsOfBlock();
    var b, h := Pad(ABC), Start(INITIAL);
    StartOfRounds(b);
    hide Pad, Rounds, AddHash, Schedule, Start, Words0, Words8, Words16, Words24, Words32, Words40, Words48, Words56;
    MoreWords16(b);
    MoreWords24(b);
    MoreWords32(b);
    MoreWords40(b);
    MoreWords48(b);
    MoreWords56(b);
    Rounds0(b, h);
    Rounds8(b, h);
    Rounds16(b, h);
    Rounds24(b, h);
    Rounds32(b, h);
    Rounds40(b, h);
    Rounds48(b, h);
    Rounds56(b, h);
    LastAdditions();
  }

  lemma DigestWords()
    ensures WordBytes(0xba7816bf) == [0xba, 0x78, 0x16, 0xbf]
    ensures WordBytes(0x8f01cfea) == [0x8f, 0x01, 0xcf, 0xea]
    ensures WordBytes(0x414140de) == [0x41, 0x41, 0x40, 0xde]
    ensures WordBytes(0x5dae2223) == [0x5d, 0xae, 0x22, 0x23]
    ensures WordBytes(0xb00361a3) == [0xb0, 0x03, 0x61, 0xa3]
    ensures WordBytes(0x96177a9c) == [0x96, 0x17, 0x7a, 0x9c]
    ensures WordBytes(0xb410ff61) == [0xb4, 0x10, 0xff, 0x61]
    ensures WordBytes(0xf20015ad) == [0xf2, 0x00, 0x15, 0xad]
  {
  }

  /** Word `i` of the hash value is its bytes from `4 * i` on. */
  lemma {:induction false} WordOfHash(h: seq<word>, i: nat)
    requires i < |h|
    ensures 4 * i + 4 <= |HashBytes(h)| && HashBytes(h)[4 * i..4 * i + 4] == WordBytes(h[i])
  {
    var n := |h| - 1;
    hide WordBytes;
    assert HashBytes(h) == HashBytes(h[..n]) + WordBytes(h[n]);
    if i < n {
      WordOfHash(h[..n], i);
      assert HashBytes(h)[4 * i..4 * i + 4] == HashBytes(h[..n])[4 * i..4 * i + 4];
    }
  }

  lemma OneBlock()
    requires |Pad(ABC)| == 64
    ensures Digest(ABC) == HashBytes(Compress(INITIAL, Pad(ABC)))
  {
    var b := Pad(ABC);
    assert b[64 * 0..64 * 1] == b;
    assert HashBlocks(b, 0) == INITIAL;
    hide Pad, Compress, HashBytes;
  }

  /** The hash of "abc" is the one the standard gives. */
  lemma HashOfAbc()
    ensures var d := Digest(ABC);
            && d[0..4] == [0xba, 0x78, 0x16, 0xbf]
            && d[4..8] == [0x8f, 0x01, 0xcf, 0xea]
            && d[8..12] == [0x41, 0x41, 0x40, 0xde]
            && d[12..16] == [0x5d, 0xae, 0x22, 0x23]
            && d[16..20] == [0xb0, 0x03, 0x61, 0xa3]
            && d[20..24] == [0x96, 0x17, 0x7a, 0x9c]
            && d[24..28] == [0xb4, 0x10, 0xff, 0x61]
            && d[28..32] == [0xf2, 0x00, 0x15, 0xad]
  {
    hide Pad, Compress, WordBytes, Digest, HashBytes, Schedule;
    BlockWords(0);
    OneBlock();
    FinalWords();
    DigestWords();
    var h := Compress(INITIAL, Pad(ABC));
    WordOfHash(h, 0);
    WordOfHash(h, 1);
    WordOfHash(h, 2);
    WordOfHash(h, 3);
    WordOfHash(h, 4);
    WordOfHash(h, 5);
    WordOfHash(h, 6);
    WordOfHash(h, 7);
  }
}
