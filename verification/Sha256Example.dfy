/** The digest of "abc", the worked example published with FIPS 180-4, round by round. */
module Sha256Example {
  import opened Bytes
  import opened Padding
  import opened Sha256

  const ABC: seq<bv8> := [0x61, 0x62, 0x63]

  /** The message, the one bit, and its length of 24 bits. */
  function Block(): (b: seq<bv8>)
    ensures |b| == 64
  {
    ABC + [0x80] + Zeros(59) + [0x18]
  }

  lemma LengthOfAbc()
    ensures BigEndian(24, 8) == Zeros(7) + [0x18]
  {
    LengthBytes(24);
    assert Byte(0) == 0 && Byte(24) == 0x18;
    hide Byte, BigEndian;
  }

  lemma PaddedAbc()
    ensures Blocks(Pad(ABC, 64, 8), 64) == [Block()]
  {
    LengthOfAbc();
    hide BigEndian;
    var p := Pad(ABC, 64, 8);
    assert p == Block() && p[..64] == p && p[64..] == [];
  }

  lemma BlockBytes(block: seq<bv8>)
    requires block == Block()
    ensures block[0] == 0x61 && block[1] == 0x62 && block[2] == 0x63 && block[3] == 0x80 && block[63] == 0x18
    ensures forall i :: 4 <= i < 63 ==> block[i] == 0
  {
  }

  // ---------- the message schedule ----------

  ghost predicate Scheduled(block: seq<bv8>, t: nat, w: bv32) {
    |block| == 64 && t < 64 && W(block, t) == w
  }

  lemma WordOf(block: seq<bv8>, t: nat, b0: bv8, b1: bv8, b2: bv8, b3: bv8)
    requires |block| == 64 && t < 16 && block[4 * t] == b0 && block[4 * t + 1] == b1
    requires block[4 * t + 2] == b2 && block[4 * t + 3] == b3
    ensures Scheduled(block, t, Word(b0, b1, b2, b3))
  {
    hide Word;
    ScheduleStep(block, t);
  }

  lemma WordValues()
    ensures Word(0x61, 0x62, 0x63, 0x80) == 0x61626380 && Word(0, 0, 0, 0x18) == 0x18 && Word(0, 0, 0, 0) == 0
  {
  }

  lemma Words0(block: seq<bv8>)
    requires block == Block()
    ensures Scheduled(block, 0, 0x61626380) && Scheduled(block, 15, 0x00000018)
    ensures forall t :: 1 <= t < 15 ==> Scheduled(block, t, 0x00000000)
  {
    hide Block, Word;
    BlockBytes(block);
    WordOf(block, 0, 0x61, 0x62, 0x63, 0x80);
    WordOf(block, 15, 0x00, 0x00, 0x00, 0x18);
    WordValues();
    forall t | 1 <= t < 15
      ensures Scheduled(block, t, 0x00000000)
    {
      WordOf(block, t, 0, 0, 0, 0);
    }
  }

  lemma NextWord(block: seq<bv8>, t: nat, w2: bv32, w7: bv32, w15: bv32, w16: bv32, w: bv32)
    requires 16 <= t < 64 && Scheduled(block, t - 2, w2) && Scheduled(block, t - 7, w7)
    requires Scheduled(block, t - 15, w15) && Scheduled(block, t - 16, w16) && w == Extended(w2, w7, w15, w16)
    ensures Scheduled(block, t, w)
  {
    hide Extended, Word;
    ScheduleIs(block, t);
  }

  lemma ScheduleIs(block: seq<bv8>, t: nat)
    requires |block| == 64 && 16 <= t < 64
    ensures W(block, t) == Extended(W(block, t - 2), W(block, t - 7), W(block, t - 15), W(block, t - 16))
  {
    hide Extended, Word;
  }

  lemma Words1(block: seq<bv8>)
    requires block == Block()
    ensures Scheduled(block, 16, 0x61626380) && Scheduled(block, 17, 0x000f0000) && Scheduled(block, 18, 0x7da86405)
    ensures Scheduled(block, 19, 0x600003c6) && Scheduled(block, 20, 0x3e9d7b78) && Scheduled(block, 21, 0x0183fc00)
    ensures Scheduled(block, 22, 0x12dcbfdb) && Scheduled(block, 23, 0xe2e2c38e)
  {
    hide Scheduled, Block;
    Words0(block);
    NextWord(block, 16, 0x00000000, 0x00000000, 0x00000000, 0x61626380, 0x61626380);
    NextWord(block, 17, 0x00000018, 0x00000000, 0x00000000, 0x00000000, 0x000f0000);
    NextWord(block, 18, 0x61626380, 0x00000000, 0x00000000, 0x00000000, 0x7da86405);
    NextWord(block, 19, 0x000f0000, 0x00000000, 0x00000000, 0x00000000, 0x600003c6);
    NextWord(block, 20, 0x7da86405, 0x00000000, 0x00000000, 0x00000000, 0x3e9d7b78);
    NextWord(block, 21, 0x600003c6, 0x00000000, 0x00000000, 0x00000000, 0x0183fc00);
    NextWord(block, 22, 0x3e9d7b78, 0x00000018, 0x00000000, 0x00000000, 0x12dcbfdb);
    NextWord(block, 23, 0x0183fc00, 0x61626380, 0x00000000, 0x00000000, 0xe2e2c38e);
  }

  lemma Words2(block: seq<bv8>)
    requires block == Block()
    ensures Scheduled(block, 24, 0xc8215c1a) && Scheduled(block, 25, 0xb73679a2) && Scheduled(block, 26, 0xe5bc3909)
    ensures Scheduled(block, 27, 0x32663c5b) && Scheduled(block, 28, 0x9d209d67) && Scheduled(block, 29, 0xec8726cb)
    ensures Scheduled(block, 30, 0x702138a4) && Scheduled(block, 31, 0xd3b7973b)
  {
    hide Scheduled, Block;
    Words0(block); Words1(block);
    NextWord(block, 24, 0x12dcbfdb, 0x000f0000, 0x00000000, 0x00000000, 0xc8215c1a);
    NextWord(block, 25, 0xe2e2c38e, 0x7da86405, 0x00000000, 0x00000000, 0xb73679a2);
    NextWord(block, 26, 0xc8215c1a, 0x600003c6, 0x00000000, 0x00000000, 0xe5bc3909);
    NextWord(block, 27, 0xb73679a2, 0x3e9d7b78, 0x00000000, 0x00000000, 0x32663c5b);
    NextWord(block, 28, 0xe5bc3909, 0x0183fc00, 0x00000000, 0x00000000, 0x9d209d67);
    NextWord(block, 29, 0x32663c5b, 0x12dcbfdb, 0x00000000, 0x00000000, 0xec8726cb);
    NextWord(block, 30, 0x9d209d67, 0xe2e2c38e, 0x00000018, 0x00000000, 0x702138a4);
    NextWord(block, 31, 0xec8726cb, 0xc8215c1a, 0x61626380, 0x00000018, 0xd3b7973b);
  }

  lemma Words3(block: seq<bv8>)
    requires block == Block()
    ensures Scheduled(block, 32, 0x93f5997f) && Scheduled(block, 33, 0x3b68ba73) && Scheduled(block, 34, 0xaff4ffc1)
    ensures Scheduled(block, 35, 0xf10a5c62) && Scheduled(block, 36, 0x0a8b3996) && Scheduled(block, 37, 0x72af830a)
    ensures Scheduled(block, 38, 0x9409e33e) && Scheduled(block, 39, 0x24641522)
  {
    hide Scheduled, Block;
    Words1(block); Words2(block);
    NextWord(block, 32, 0x702138a4, 0xb73679a2, 0x000f0000, 0x61626380, 0x93f5997f);
    NextWord(block, 33, 0xd3b7973b, 0xe5bc3909, 0x7da86405, 0x000f0000, 0x3b68ba73);
    NextWord(block, 34, 0x93f5997f, 0x32663c5b, 0x600003c6, 0x7da86405, 0xaff4ffc1);
    NextWord(block, 35, 0x3b68ba73, 0x9d209d67, 0x3e9d7b78, 0x600003c6, 0xf10a5c62);
    NextWord(block, 36, 0xaff4ffc1, 0xec8726cb, 0x0183fc00, 0x3e9d7b78, 0x0a8b3996);
    NextWord(block, 37, 0xf10a5c62, 0x702138a4, 0x12dcbfdb, 0x0183fc00, 0x72af830a);
    NextWord(block, 38, 0x0a8b3996, 0xd3b7973b, 0xe2e2c38e, 0x12dcbfdb, 0x9409e33e);
    NextWord(block, 39, 0x72af830a, 0x93f5997f, 0xc8215c1a, 0xe2e2c38e, 0x24641522);
  }

  lemma Words4(block: seq<bv8>)
    requires block == Block()
    ensures Scheduled(block, 40, 0x9f47bf94) && Scheduled(block, 41, 0xf0a64f5a) && Scheduled(block, 42, 0x3e246a79)
    ensures Scheduled(block, 43, 0x27333ba3) && Scheduled(block, 44, 0x0c4763f2) && Scheduled(block, 45, 0x840abf27)
    ensures Scheduled(block, 46, 0x7a290d5d) && Scheduled(block, 47, 0x065c43da)
  {
    hide Scheduled, Block;
    Words2(block); Words3(block);
    NextWord(block, 40, 0x9409e33e, 0x3b68ba73, 0xb73679a2, 0xc8215c1a, 0x9f47bf94);
    NextWord(block, 41, 0x24641522, 0xaff4ffc1, 0xe5bc3909, 0xb73679a2, 0xf0a64f5a);
    NextWord(block, 42, 0x9f47bf94, 0xf10a5c62, 0x32663c5b, 0xe5bc3909, 0x3e246a79);
    NextWord(block, 43, 0xf0a64f5a, 0x0a8b3996, 0x9d209d67, 0x32663c5b, 0x27333ba3);
    NextWord(block, 44, 0x3e246a79, 0x72af830a, 0xec8726cb, 0x9d209d67, 0x0c4763f2);
    NextWord(block, 45, 0x27333ba3, 0x9409e33e, 0x702138a4, 0xec8726cb, 0x840abf27);
    NextWord(block, 46, 0x0c4763f2, 0x24641522, 0xd3b7973b, 0x702138a4, 0x7a290d5d);
    NextWord(block, 47, 0x840abf27, 0x9f47bf94, 0x93f5997f, 0xd3b7973b, 0x065c43da);
  }

  lemma Words5(block: seq<bv8>)
    requires block == Block()
    ensures Scheduled(block, 48, 0xfb3e89cb) && Scheduled(block, 49, 0xcc7617db) && Scheduled(block, 50, 0xb9e66c34)
    ensures Scheduled(block, 51, 0xa9993667) && Scheduled(block, 52, 0x84badedd) && Scheduled(block, 53, 0xc21462bc)
    ensures Scheduled(block, 54, 0x1487472c) && Scheduled(block, 55, 0xb20f7a99)
  {
    hide Scheduled, Block;
    Words3(block); Words4(block);
    NextWord(block, 48, 0x7a290d5d, 0xf0a64f5a, 0x3b68ba73, 0x93f5997f, 0xfb3e89cb);
    NextWord(block, 49, 0x065c43da, 0x3e246a79, 0xaff4ffc1, 0x3b68ba73, 0xcc7617db);
    NextWord(block, 50, 0xfb3e89cb, 0x27333ba3, 0xf10a5c62, 0xaff4ffc1, 0xb9e66c34);
    NextWord(block, 51, 0xcc7617db, 0x0c4763f2, 0x0a8b3996, 0xf10a5c62, 0xa9993667);
    NextWord(block, 52, 0xb9e66c34, 0x840abf27, 0x72af830a, 0x0a8b3996, 0x84badedd);
    NextWord(block, 53, 0xa9993667, 0x7a290d5d, 0x9409e33e, 0x72af830a, 0xc21462bc);
    NextWord(block, 54, 0x84badedd, 0x065c43da, 0x24641522, 0x9409e33e, 0x1487472c);
    NextWord(block, 55, 0xc21462bc, 0xfb3e89cb, 0x9f47bf94, 0x24641522, 0xb20f7a99);
  }

  lemma Words6(block: seq<bv8>)
    requires block == Block()
    ensures Scheduled(block, 56, 0xef57b9cd) && Scheduled(block, 57, 0xebe6b238) && Scheduled(block, 58, 0x9fe3095e)
    ensures Scheduled(block, 59, 0x78bc8d4b) && Scheduled(block, 60, 0xa43fcf15) && Scheduled(block, 61, 0x668b2ff8)
    ensures Scheduled(block, 62, 0xeeaba2cc) && Scheduled(block, 63, 0x12b1edeb)
  {
    hide Scheduled, Block;
    Words4(block); Words5(block);
    NextWord(block, 56, 0x1487472c, 0xcc7617db, 0xf0a64f5a, 0x9f47bf94, 0xef57b9cd);
    NextWord(block, 57, 0xb20f7a99, 0xb9e66c34, 0x3e246a79, 0xf0a64f5a, 0xebe6b238);
    NextWord(block, 58, 0xef57b9cd, 0xa9993667, 0x27333ba3, 0x3e246a79, 0x9fe3095e);
    NextWord(block, 59, 0xebe6b238, 0x84badedd, 0x0c4763f2, 0x27333ba3, 0x78bc8d4b);
    NextWord(block, 60, 0x9fe3095e, 0xc21462bc, 0x840abf27, 0x0c4763f2, 0xa43fcf15);
    NextWord(block, 61, 0x78bc8d4b, 0x1487472c, 0x7a290d5d, 0x840abf27, 0x668b2ff8);
    NextWord(block, 62, 0xa43fcf15, 0xb20f7a99, 0x065c43da, 0x7a290d5d, 0xeeaba2cc);
    NextWord(block, 63, 0x668b2ff8, 0xef57b9cd, 0xfb3e89cb, 0x065c43da, 0x12b1edeb);
  }

  // ---------- the rounds ----------

  ghost predicate Reached(block: seq<bv8>, t: nat, a: bv32, b: bv32, c: bv32, d: bv32,
                          e: bv32, f: bv32, g: bv32, h: bv32)
  {
    |block| == 64 && t <= 64 && Rounds(IV256, block, t) == Vars(a, b, c, d, e, f, g, h)
  }

  lemma Constants0()
    ensures K(0) == 0x428a2f98 && K(1) == 0x71374491 && K(2) == 0xb5c0fbcf && K(3) == 0xe9b5dba5
  {
  }

  lemma Constants1()
    ensures K(4) == 0x3956c25b && K(5) == 0x59f111f1 && K(6) == 0x923f82a4 && K(7) == 0xab1c5ed5
  {
  }

  lemma Constants2()
    ensures K(8) == 0xd807aa98 && K(9) == 0x12835b01 && K(10) == 0x243185be && K(11) == 0x550c7dc3
  {
  }

  lemma Constants3()
    ensures K(12) == 0x72be5d74 && K(13) == 0x80deb1fe && K(14) == 0x9bdc06a7 && K(15) == 0xc19bf174
  {
  }

  lemma Constants4()
    ensures K(16) == 0xe49b69c1 && K(17) == 0xefbe4786 && K(18) == 0x0fc19dc6 && K(19) == 0x240ca1cc
  {
  }

  lemma Constants5()
    ensures K(20) == 0x2de92c6f && K(21) == 0x4a7484aa && K(22) == 0x5cb0a9dc && K(23) == 0x76f988da
  {
  }

  lemma Constants6()
    ensures K(24) == 0x983e5152 && K(25) == 0xa831c66d && K(26) == 0xb00327c8 && K(27) == 0xbf597fc7
  {
  }

  lemma Constants7()
    ensures K(28) == 0xc6e00bf3 && K(29) == 0xd5a79147 && K(30) == 0x06ca6351 && K(31) == 0x14292967
  {
  }

  lemma Constants8()
    ensures K(32) == 0x27b70a85 && K(33) == 0x2e1b2138 && K(34) == 0x4d2c6dfc && K(35) == 0x53380d13
  {
  }

  lemma Constants9()
    ensures K(36) == 0x650a7354 && K(37) == 0x766a0abb && K(38) == 0x81c2c92e && K(39) == 0x92722c85
  {
  }

  lemma Constants10()
    ensures K(40) == 0xa2bfe8a1 && K(41) == 0xa81a664b && K(42) == 0xc24b8b70 && K(43) == 0xc76c51a3
  {
  }

  lemma Constants11()
    ensures K(44) == 0xd192e819 && K(45) == 0xd6990624 && K(46) == 0xf40e3585 && K(47) == 0x106aa070
  {
  }

  lemma Constants12()
    ensures K(48) == 0x19a4c116 && K(49) == 0x1e376c08 && K(50) == 0x2748774c && K(51) == 0x34b0bcb5
  {
  }

  lemma Constants13()
    ensures K(52) == 0x391c0cb3 && K(53) == 0x4ed8aa4a && K(54) == 0x5b9cca4f && K(55) == 0x682e6ff3
  {
  }

  lemma Constants14()
    ensures K(56) == 0x748f82ee && K(57) == 0x78a5636f && K(58) == 0x84c87814 && K(59) == 0x8cc70208
  {
  }

  lemma Constants15()
    ensures K(60) == 0x90befffa && K(61) == 0xa4506ceb && K(62) == 0xbef9a3f7 && K(63) == 0xc67178f2
  {
  }

  lemma Next(block: seq<bv8>, t: nat, a: bv32, b: bv32, c: bv32, d: bv32, e: bv32, f: bv32, g: bv32, h: bv32,
             k: bv32, w: bv32, a': bv32, e': bv32)
    requires t < 64 && K(t) == k && Reached(block, t, a, b, c, d, e, f, g, h) && Scheduled(block, t, w)
    requires Round(Vars(a, b, c, d, e, f, g, h), k, w) == Vars(a', a, b, c, e', e, f, g)
    ensures Reached(block, t + 1, a', a, b, c, e', e, f, g)
  {
    hide Round, K, W;
  }

  lemma Rounds0(block: seq<bv8>)
    requires block == Block()
    ensures Reached(block, 8, 0x85a07b5f, 0xe5030380, 0x2b4209f5, 0x04409a6a,
                    0x0c657a79, 0x9b27a401, 0x714260ad, 0x43ada245)
  {
    hide Reached, Scheduled, Block, K;
    Constants0(); Constants1();
    Begin(block); Words0(block);
    Next(block, 0, 0x6a09e667, 0xbb67ae85, 0x3c6ef372, 0xa54ff53a, 0x510e527f, 0x9b05688c, 0x1f83d9ab, 0x5be0cd19,
         0x428a2f98, 0x61626380, 0x5d6aebcd, 0xfa2a4622);
    Next(block, 1, 0x5d6aebcd, 0x6a09e667, 0xbb67ae85, 0x3c6ef372, 0xfa2a4622, 0x510e527f, 0x9b05688c, 0x1f83d9ab,
         0x71374491, 0x00000000, 0x5a6ad9ad, 0x78ce7989);
    Next(block, 2, 0x5a6ad9ad, 0x5d6aebcd, 0x6a09e667, 0xbb67ae85, 0x78ce7989, 0xfa2a4622, 0x510e527f, 0x9b05688c,
         0xb5c0fbcf, 0x00000000, 0xc8c347a7, 0xf92939eb);
    Next(block, 3, 0xc8c347a7, 0x5a6ad9ad, 0x5d6aebcd, 0x6a09e667, 0xf92939eb, 0x78ce7989, 0xfa2a4622, 0x510e527f,
         0xe9b5dba5, 0x00000000, 0xd550f666, 0x24e00850);
    Next(block, 4, 0xd550f666, 0xc8c347a7, 0x5a6ad9ad, 0x5d6aebcd, 0x24e00850, 0xf92939eb, 0x78ce7989, 0xfa2a4622,
         0x3956c25b, 0x00000000, 0x04409a6a, 0x43ada245);
    Next(block, 5, 0x04409a6a, 0xd550f666, 0xc8c347a7, 0x5a6ad9ad, 0x43ada245, 0x24e00850, 0xf92939eb, 0x78ce7989,
         0x59f111f1, 0x00000000, 0x2b4209f5, 0x714260ad);
    Next(block, 6, 0x2b4209f5, 0x04409a6a, 0xd550f666, 0xc8c347a7, 0x714260ad, 0x43ada245, 0x24e00850, 0xf92939eb,
         0x923f82a4, 0x00000000, 0xe5030380, 0x9b27a401);
    Next(block, 7, 0xe5030380, 0x2b4209f5, 0x04409a6a, 0xd550f666, 0x9b27a401, 0x714260ad, 0x43ada245, 0x24e00850,
         0xab1c5ed5, 0x00000000, 0x85a07b5f, 0x0c657a79);
  }

  lemma Rounds1(block: seq<bv8>)
    requires block == Block()
    ensures Reached(block, 16, 0xb0fa238e, 0xc0645fde, 0xd932eb16, 0x87912990,
                    0x07590dcd, 0x0b92f20c, 0x745a48de, 0x1e578218)
  {
    hide Reached, Scheduled, Block, K;
    Constants2(); Constants3();
    Rounds0(block); Words0(block);
    Next(block, 8, 0x85a07b5f, 0xe5030380, 0x2b4209f5, 0x04409a6a, 0x0c657a79, 0x9b27a401, 0x714260ad, 0x43ada245,
         0xd807aa98, 0x00000000, 0x8e04ecb9, 0x32ca2d8c);
    Next(block, 9, 0x8e04ecb9, 0x85a07b5f, 0xe5030380, 0x2b4209f5, 0x32ca2d8c, 0x0c657a79, 0x9b27a401, 0x714260ad,
         0x12835b01, 0x00000000, 0x8c87346b, 0x1cc92596);
    Next(block, 10, 0x8c87346b, 0x8e04ecb9, 0x85a07b5f, 0xe5030380, 0x1cc92596, 0x32ca2d8c, 0x0c657a79, 0x9b27a401,
         0x243185be, 0x00000000, 0x4798a3f4, 0x436b23e8);
    Next(block, 11, 0x4798a3f4, 0x8c87346b, 0x8e04ecb9, 0x85a07b5f, 0x436b23e8, 0x1cc92596, 0x32ca2d8c, 0x0c657a79,
         0x550c7dc3, 0x00000000, 0xf71fc5a9, 0x816fd6e9);
    Next(block, 12, 0xf71fc5a9, 0x4798a3f4, 0x8c87346b, 0x8e04ecb9, 0x816fd6e9, 0x436b23e8, 0x1cc92596, 0x32ca2d8c,
         0x72be5d74, 0x00000000, 0x87912990, 0x1e578218);
    Next(block, 13, 0x87912990, 0xf71fc5a9, 0x4798a3f4, 0x8c87346b, 0x1e578218, 0x816fd6e9, 0x436b23e8, 0x1cc92596,
         0x80deb1fe, 0x00000000, 0xd932eb16, 0x745a48de);
    Next(block, 14, 0xd932eb16, 0x87912990, 0xf71fc5a9, 0x4798a3f4, 0x745a48de, 0x1e578218, 0x816fd6e9, 0x436b23e8,
         0x9bdc06a7, 0x00000000, 0xc0645fde, 0x0b92f20c);
    Next(block, 15, 0xc0645fde, 0xd932eb16, 0x87912990, 0xf71fc5a9, 0x0b92f20c, 0x745a48de, 0x1e578218, 0x816fd6e9,
         0xc19bf174, 0x00000018, 0xb0fa238e, 0x07590dcd);
  }

  lemma Rounds2(block: seq<bv8>)
    requires block == Block()
    ensures Reached(block, 24, 0xc5d53d8d, 0xa7a3623f, 0xc2606d6d, 0x9dc68b63,
                    0xaa47c347, 0x49f5114a, 0xe1257970, 0x8ada8930)
  {
    hide Reached, Scheduled, Block, K;
    Constants4(); Constants5();
    Rounds1(block); Words1(block);
    Next(block, 16, 0xb0fa238e, 0xc0645fde, 0xd932eb16, 0x87912990, 0x07590dcd, 0x0b92f20c, 0x745a48de, 0x1e578218,
         0xe49b69c1, 0x61626380, 0x21da9a9b, 0x8034229c);
    Next(block, 17, 0x21da9a9b, 0xb0fa238e, 0xc0645fde, 0xd932eb16, 0x8034229c, 0x07590dcd, 0x0b92f20c, 0x745a48de,
         0xefbe4786, 0x000f0000, 0xc2fbd9d1, 0x846ee454);
    Next(block, 18, 0xc2fbd9d1, 0x21da9a9b, 0xb0fa238e, 0xc0645fde, 0x846ee454, 0x8034229c, 0x07590dcd, 0x0b92f20c,
         0x0fc19dc6, 0x7da86405, 0xfe777bbf, 0xcc899961);
    Next(block, 19, 0xfe777bbf, 0xc2fbd9d1, 0x21da9a9b, 0xb0fa238e, 0xcc899961, 0x846ee454, 0x8034229c, 0x07590dcd,
         0x240ca1cc, 0x600003c6, 0xe1f20c33, 0xb0638179);
    Next(block, 20, 0xe1f20c33, 0xfe777bbf, 0xc2fbd9d1, 0x21da9a9b, 0xb0638179, 0xcc899961, 0x846ee454, 0x8034229c,
         0x2de92c6f, 0x3e9d7b78, 0x9dc68b63, 0x8ada8930);
    Next(block, 21, 0x9dc68b63, 0xe1f20c33, 0xfe777bbf, 0xc2fbd9d1, 0x8ada8930, 0xb0638179, 0xcc899961, 0x846ee454,
         0x4a7484aa, 0x0183fc00, 0xc2606d6d, 0xe1257970);
    Next(block, 22, 0xc2606d6d, 0x9dc68b63, 0xe1f20c33, 0xfe777bbf, 0xe1257970, 0x8ada8930, 0xb0638179, 0xcc899961,
         0x5cb0a9dc, 0x12dcbfdb, 0xa7a3623f, 0x49f5114a);
    Next(block, 23, 0xa7a3623f, 0xc2606d6d, 0x9dc68b63, 0xe1f20c33, 0x49f5114a, 0xe1257970, 0x8ada8930, 0xb0638179,
         0x76f988da, 0xe2e2c38e, 0xc5d53d8d, 0xaa47c347);
  }

  lemma Rounds3(block: seq<bv8>)
    requires block == Block()
    ensures Reached(block, 32, 0x73b33bf5, 0xea992a22, 0xa0060b30, 0x363482c9,
                    0xba591112, 0x0109ab3a, 0xade79437, 0x6112a3b7)
  {
    hide Reached, Scheduled, Block, K;
    Constants6(); Constants7();
    Rounds2(block); Words2(block);
    Next(block, 24, 0xc5d53d8d, 0xa7a3623f, 0xc2606d6d, 0x9dc68b63, 0xaa47c347, 0x49f5114a, 0xe1257970, 0x8ada8930,
         0x983e5152, 0xc8215c1a, 0x1c2c2838, 0x2823ef91);
    Next(block, 25, 0x1c2c2838, 0xc5d53d8d, 0xa7a3623f, 0xc2606d6d, 0x2823ef91, 0xaa47c347, 0x49f5114a, 0xe1257970,
         0xa831c66d, 0xb73679a2, 0xcde8037d, 0x14383d8e);
    Next(block, 26, 0xcde8037d, 0x1c2c2838, 0xc5d53d8d, 0xa7a3623f, 0x14383d8e, 0x2823ef91, 0xaa47c347, 0x49f5114a,
         0xb00327c8, 0xe5bc3909, 0xb62ec4bc, 0xc74c6516);
    Next(block, 27, 0xb62ec4bc, 0xcde8037d, 0x1c2c2838, 0xc5d53d8d, 0xc74c6516, 0x14383d8e, 0x2823ef91, 0xaa47c347,
         0xbf597fc7, 0x32663c5b, 0x77d37528, 0xedffbff8);
    Next(block, 28, 0x77d37528, 0xb62ec4bc, 0xcde8037d, 0x1c2c2838, 0xedffbff8, 0xc74c6516, 0x14383d8e, 0x2823ef91,
         0xc6e00bf3, 0x9d209d67, 0x363482c9, 0x6112a3b7);
    Next(block, 29, 0x363482c9, 0x77d37528, 0xb62ec4bc, 0xcde8037d, 0x6112a3b7, 0xedffbff8, 0xc74c6516, 0x14383d8e,
         0xd5a79147, 0xec8726cb, 0xa0060b30, 0xade79437);
    Next(block, 30, 0xa0060b30, 0x363482c9, 0x77d37528, 0xb62ec4bc, 0xade79437, 0x6112a3b7, 0xedffbff8, 0xc74c6516,
         0x06ca6351, 0x702138a4, 0xea992a22, 0x0109ab3a);
    Next(block, 31, 0xea992a22, 0xa0060b30, 0x363482c9, 0x77d37528, 0x0109ab3a, 0xade79437, 0x6112a3b7, 0xedffbff8,
         0x14292967, 0xd3b7973b, 0x73b33bf5, 0xba591112);
  }

  lemma Rounds4(block: seq<bv8>)
    requires block == Block()
    ensures Reached(block, 40, 0x79ea687a, 0x6dc57a8a, 0x34df1604, 0x41a65cb1,
                    0x1efbc0a0, 0xf0781bc8, 0xa507a53d, 0x0772a26b)
  {
    hide Reached, Scheduled, Block, K;
    Constants8(); Constants9();
    Rounds3(block); Words3(block);
    Next(block, 32, 0x73b33bf5, 0xea992a22, 0xa0060b30, 0x363482c9, 0xba591112, 0x0109ab3a, 0xade79437, 0x6112a3b7,
         0x27b70a85, 0x93f5997f, 0x98e12507, 0x9cd9f5f6);
    Next(block, 33, 0x98e12507, 0x73b33bf5, 0xea992a22, 0xa0060b30, 0x9cd9f5f6, 0xba591112, 0x0109ab3a, 0xade79437,
         0x2e1b2138, 0x3b68ba73, 0xfe604df5, 0x59249dd3);
    Next(block, 34, 0xfe604df5, 0x98e12507, 0x73b33bf5, 0xea992a22, 0x59249dd3, 0x9cd9f5f6, 0xba591112, 0x0109ab3a,
         0x4d2c6dfc, 0xaff4ffc1, 0xa9a7738c, 0x085f3833);
    Next(block, 35, 0xa9a7738c, 0xfe604df5, 0x98e12507, 0x73b33bf5, 0x085f3833, 0x59249dd3, 0x9cd9f5f6, 0xba591112,
         0x53380d13, 0xf10a5c62, 0x65a0cfe4, 0xf4b002d6);
    Next(block, 36, 0x65a0cfe4, 0xa9a7738c, 0xfe604df5, 0x98e12507, 0xf4b002d6, 0x085f3833, 0x59249dd3, 0x9cd9f5f6,
         0x650a7354, 0x0a8b3996, 0x41a65cb1, 0x0772a26b);
    Next(block, 37, 0x41a65cb1, 0x65a0cfe4, 0xa9a7738c, 0xfe604df5, 0x0772a26b, 0xf4b002d6, 0x085f3833, 0x59249dd3,
         0x766a0abb, 0x72af830a, 0x34df1604, 0xa507a53d);
    Next(block, 38, 0x34df1604, 0x41a65cb1, 0x65a0cfe4, 0xa9a7738c, 0xa507a53d, 0x0772a26b, 0xf4b002d6, 0x085f3833,
         0x81c2c92e, 0x9409e33e, 0x6dc57a8a, 0xf0781bc8);
    Next(block, 39, 0x6dc57a8a, 0x34df1604, 0x41a65cb1, 0x65a0cfe4, 0xf0781bc8, 0xa507a53d, 0x0772a26b, 0xf4b002d6,
         0x92722c85, 0x24641522, 0x79ea687a, 0x1efbc0a0);
  }

  lemma Rounds5(block: seq<bv8>)
    requires block == Block()
    ensures Reached(block, 48, 0x4172328d, 0xa14c14b0, 0x72ab4b91, 0x26628815,
                    0xfecf0bc6, 0xd57b94a9, 0xb7755da1, 0xa80f11f0)
  {
    hide Reached, Scheduled, Block, K;
    Constants10(); Constants11();
    Rounds4(block); Words4(block);
    Next(block, 40, 0x79ea687a, 0x6dc57a8a, 0x34df1604, 0x41a65cb1, 0x1efbc0a0, 0xf0781bc8, 0xa507a53d, 0x0772a26b,
         0xa2bfe8a1, 0x9f47bf94, 0xd6670766, 0x26352d63);
    Next(block, 41, 0xd6670766, 0x79ea687a, 0x6dc57a8a, 0x34df1604, 0x26352d63, 0x1efbc0a0, 0xf0781bc8, 0xa507a53d,
         0xa81a664b, 0xf0a64f5a, 0xdf46652f, 0x838b2711);
    Next(block, 42, 0xdf46652f, 0xd6670766, 0x79ea687a, 0x6dc57a8a, 0x838b2711, 0x26352d63, 0x1efbc0a0, 0xf0781bc8,
         0xc24b8b70, 0x3e246a79, 0x17aa0dfe, 0xdecd4715);
    Next(block, 43, 0x17aa0dfe, 0xdf46652f, 0xd6670766, 0x79ea687a, 0xdecd4715, 0x838b2711, 0x26352d63, 0x1efbc0a0,
         0xc76c51a3, 0x27333ba3, 0x9d4baf93, 0xfda24c2e);
    Next(block, 44, 0x9d4baf93, 0x17aa0dfe, 0xdf46652f, 0xd6670766, 0xfda24c2e, 0xdecd4715, 0x838b2711, 0x26352d63,
         0xd192e819, 0x0c4763f2, 0x26628815, 0xa80f11f0);
    Next(block, 45, 0x26628815, 0x9d4baf93, 0x17aa0dfe, 0xdf46652f, 0xa80f11f0, 0xfda24c2e, 0xdecd4715, 0x838b2711,
         0xd6990624, 0x840abf27, 0x72ab4b91, 0xb7755da1);
    Next(block, 46, 0x72ab4b91, 0x26628815, 0x9d4baf93, 0x17aa0dfe, 0xb7755da1, 0xa80f11f0, 0xfda24c2e, 0xdecd4715,
         0xf40e3585, 0x7a290d5d, 0xa14c14b0, 0xd57b94a9);
    Next(block, 47, 0xa14c14b0, 0x72ab4b91, 0x26628815, 0x9d4baf93, 0xd57b94a9, 0xb7755da1, 0xa80f11f0, 0xfda24c2e,
         0x106aa070, 0x065c43da, 0x4172328d, 0xfecf0bc6);
  }

  lemma Rounds6(block: seq<bv8>)
    requires block == Block()
    ensures Reached(block, 56, 0x38cc9913, 0x3ec45cdb, 0xf5702fdb, 0x101fd28f,
                    0x54cb266b, 0xe50e1b4f, 0x9f4787c3, 0x529e7d00)
  {
    hide Reached, Scheduled, Block, K;
    Constants12(); Constants13();
    Rounds5(block); Words5(block);
    Next(block, 48, 0x4172328d, 0xa14c14b0, 0x72ab4b91, 0x26628815, 0xfecf0bc6, 0xd57b94a9, 0xb7755da1, 0xa80f11f0,
         0x19a4c116, 0xfb3e89cb, 0x05757ceb, 0xbd714038);
    Next(block, 49, 0x05757ceb, 0x4172328d, 0xa14c14b0, 0x72ab4b91, 0xbd714038, 0xfecf0bc6, 0xd57b94a9, 0xb7755da1,
         0x1e376c08, 0xcc7617db, 0xf11bfaa8, 0x6e5c390c);
    Next(block, 50, 0xf11bfaa8, 0x05757ceb, 0x4172328d, 0xa14c14b0, 0x6e5c390c, 0xbd714038, 0xfecf0bc6, 0xd57b94a9,
         0x2748774c, 0xb9e66c34, 0x7a0508a1, 0x52f1ccf7);
    Next(block, 51, 0x7a0508a1, 0xf11bfaa8, 0x05757ceb, 0x4172328d, 0x52f1ccf7, 0x6e5c390c, 0xbd714038, 0xfecf0bc6,
         0x34b0bcb5, 0xa9993667, 0x886e7a22, 0x49231c1e);
    Next(block, 52, 0x886e7a22, 0x7a0508a1, 0xf11bfaa8, 0x05757ceb, 0x49231c1e, 0x52f1ccf7, 0x6e5c390c, 0xbd714038,
         0x391c0cb3, 0x84badedd, 0x101fd28f, 0x529e7d00);
    Next(block, 53, 0x101fd28f, 0x886e7a22, 0x7a0508a1, 0xf11bfaa8, 0x529e7d00, 0x49231c1e, 0x52f1ccf7, 0x6e5c390c,
         0x4ed8aa4a, 0xc21462bc, 0xf5702fdb, 0x9f4787c3);
    Next(block, 54, 0xf5702fdb, 0x101fd28f, 0x886e7a22, 0x7a0508a1, 0x9f4787c3, 0x529e7d00, 0x49231c1e, 0x52f1ccf7,
         0x5b9cca4f, 0x1487472c, 0x3ec45cdb, 0xe50e1b4f);
    Next(block, 55, 0x3ec45cdb, 0xf5702fdb, 0x101fd28f, 0x886e7a22, 0xe50e1b4f, 0x9f4787c3, 0x529e7d00, 0x49231c1e,
         0x682e6ff3, 0xb20f7a99, 0x38cc9913, 0x54cb266b);
  }

  lemma Rounds7(block: seq<bv8>)
    requires block == Block()
    ensures Reached(block, 64, 0x506e3058, 0xd39a2165, 0x04d24d6c, 0xb85e2ce9,
                    0x5ef50f24, 0xfb121210, 0x948d25b6, 0x961f4894)
  {
    hide Reached, Scheduled, Block, K;
    Constants14(); Constants15();
    Rounds6(block); Words6(block);
    Next(block, 56, 0x38cc9913, 0x3ec45cdb, 0xf5702fdb, 0x101fd28f, 0x54cb266b, 0xe50e1b4f, 0x9f4787c3, 0x529e7d00,
         0x748f82ee, 0xef57b9cd, 0xfcd1887b, 0x9b5e906c);
    Next(block, 57, 0xfcd1887b, 0x38cc9913, 0x3ec45cdb, 0xf5702fdb, 0x9b5e906c, 0x54cb266b, 0xe50e1b4f, 0x9f4787c3,
         0x78a5636f, 0xebe6b238, 0xc062d46f, 0x7e44008e);
    Next(block, 58, 0xc062d46f, 0xfcd1887b, 0x38cc9913, 0x3ec45cdb, 0x7e44008e, 0x9b5e906c, 0x54cb266b, 0xe50e1b4f,
         0x84c87814, 0x9fe3095e, 0xffb70472, 0x6d83bfc6);
    Next(block, 59, 0xffb70472, 0xc062d46f, 0xfcd1887b, 0x38cc9913, 0x6d83bfc6, 0x7e44008e, 0x9b5e906c, 0x54cb266b,
         0x8cc70208, 0x78bc8d4b, 0xb6ae8fff, 0xb21bad3d);
    Next(block, 60, 0xb6ae8fff, 0xffb70472, 0xc062d46f, 0xfcd1887b, 0xb21bad3d, 0x6d83bfc6, 0x7e44008e, 0x9b5e906c,
         0x90befffa, 0xa43fcf15, 0xb85e2ce9, 0x961f4894);
    Next(block, 61, 0xb85e2ce9, 0xb6ae8fff, 0xffb70472, 0xc062d46f, 0x961f4894, 0xb21bad3d, 0x6d83bfc6, 0x7e44008e,
         0xa4506ceb, 0x668b2ff8, 0x04d24d6c, 0x948d25b6);
    Next(block, 62, 0x04d24d6c, 0xb85e2ce9, 0xb6ae8fff, 0xffb70472, 0x948d25b6, 0x961f4894, 0xb21bad3d, 0x6d83bfc6,
         0xbef9a3f7, 0xeeaba2cc, 0xd39a2165, 0xfb121210);
    Next(block, 63, 0xd39a2165, 0x04d24d6c, 0xb85e2ce9, 0xb6ae8fff, 0xfb121210, 0x948d25b6, 0x961f4894, 0xb21bad3d,
         0xc67178f2, 0x12b1edeb, 0x506e3058, 0x5ef50f24);
  }

  lemma Begin(block: seq<bv8>)
    requires |block| == 64
    ensures Reached(block, 0, 0x6a09e667, 0xbb67ae85, 0x3c6ef372, 0xa54ff53a,
                    0x510e527f, 0x9b05688c, 0x1f83d9ab, 0x5be0cd19)
  {
  }

  // ---------- the digest ----------

  const FINAL: Vars :=
    Vars(0xba7816bf, 0x8f01cfea, 0x414140de, 0x5dae2223,
            0xb00361a3, 0x96177a9c, 0xb410ff61, 0xf20015ad)

  lemma FinalState(block: seq<bv8>)
    requires block == Block()
    ensures Compress(IV256, block) == FINAL
  {
    hide Block, Rounds;
    Rounds7(block);
  }

  /** The bytes of word `i` of a state. */
  lemma WordAt(v: Vars, i: nat, x: bv32, s: seq<bv8>)
    requires i < 8 && |s| == 4 && StateWords(v)[i] == x && forall j :: 0 <= j < 4 ==> ByteOf(x, j) == s[j]
    ensures Serialized(v)[4 * i..4 * i + 4] == s
  {
    hide ByteOf, StateWords;
    var t := Serialized(v)[4 * i..4 * i + 4];
    forall j | 0 <= j < 4
      ensures t[j] == s[j]
    {
      assert (4 * i + j) / 4 == i && (4 * i + j) % 4 == j;
    }
  }

  /** Eight words of bytes in a row. */
  lemma Joined(s: seq<bv8>, s0: seq<bv8>, s1: seq<bv8>, s2: seq<bv8>, s3: seq<bv8>,
               s4: seq<bv8>, s5: seq<bv8>, s6: seq<bv8>, s7: seq<bv8>)
    requires |s| == 32 && s[..4] == s0 && s[4..8] == s1 && s[8..12] == s2 && s[12..16] == s3
    requires s[16..20] == s4 && s[20..24] == s5 && s[24..28] == s6 && s[28..] == s7
    ensures s == s0 + s1 + s2 + s3 + s4 + s5 + s6 + s7
  {
    assert s == s[..16] + s[16..];
    assert s[..16] == s[..4] + s[4..8] + s[8..12] + s[12..16];
    assert s[16..] == s[16..20] + s[20..24] + s[24..28] + s[28..];
  }

  // The published digest, word by word.
  const DIGEST_0: seq<bv8> := [0xba, 0x78, 0x16, 0xbf]
  const DIGEST_1: seq<bv8> := [0x8f, 0x01, 0xcf, 0xea]
  const DIGEST_2: seq<bv8> := [0x41, 0x41, 0x40, 0xde]
  const DIGEST_3: seq<bv8> := [0x5d, 0xae, 0x22, 0x23]
  const DIGEST_4: seq<bv8> := [0xb0, 0x03, 0x61, 0xa3]
  const DIGEST_5: seq<bv8> := [0x96, 0x17, 0x7a, 0x9c]
  const DIGEST_6: seq<bv8> := [0xb4, 0x10, 0xff, 0x61]
  const DIGEST_7: seq<bv8> := [0xf2, 0x00, 0x15, 0xad]

  /** The digest of "abc". */
  lemma DigestOfAbc()
    ensures Digest(IV256, ABC) == DIGEST_0 + DIGEST_1 + DIGEST_2 + DIGEST_3 + DIGEST_4 + DIGEST_5 + DIGEST_6 + DIGEST_7
  {
    PaddedAbc();
    FinalState(Block());
    OneBlock(IV256, Block());
    FinalBytes();
  }

  lemma OneBlock(v: Vars, block: seq<bv8>)
    requires |block| == 64
    ensures Fold(v, [block]) == Compress(v, block)
  {
    hide Compress;
    assert [block][..0] == [];
  }

  lemma FirstBytes()
    ensures var s := Serialized(FINAL);
      && s[..4] == DIGEST_0 && s[4..8] == DIGEST_1 && s[8..12] == DIGEST_2 && s[12..16] == DIGEST_3
  {
    hide Serialized;
    WordAt(FINAL, 0, 0xba7816bf, DIGEST_0);
    WordAt(FINAL, 1, 0x8f01cfea, DIGEST_1);
    WordAt(FINAL, 2, 0x414140de, DIGEST_2);
    WordAt(FINAL, 3, 0x5dae2223, DIGEST_3);
  }

  lemma LastBytes()
    ensures var s := Serialized(FINAL);
      && s[16..20] == DIGEST_4 && s[20..24] == DIGEST_5
      && s[24..28] == DIGEST_6 && s[28..] == DIGEST_7
  {
    hide Serialized;
    WordAt(FINAL, 4, 0xb00361a3, DIGEST_4);
    WordAt(FINAL, 5, 0x96177a9c, DIGEST_5);
    WordAt(FINAL, 6, 0xb410ff61, DIGEST_6);
    WordAt(FINAL, 7, 0xf20015ad, DIGEST_7);
  }

  lemma FinalBytes()
    ensures Serialized(FINAL) == DIGEST_0 + DIGEST_1 + DIGEST_2 + DIGEST_3 + DIGEST_4 + DIGEST_5 + DIGEST_6 + DIGEST_7
  {
    hide Serialized;
    FirstBytes();
    LastBytes();
    Joined(Serialized(FINAL), DIGEST_0, DIGEST_1, DIGEST_2, DIGEST_3, DIGEST_4, DIGEST_5, DIGEST_6, DIGEST_7);
  }
}
