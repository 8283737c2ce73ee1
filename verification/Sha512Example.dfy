/** The digest of "abc", the worked example published with FIPS 180-4, round by round. */
module Sha512Example {
  import opened Bytes
  import opened Padding
  import opened Sha512
  import Sha256
  const ABC: seq<bv8> := [0x61, 0x62, 0x63]

  /** The message, the one bit, and its length of 24 bits. */
  function Block(): (b: seq<bv8>)
    ensures |b| == 128
  {
    ABC + [0x80] + Zeros(123) + [0x18]
  }

  lemma LengthOfAbc()
    ensures BigEndian(24, 16) == Zeros(15) + [0x18]
  {
    Sha256.LengthBytes(24);
    assert Byte(0) == 0 && Byte(24) == 0x18;
    hide Byte, BigEndian;
    LongLength(ABC);
  }

  lemma PaddedAbc()
    ensures Blocks(Pad(ABC, 128, 16), 128) == [Block()]
  {
    LengthOfAbc();
    hide BigEndian;
    var p := Pad(ABC, 128, 16);
    assert p == Block() && p[..128] == p && p[128..] == [];
  }

  lemma BlockBytes(block: seq<bv8>)
    requires block == Block()
    ensures block[0] == 0x61 && block[1] == 0x62 && block[2] == 0x63 && block[3] == 0x80 && block[127] == 0x18
    ensures forall i :: 4 <= i < 127 ==> block[i] == 0
  {
  }

  // ---------- the message schedule ----------

  ghost predicate Scheduled(block: seq<bv8>, t: nat, w: bv64) {
    |block| == 128 && t < 80 && W(block, t) == w
  }

  lemma WordOf(block: seq<bv8>, t: nat, b: seq<bv8>)
    requires |block| == 128 && t < 16 && |b| == 8
    requires forall i :: 8 * t <= i < 8 * t + 8 ==> block[i] == b[i - 8 * t]
    ensures Scheduled(block, t, Word(b))
  {
    hide Word;
    assert block[8 * t..8 * t + 8] == b;
  }

  lemma WordValues()
    ensures Word([0x61, 0x62, 0x63, 0x80, 0, 0, 0, 0]) == 0x6162638000000000
    ensures Word([0, 0, 0, 0, 0, 0, 0, 0x18]) == 0x18 && Word([0, 0, 0, 0, 0, 0, 0, 0]) == 0
  {
  }

  lemma Words0(block: seq<bv8>)
    requires block == Block()
    ensures Scheduled(block, 0, 0x6162638000000000) && Scheduled(block, 15, 0x0000000000000018)
    ensures forall t :: 1 <= t < 15 ==> Scheduled(block, t, 0x0000000000000000)
  {
    hide Block, Word;
    BlockBytes(block);
    WordOf(block, 0, [0x61, 0x62, 0x63, 0x80, 0, 0, 0, 0]);
    WordOf(block, 15, [0, 0, 0, 0, 0, 0, 0, 0x18]);
    WordValues();
    forall t | 1 <= t < 15
      ensures Scheduled(block, t, 0x0000000000000000)
    {
      WordOf(block, t, [0, 0, 0, 0, 0, 0, 0, 0]);
    }
  }

  lemma NextWord(block: seq<bv8>, t: nat, w2: bv64, w7: bv64, w15: bv64, w16: bv64, w: bv64)
    requires 16 <= t < 80 && Scheduled(block, t - 2, w2) && Scheduled(block, t - 7, w7)
    requires Scheduled(block, t - 15, w15) && Scheduled(block, t - 16, w16) && w == Extended(w2, w7, w15, w16)
    ensures Scheduled(block, t, w)
  {
    hide Extended, Word;
    ScheduleIs(block, t);
  }

  lemma ScheduleIs(block: seq<bv8>, t: nat)
    requires |block| == 128 && 16 <= t < 80
    ensures W(block, t) == Extended(W(block, t - 2), W(block, t - 7), W(block, t - 15), W(block, t - 16))
  {
    hide Extended, Word;
  }

  lemma Words1(block: seq<bv8>)
    requires block == Block()
    ensures Scheduled(block, 16, 0x6162638000000000) && Scheduled(block, 17, 0x00030000000000c0)
    ensures Scheduled(block, 18, 0x0a9699a24c700003) && Scheduled(block, 19, 0x00000c0060000603)
    ensures Scheduled(block, 20, 0x549ef62639858996) && Scheduled(block, 21, 0x00c0003300003c00)
    ensures Scheduled(block, 22, 0x1497007a8a0e9dbc) && Scheduled(block, 23, 0x62e56500cc0780f0)
  {
    hide Scheduled, Block;
    Words0(block);
    NextWord(block, 16, 0x0000000000000000, 0x0000000000000000, 0x0000000000000000, 0x6162638000000000,
             0x6162638000000000);
    NextWord(block, 17, 0x0000000000000018, 0x0000000000000000, 0x0000000000000000, 0x0000000000000000,
             0x00030000000000c0);
    NextWord(block, 18, 0x6162638000000000, 0x0000000000000000, 0x0000000000000000, 0x0000000000000000,
             0x0a9699a24c700003);
    NextWord(block, 19, 0x00030000000000c0, 0x0000000000000000, 0x0000000000000000, 0x0000000000000000,
             0x00000c0060000603);
    NextWord(block, 20, 0x0a9699a24c700003, 0x0000000000000000, 0x0000000000000000, 0x0000000000000000,
             0x549ef62639858996);
    NextWord(block, 21, 0x00000c0060000603, 0x0000000000000000, 0x0000000000000000, 0x0000000000000000,
             0x00c0003300003c00);
    NextWord(block, 22, 0x549ef62639858996, 0x0000000000000018, 0x0000000000000000, 0x0000000000000000,
             0x1497007a8a0e9dbc);
    NextWord(block, 23, 0x00c0003300003c00, 0x6162638000000000, 0x0000000000000000, 0x0000000000000000,
             0x62e56500cc0780f0);
  }

  lemma Words2(block: seq<bv8>)
    requires block == Block()
    ensures Scheduled(block, 24, 0x7760dd475a538797) && Scheduled(block, 25, 0xf1554b711c1c0003)
    ensures Scheduled(block, 26, 0xca2993a4345d9ff2) && Scheduled(block, 27, 0x5e0e66b5c783dd32)
    ensures Scheduled(block, 28, 0xe25a625d00494b62) && Scheduled(block, 29, 0x9f44486fb1e4fbd2)
    ensures Scheduled(block, 30, 0xb31b8c2b06085f2f) && Scheduled(block, 31, 0x0e987660934142f6)
  {
    hide Scheduled, Block;
    Words0(block); Words1(block);
    NextWord(block, 24, 0x1497007a8a0e9dbc, 0x00030000000000c0, 0x0000000000000000, 0x0000000000000000,
             0x7760dd475a538797);
    NextWord(block, 25, 0x62e56500cc0780f0, 0x0a9699a24c700003, 0x0000000000000000, 0x0000000000000000,
             0xf1554b711c1c0003);
    NextWord(block, 26, 0x7760dd475a538797, 0x00000c0060000603, 0x0000000000000000, 0x0000000000000000,
             0xca2993a4345d9ff2);
    NextWord(block, 27, 0xf1554b711c1c0003, 0x549ef62639858996, 0x0000000000000000, 0x0000000000000000,
             0x5e0e66b5c783dd32);
    NextWord(block, 28, 0xca2993a4345d9ff2, 0x00c0003300003c00, 0x0000000000000000, 0x0000000000000000,
             0xe25a625d00494b62);
    NextWord(block, 29, 0x5e0e66b5c783dd32, 0x1497007a8a0e9dbc, 0x0000000000000000, 0x0000000000000000,
             0x9f44486fb1e4fbd2);
    NextWord(block, 30, 0xe25a625d00494b62, 0x62e56500cc0780f0, 0x0000000000000018, 0x0000000000000000,
             0xb31b8c2b06085f2f);
    NextWord(block, 31, 0x9f44486fb1e4fbd2, 0x7760dd475a538797, 0x6162638000000000, 0x0000000000000018,
             0x0e987660934142f6);
  }

  lemma Words3(block: seq<bv8>)
    requires block == Block()
    ensures Scheduled(block, 32, 0xa4af2cfd09fbb924) && Scheduled(block, 33, 0xad289e2e0bd53186)
    ensures Scheduled(block, 34, 0x3c74563aa2f9673e) && Scheduled(block, 35, 0x6ccdcd14cc14b53f)
    ensures Scheduled(block, 36, 0xc3f925b337f22bde) && Scheduled(block, 37, 0x5bcc77a75ad95b54)
    ensures Scheduled(block, 38, 0x3ec2257adca09a52) && Scheduled(block, 39, 0x28246960001fc5eb)
  {
    hide Scheduled, Block;
    Words1(block); Words2(block);
    NextWord(block, 32, 0xb31b8c2b06085f2f, 0xf1554b711c1c0003, 0x00030000000000c0, 0x6162638000000000,
             0xa4af2cfd09fbb924);
    NextWord(block, 33, 0x0e987660934142f6, 0xca2993a4345d9ff2, 0x0a9699a24c700003, 0x00030000000000c0,
             0xad289e2e0bd53186);
    NextWord(block, 34, 0xa4af2cfd09fbb924, 0x5e0e66b5c783dd32, 0x00000c0060000603, 0x0a9699a24c700003,
             0x3c74563aa2f9673e);
    NextWord(block, 35, 0xad289e2e0bd53186, 0xe25a625d00494b62, 0x549ef62639858996, 0x00000c0060000603,
             0x6ccdcd14cc14b53f);
    NextWord(block, 36, 0x3c74563aa2f9673e, 0x9f44486fb1e4fbd2, 0x00c0003300003c00, 0x549ef62639858996,
             0xc3f925b337f22bde);
    NextWord(block, 37, 0x6ccdcd14cc14b53f, 0xb31b8c2b06085f2f, 0x1497007a8a0e9dbc, 0x00c0003300003c00,
             0x5bcc77a75ad95b54);
    NextWord(block, 38, 0xc3f925b337f22bde, 0x0e987660934142f6, 0x62e56500cc0780f0, 0x1497007a8a0e9dbc,
             0x3ec2257adca09a52);
    NextWord(block, 39, 0x5bcc77a75ad95b54, 0xa4af2cfd09fbb924, 0x7760dd475a538797, 0x62e56500cc0780f0,
             0x28246960001fc5eb);
  }

  lemma Words4(block: seq<bv8>)
    requires block == Block()
    ensures Scheduled(block, 40, 0x04e33a75ce2be88a) && Scheduled(block, 41, 0x7d5314b3c359e0e7)
    ensures Scheduled(block, 42, 0xaef7a285ff251266) && Scheduled(block, 43, 0x0b8472581deea04f)
    ensures Scheduled(block, 44, 0xb174e26eddc7b033) && Scheduled(block, 45, 0x5d63bae58ddd88de)
    ensures Scheduled(block, 46, 0x4c044007b744ccbb) && Scheduled(block, 47, 0xe6a9aa4d74dc7d43)
  {
    hide Scheduled, Block;
    Words2(block); Words3(block);
    NextWord(block, 40, 0x3ec2257adca09a52, 0xad289e2e0bd53186, 0xf1554b711c1c0003, 0x7760dd475a538797,
             0x04e33a75ce2be88a);
    NextWord(block, 41, 0x28246960001fc5eb, 0x3c74563aa2f9673e, 0xca2993a4345d9ff2, 0xf1554b711c1c0003,
             0x7d5314b3c359e0e7);
    NextWord(block, 42, 0x04e33a75ce2be88a, 0x6ccdcd14cc14b53f, 0x5e0e66b5c783dd32, 0xca2993a4345d9ff2,
             0xaef7a285ff251266);
    NextWord(block, 43, 0x7d5314b3c359e0e7, 0xc3f925b337f22bde, 0xe25a625d00494b62, 0x5e0e66b5c783dd32,
             0x0b8472581deea04f);
    NextWord(block, 44, 0xaef7a285ff251266, 0x5bcc77a75ad95b54, 0x9f44486fb1e4fbd2, 0xe25a625d00494b62,
             0xb174e26eddc7b033);
    NextWord(block, 45, 0x0b8472581deea04f, 0x3ec2257adca09a52, 0xb31b8c2b06085f2f, 0x9f44486fb1e4fbd2,
             0x5d63bae58ddd88de);
    NextWord(block, 46, 0xb174e26eddc7b033, 0x28246960001fc5eb, 0x0e987660934142f6, 0xb31b8c2b06085f2f,
             0x4c044007b744ccbb);
    NextWord(block, 47, 0x5d63bae58ddd88de, 0x04e33a75ce2be88a, 0xa4af2cfd09fbb924, 0x0e987660934142f6,
             0xe6a9aa4d74dc7d43);
  }

  lemma Words5(block: seq<bv8>)
    requires block == Block()
    ensures Scheduled(block, 48, 0xebeaf1237248019c) && Scheduled(block, 49, 0x361e80b2d00f3193)
    ensures Scheduled(block, 50, 0x2e9839125df3b175) && Scheduled(block, 51, 0x3319629293ad5363)
    ensures Scheduled(block, 52, 0x9cbc5d89ac1b89d5) && Scheduled(block, 53, 0x275e23ffeeca50b7)
    ensures Scheduled(block, 54, 0x3b80d680bf69ef58) && Scheduled(block, 55, 0x0d0696933945a125)
  {
    hide Scheduled, Block;
    Words3(block); Words4(block);
    NextWord(block, 48, 0x4c044007b744ccbb, 0x7d5314b3c359e0e7, 0xad289e2e0bd53186, 0xa4af2cfd09fbb924,
             0xebeaf1237248019c);
    NextWord(block, 49, 0xe6a9aa4d74dc7d43, 0xaef7a285ff251266, 0x3c74563aa2f9673e, 0xad289e2e0bd53186,
             0x361e80b2d00f3193);
    NextWord(block, 50, 0xebeaf1237248019c, 0x0b8472581deea04f, 0x6ccdcd14cc14b53f, 0x3c74563aa2f9673e,
             0x2e9839125df3b175);
    NextWord(block, 51, 0x361e80b2d00f3193, 0xb174e26eddc7b033, 0xc3f925b337f22bde, 0x6ccdcd14cc14b53f,
             0x3319629293ad5363);
    NextWord(block, 52, 0x2e9839125df3b175, 0x5d63bae58ddd88de, 0x5bcc77a75ad95b54, 0xc3f925b337f22bde,
             0x9cbc5d89ac1b89d5);
    NextWord(block, 53, 0x3319629293ad5363, 0x4c044007b744ccbb, 0x3ec2257adca09a52, 0x5bcc77a75ad95b54,
             0x275e23ffeeca50b7);
    NextWord(block, 54, 0x9cbc5d89ac1b89d5, 0xe6a9aa4d74dc7d43, 0x28246960001fc5eb, 0x3ec2257adca09a52,
             0x3b80d680bf69ef58);
    NextWord(block, 55, 0x275e23ffeeca50b7, 0xebeaf1237248019c, 0x04e33a75ce2be88a, 0x28246960001fc5eb,
             0x0d0696933945a125);
  }

  lemma Words6(block: seq<bv8>)
    requires block == Block()
    ensures Scheduled(block, 56, 0x7533eabcb786ff00) && Scheduled(block, 57, 0xb89826cee6fbf0e5)
    ensures Scheduled(block, 58, 0x249b4fbcad623e9f) && Scheduled(block, 59, 0x4aea9df2b02d6f1e)
    ensures Scheduled(block, 60, 0x2cc57475a55e8d8f) && Scheduled(block, 61, 0xb2574ae938d8be89)
    ensures Scheduled(block, 62, 0xc1b35a57b16d6aea) && Scheduled(block, 63, 0xcc4918b5949206bb)
  {
    hide Scheduled, Block;
    Words4(block); Words5(block);
    NextWord(block, 56, 0x3b80d680bf69ef58, 0x361e80b2d00f3193, 0x7d5314b3c359e0e7, 0x04e33a75ce2be88a,
             0x7533eabcb786ff00);
    NextWord(block, 57, 0x0d0696933945a125, 0x2e9839125df3b175, 0xaef7a285ff251266, 0x7d5314b3c359e0e7,
             0xb89826cee6fbf0e5);
    NextWord(block, 58, 0x7533eabcb786ff00, 0x3319629293ad5363, 0x0b8472581deea04f, 0xaef7a285ff251266,
             0x249b4fbcad623e9f);
    NextWord(block, 59, 0xb89826cee6fbf0e5, 0x9cbc5d89ac1b89d5, 0xb174e26eddc7b033, 0x0b8472581deea04f,
             0x4aea9df2b02d6f1e);
    NextWord(block, 60, 0x249b4fbcad623e9f, 0x275e23ffeeca50b7, 0x5d63bae58ddd88de, 0xb174e26eddc7b033,
             0x2cc57475a55e8d8f);
    NextWord(block, 61, 0x4aea9df2b02d6f1e, 0x3b80d680bf69ef58, 0x4c044007b744ccbb, 0x5d63bae58ddd88de,
             0xb2574ae938d8be89);
    NextWord(block, 62, 0x2cc57475a55e8d8f, 0x0d0696933945a125, 0xe6a9aa4d74dc7d43, 0x4c044007b744ccbb,
             0xc1b35a57b16d6aea);
    NextWord(block, 63, 0xb2574ae938d8be89, 0x7533eabcb786ff00, 0xebeaf1237248019c, 0xe6a9aa4d74dc7d43,
             0xcc4918b5949206bb);
  }

  lemma Words7(block: seq<bv8>)
    requires block == Block()
    ensures Scheduled(block, 64, 0x5099c3add79f90ec) && Scheduled(block, 65, 0x5ea81d78e7660bf1)
    ensures Scheduled(block, 66, 0xebee6267405ac2a9) && Scheduled(block, 67, 0xb01f21926108a4ab)
    ensures Scheduled(block, 68, 0x786433dd2fe65556) && Scheduled(block, 69, 0xc54a6eaa24a0552c)
    ensures Scheduled(block, 70, 0xb3c8f1530bdbaa9e) && Scheduled(block, 71, 0xbb8abfe56f469338)
  {
    hide Scheduled, Block;
    Words5(block); Words6(block);
    NextWord(block, 64, 0xc1b35a57b16d6aea, 0xb89826cee6fbf0e5, 0x361e80b2d00f3193, 0xebeaf1237248019c,
             0x5099c3add79f90ec);
    NextWord(block, 65, 0xcc4918b5949206bb, 0x249b4fbcad623e9f, 0x2e9839125df3b175, 0x361e80b2d00f3193,
             0x5ea81d78e7660bf1);
    NextWord(block, 66, 0x5099c3add79f90ec, 0x4aea9df2b02d6f1e, 0x3319629293ad5363, 0x2e9839125df3b175,
             0xebee6267405ac2a9);
    NextWord(block, 67, 0x5ea81d78e7660bf1, 0x2cc57475a55e8d8f, 0x9cbc5d89ac1b89d5, 0x3319629293ad5363,
             0xb01f21926108a4ab);
    NextWord(block, 68, 0xebee6267405ac2a9, 0xb2574ae938d8be89, 0x275e23ffeeca50b7, 0x9cbc5d89ac1b89d5,
             0x786433dd2fe65556);
    NextWord(block, 69, 0xb01f21926108a4ab, 0xc1b35a57b16d6aea, 0x3b80d680bf69ef58, 0x275e23ffeeca50b7,
             0xc54a6eaa24a0552c);
    NextWord(block, 70, 0x786433dd2fe65556, 0xcc4918b5949206bb, 0x0d0696933945a125, 0x3b80d680bf69ef58,
             0xb3c8f1530bdbaa9e);
    NextWord(block, 71, 0xc54a6eaa24a0552c, 0x5099c3add79f90ec, 0x7533eabcb786ff00, 0x0d0696933945a125,
             0xbb8abfe56f469338);
  }

  lemma Words8(block: seq<bv8>)
    requires block == Block()
    ensures Scheduled(block, 72, 0xf63d4265cc1c5a78) && Scheduled(block, 73, 0xbe8355ea73129afb)
    ensures Scheduled(block, 74, 0x49e2db8ebdcfbeb5) && Scheduled(block, 75, 0x82269d4a883a3d99)
    ensures Scheduled(block, 76, 0xfdf53df3011f362b) && Scheduled(block, 77, 0x464af5671d71c12e)
    ensures Scheduled(block, 78, 0xe449b68198ec611c) && Scheduled(block, 79, 0x92aeeed1a7bcf7d2)
  {
    hide Scheduled, Block;
    Words6(block); Words7(block);
    NextWord(block, 72, 0xb3c8f1530bdbaa9e, 0x5ea81d78e7660bf1, 0xb89826cee6fbf0e5, 0x7533eabcb786ff00,
             0xf63d4265cc1c5a78);
    NextWord(block, 73, 0xbb8abfe56f469338, 0xebee6267405ac2a9, 0x249b4fbcad623e9f, 0xb89826cee6fbf0e5,
             0xbe8355ea73129afb);
    NextWord(block, 74, 0xf63d4265cc1c5a78, 0xb01f21926108a4ab, 0x4aea9df2b02d6f1e, 0x249b4fbcad623e9f,
             0x49e2db8ebdcfbeb5);
    NextWord(block, 75, 0xbe8355ea73129afb, 0x786433dd2fe65556, 0x2cc57475a55e8d8f, 0x4aea9df2b02d6f1e,
             0x82269d4a883a3d99);
    NextWord(block, 76, 0x49e2db8ebdcfbeb5, 0xc54a6eaa24a0552c, 0xb2574ae938d8be89, 0x2cc57475a55e8d8f,
             0xfdf53df3011f362b);
    NextWord(block, 77, 0x82269d4a883a3d99, 0xb3c8f1530bdbaa9e, 0xc1b35a57b16d6aea, 0xb2574ae938d8be89,
             0x464af5671d71c12e);
    NextWord(block, 78, 0xfdf53df3011f362b, 0xbb8abfe56f469338, 0xcc4918b5949206bb, 0xc1b35a57b16d6aea,
             0xe449b68198ec611c);
    NextWord(block, 79, 0x464af5671d71c12e, 0xf63d4265cc1c5a78, 0x5099c3add79f90ec, 0xcc4918b5949206bb,
             0x92aeeed1a7bcf7d2);
  }

  // ---------- the rounds ----------

  ghost predicate Reached(block: seq<bv8>, t: nat, a: bv64, b: bv64, c: bv64, d: bv64,
                          e: bv64, f: bv64, g: bv64, h: bv64)
  {
    |block| == 128 && t <= 80 && Rounds(IV512, block, t) == Vars(a, b, c, d, e, f, g, h)
  }

  lemma Constants0()
    ensures K(0) == 0x428a2f98d728ae22 && K(1) == 0x7137449123ef65cd
  {
  }

  lemma Constants1()
    ensures K(2) == 0xb5c0fbcfec4d3b2f && K(3) == 0xe9b5dba58189dbbc
  {
  }

  lemma Constants2()
    ensures K(4) == 0x3956c25bf348b538 && K(5) == 0x59f111f1b605d019
  {
  }

  lemma Constants3()
    ensures K(6) == 0x923f82a4af194f9b && K(7) == 0xab1c5ed5da6d8118
  {
  }

  lemma Constants4()
    ensures K(8) == 0xd807aa98a3030242 && K(9) == 0x12835b0145706fbe
  {
  }

  lemma Constants5()
    ensures K(10) == 0x243185be4ee4b28c && K(11) == 0x550c7dc3d5ffb4e2
  {
  }

  lemma Constants6()
    ensures K(12) == 0x72be5d74f27b896f && K(13) == 0x80deb1fe3b1696b1
  {
  }

  lemma Constants7()
    ensures K(14) == 0x9bdc06a725c71235 && K(15) == 0xc19bf174cf692694
  {
  }

  lemma Constants8()
    ensures K(16) == 0xe49b69c19ef14ad2 && K(17) == 0xefbe4786384f25e3
  {
  }

  lemma Constants9()
    ensures K(18) == 0x0fc19dc68b8cd5b5 && K(19) == 0x240ca1cc77ac9c65
  {
  }

  lemma Constants10()
    ensures K(20) == 0x2de92c6f592b0275 && K(21) == 0x4a7484aa6ea6e483
  {
  }

  lemma Constants11()
    ensures K(22) == 0x5cb0a9dcbd41fbd4 && K(23) == 0x76f988da831153b5
  {
  }

  lemma Constants12()
    ensures K(24) == 0x983e5152ee66dfab && K(25) == 0xa831c66d2db43210
  {
  }

  lemma Constants13()
    ensures K(26) == 0xb00327c898fb213f && K(27) == 0xbf597fc7beef0ee4
  {
  }

  lemma Constants14()
    ensures K(28) == 0xc6e00bf33da88fc2 && K(29) == 0xd5a79147930aa725
  {
  }

  lemma Constants15()
    ensures K(30) == 0x06ca6351e003826f && K(31) == 0x142929670a0e6e70
  {
  }

  lemma Constants16()
    ensures K(32) == 0x27b70a8546d22ffc && K(33) == 0x2e1b21385c26c926
  {
  }

  lemma Constants17()
    ensures K(34) == 0x4d2c6dfc5ac42aed && K(35) == 0x53380d139d95b3df
  {
  }

  lemma Constants18()
    ensures K(36) == 0x650a73548baf63de && K(37) == 0x766a0abb3c77b2a8
  {
  }

  lemma Constants19()
    ensures K(38) == 0x81c2c92e47edaee6 && K(39) == 0x92722c851482353b
  {
  }

  lemma Constants20()
    ensures K(40) == 0xa2bfe8a14cf10364 && K(41) == 0xa81a664bbc423001
  {
  }

  lemma Constants21()
    ensures K(42) == 0xc24b8b70d0f89791 && K(43) == 0xc76c51a30654be30
  {
  }

  lemma Constants22()
    ensures K(44) == 0xd192e819d6ef5218 && K(45) == 0xd69906245565a910
  {
  }

  lemma Constants23()
    ensures K(46) == 0xf40e35855771202a && K(47) == 0x106aa07032bbd1b8
  {
  }

  lemma Constants24()
    ensures K(48) == 0x19a4c116b8d2d0c8 && K(49) == 0x1e376c085141ab53
  {
  }

  lemma Constants25()
    ensures K(50) == 0x2748774cdf8eeb99 && K(51) == 0x34b0bcb5e19b48a8
  {
  }

  lemma Constants26()
    ensures K(52) == 0x391c0cb3c5c95a63 && K(53) == 0x4ed8aa4ae3418acb
  {
  }

  lemma Constants27()
    ensures K(54) == 0x5b9cca4f7763e373 && K(55) == 0x682e6ff3d6b2b8a3
  {
  }

  lemma Constants28()
    ensures K(56) == 0x748f82ee5defb2fc && K(57) == 0x78a5636f43172f60
  {
  }

  lemma Constants29()
    ensures K(58) == 0x84c87814a1f0ab72 && K(59) == 0x8cc702081a6439ec
  {
  }

  lemma Constants30()
    ensures K(60) == 0x90befffa23631e28 && K(61) == 0xa4506cebde82bde9
  {
  }

  lemma Constants31()
    ensures K(62) == 0xbef9a3f7b2c67915 && K(63) == 0xc67178f2e372532b
  {
  }

  lemma Constants32()
    ensures K(64) == 0xca273eceea26619c && K(65) == 0xd186b8c721c0c207
  {
  }

  lemma Constants33()
    ensures K(66) == 0xeada7dd6cde0eb1e && K(67) == 0xf57d4f7fee6ed178
  {
  }

  lemma Constants34()
    ensures K(68) == 0x06f067aa72176fba && K(69) == 0x0a637dc5a2c898a6
  {
  }

  lemma Constants35()
    ensures K(70) == 0x113f9804bef90dae && K(71) == 0x1b710b35131c471b
  {
  }

  lemma Constants36()
    ensures K(72) == 0x28db77f523047d84 && K(73) == 0x32caab7b40c72493
  {
  }

  lemma Constants37()
    ensures K(74) == 0x3c9ebe0a15c9bebc && K(75) == 0x431d67c49c100d4c
  {
  }

  lemma Constants38()
    ensures K(76) == 0x4cc5d4becb3e42b6 && K(77) == 0x597f299cfc657e2a
  {
  }

  lemma Constants39()
    ensures K(78) == 0x5fcb6fab3ad6faec && K(79) == 0x6c44198c4a475817
  {
  }

  lemma Next(block: seq<bv8>, t: nat, a: bv64, b: bv64, c: bv64, d: bv64, e: bv64, f: bv64, g: bv64, h: bv64,
             k: bv64, w: bv64, a': bv64, e': bv64)
    requires t < 80 && K(t) == k && Reached(block, t, a, b, c, d, e, f, g, h) && Scheduled(block, t, w)
    requires Round(Vars(a, b, c, d, e, f, g, h), k, w) == Vars(a', a, b, c, e', e, f, g)
    ensures Reached(block, t + 1, a', a, b, c, e', e, f, g)
  {
    hide Round, K, W;
  }

  lemma Rounds0(block: seq<bv8>)
    requires block == Block()
    ensures Reached(block, 8, 0x8093d195e0054fa3, 0xc4875b0c7abc076b, 0xaf573b02403e89cd, 0xb680953951604860,
                    0x86f67263a0f0ec0a, 0x5a6c781f54dcc00c, 0x96f60209b6dc35ba, 0x745aca4a342ed2e2)
  {
    hide Reached, Scheduled, Block, K;
    Constants0(); Constants1(); Constants2(); Constants3();
    Begin(block); Words0(block);
    Next(block, 0, 0x6a09e667f3bcc908, 0xbb67ae8584caa73b, 0x3c6ef372fe94f82b, 0xa54ff53a5f1d36f1,
         0x510e527fade682d1, 0x9b05688c2b3e6c1f, 0x1f83d9abfb41bd6b, 0x5be0cd19137e2179,
         0x428a2f98d728ae22, 0x6162638000000000, 0xf6afceb8bcfcddf5, 0x58cb02347ab51f91);
    Next(block, 1, 0xf6afceb8bcfcddf5, 0x6a09e667f3bcc908, 0xbb67ae8584caa73b, 0x3c6ef372fe94f82b,
         0x58cb02347ab51f91, 0x510e527fade682d1, 0x9b05688c2b3e6c1f, 0x1f83d9abfb41bd6b,
         0x7137449123ef65cd, 0x0000000000000000, 0x1320f8c9fb872cc0, 0xc3d4ebfd48650ffa);
    Next(block, 2, 0x1320f8c9fb872cc0, 0xf6afceb8bcfcddf5, 0x6a09e667f3bcc908, 0xbb67ae8584caa73b,
         0xc3d4ebfd48650ffa, 0x58cb02347ab51f91, 0x510e527fade682d1, 0x9b05688c2b3e6c1f,
         0xb5c0fbcfec4d3b2f, 0x0000000000000000, 0xebcffc07203d91f3, 0xdfa9b239f2697812);
    Next(block, 3, 0xebcffc07203d91f3, 0x1320f8c9fb872cc0, 0xf6afceb8bcfcddf5, 0x6a09e667f3bcc908,
         0xdfa9b239f2697812, 0xc3d4ebfd48650ffa, 0x58cb02347ab51f91, 0x510e527fade682d1,
         0xe9b5dba58189dbbc, 0x0000000000000000, 0x5a83cb3e80050e82, 0x0b47b4bb1928990e);
    Next(block, 4, 0x5a83cb3e80050e82, 0xebcffc07203d91f3, 0x1320f8c9fb872cc0, 0xf6afceb8bcfcddf5,
         0x0b47b4bb1928990e, 0xdfa9b239f2697812, 0xc3d4ebfd48650ffa, 0x58cb02347ab51f91,
         0x3956c25bf348b538, 0x0000000000000000, 0xb680953951604860, 0x745aca4a342ed2e2);
    Next(block, 5, 0xb680953951604860, 0x5a83cb3e80050e82, 0xebcffc07203d91f3, 0x1320f8c9fb872cc0,
         0x745aca4a342ed2e2, 0x0b47b4bb1928990e, 0xdfa9b239f2697812, 0xc3d4ebfd48650ffa,
         0x59f111f1b605d019, 0x0000000000000000, 0xaf573b02403e89cd, 0x96f60209b6dc35ba);
    Next(block, 6, 0xaf573b02403e89cd, 0xb680953951604860, 0x5a83cb3e80050e82, 0xebcffc07203d91f3,
         0x96f60209b6dc35ba, 0x745aca4a342ed2e2, 0x0b47b4bb1928990e, 0xdfa9b239f2697812,
         0x923f82a4af194f9b, 0x0000000000000000, 0xc4875b0c7abc076b, 0x5a6c781f54dcc00c);
    Next(block, 7, 0xc4875b0c7abc076b, 0xaf573b02403e89cd, 0xb680953951604860, 0x5a83cb3e80050e82,
         0x5a6c781f54dcc00c, 0x96f60209b6dc35ba, 0x745aca4a342ed2e2, 0x0b47b4bb1928990e,
         0xab1c5ed5da6d8118, 0x0000000000000000, 0x8093d195e0054fa3, 0x86f67263a0f0ec0a);
  }

  lemma Rounds1(block: seq<bv8>)
    requires block == Block()
    ensures Reached(block, 16, 0x0ae07c86b1181c75, 0xfa967eed85a08028, 0x44249631255d2ca0, 0x5e41214388186c14,
                    0xa77b7c035dd4c161, 0x874bfe5f6aae9f2f, 0x860acf9effba6f61, 0xcdf3bff2883fc9d9)
  {
    hide Reached, Scheduled, Block, K;
    Constants4(); Constants5(); Constants6(); Constants7();
    Rounds0(block); Words0(block);
    Next(block, 8, 0x8093d195e0054fa3, 0xc4875b0c7abc076b, 0xaf573b02403e89cd, 0xb680953951604860,
         0x86f67263a0f0ec0a, 0x5a6c781f54dcc00c, 0x96f60209b6dc35ba, 0x745aca4a342ed2e2,
         0xd807aa98a3030242, 0x0000000000000000, 0xf1eca5544cb89225, 0xd0403c398fc40002);
    Next(block, 9, 0xf1eca5544cb89225, 0x8093d195e0054fa3, 0xc4875b0c7abc076b, 0xaf573b02403e89cd,
         0xd0403c398fc40002, 0x86f67263a0f0ec0a, 0x5a6c781f54dcc00c, 0x96f60209b6dc35ba,
         0x12835b0145706fbe, 0x0000000000000000, 0x81782d4a5db48f03, 0x00091f460be46c52);
    Next(block, 10, 0x81782d4a5db48f03, 0xf1eca5544cb89225, 0x8093d195e0054fa3, 0xc4875b0c7abc076b,
         0x00091f460be46c52, 0xd0403c398fc40002, 0x86f67263a0f0ec0a, 0x5a6c781f54dcc00c,
         0x243185be4ee4b28c, 0x0000000000000000, 0x69854c4aa0f25b59, 0xd375471bde1ba3f4);
    Next(block, 11, 0x69854c4aa0f25b59, 0x81782d4a5db48f03, 0xf1eca5544cb89225, 0x8093d195e0054fa3,
         0xd375471bde1ba3f4, 0x00091f460be46c52, 0xd0403c398fc40002, 0x86f67263a0f0ec0a,
         0x550c7dc3d5ffb4e2, 0x0000000000000000, 0xdb0a9963f80c2eaa, 0x475975b91a7a462c);
    Next(block, 12, 0xdb0a9963f80c2eaa, 0x69854c4aa0f25b59, 0x81782d4a5db48f03, 0xf1eca5544cb89225,
         0x475975b91a7a462c, 0xd375471bde1ba3f4, 0x00091f460be46c52, 0xd0403c398fc40002,
         0x72be5d74f27b896f, 0x0000000000000000, 0x5e41214388186c14, 0xcdf3bff2883fc9d9);
    Next(block, 13, 0x5e41214388186c14, 0xdb0a9963f80c2eaa, 0x69854c4aa0f25b59, 0x81782d4a5db48f03,
         0xcdf3bff2883fc9d9, 0x475975b91a7a462c, 0xd375471bde1ba3f4, 0x00091f460be46c52,
         0x80deb1fe3b1696b1, 0x0000000000000000, 0x44249631255d2ca0, 0x860acf9effba6f61);
    Next(block, 14, 0x44249631255d2ca0, 0x5e41214388186c14, 0xdb0a9963f80c2eaa, 0x69854c4aa0f25b59,
         0x860acf9effba6f61, 0xcdf3bff2883fc9d9, 0x475975b91a7a462c, 0xd375471bde1ba3f4,
         0x9bdc06a725c71235, 0x0000000000000000, 0xfa967eed85a08028, 0x874bfe5f6aae9f2f);
    Next(block, 15, 0xfa967eed85a08028, 0x44249631255d2ca0, 0x5e41214388186c14, 0xdb0a9963f80c2eaa,
         0x874bfe5f6aae9f2f, 0x860acf9effba6f61, 0xcdf3bff2883fc9d9, 0x475975b91a7a462c,
         0xc19bf174cf692694, 0x0000000000000018, 0x0ae07c86b1181c75, 0xa77b7c035dd4c161);
  }

  lemma Rounds2(block: seq<bv8>)
    requires block == Block()
    ensures Reached(block, 24, 0x4f6877b58fe55484, 0x3e2644567b709a78, 0xda34d6673d452dcf, 0x8dc5ae65569d3855,
                    0xc66005f87db55233, 0x0ac2b11da8f571c6, 0x8e30ff09ad488753, 0x4bb9e66d1145bfdc)
  {
    hide Reached, Scheduled, Block, K;
    Constants8(); Constants9(); Constants10(); Constants11();
    Rounds1(block); Words1(block);
    Next(block, 16, 0x0ae07c86b1181c75, 0xfa967eed85a08028, 0x44249631255d2ca0, 0x5e41214388186c14,
         0xa77b7c035dd4c161, 0x874bfe5f6aae9f2f, 0x860acf9effba6f61, 0xcdf3bff2883fc9d9,
         0xe49b69c19ef14ad2, 0x6162638000000000, 0xcaf81a425d800537, 0x2deecc6b39d64d78);
    Next(block, 17, 0xcaf81a425d800537, 0x0ae07c86b1181c75, 0xfa967eed85a08028, 0x44249631255d2ca0,
         0x2deecc6b39d64d78, 0xa77b7c035dd4c161, 0x874bfe5f6aae9f2f, 0x860acf9effba6f61,
         0xefbe4786384f25e3, 0x00030000000000c0, 0x4725be249ad19e6b, 0xf47e8353f8047455);
    Next(block, 18, 0x4725be249ad19e6b, 0xcaf81a425d800537, 0x0ae07c86b1181c75, 0xfa967eed85a08028,
         0xf47e8353f8047455, 0x2deecc6b39d64d78, 0xa77b7c035dd4c161, 0x874bfe5f6aae9f2f,
         0x0fc19dc68b8cd5b5, 0x0a9699a24c700003, 0x3c4b4104168e3edb, 0x29695fd88d81dbd0);
    Next(block, 19, 0x3c4b4104168e3edb, 0x4725be249ad19e6b, 0xcaf81a425d800537, 0x0ae07c86b1181c75,
         0x29695fd88d81dbd0, 0xf47e8353f8047455, 0x2deecc6b39d64d78, 0xa77b7c035dd4c161,
         0x240ca1cc77ac9c65, 0x00000c0060000603, 0x9a3fb4d38ab6cf06, 0xf14998dd5f70767e);
    Next(block, 20, 0x9a3fb4d38ab6cf06, 0x3c4b4104168e3edb, 0x4725be249ad19e6b, 0xcaf81a425d800537,
         0xf14998dd5f70767e, 0x29695fd88d81dbd0, 0xf47e8353f8047455, 0x2deecc6b39d64d78,
         0x2de92c6f592b0275, 0x549ef62639858996, 0x8dc5ae65569d3855, 0x4bb9e66d1145bfdc);
    Next(block, 21, 0x8dc5ae65569d3855, 0x9a3fb4d38ab6cf06, 0x3c4b4104168e3edb, 0x4725be249ad19e6b,
         0x4bb9e66d1145bfdc, 0xf14998dd5f70767e, 0x29695fd88d81dbd0, 0xf47e8353f8047455,
         0x4a7484aa6ea6e483, 0x00c0003300003c00, 0xda34d6673d452dcf, 0x8e30ff09ad488753);
    Next(block, 22, 0xda34d6673d452dcf, 0x8dc5ae65569d3855, 0x9a3fb4d38ab6cf06, 0x3c4b4104168e3edb,
         0x8e30ff09ad488753, 0x4bb9e66d1145bfdc, 0xf14998dd5f70767e, 0x29695fd88d81dbd0,
         0x5cb0a9dcbd41fbd4, 0x1497007a8a0e9dbc, 0x3e2644567b709a78, 0x0ac2b11da8f571c6);
    Next(block, 23, 0x3e2644567b709a78, 0xda34d6673d452dcf, 0x8dc5ae65569d3855, 0x9a3fb4d38ab6cf06,
         0x0ac2b11da8f571c6, 0x8e30ff09ad488753, 0x4bb9e66d1145bfdc, 0xf14998dd5f70767e,
         0x76f988da831153b5, 0x62e56500cc0780f0, 0x4f6877b58fe55484, 0xc66005f87db55233);
  }

  lemma Rounds3(block: seq<bv8>)
    requires block == Block()
    ensures Reached(block, 32, 0xff4d3f1f0d46a736, 0x4c4fbbb75f1873a6, 0x74bf40f869094c63, 0xe62349090f47d30a,
                    0x3cd388e119e8162e, 0x73e025d91b9efea3, 0xf0aec2fe1437f085, 0x0fcdf99710f21584)
  {
    hide Reached, Scheduled, Block, K;
    Constants12(); Constants13(); Constants14(); Constants15();
    Rounds2(block); Words2(block);
    Next(block, 24, 0x4f6877b58fe55484, 0x3e2644567b709a78, 0xda34d6673d452dcf, 0x8dc5ae65569d3855,
         0xc66005f87db55233, 0x0ac2b11da8f571c6, 0x8e30ff09ad488753, 0x4bb9e66d1145bfdc,
         0x983e5152ee66dfab, 0x7760dd475a538797, 0x9aff71163fa3a940, 0xd3ecf13769180e6f);
    Next(block, 25, 0x9aff71163fa3a940, 0x4f6877b58fe55484, 0x3e2644567b709a78, 0xda34d6673d452dcf,
         0xd3ecf13769180e6f, 0xc66005f87db55233, 0x0ac2b11da8f571c6, 0x8e30ff09ad488753,
         0xa831c66d2db43210, 0xf1554b711c1c0003, 0x0bc5f791f8e6816b, 0x6ddf1fd7edcce336);
    Next(block, 26, 0x0bc5f791f8e6816b, 0x9aff71163fa3a940, 0x4f6877b58fe55484, 0x3e2644567b709a78,
         0x6ddf1fd7edcce336, 0xd3ecf13769180e6f, 0xc66005f87db55233, 0x0ac2b11da8f571c6,
         0xb00327c898fb213f, 0xca2993a4345d9ff2, 0x884c3bc27bc4f941, 0xe6e48c9a8e948365);
    Next(block, 27, 0x884c3bc27bc4f941, 0x0bc5f791f8e6816b, 0x9aff71163fa3a940, 0x4f6877b58fe55484,
         0xe6e48c9a8e948365, 0x6ddf1fd7edcce336, 0xd3ecf13769180e6f, 0xc66005f87db55233,
         0xbf597fc7beef0ee4, 0x5e0e66b5c783dd32, 0xeab4a9e5771b8d09, 0x09068a4e255a0dac);
    Next(block, 28, 0xeab4a9e5771b8d09, 0x884c3bc27bc4f941, 0x0bc5f791f8e6816b, 0x9aff71163fa3a940,
         0x09068a4e255a0dac, 0xe6e48c9a8e948365, 0x6ddf1fd7edcce336, 0xd3ecf13769180e6f,
         0xc6e00bf33da88fc2, 0xe25a625d00494b62, 0xe62349090f47d30a, 0x0fcdf99710f21584);
    Next(block, 29, 0xe62349090f47d30a, 0xeab4a9e5771b8d09, 0x884c3bc27bc4f941, 0x0bc5f791f8e6816b,
         0x0fcdf99710f21584, 0x09068a4e255a0dac, 0xe6e48c9a8e948365, 0x6ddf1fd7edcce336,
         0xd5a79147930aa725, 0x9f44486fb1e4fbd2, 0x74bf40f869094c63, 0xf0aec2fe1437f085);
    Next(block, 30, 0x74bf40f869094c63, 0xe62349090f47d30a, 0xeab4a9e5771b8d09, 0x884c3bc27bc4f941,
         0xf0aec2fe1437f085, 0x0fcdf99710f21584, 0x09068a4e255a0dac, 0xe6e48c9a8e948365,
         0x06ca6351e003826f, 0xb31b8c2b06085f2f, 0x4c4fbbb75f1873a6, 0x73e025d91b9efea3);
    Next(block, 31, 0x4c4fbbb75f1873a6, 0x74bf40f869094c63, 0xe62349090f47d30a, 0xeab4a9e5771b8d09,
         0x73e025d91b9efea3, 0xf0aec2fe1437f085, 0x0fcdf99710f21584, 0x09068a4e255a0dac,
         0x142929670a0e6e70, 0x0e987660934142f6, 0xff4d3f1f0d46a736, 0x3cd388e119e8162e);
  }

  lemma Rounds4(block: seq<bv8>)
    requires block == Block()
    ensures Reached(block, 40, 0x8e01e125b855d225, 0xb3bb8542b3376de5, 0x002bb8e4cd989567, 0x88df85b0bbe77514,
                    0x0c710a47ba6a567b, 0xb49596c20feba7de, 0x66adcfa249ac7bbd, 0x8fbfd0162bbf4675)
  {
    hide Reached, Scheduled, Block, K;
    Constants16(); Constants17(); Constants18(); Constants19();
    Rounds3(block); Words3(block);
    Next(block, 32, 0xff4d3f1f0d46a736, 0x4c4fbbb75f1873a6, 0x74bf40f869094c63, 0xe62349090f47d30a,
         0x3cd388e119e8162e, 0x73e025d91b9efea3, 0xf0aec2fe1437f085, 0x0fcdf99710f21584,
         0x27b70a8546d22ffc, 0xa4af2cfd09fbb924, 0xa0509015ca08c8d4, 0xe1034573654a106f);
    Next(block, 33, 0xa0509015ca08c8d4, 0xff4d3f1f0d46a736, 0x4c4fbbb75f1873a6, 0x74bf40f869094c63,
         0xe1034573654a106f, 0x3cd388e119e8162e, 0x73e025d91b9efea3, 0xf0aec2fe1437f085,
         0x2e1b21385c26c926, 0xad289e2e0bd53186, 0x60d4e6995ed91fe6, 0xefabbd8bf47c041a);
    Next(block, 34, 0x60d4e6995ed91fe6, 0xa0509015ca08c8d4, 0xff4d3f1f0d46a736, 0x4c4fbbb75f1873a6,
         0xefabbd8bf47c041a, 0xe1034573654a106f, 0x3cd388e119e8162e, 0x73e025d91b9efea3,
         0x4d2c6dfc5ac42aed, 0x3c74563aa2f9673e, 0x2c59ec7743632621, 0x0fbae670fa780fd3);
    Next(block, 35, 0x2c59ec7743632621, 0x60d4e6995ed91fe6, 0xa0509015ca08c8d4, 0xff4d3f1f0d46a736,
         0x0fbae670fa780fd3, 0xefabbd8bf47c041a, 0xe1034573654a106f, 0x3cd388e119e8162e,
         0x53380d139d95b3df, 0x6ccdcd14cc14b53f, 0x1a081afc59fdbc2c, 0xf098082f502b44cd);
    Next(block, 36, 0x1a081afc59fdbc2c, 0x2c59ec7743632621, 0x60d4e6995ed91fe6, 0xa0509015ca08c8d4,
         0xf098082f502b44cd, 0x0fbae670fa780fd3, 0xefabbd8bf47c041a, 0xe1034573654a106f,
         0x650a73548baf63de, 0xc3f925b337f22bde, 0x88df85b0bbe77514, 0x8fbfd0162bbf4675);
    Next(block, 37, 0x88df85b0bbe77514, 0x1a081afc59fdbc2c, 0x2c59ec7743632621, 0x60d4e6995ed91fe6,
         0x8fbfd0162bbf4675, 0xf098082f502b44cd, 0x0fbae670fa780fd3, 0xefabbd8bf47c041a,
         0x766a0abb3c77b2a8, 0x5bcc77a75ad95b54, 0x002bb8e4cd989567, 0x66adcfa249ac7bbd);
    Next(block, 38, 0x002bb8e4cd989567, 0x88df85b0bbe77514, 0x1a081afc59fdbc2c, 0x2c59ec7743632621,
         0x66adcfa249ac7bbd, 0x8fbfd0162bbf4675, 0xf098082f502b44cd, 0x0fbae670fa780fd3,
         0x81c2c92e47edaee6, 0x3ec2257adca09a52, 0xb3bb8542b3376de5, 0xb49596c20feba7de);
    Next(block, 39, 0xb3bb8542b3376de5, 0x002bb8e4cd989567, 0x88df85b0bbe77514, 0x1a081afc59fdbc2c,
         0xb49596c20feba7de, 0x66adcfa249ac7bbd, 0x8fbfd0162bbf4675, 0xf098082f502b44cd,
         0x92722c851482353b, 0x28246960001fc5eb, 0x8e01e125b855d225, 0x0c710a47ba6a567b);
  }

  lemma Rounds5(block: seq<bv8>)
    requires block == Block()
    ensures Reached(block, 48, 0x6b69fc1bb482feac, 0xf61e672694de2d67, 0x021fbadbabab5ac6, 0xc47c9d5c7ea8a234,
                    0x35264334c03ac8ad, 0xc6bc35740d8daa9a, 0xe95c2a57572d64d9, 0x858d832ae0e8911c)
  {
    hide Reached, Scheduled, Block, K;
    Constants20(); Constants21(); Constants22(); Constants23();
    Rounds4(block); Words4(block);
    Next(block, 40, 0x8e01e125b855d225, 0xb3bb8542b3376de5, 0x002bb8e4cd989567, 0x88df85b0bbe77514,
         0x0c710a47ba6a567b, 0xb49596c20feba7de, 0x66adcfa249ac7bbd, 0x8fbfd0162bbf4675,
         0xa2bfe8a14cf10364, 0x04e33a75ce2be88a, 0xb01521dd6a6be12c, 0x169008b3a4bb170b);
    Next(block, 41, 0xb01521dd6a6be12c, 0x8e01e125b855d225, 0xb3bb8542b3376de5, 0x002bb8e4cd989567,
         0x169008b3a4bb170b, 0x0c710a47ba6a567b, 0xb49596c20feba7de, 0x66adcfa249ac7bbd,
         0xa81a664bbc423001, 0x7d5314b3c359e0e7, 0xe96f89dd48cbd851, 0xf0996439e7b50cb1);
    Next(block, 42, 0xe96f89dd48cbd851, 0xb01521dd6a6be12c, 0x8e01e125b855d225, 0xb3bb8542b3376de5,
         0xf0996439e7b50cb1, 0x169008b3a4bb170b, 0x0c710a47ba6a567b, 0xb49596c20feba7de,
         0xc24b8b70d0f89791, 0xaef7a285ff251266, 0xbc05ba8de5d3c480, 0x639cb938e14dc190);
    Next(block, 43, 0xbc05ba8de5d3c480, 0xe96f89dd48cbd851, 0xb01521dd6a6be12c, 0x8e01e125b855d225,
         0x639cb938e14dc190, 0xf0996439e7b50cb1, 0x169008b3a4bb170b, 0x0c710a47ba6a567b,
         0xc76c51a30654be30, 0x0b8472581deea04f, 0x35d7e7f41defcbd5, 0xcc5100997f5710f2);
    Next(block, 44, 0x35d7e7f41defcbd5, 0xbc05ba8de5d3c480, 0xe96f89dd48cbd851, 0xb01521dd6a6be12c,
         0xcc5100997f5710f2, 0x639cb938e14dc190, 0xf0996439e7b50cb1, 0x169008b3a4bb170b,
         0xd192e819d6ef5218, 0xb174e26eddc7b033, 0xc47c9d5c7ea8a234, 0x858d832ae0e8911c);
    Next(block, 45, 0xc47c9d5c7ea8a234, 0x35d7e7f41defcbd5, 0xbc05ba8de5d3c480, 0xe96f89dd48cbd851,
         0x858d832ae0e8911c, 0xcc5100997f5710f2, 0x639cb938e14dc190, 0xf0996439e7b50cb1,
         0xd69906245565a910, 0x5d63bae58ddd88de, 0x021fbadbabab5ac6, 0xe95c2a57572d64d9);
    Next(block, 46, 0x021fbadbabab5ac6, 0xc47c9d5c7ea8a234, 0x35d7e7f41defcbd5, 0xbc05ba8de5d3c480,
         0xe95c2a57572d64d9, 0x858d832ae0e8911c, 0xcc5100997f5710f2, 0x639cb938e14dc190,
         0xf40e35855771202a, 0x4c044007b744ccbb, 0xf61e672694de2d67, 0xc6bc35740d8daa9a);
    Next(block, 47, 0xf61e672694de2d67, 0x021fbadbabab5ac6, 0xc47c9d5c7ea8a234, 0x35d7e7f41defcbd5,
         0xc6bc35740d8daa9a, 0xe95c2a57572d64d9, 0x858d832ae0e8911c, 0xcc5100997f5710f2,
         0x106aa07032bbd1b8, 0xe6a9aa4d74dc7d43, 0x6b69fc1bb482feac, 0x35264334c03ac8ad);
  }

  lemma Rounds6(block: seq<bv8>)
    requires block == Block()
    ensures Reached(block, 56, 0x63b460e42748817e, 0xf650857b5babda4d, 0xd63f68037ddf06aa, 0x03df11b32d42e203,
                    0xc6b4dd2a9931c509, 0x9ccfb31a86df0f86, 0xa6781efe1aa1ce02, 0x504f94e40591cffa)
  {
    hide Reached, Scheduled, Block, K;
    Constants24(); Constants25(); Constants26(); Constants27();
    Rounds5(block); Words5(block);
    Next(block, 48, 0x6b69fc1bb482feac, 0xf61e672694de2d67, 0x021fbadbabab5ac6, 0xc47c9d5c7ea8a234,
         0x35264334c03ac8ad, 0xc6bc35740d8daa9a, 0xe95c2a57572d64d9, 0x858d832ae0e8911c,
         0x19a4c116b8d2d0c8, 0xebeaf1237248019c, 0x571f323d96b3a047, 0x271580ed6c3e5650);
    Next(block, 49, 0x571f323d96b3a047, 0x6b69fc1bb482feac, 0xf61e672694de2d67, 0x021fbadbabab5ac6,
         0x271580ed6c3e5650, 0x35264334c03ac8ad, 0xc6bc35740d8daa9a, 0xe95c2a57572d64d9,
         0x1e376c085141ab53, 0x361e80b2d00f3193, 0xca9bd862c5050918, 0xdfe091dab182e645);
    Next(block, 50, 0xca9bd862c5050918, 0x571f323d96b3a047, 0x6b69fc1bb482feac, 0xf61e672694de2d67,
         0xdfe091dab182e645, 0x271580ed6c3e5650, 0x35264334c03ac8ad, 0xc6bc35740d8daa9a,
         0x2748774cdf8eeb99, 0x2e9839125df3b175, 0x813a43dd2c502043, 0x07a0d8ef821c5e1a);
    Next(block, 51, 0x813a43dd2c502043, 0xca9bd862c5050918, 0x571f323d96b3a047, 0x6b69fc1bb482feac,
         0x07a0d8ef821c5e1a, 0xdfe091dab182e645, 0x271580ed6c3e5650, 0x35264334c03ac8ad,
         0x34b0bcb5e19b48a8, 0x3319629293ad5363, 0xd43f83727325dd77, 0x483f80a82eaee23e);
    Next(block, 52, 0xd43f83727325dd77, 0x813a43dd2c502043, 0xca9bd862c5050918, 0x571f323d96b3a047,
         0x483f80a82eaee23e, 0x07a0d8ef821c5e1a, 0xdfe091dab182e645, 0x271580ed6c3e5650,
         0x391c0cb3c5c95a63, 0x9cbc5d89ac1b89d5, 0x03df11b32d42e203, 0x504f94e40591cffa);
    Next(block, 53, 0x03df11b32d42e203, 0xd43f83727325dd77, 0x813a43dd2c502043, 0xca9bd862c5050918,
         0x504f94e40591cffa, 0x483f80a82eaee23e, 0x07a0d8ef821c5e1a, 0xdfe091dab182e645,
         0x4ed8aa4ae3418acb, 0x275e23ffeeca50b7, 0xd63f68037ddf06aa, 0xa6781efe1aa1ce02);
    Next(block, 54, 0xd63f68037ddf06aa, 0x03df11b32d42e203, 0xd43f83727325dd77, 0x813a43dd2c502043,
         0xa6781efe1aa1ce02, 0x504f94e40591cffa, 0x483f80a82eaee23e, 0x07a0d8ef821c5e1a,
         0x5b9cca4f7763e373, 0x3b80d680bf69ef58, 0xf650857b5babda4d, 0x9ccfb31a86df0f86);
    Next(block, 55, 0xf650857b5babda4d, 0xd63f68037ddf06aa, 0x03df11b32d42e203, 0xd43f83727325dd77,
         0x9ccfb31a86df0f86, 0xa6781efe1aa1ce02, 0x504f94e40591cffa, 0x483f80a82eaee23e,
         0x682e6ff3d6b2b8a3, 0x0d0696933945a125, 0x63b460e42748817e, 0xc6b4dd2a9931c509);
  }

  lemma Rounds7(block: seq<bv8>)
    requires block == Block()
    ensures Reached(block, 64, 0xab44e86276478d85, 0xa81dedbb9f19e643, 0xcfcd928c5424e2b6, 0x3857dfd2fc37d3ba,
                    0xcd881ee59ca6bc53, 0x84058865d60a05fa, 0x09aee5bda1644de5, 0xa6af4e9c9f807e51)
  {
    hide Reached, Scheduled, Block, K;
    Constants28(); Constants29(); Constants30(); Constants31();
    Rounds6(block); Words6(block);
    Next(block, 56, 0x63b460e42748817e, 0xf650857b5babda4d, 0xd63f68037ddf06aa, 0x03df11b32d42e203,
         0xc6b4dd2a9931c509, 0x9ccfb31a86df0f86, 0xa6781efe1aa1ce02, 0x504f94e40591cffa,
         0x748f82ee5defb2fc, 0x7533eabcb786ff00, 0x7a52912943d52b05, 0xd2e89bbd91e00be0);
    Next(block, 57, 0x7a52912943d52b05, 0x63b460e42748817e, 0xf650857b5babda4d, 0xd63f68037ddf06aa,
         0xd2e89bbd91e00be0, 0xc6b4dd2a9931c509, 0x9ccfb31a86df0f86, 0xa6781efe1aa1ce02,
         0x78a5636f43172f60, 0xb89826cee6fbf0e5, 0x4b81c3aec976ea4b, 0x70505988124351ac);
    Next(block, 58, 0x4b81c3aec976ea4b, 0x7a52912943d52b05, 0x63b460e42748817e, 0xf650857b5babda4d,
         0x70505988124351ac, 0xd2e89bbd91e00be0, 0xc6b4dd2a9931c509, 0x9ccfb31a86df0f86,
         0x84c87814a1f0ab72, 0x249b4fbcad623e9f, 0x581ecb3355dcd9b8, 0x6a3c9b0f71c8bf36);
    Next(block, 59, 0x581ecb3355dcd9b8, 0x4b81c3aec976ea4b, 0x7a52912943d52b05, 0x63b460e42748817e,
         0x6a3c9b0f71c8bf36, 0x70505988124351ac, 0xd2e89bbd91e00be0, 0xc6b4dd2a9931c509,
         0x8cc702081a6439ec, 0x4aea9df2b02d6f1e, 0x2c074484ef1eac8c, 0x4797cde4ed370692);
    Next(block, 60, 0x2c074484ef1eac8c, 0x581ecb3355dcd9b8, 0x4b81c3aec976ea4b, 0x7a52912943d52b05,
         0x4797cde4ed370692, 0x6a3c9b0f71c8bf36, 0x70505988124351ac, 0xd2e89bbd91e00be0,
         0x90befffa23631e28, 0x2cc57475a55e8d8f, 0x3857dfd2fc37d3ba, 0xa6af4e9c9f807e51);
    Next(block, 61, 0x3857dfd2fc37d3ba, 0x2c074484ef1eac8c, 0x581ecb3355dcd9b8, 0x4b81c3aec976ea4b,
         0xa6af4e9c9f807e51, 0x4797cde4ed370692, 0x6a3c9b0f71c8bf36, 0x70505988124351ac,
         0xa4506cebde82bde9, 0xb2574ae938d8be89, 0xcfcd928c5424e2b6, 0x09aee5bda1644de5);
    Next(block, 62, 0xcfcd928c5424e2b6, 0x3857dfd2fc37d3ba, 0x2c074484ef1eac8c, 0x581ecb3355dcd9b8,
         0x09aee5bda1644de5, 0xa6af4e9c9f807e51, 0x4797cde4ed370692, 0x6a3c9b0f71c8bf36,
         0xbef9a3f7b2c67915, 0xc1b35a57b16d6aea, 0xa81dedbb9f19e643, 0x84058865d60a05fa);
    Next(block, 63, 0xa81dedbb9f19e643, 0xcfcd928c5424e2b6, 0x3857dfd2fc37d3ba, 0x2c074484ef1eac8c,
         0x84058865d60a05fa, 0x09aee5bda1644de5, 0xa6af4e9c9f807e51, 0x4797cde4ed370692,
         0xc67178f2e372532b, 0xcc4918b5949206bb, 0xab44e86276478d85, 0xcd881ee59ca6bc53);
  }

  lemma Rounds8(block: seq<bv8>)
    requires block == Block()
    ensures Reached(block, 72, 0xf15e9664b2803575, 0x7652c579cb60f19c, 0xfb6aaae5d0b6a447, 0x181839d609c79748,
                    0x947c3dfafee570ef, 0xaff62c9665ff80fa, 0xe3711cb6564d112d, 0x0ada78ba2d446140)
  {
    hide Reached, Scheduled, Block, K;
    Constants32(); Constants33(); Constants34(); Constants35();
    Rounds7(block); Words7(block);
    Next(block, 64, 0xab44e86276478d85, 0xa81dedbb9f19e643, 0xcfcd928c5424e2b6, 0x3857dfd2fc37d3ba,
         0xcd881ee59ca6bc53, 0x84058865d60a05fa, 0x09aee5bda1644de5, 0xa6af4e9c9f807e51,
         0xca273eceea26619c, 0x5099c3add79f90ec, 0x5a806d7e9821a501, 0xaa84b086688a5c45);
    Next(block, 65, 0x5a806d7e9821a501, 0xab44e86276478d85, 0xa81dedbb9f19e643, 0xcfcd928c5424e2b6,
         0xaa84b086688a5c45, 0xcd881ee59ca6bc53, 0x84058865d60a05fa, 0x09aee5bda1644de5,
         0xd186b8c721c0c207, 0x5ea81d78e7660bf1, 0xeeb9c21bb0102598, 0x3b5fed0d6a1f96e1);
    Next(block, 66, 0xeeb9c21bb0102598, 0x5a806d7e9821a501, 0xab44e86276478d85, 0xa81dedbb9f19e643,
         0x3b5fed0d6a1f96e1, 0xaa84b086688a5c45, 0xcd881ee59ca6bc53, 0x84058865d60a05fa,
         0xeada7dd6cde0eb1e, 0xebee6267405ac2a9, 0x46c4210ab2cc155d, 0x29fab5a7bff53366);
    Next(block, 67, 0x46c4210ab2cc155d, 0xeeb9c21bb0102598, 0x5a806d7e9821a501, 0xab44e86276478d85,
         0x29fab5a7bff53366, 0x3b5fed0d6a1f96e1, 0xaa84b086688a5c45, 0xcd881ee59ca6bc53,
         0xf57d4f7fee6ed178, 0xb01f21926108a4ab, 0x54ba35cf56a0340e, 0x1c66f46d95690bcf);
    Next(block, 68, 0x54ba35cf56a0340e, 0x46c4210ab2cc155d, 0xeeb9c21bb0102598, 0x5a806d7e9821a501,
         0x1c66f46d95690bcf, 0x29fab5a7bff53366, 0x3b5fed0d6a1f96e1, 0xaa84b086688a5c45,
         0x06f067aa72176fba, 0x786433dd2fe65556, 0x181839d609c79748, 0x0ada78ba2d446140);
    Next(block, 69, 0x181839d609c79748, 0x54ba35cf56a0340e, 0x46c4210ab2cc155d, 0xeeb9c21bb0102598,
         0x0ada78ba2d446140, 0x1c66f46d95690bcf, 0x29fab5a7bff53366, 0x3b5fed0d6a1f96e1,
         0x0a637dc5a2c898a6, 0xc54a6eaa24a0552c, 0xfb6aaae5d0b6a447, 0xe3711cb6564d112d);
    Next(block, 70, 0xfb6aaae5d0b6a447, 0x181839d609c79748, 0x54ba35cf56a0340e, 0x46c4210ab2cc155d,
         0xe3711cb6564d112d, 0x0ada78ba2d446140, 0x1c66f46d95690bcf, 0x29fab5a7bff53366,
         0x113f9804bef90dae, 0xb3c8f1530bdbaa9e, 0x7652c579cb60f19c, 0xaff62c9665ff80fa);
    Next(block, 71, 0x7652c579cb60f19c, 0xfb6aaae5d0b6a447, 0x181839d609c79748, 0x54ba35cf56a0340e,
         0xaff62c9665ff80fa, 0xe3711cb6564d112d, 0x0ada78ba2d446140, 0x1c66f46d95690bcf,
         0x1b710b35131c471b, 0xbb8abfe56f469338, 0xf15e9664b2803575, 0x947c3dfafee570ef);
  }

  lemma Rounds9(block: seq<bv8>)
    requires block == Block()
    ensures Reached(block, 80, 0x73a54f399fa4b1b2, 0x10d9c4c4295599f6, 0xd67806db8b148677, 0x654ef9abec389ca9,
                    0xd08446aa79693ed7, 0x9bb4d39778c07f9e, 0x25c96a7768fb2aa3, 0xceb9fc3691ce8326)
  {
    hide Reached, Scheduled, Block, K;
    Constants36(); Constants37(); Constants38(); Constants39();
    Rounds8(block); Words8(block);
    Next(block, 72, 0xf15e9664b2803575, 0x7652c579cb60f19c, 0xfb6aaae5d0b6a447, 0x181839d609c79748,
         0x947c3dfafee570ef, 0xaff62c9665ff80fa, 0xe3711cb6564d112d, 0x0ada78ba2d446140,
         0x28db77f523047d84, 0xf63d4265cc1c5a78, 0x358406d165aee9ab, 0x8c7b5fd91a794ca0);
    Next(block, 73, 0x358406d165aee9ab, 0xf15e9664b2803575, 0x7652c579cb60f19c, 0xfb6aaae5d0b6a447,
         0x8c7b5fd91a794ca0, 0x947c3dfafee570ef, 0xaff62c9665ff80fa, 0xe3711cb6564d112d,
         0x32caab7b40c72493, 0xbe8355ea73129afb, 0x20878dcd29cdfaf5, 0x054d3536539948d0);
    Next(block, 74, 0x20878dcd29cdfaf5, 0x358406d165aee9ab, 0xf15e9664b2803575, 0x7652c579cb60f19c,
         0x054d3536539948d0, 0x8c7b5fd91a794ca0, 0x947c3dfafee570ef, 0xaff62c9665ff80fa,
         0x3c9ebe0a15c9bebc, 0x49e2db8ebdcfbeb5, 0x33d48dabb5521de2, 0x2ba18245b50de4cf);
    Next(block, 75, 0x33d48dabb5521de2, 0x20878dcd29cdfaf5, 0x358406d165aee9ab, 0xf15e9664b2803575,
         0x2ba18245b50de4cf, 0x054d3536539948d0, 0x8c7b5fd91a794ca0, 0x947c3dfafee570ef,
         0x431d67c49c100d4c, 0x82269d4a883a3d99, 0xc8960e6be864b916, 0x995019a6ff3ba3de);
    Next(block, 76, 0xc8960e6be864b916, 0x33d48dabb5521de2, 0x20878dcd29cdfaf5, 0x358406d165aee9ab,
         0x995019a6ff3ba3de, 0x2ba18245b50de4cf, 0x054d3536539948d0, 0x8c7b5fd91a794ca0,
         0x4cc5d4becb3e42b6, 0xfdf53df3011f362b, 0x654ef9abec389ca9, 0xceb9fc3691ce8326);
    Next(block, 77, 0x654ef9abec389ca9, 0xc8960e6be864b916, 0x33d48dabb5521de2, 0x20878dcd29cdfaf5,
         0xceb9fc3691ce8326, 0x995019a6ff3ba3de, 0x2ba18245b50de4cf, 0x054d3536539948d0,
         0x597f299cfc657e2a, 0x464af5671d71c12e, 0xd67806db8b148677, 0x25c96a7768fb2aa3);
    Next(block, 78, 0xd67806db8b148677, 0x654ef9abec389ca9, 0xc8960e6be864b916, 0x33d48dabb5521de2,
         0x25c96a7768fb2aa3, 0xceb9fc3691ce8326, 0x995019a6ff3ba3de, 0x2ba18245b50de4cf,
         0x5fcb6fab3ad6faec, 0xe449b68198ec611c, 0x10d9c4c4295599f6, 0x9bb4d39778c07f9e);
    Next(block, 79, 0x10d9c4c4295599f6, 0xd67806db8b148677, 0x654ef9abec389ca9, 0xc8960e6be864b916,
         0x9bb4d39778c07f9e, 0x25c96a7768fb2aa3, 0xceb9fc3691ce8326, 0x995019a6ff3ba3de,
         0x6c44198c4a475817, 0x92aeeed1a7bcf7d2, 0x73a54f399fa4b1b2, 0xd08446aa79693ed7);
  }

  lemma Begin(block: seq<bv8>)
    requires |block| == 128
    ensures Reached(block, 0, 0x6a09e667f3bcc908, 0xbb67ae8584caa73b, 0x3c6ef372fe94f82b, 0xa54ff53a5f1d36f1,
                    0x510e527fade682d1, 0x9b05688c2b3e6c1f, 0x1f83d9abfb41bd6b, 0x5be0cd19137e2179)
  {
  }

  // ---------- the digest ----------

  const FINAL: Vars :=
    Vars(0xddaf35a193617aba, 0xcc417349ae204131, 0x12e6fa4e89a97ea2, 0x0a9eeee64b55d39a,
            0x2192992a274fc1a8, 0x36ba3c23a3feebbd, 0x454d4423643ce80e, 0x2a9ac94fa54ca49f)

  lemma FinalState(block: seq<bv8>)
    requires block == Block()
    ensures Compress(IV512, block) == FINAL
  {
    hide Block, Rounds;
    Rounds9(block);
  }

  /** The bytes of word `i` of a state. */
  lemma WordAt(v: Vars, i: nat, x: bv64, s: seq<bv8>)
    requires i < 8 && |s| == 8 && StateWords(v)[i] == x && forall j :: 0 <= j < 8 ==> ByteOf(x, j) == s[j]
    ensures Serialized(v)[8 * i..8 * i + 8] == s
  {
    hide ByteOf, StateWords;
    var t := Serialized(v)[8 * i..8 * i + 8];
    forall j | 0 <= j < 8
      ensures t[j] == s[j]
    {
      assert (8 * i + j) / 8 == i && (8 * i + j) % 8 == j;
    }
  }

  /** Eight words of bytes in a row. */
  lemma Joined(s: seq<bv8>, s0: seq<bv8>, s1: seq<bv8>, s2: seq<bv8>, s3: seq<bv8>,
               s4: seq<bv8>, s5: seq<bv8>, s6: seq<bv8>, s7: seq<bv8>)
    requires |s| == 64 && s[..8] == s0 && s[8..16] == s1 && s[16..24] == s2 && s[24..32] == s3
    requires s[32..40] == s4 && s[40..48] == s5 && s[48..56] == s6 && s[56..] == s7
    ensures s == s0 + s1 + s2 + s3 + s4 + s5 + s6 + s7
  {
    assert s == s[..32] + s[32..];
    assert s[..32] == s[..8] + s[8..16] + s[16..24] + s[24..32];
    assert s[32..] == s[32..40] + s[40..48] + s[48..56] + s[56..];
  }

  // The published digest, word by word.
  const DIGEST_0: seq<bv8> := [0xdd, 0xaf, 0x35, 0xa1, 0x93, 0x61, 0x7a, 0xba]
  const DIGEST_1: seq<bv8> := [0xcc, 0x41, 0x73, 0x49, 0xae, 0x20, 0x41, 0x31]
  const DIGEST_2: seq<bv8> := [0x12, 0xe6, 0xfa, 0x4e, 0x89, 0xa9, 0x7e, 0xa2]
  const DIGEST_3: seq<bv8> := [0x0a, 0x9e, 0xee, 0xe6, 0x4b, 0x55, 0xd3, 0x9a]
  const DIGEST_4: seq<bv8> := [0x21, 0x92, 0x99, 0x2a, 0x27, 0x4f, 0xc1, 0xa8]
  const DIGEST_5: seq<bv8> := [0x36, 0xba, 0x3c, 0x23, 0xa3, 0xfe, 0xeb, 0xbd]
  const DIGEST_6: seq<bv8> := [0x45, 0x4d, 0x44, 0x23, 0x64, 0x3c, 0xe8, 0x0e]
  const DIGEST_7: seq<bv8> := [0x2a, 0x9a, 0xc9, 0x4f, 0xa5, 0x4c, 0xa4, 0x9f]

  /** The digest of "abc". */
  lemma DigestOfAbc()
    ensures Digest(IV512, ABC) == DIGEST_0 + DIGEST_1 + DIGEST_2 + DIGEST_3 + DIGEST_4 + DIGEST_5 + DIGEST_6 + DIGEST_7
  {
    PaddedAbc();
    FinalState(Block());
    OneBlock(IV512, Block());
    FinalBytes();
  }

  lemma OneBlock(v: Vars, block: seq<bv8>)
    requires |block| == 128
    ensures Fold(v, [block]) == Compress(v, block)
  {
    hide Compress;
    assert [block][..0] == [];
  }

  lemma FirstBytes()
    ensures var s := Serialized(FINAL);
      && s[..8] == DIGEST_0 && s[8..16] == DIGEST_1 && s[16..24] == DIGEST_2 && s[24..32] == DIGEST_3
  {
    hide Serialized;
    WordAt(FINAL, 0, 0xddaf35a193617aba, DIGEST_0);
    WordAt(FINAL, 1, 0xcc417349ae204131, DIGEST_1);
    WordAt(FINAL, 2, 0x12e6fa4e89a97ea2, DIGEST_2);
    WordAt(FINAL, 3, 0x0a9eeee64b55d39a, DIGEST_3);
  }

  lemma LastBytes()
    ensures var s := Serialized(FINAL);
      && s[32..40] == DIGEST_4 && s[40..48] == DIGEST_5
      && s[48..56] == DIGEST_6 && s[56..] == DIGEST_7
  {
    hide Serialized;
    WordAt(FINAL, 4, 0x2192992a274fc1a8, DIGEST_4);
    WordAt(FINAL, 5, 0x36ba3c23a3feebbd, DIGEST_5);
    WordAt(FINAL, 6, 0x454d4423643ce80e, DIGEST_6);
    WordAt(FINAL, 7, 0x2a9ac94fa54ca49f, DIGEST_7);
  }

  lemma FinalBytes()
    ensures Serialized(FINAL) == DIGEST_0 + DIGEST_1 + DIGEST_2 + DIGEST_3 + DIGEST_4 + DIGEST_5 + DIGEST_6 + DIGEST_7
  {
    hide Serialized;
    FirstBytes();
    LastBytes();
    Joined(Serialized(FINAL), DIGEST_0, DIGEST_1, DIGEST_2, DIGEST_3, DIGEST_4, DIGEST_5, DIGEST_6, DIGEST_7);
  }
}
