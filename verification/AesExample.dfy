/**
 * The substitution box of FIPS 197 figure 7, and the worked example of appendix C.1: a key, its
 * expansion and the encryption of one block, step by step.
 */
module AesExample {
  import opened GaloisField
  import opened Aes128
  import opened AesRounds
  import opened AesCipher
  import opened AesKeys

  // ---------- the substitution box ----------

  /** The product with {03}, a generator of the field. */
  function Triple(x: bv8): bv8 { Xtime(x) ^ x }

  ghost predicate Inverses(x: bv8, y: bv8) { Mul(x, y) == 1 }

  lemma TripleIs(x: bv8)
    ensures Mul(3, x) == Triple(x)
  {
    hide Mul, Xtime;
    SmallProducts(x);
  }

  /** From an element and its inverse to three times the one and a third of the other. */
  lemma NextInverse(x: bv8, y: bv8, x': bv8, y': bv8)
    requires Inverses(x, y) && x' == Triple(x) && y == Triple(y')
    ensures Inverses(x', y') && SBox(x') == Affine(y')
  {
    hide Mul, Affine, Triple;
    TripleIs(x);
    TripleIs(y');
    MulCommutes(3, x);
    MulAssociates(x, 3, y');
    InverseIsUnique(x', y');
  }

  lemma BoxOfZero()
    ensures SBox(0x00) == 0x63
  {
    hide Inverse;
    InverseMultiplies(0);
  }

  lemma OneInvertsItself()
    ensures Inverses(0x01, 0x01)
  {
    hide Mul;
    MulOne(1);
  }

  lemma Box0()
    ensures SBox(0x03) == 0x7b && SBox(0x05) == 0x6b && SBox(0x0f) == 0x76 && SBox(0x11) == 0x82
    ensures SBox(0x33) == 0xc3 && SBox(0x55) == 0xfc && SBox(0xff) == 0x16 && SBox(0x1a) == 0xa2
    ensures SBox(0x2e) == 0x31 && SBox(0x72) == 0x40 && SBox(0x96) == 0x90 && SBox(0xa1) == 0x32
    ensures SBox(0xf8) == 0x41 && SBox(0x13) == 0x7d && SBox(0x35) == 0x96 && SBox(0x5f) == 0xcf
    ensures SBox(0xe1) == 0xf8
    ensures Inverses(0xe1, 0x0d)
  {
    OneInvertsItself();
    hide SBox, Inverses;
    NextInverse(0x01, 0x01, 0x03, 0xf6); NextInverse(0x03, 0xf6, 0x05, 0x52);
    NextInverse(0x05, 0x52, 0x0f, 0xc7); NextInverse(0x0f, 0xc7, 0x11, 0xb4);
    NextInverse(0x11, 0xb4, 0x33, 0x6c); NextInverse(0x33, 0x6c, 0x55, 0x24);
    NextInverse(0x55, 0x24, 0xff, 0x1c); NextInverse(0xff, 0x1c, 0x1a, 0xfd);
    NextInverse(0x1a, 0xfd, 0x2e, 0xa2); NextInverse(0x2e, 0xa2, 0x72, 0x97);
    NextInverse(0x72, 0x97, 0x96, 0x84); NextInverse(0x96, 0x84, 0xa1, 0x7c);
    NextInverse(0xa1, 0x7c, 0xf8, 0xdd); NextInverse(0xf8, 0xdd, 0x13, 0x4b);
    NextInverse(0x13, 0x4b, 0x35, 0x39); NextInverse(0x35, 0x39, 0x5f, 0x17);
    NextInverse(0x5f, 0x17, 0xe1, 0x0d);
  }

  lemma Box1()
    ensures SBox(0x38) == 0x07 && SBox(0x48) == 0x52 && SBox(0xd8) == 0x61 && SBox(0x73) == 0x8f
    ensures SBox(0x95) == 0x2a && SBox(0xa4) == 0x49 && SBox(0xf7) == 0x68 && SBox(0x02) == 0x77
    ensures SBox(0x06) == 0x6f && SBox(0x0a) == 0x67 && SBox(0x1e) == 0x72 && SBox(0x22) == 0x93
    ensures SBox(0x66) == 0x33 && SBox(0xaa) == 0xac && SBox(0xe5) == 0xd9 && SBox(0x34) == 0x18
    ensures SBox(0x5c) == 0x4a
    ensures Inverses(0x5c, 0x51)
  {
    Box0();
    hide SBox, Inverses;
    NextInverse(0xe1, 0x0d, 0x38, 0xf2); NextInverse(0x38, 0xf2, 0x48, 0xa7);
    NextInverse(0x48, 0xa7, 0xd8, 0x94); NextInverse(0xd8, 0x94, 0x73, 0x85);
    NextInverse(0x73, 0x85, 0x95, 0x8a); NextInverse(0x95, 0x8a, 0xa4, 0x8f);
    NextInverse(0xa4, 0x8f, 0xf7, 0x8c); NextInverse(0xf7, 0x8c, 0x02, 0x8d);
    NextInverse(0x02, 0x8d, 0x06, 0x7b); NextInverse(0x06, 0x7b, 0x0a, 0x29);
    NextInverse(0x0a, 0x29, 0x1e, 0xee); NextInverse(0x1e, 0xee, 0x22, 0x5a);
    NextInverse(0x22, 0x5a, 0x66, 0x36); NextInverse(0x66, 0x36, 0xaa, 0x12);
    NextInverse(0xaa, 0x12, 0xe5, 0x0e); NextInverse(0xe5, 0x0e, 0x34, 0xf3);
    NextInverse(0x34, 0xf3, 0x5c, 0x51);
  }

  lemma Box2()
    ensures SBox(0xe4) == 0x69 && SBox(0x37) == 0x9a && SBox(0x59) == 0xcb && SBox(0xeb) == 0xe9
    ensures SBox(0x26) == 0xf7 && SBox(0x6a) == 0x02 && SBox(0xbe) == 0xae && SBox(0xd9) == 0x35
    ensures SBox(0x70) == 0x51 && SBox(0x90) == 0x60 && SBox(0xab) == 0x62 && SBox(0xe6) == 0x8e
    ensures SBox(0x31) == 0xc7 && SBox(0x53) == 0xed && SBox(0xf5) == 0xe6 && SBox(0x04) == 0xf2
    ensures SBox(0x0c) == 0xfe
    ensures Inverses(0x0c, 0xb0)
  {
    Box1();
    hide SBox, Inverses;
    NextInverse(0x5c, 0x51, 0xe4, 0xc6); NextInverse(0xe4, 0xc6, 0x37, 0x42);
    NextInverse(0x37, 0x42, 0x59, 0x3e); NextInverse(0x59, 0x3e, 0xeb, 0xe3);
    NextInverse(0xeb, 0xe3, 0x26, 0xa8); NextInverse(0x26, 0xa8, 0x6a, 0x91);
    NextInverse(0x6a, 0x91, 0xbe, 0x86); NextInverse(0xbe, 0x86, 0xd9, 0x8b);
    NextInverse(0xd9, 0x8b, 0x70, 0x79); NextInverse(0x70, 0x79, 0x90, 0xde);
    NextInverse(0x90, 0xde, 0xab, 0x4a); NextInverse(0xab, 0x4a, 0xe6, 0xcf);
    NextInverse(0xe6, 0xcf, 0x31, 0x45); NextInverse(0x31, 0x45, 0x53, 0xca);
    NextInverse(0x53, 0xca, 0xf5, 0x46); NextInverse(0xf5, 0x46, 0x04, 0xcb);
    NextInverse(0x04, 0xcb, 0x0c, 0xb0);
  }

  lemma Box3()
    ensures SBox(0x14) == 0xfa && SBox(0x3c) == 0xeb && SBox(0x44) == 0x1b && SBox(0xcc) == 0x4b
    ensures SBox(0x4f) == 0x84 && SBox(0xd1) == 0x3e && SBox(0x68) == 0x45 && SBox(0xb8) == 0x6c
    ensures SBox(0xd3) == 0x66 && SBox(0x6e) == 0x9f && SBox(0xb2) == 0x37 && SBox(0xcd) == 0xbd
    ensures SBox(0x4c) == 0x29 && SBox(0xd4) == 0x48 && SBox(0x67) == 0x85 && SBox(0xa9) == 0xd3
    ensures SBox(0xe0) == 0xe1
    ensures Inverses(0xe0, 0xb1)
  {
    Box2();
    hide SBox, Inverses;
    NextInverse(0x0c, 0xb0, 0x14, 0x99); NextInverse(0x14, 0x99, 0x3c, 0x77);
    NextInverse(0x3c, 0x77, 0x44, 0x2d); NextInverse(0x44, 0x2d, 0xcc, 0x1b);
    NextInverse(0xcc, 0x1b, 0x4f, 0x09); NextInverse(0x4f, 0x09, 0xd1, 0x07);
    NextInverse(0xd1, 0x07, 0x68, 0xf4); NextInverse(0x68, 0xf4, 0xb8, 0xa5);
    NextInverse(0xb8, 0xa5, 0xd3, 0x63); NextInverse(0xd3, 0x63, 0x6e, 0x21);
    NextInverse(0x6e, 0x21, 0xb2, 0x1f); NextInverse(0xb2, 0x1f, 0xcd, 0xfc);
    NextInverse(0xcd, 0xfc, 0x4c, 0x54); NextInverse(0x4c, 0x54, 0xd4, 0xc5);
    NextInverse(0xd4, 0xc5, 0x67, 0x43); NextInverse(0x67, 0x43, 0xa9, 0xc8);
    NextInverse(0xa9, 0xc8, 0xe0, 0xb1);
  }

  lemma Box4()
    ensures SBox(0x3b) == 0xe2 && SBox(0x4d) == 0xe3 && SBox(0xd7) == 0x0e && SBox(0x62) == 0xaa
    ensures SBox(0xa6) == 0x24 && SBox(0xf1) == 0xa1 && SBox(0x08) == 0x30 && SBox(0x18) == 0xad
    ensures SBox(0x28) == 0x34 && SBox(0x78) == 0xbc && SBox(0x88) == 0xc4 && SBox(0x83) == 0xec
    ensures SBox(0x9e) == 0x0b && SBox(0xb9) == 0x56 && SBox(0xd0) == 0x70 && SBox(0x6b) == 0x7f
    ensures SBox(0xbd) == 0x7a
    ensures Inverses(0xbd, 0xbc)
  {
    Box3();
    hide SBox, Inverses;
    NextInverse(0xe0, 0xb1, 0x3b, 0x6f); NextInverse(0x3b, 0x6f, 0x4d, 0x25);
    NextInverse(0x4d, 0x25, 0xd7, 0xea); NextInverse(0xd7, 0xea, 0x62, 0xaf);
    NextInverse(0x62, 0xaf, 0xa6, 0x65); NextInverse(0xa6, 0x65, 0xf1, 0x23);
    NextInverse(0xf1, 0x23, 0x08, 0xe8); NextInverse(0x08, 0xe8, 0x18, 0x58);
    NextInverse(0x18, 0x58, 0x28, 0xc1); NextInverse(0x28, 0xc1, 0x78, 0xb6);
    NextInverse(0x78, 0xb6, 0x88, 0x9b); NextInverse(0x88, 0x9b, 0x83, 0x80);
    NextInverse(0x83, 0x80, 0x9e, 0x89); NextInverse(0x9e, 0x89, 0xb9, 0x8e);
    NextInverse(0xb9, 0x8e, 0xd0, 0x7a); NextInverse(0xd0, 0x7a, 0x6b, 0xdf);
    NextInverse(0x6b, 0xdf, 0xbd, 0xbc);
  }

  lemma Box5()
    ensures SBox(0xdc) == 0x86 && SBox(0x7f) == 0xd2 && SBox(0x81) == 0x0c && SBox(0x98) == 0x46
    ensures SBox(0xb3) == 0x6d && SBox(0xce) == 0x8b && SBox(0x49) == 0x3b && SBox(0xdb) == 0xb9
    ensures SBox(0x76) == 0x38 && SBox(0x9a) == 0xb8 && SBox(0xb5) == 0xd5 && SBox(0xc4) == 0x1c
    ensures SBox(0x57) == 0x5b && SBox(0xf9) == 0x99 && SBox(0x10) == 0xca && SBox(0x30) == 0x04
    ensures SBox(0x50) == 0x53
    ensures Inverses(0x50, 0xed)
  {
    Box4();
    hide SBox, Inverses;
    NextInverse(0xbd, 0xbc, 0xdc, 0x9d); NextInverse(0xdc, 0x9d, 0x7f, 0x82);
    NextInverse(0x7f, 0x82, 0x81, 0x7e); NextInverse(0x81, 0x7e, 0x98, 0x2a);
    NextInverse(0x98, 0x2a, 0xb3, 0xef); NextInverse(0xb3, 0xef, 0xce, 0xac);
    NextInverse(0xce, 0xac, 0x49, 0x64); NextInverse(0x49, 0x64, 0xdb, 0xd5);
    NextInverse(0xdb, 0xd5, 0x76, 0xba); NextInverse(0x76, 0xba, 0x9a, 0x9f);
    NextInverse(0x9a, 0x9f, 0xb5, 0x75); NextInverse(0xb5, 0x75, 0xc4, 0xda);
    NextInverse(0xc4, 0xda, 0x57, 0xbf); NextInverse(0x57, 0xbf, 0xf9, 0x9c);
    NextInverse(0xf9, 0x9c, 0x10, 0x74); NextInverse(0x10, 0x74, 0x30, 0x2c);
    NextInverse(0x30, 0x2c, 0x50, 0xed);
  }

  lemma Box6()
    ensures SBox(0xf0) == 0x8c && SBox(0x0b) == 0x2b && SBox(0x1d) == 0xa4 && SBox(0x27) == 0xcc
    ensures SBox(0x69) == 0xf9 && SBox(0xbb) == 0xea && SBox(0xd6) == 0xf6 && SBox(0x61) == 0xef
    ensures SBox(0xa3) == 0x0a && SBox(0xfe) == 0xbb && SBox(0x19) == 0xd4 && SBox(0x2b) == 0xf1
    ensures SBox(0x7d) == 0xff && SBox(0x87) == 0x17 && SBox(0x92) == 0x4f && SBox(0xad) == 0x95
    ensures SBox(0xec) == 0xce
    ensures Inverses(0xec, 0x5d)
  {
    Box5();
    hide SBox, Inverses;
    NextInverse(0x50, 0xed, 0xf0, 0x5b); NextInverse(0xf0, 0x5b, 0x0b, 0xc0);
    NextInverse(0x0b, 0xc0, 0x1d, 0x40); NextInverse(0x1d, 0x40, 0x27, 0xc9);
    NextInverse(0x27, 0xc9, 0x69, 0x47); NextInverse(0x69, 0x47, 0xbb, 0x3d);
    NextInverse(0xbb, 0x3d, 0xd6, 0xe2); NextInverse(0xd6, 0xe2, 0x61, 0x5e);
    NextInverse(0x61, 0x5e, 0xa3, 0xc3); NextInverse(0xa3, 0xc3, 0xfe, 0x41);
    NextInverse(0xfe, 0x41, 0x19, 0x3f); NextInverse(0x19, 0x3f, 0x2b, 0x15);
    NextInverse(0x2b, 0x15, 0x7d, 0xfa); NextInverse(0x7d, 0xfa, 0x87, 0x56);
    NextInverse(0x87, 0x56, 0x92, 0x32); NextInverse(0x92, 0x32, 0xad, 0xe7);
    NextInverse(0xad, 0xe7, 0xec, 0x5d);
  }

  lemma Box7()
    ensures SBox(0x2f) == 0x15 && SBox(0x71) == 0xa3 && SBox(0x93) == 0xdc && SBox(0xae) == 0xe4
    ensures SBox(0xe9) == 0x1e && SBox(0x20) == 0xb7 && SBox(0x60) == 0xd0 && SBox(0xa0) == 0xe0
    ensures SBox(0xfb) == 0x0f && SBox(0x16) == 0x47 && SBox(0x3a) == 0x80 && SBox(0x4e) == 0x2f
    ensures SBox(0xd2) == 0xb5 && SBox(0x6d) == 0x3c && SBox(0xb7) == 0xa9 && SBox(0xc2) == 0x25
    ensures SBox(0x5d) == 0x4c
    ensures Inverses(0x5d, 0xec)
  {
    Box6();
    hide SBox, Inverses;
    NextInverse(0xec, 0x5d, 0x2f, 0xc2); NextInverse(0x2f, 0xc2, 0x71, 0xb7);
    NextInverse(0x71, 0xb7, 0x93, 0x6d); NextInverse(0x93, 0x6d, 0xae, 0xd2);
    NextInverse(0xae, 0xd2, 0xe9, 0x4e); NextInverse(0xe9, 0x4e, 0x20, 0x3a);
    NextInverse(0x20, 0x3a, 0x60, 0x16); NextInverse(0x60, 0x16, 0xa0, 0xfb);
    NextInverse(0xa0, 0xfb, 0xfb, 0xa0); NextInverse(0xfb, 0xa0, 0x16, 0x60);
    NextInverse(0x16, 0x60, 0x3a, 0x20); NextInverse(0x3a, 0x20, 0x4e, 0xe9);
    NextInverse(0x4e, 0xe9, 0xd2, 0xae); NextInverse(0xd2, 0xae, 0x6d, 0x93);
    NextInverse(0x6d, 0x93, 0xb7, 0x71); NextInverse(0xb7, 0x71, 0xc2, 0x2f);
    NextInverse(0xc2, 0x2f, 0x5d, 0xec);
  }

  lemma Box8()
    ensures SBox(0xe7) == 0x94 && SBox(0x32) == 0x23 && SBox(0x56) == 0xb1 && SBox(0xfa) == 0x2d
    ensures SBox(0x15) == 0x59 && SBox(0x3f) == 0x75 && SBox(0x41) == 0x83 && SBox(0xc3) == 0x2e
    ensures SBox(0x5e) == 0x58 && SBox(0xe2) == 0x98 && SBox(0x3d) == 0x27 && SBox(0x47) == 0xa0
    ensures SBox(0xc9) == 0xdd && SBox(0x40) == 0x09 && SBox(0xc0) == 0xba && SBox(0x5b) == 0x39
    ensures SBox(0xed) == 0x55
    ensures Inverses(0xed, 0x50)
  {
    Box7();
    hide SBox, Inverses;
    NextInverse(0x5d, 0xec, 0xe7, 0xad); NextInverse(0xe7, 0xad, 0x32, 0x92);
    NextInverse(0x32, 0x92, 0x56, 0x87); NextInverse(0x56, 0x87, 0xfa, 0x7d);
    NextInverse(0xfa, 0x7d, 0x15, 0x2b); NextInverse(0x15, 0x2b, 0x3f, 0x19);
    NextInverse(0x3f, 0x19, 0x41, 0xfe); NextInverse(0x41, 0xfe, 0xc3, 0xa3);
    NextInverse(0xc3, 0xa3, 0x5e, 0x61); NextInverse(0x5e, 0x61, 0xe2, 0xd6);
    NextInverse(0xe2, 0xd6, 0x3d, 0xbb); NextInverse(0x3d, 0xbb, 0x47, 0x69);
    NextInverse(0x47, 0x69, 0xc9, 0x27); NextInverse(0xc9, 0x27, 0x40, 0x1d);
    NextInverse(0x40, 0x1d, 0xc0, 0x0b); NextInverse(0xc0, 0x0b, 0x5b, 0xf0);
    NextInverse(0x5b, 0xf0, 0xed, 0x50);
  }

  lemma Box9()
    ensures SBox(0x2c) == 0x71 && SBox(0x74) == 0x92 && SBox(0x9c) == 0xde && SBox(0xbf) == 0x08
    ensures SBox(0xda) == 0x57 && SBox(0x75) == 0x9d && SBox(0x9f) == 0xdb && SBox(0xba) == 0xf4
    ensures SBox(0xd5) == 0x03 && SBox(0x64) == 0x43 && SBox(0xac) == 0x91 && SBox(0xef) == 0xdf
    ensures SBox(0x2a) == 0xe5 && SBox(0x7e) == 0xf3 && SBox(0x82) == 0x13 && SBox(0x9d) == 0x5e
    ensures SBox(0xbc) == 0x65
    ensures Inverses(0xbc, 0xbd)
  {
    Box8();
    hide SBox, Inverses;
    NextInverse(0xed, 0x50, 0x2c, 0x30); NextInverse(0x2c, 0x30, 0x74, 0x10);
    NextInverse(0x74, 0x10, 0x9c, 0xf9); NextInverse(0x9c, 0xf9, 0xbf, 0x57);
    NextInverse(0xbf, 0x57, 0xda, 0xc4); NextInverse(0xda, 0xc4, 0x75, 0xb5);
    NextInverse(0x75, 0xb5, 0x9f, 0x9a); NextInverse(0x9f, 0x9a, 0xba, 0x76);
    NextInverse(0xba, 0x76, 0xd5, 0xdb); NextInverse(0xd5, 0xdb, 0x64, 0x49);
    NextInverse(0x64, 0x49, 0xac, 0xce); NextInverse(0xac, 0xce, 0xef, 0xb3);
    NextInverse(0xef, 0xb3, 0x2a, 0x98); NextInverse(0x2a, 0x98, 0x7e, 0x81);
    NextInverse(0x7e, 0x81, 0x82, 0x7f); NextInverse(0x82, 0x7f, 0x9d, 0xdc);
    NextInverse(0x9d, 0xdc, 0xbc, 0xbd);
  }

  lemma Box10()
    ensures SBox(0xdf) == 0x9e && SBox(0x7a) == 0xda && SBox(0x8e) == 0x19 && SBox(0x89) == 0xa7
    ensures SBox(0x80) == 0xcd && SBox(0x9b) == 0x14 && SBox(0xb6) == 0x4e && SBox(0xc1) == 0x78
    ensures SBox(0x58) == 0x6a && SBox(0xe8) == 0x9b && SBox(0x23) == 0x26 && SBox(0x65) == 0x4d
    ensures SBox(0xaf) == 0x79 && SBox(0xea) == 0x87 && SBox(0x25) == 0x3f && SBox(0x6f) == 0xa8
    ensures SBox(0xb1) == 0xc8
    ensures Inverses(0xb1, 0xe0)
  {
    Box9();
    hide SBox, Inverses;
    NextInverse(0xbc, 0xbd, 0xdf, 0x6b); NextInverse(0xdf, 0x6b, 0x7a, 0xd0);
    NextInverse(0x7a, 0xd0, 0x8e, 0xb9); NextInverse(0x8e, 0xb9, 0x89, 0x9e);
    NextInverse(0x89, 0x9e, 0x80, 0x83); NextInverse(0x80, 0x83, 0x9b, 0x88);
    NextInverse(0x9b, 0x88, 0xb6, 0x78); NextInverse(0xb6, 0x78, 0xc1, 0x28);
    NextInverse(0xc1, 0x28, 0x58, 0x18); NextInverse(0x58, 0x18, 0xe8, 0x08);
    NextInverse(0xe8, 0x08, 0x23, 0xf1); NextInverse(0x23, 0xf1, 0x65, 0xa6);
    NextInverse(0x65, 0xa6, 0xaf, 0x62); NextInverse(0xaf, 0x62, 0xea, 0xd7);
    NextInverse(0xea, 0xd7, 0x25, 0x4d); NextInverse(0x25, 0x4d, 0x6f, 0x3b);
    NextInverse(0x6f, 0x3b, 0xb1, 0xe0);
  }

  lemma Box11()
    ensures SBox(0xc8) == 0xe8 && SBox(0x43) == 0x1a && SBox(0xc5) == 0xa6 && SBox(0x54) == 0x20
    ensures SBox(0xfc) == 0xb0 && SBox(0x1f) == 0xc0 && SBox(0x21) == 0xfd && SBox(0x63) == 0xfb
    ensures SBox(0xa5) == 0x06 && SBox(0xf4) == 0xbf && SBox(0x07) == 0xc5 && SBox(0x09) == 0x01
    ensures SBox(0x1b) == 0xaf && SBox(0x2d) == 0xd8 && SBox(0x77) == 0xf5 && SBox(0x99) == 0xee
    ensures SBox(0xb0) == 0xe7
    ensures Inverses(0xb0, 0x0c)
  {
    Box10();
    hide SBox, Inverses;
    NextInverse(0xb1, 0xe0, 0xc8, 0xa9); NextInverse(0xc8, 0xa9, 0x43, 0x67);
    NextInverse(0x43, 0x67, 0xc5, 0xd4); NextInverse(0xc5, 0xd4, 0x54, 0x4c);
    NextInverse(0x54, 0x4c, 0xfc, 0xcd); NextInverse(0xfc, 0xcd, 0x1f, 0xb2);
    NextInverse(0x1f, 0xb2, 0x21, 0x6e); NextInverse(0x21, 0x6e, 0x63, 0xd3);
    NextInverse(0x63, 0xd3, 0xa5, 0xb8); NextInverse(0xa5, 0xb8, 0xf4, 0x68);
    NextInverse(0xf4, 0x68, 0x07, 0xd1); NextInverse(0x07, 0xd1, 0x09, 0x4f);
    NextInverse(0x09, 0x4f, 0x1b, 0xcc); NextInverse(0x1b, 0xcc, 0x2d, 0x44);
    NextInverse(0x2d, 0x44, 0x77, 0x3c); NextInverse(0x77, 0x3c, 0x99, 0x14);
    NextInverse(0x99, 0x14, 0xb0, 0x0c);
  }

  lemma Box12()
    ensures SBox(0xcb) == 0x1f && SBox(0x46) == 0x5a && SBox(0xca) == 0x74 && SBox(0x45) == 0x6e
    ensures SBox(0xcf) == 0x8a && SBox(0x4a) == 0xd6 && SBox(0xde) == 0x1d && SBox(0x79) == 0xb6
    ensures SBox(0x8b) == 0x3d && SBox(0x86) == 0x44 && SBox(0x91) == 0x81 && SBox(0xa8) == 0xc2
    ensures SBox(0xe3) == 0x11 && SBox(0x3e) == 0xb2 && SBox(0x42) == 0x2c && SBox(0xc6) == 0xb4
    ensures SBox(0x51) == 0xd1
    ensures Inverses(0x51, 0x5c)
  {
    Box11();
    hide SBox, Inverses;
    NextInverse(0xb0, 0x0c, 0xcb, 0x04); NextInverse(0xcb, 0x04, 0x46, 0xf5);
    NextInverse(0x46, 0xf5, 0xca, 0x53); NextInverse(0xca, 0x53, 0x45, 0x31);
    NextInverse(0x45, 0x31, 0xcf, 0xe6); NextInverse(0xcf, 0xe6, 0x4a, 0xab);
    NextInverse(0x4a, 0xab, 0xde, 0x90); NextInverse(0xde, 0x90, 0x79, 0x70);
    NextInverse(0x79, 0x70, 0x8b, 0xd9); NextInverse(0x8b, 0xd9, 0x86, 0xbe);
    NextInverse(0x86, 0xbe, 0x91, 0x6a); NextInverse(0x91, 0x6a, 0xa8, 0x26);
    NextInverse(0xa8, 0x26, 0xe3, 0xeb); NextInverse(0xe3, 0xeb, 0x3e, 0x59);
    NextInverse(0x3e, 0x59, 0x42, 0x37); NextInverse(0x42, 0x37, 0xc6, 0xe4);
    NextInverse(0xc6, 0xe4, 0x51, 0x5c);
  }

  lemma Box13()
    ensures SBox(0xf3) == 0x0d && SBox(0x0e) == 0xab && SBox(0x12) == 0xc9 && SBox(0x36) == 0x05
    ensures SBox(0x5a) == 0xbe && SBox(0xee) == 0x28 && SBox(0x29) == 0xa5 && SBox(0x7b) == 0x21
    ensures SBox(0x8d) == 0x5d && SBox(0x8c) == 0x64 && SBox(0x8f) == 0x73 && SBox(0x8a) == 0x7e
    ensures SBox(0x85) == 0x97 && SBox(0x94) == 0x22 && SBox(0xa7) == 0x5c && SBox(0xf2) == 0x89
    ensures SBox(0x0d) == 0xd7
    ensures Inverses(0x0d, 0xe1)
  {
    Box12();
    hide SBox, Inverses;
    NextInverse(0x51, 0x5c, 0xf3, 0x34); NextInverse(0xf3, 0x34, 0x0e, 0xe5);
    NextInverse(0x0e, 0xe5, 0x12, 0xaa); NextInverse(0x12, 0xaa, 0x36, 0x66);
    NextInverse(0x36, 0x66, 0x5a, 0x22); NextInverse(0x5a, 0x22, 0xee, 0x1e);
    NextInverse(0xee, 0x1e, 0x29, 0x0a); NextInverse(0x29, 0x0a, 0x7b, 0x06);
    NextInverse(0x7b, 0x06, 0x8d, 0x02); NextInverse(0x8d, 0x02, 0x8c, 0xf7);
    NextInverse(0x8c, 0xf7, 0x8f, 0xa4); NextInverse(0x8f, 0xa4, 0x8a, 0x95);
    NextInverse(0x8a, 0x95, 0x85, 0x73); NextInverse(0x85, 0x73, 0x94, 0xd8);
    NextInverse(0x94, 0xd8, 0xa7, 0x48); NextInverse(0xa7, 0x48, 0xf2, 0x38);
    NextInverse(0xf2, 0x38, 0x0d, 0xe1);
  }

  lemma Box14()
    ensures SBox(0x17) == 0xf0 && SBox(0x39) == 0x12 && SBox(0x4b) == 0xb3 && SBox(0xdd) == 0xc1
    ensures SBox(0x7c) == 0x10 && SBox(0x84) == 0x5f && SBox(0x97) == 0x88 && SBox(0xa2) == 0x3a
    ensures SBox(0xfd) == 0x54 && SBox(0x1c) == 0x9c && SBox(0x24) == 0x36 && SBox(0x6c) == 0x50
    ensures SBox(0xb4) == 0x8d && SBox(0xc7) == 0xc6 && SBox(0x52) == 0x00 && SBox(0xf6) == 0x42
    ensures SBox(0x01) == 0x7c
    ensures Inverses(0x01, 0x01)
  {
    Box13();
    hide SBox, Inverses;
    NextInverse(0x0d, 0xe1, 0x17, 0x5f); NextInverse(0x17, 0x5f, 0x39, 0x35);
    NextInverse(0x39, 0x35, 0x4b, 0x13); NextInverse(0x4b, 0x13, 0xdd, 0xf8);
    NextInverse(0xdd, 0xf8, 0x7c, 0xa1); NextInverse(0x7c, 0xa1, 0x84, 0x96);
    NextInverse(0x84, 0x96, 0x97, 0x72); NextInverse(0x97, 0x72, 0xa2, 0x2e);
    NextInverse(0xa2, 0x2e, 0xfd, 0x1a); NextInverse(0xfd, 0x1a, 0x1c, 0xff);
    NextInverse(0x1c, 0xff, 0x24, 0x55); NextInverse(0x24, 0x55, 0x6c, 0x33);
    NextInverse(0x6c, 0x33, 0xb4, 0x11); NextInverse(0xb4, 0x11, 0xc7, 0x0f);
    NextInverse(0xc7, 0x0f, 0x52, 0x05); NextInverse(0x52, 0x05, 0xf6, 0x03);
    NextInverse(0xf6, 0x03, 0x01, 0x01);
  }

  /** The table of figure 7, row by row. */
  lemma BoxTable()
    ensures SBox(0x00) == 0x63 && SBox(0x01) == 0x7c && SBox(0x02) == 0x77 && SBox(0x03) == 0x7b
    ensures SBox(0x04) == 0xf2 && SBox(0x05) == 0x6b && SBox(0x06) == 0x6f && SBox(0x07) == 0xc5
    ensures SBox(0x08) == 0x30 && SBox(0x09) == 0x01 && SBox(0x0a) == 0x67 && SBox(0x0b) == 0x2b
    ensures SBox(0x0c) == 0xfe && SBox(0x0d) == 0xd7 && SBox(0x0e) == 0xab && SBox(0x0f) == 0x76
    ensures SBox(0x10) == 0xca && SBox(0x11) == 0x82 && SBox(0x12) == 0xc9 && SBox(0x13) == 0x7d
    ensures SBox(0x14) == 0xfa && SBox(0x15) == 0x59 && SBox(0x16) == 0x47 && SBox(0x17) == 0xf0
    ensures SBox(0x18) == 0xad && SBox(0x19) == 0xd4 && SBox(0x1a) == 0xa2 && SBox(0x1b) == 0xaf
    ensures SBox(0x1c) == 0x9c && SBox(0x1d) == 0xa4 && SBox(0x1e) == 0x72 && SBox(0x1f) == 0xc0
    ensures SBox(0x20) == 0xb7 && SBox(0x21) == 0xfd && SBox(0x22) == 0x93 && SBox(0x23) == 0x26
    ensures SBox(0x24) == 0x36 && SBox(0x25) == 0x3f && SBox(0x26) == 0xf7 && SBox(0x27) == 0xcc
    ensures SBox(0x28) == 0x34 && SBox(0x29) == 0xa5 && SBox(0x2a) == 0xe5 && SBox(0x2b) == 0xf1
    ensures SBox(0x2c) == 0x71 && SBox(0x2d) == 0xd8 && SBox(0x2e) == 0x31 && SBox(0x2f) == 0x15
    ensures SBox(0x30) == 0x04 && SBox(0x31) == 0xc7 && SBox(0x32) == 0x23 && SBox(0x33) == 0xc3
    ensures SBox(0x34) == 0x18 && SBox(0x35) == 0x96 && SBox(0x36) == 0x05 && SBox(0x37) == 0x9a
    ensures SBox(0x38) == 0x07 && SBox(0x39) == 0x12 && SBox(0x3a) == 0x80 && SBox(0x3b) == 0xe2
    ensures SBox(0x3c) == 0xeb && SBox(0x3d) == 0x27 && SBox(0x3e) == 0xb2 && SBox(0x3f) == 0x75
    ensures SBox(0x40) == 0x09 && SBox(0x41) == 0x83 && SBox(0x42) == 0x2c && SBox(0x43) == 0x1a
    ensures SBox(0x44) == 0x1b && SBox(0x45) == 0x6e && SBox(0x46) == 0x5a && SBox(0x47) == 0xa0
    ensures SBox(0x48) == 0x52 && SBox(0x49) == 0x3b && SBox(0x4a) == 0xd6 && SBox(0x4b) == 0xb3
    ensures SBox(0x4c) == 0x29 && SBox(0x4d) == 0xe3 && SBox(0x4e) == 0x2f && SBox(0x4f) == 0x84
    ensures SBox(0x50) == 0x53 && SBox(0x51) == 0xd1 && SBox(0x52) == 0x00 && SBox(0x53) == 0xed
    ensures SBox(0x54) == 0x20 && SBox(0x55) == 0xfc && SBox(0x56) == 0xb1 && SBox(0x57) == 0x5b
    ensures SBox(0x58) == 0x6a && SBox(0x59) == 0xcb && SBox(0x5a) == 0xbe && SBox(0x5b) == 0x39
    ensures SBox(0x5c) == 0x4a && SBox(0x5d) == 0x4c && SBox(0x5e) == 0x58 && SBox(0x5f) == 0xcf
    ensures SBox(0x60) == 0xd0 && SBox(0x61) == 0xef && SBox(0x62) == 0xaa && SBox(0x63) == 0xfb
    ensures SBox(0x64) == 0x43 && SBox(0x65) == 0x4d && SBox(0x66) == 0x33 && SBox(0x67) == 0x85
    ensures SBox(0x68) == 0x45 && SBox(0x69) == 0xf9 && SBox(0x6a) == 0x02 && SBox(0x6b) == 0x7f
    ensures SBox(0x6c) == 0x50 && SBox(0x6d) == 0x3c && SBox(0x6e) == 0x9f && SBox(0x6f) == 0xa8
    ensures SBox(0x70) == 0x51 && SBox(0x71) == 0xa3 && SBox(0x72) == 0x40 && SBox(0x73) == 0x8f
    ensures SBox(0x74) == 0x92 && SBox(0x75) == 0x9d && SBox(0x76) == 0x38 && SBox(0x77) == 0xf5
    ensures SBox(0x78) == 0xbc && SBox(0x79) == 0xb6 && SBox(0x7a) == 0xda && SBox(0x7b) == 0x21
    ensures SBox(0x7c) == 0x10 && SBox(0x7d) == 0xff && SBox(0x7e) == 0xf3 && SBox(0x7f) == 0xd2
    ensures SBox(0x80) == 0xcd && SBox(0x81) == 0x0c && SBox(0x82) == 0x13 && SBox(0x83) == 0xec
    ensures SBox(0x84) == 0x5f && SBox(0x85) == 0x97 && SBox(0x86) == 0x44 && SBox(0x87) == 0x17
    ensures SBox(0x88) == 0xc4 && SBox(0x89) == 0xa7 && SBox(0x8a) == 0x7e && SBox(0x8b) == 0x3d
    ensures SBox(0x8c) == 0x64 && SBox(0x8d) == 0x5d && SBox(0x8e) == 0x19 && SBox(0x8f) == 0x73
    ensures SBox(0x90) == 0x60 && SBox(0x91) == 0x81 && SBox(0x92) == 0x4f && SBox(0x93) == 0xdc
    ensures SBox(0x94) == 0x22 && SBox(0x95) == 0x2a && SBox(0x96) == 0x90 && SBox(0x97) == 0x88
    ensures SBox(0x98) == 0x46 && SBox(0x99) == 0xee && SBox(0x9a) == 0xb8 && SBox(0x9b) == 0x14
    ensures SBox(0x9c) == 0xde && SBox(0x9d) == 0x5e && SBox(0x9e) == 0x0b && SBox(0x9f) == 0xdb
    ensures SBox(0xa0) == 0xe0 && SBox(0xa1) == 0x32 && SBox(0xa2) == 0x3a && SBox(0xa3) == 0x0a
    ensures SBox(0xa4) == 0x49 && SBox(0xa5) == 0x06 && SBox(0xa6) == 0x24 && SBox(0xa7) == 0x5c
    ensures SBox(0xa8) == 0xc2 && SBox(0xa9) == 0xd3 && SBox(0xaa) == 0xac && SBox(0xab) == 0x62
    ensures SBox(0xac) == 0x91 && SBox(0xad) == 0x95 && SBox(0xae) == 0xe4 && SBox(0xaf) == 0x79
    ensures SBox(0xb0) == 0xe7 && SBox(0xb1) == 0xc8 && SBox(0xb2) == 0x37 && SBox(0xb3) == 0x6d
    ensures SBox(0xb4) == 0x8d && SBox(0xb5) == 0xd5 && SBox(0xb6) == 0x4e && SBox(0xb7) == 0xa9
    ensures SBox(0xb8) == 0x6c && SBox(0xb9) == 0x56 && SBox(0xba) == 0xf4 && SBox(0xbb) == 0xea
    ensures SBox(0xbc) == 0x65 && SBox(0xbd) == 0x7a && SBox(0xbe) == 0xae && SBox(0xbf) == 0x08
    ensures SBox(0xc0) == 0xba && SBox(0xc1) == 0x78 && SBox(0xc2) == 0x25 && SBox(0xc3) == 0x2e
    ensures SBox(0xc4) == 0x1c && SBox(0xc5) == 0xa6 && SBox(0xc6) == 0xb4 && SBox(0xc7) == 0xc6
    ensures SBox(0xc8) == 0xe8 && SBox(0xc9) == 0xdd && SBox(0xca) == 0x74 && SBox(0xcb) == 0x1f
    ensures SBox(0xcc) == 0x4b && SBox(0xcd) == 0xbd && SBox(0xce) == 0x8b && SBox(0xcf) == 0x8a
    ensures SBox(0xd0) == 0x70 && SBox(0xd1) == 0x3e && SBox(0xd2) == 0xb5 && SBox(0xd3) == 0x66
    ensures SBox(0xd4) == 0x48 && SBox(0xd5) == 0x03 && SBox(0xd6) == 0xf6 && SBox(0xd7) == 0x0e
    ensures SBox(0xd8) == 0x61 && SBox(0xd9) == 0x35 && SBox(0xda) == 0x57 && SBox(0xdb) == 0xb9
    ensures SBox(0xdc) == 0x86 && SBox(0xdd) == 0xc1 && SBox(0xde) == 0x1d && SBox(0xdf) == 0x9e
    ensures SBox(0xe0) == 0xe1 && SBox(0xe1) == 0xf8 && SBox(0xe2) == 0x98 && SBox(0xe3) == 0x11
    ensures SBox(0xe4) == 0x69 && SBox(0xe5) == 0xd9 && SBox(0xe6) == 0x8e && SBox(0xe7) == 0x94
    ensures SBox(0xe8) == 0x9b && SBox(0xe9) == 0x1e && SBox(0xea) == 0x87 && SBox(0xeb) == 0xe9
    ensures SBox(0xec) == 0xce && SBox(0xed) == 0x55 && SBox(0xee) == 0x28 && SBox(0xef) == 0xdf
    ensures SBox(0xf0) == 0x8c && SBox(0xf1) == 0xa1 && SBox(0xf2) == 0x89 && SBox(0xf3) == 0x0d
    ensures SBox(0xf4) == 0xbf && SBox(0xf5) == 0xe6 && SBox(0xf6) == 0x42 && SBox(0xf7) == 0x68
    ensures SBox(0xf8) == 0x41 && SBox(0xf9) == 0x99 && SBox(0xfa) == 0x2d && SBox(0xfb) == 0x0f
    ensures SBox(0xfc) == 0xb0 && SBox(0xfd) == 0x54 && SBox(0xfe) == 0xbb && SBox(0xff) == 0x16
  {
    hide SBox, Inverses;
    BoxOfZero();
    Box0(); Box1(); Box2(); Box3(); Box4();
    Box5(); Box6(); Box7(); Box8(); Box9();
    Box10(); Box11(); Box12(); Box13(); Box14();
  }

  // ---------- the worked example ----------

  function Bytes16(b0: bv8, b1: bv8, b2: bv8, b3: bv8, b4: bv8, b5: bv8, b6: bv8, b7: bv8,
                   b8: bv8, b9: bv8, b10: bv8, b11: bv8, b12: bv8, b13: bv8, b14: bv8, b15: bv8): (s: seq<bv8>)
    ensures |s| == 16
    ensures s[0] == b0 && s[1] == b1 && s[2] == b2 && s[3] == b3 && s[4] == b4 && s[5] == b5 && s[6] == b6 && s[7] == b7
    ensures s[8] == b8 && s[9] == b9 && s[10] == b10 && s[11] == b11
    ensures s[12] == b12 && s[13] == b13 && s[14] == b14 && s[15] == b15
  {
    [b0, b1, b2, b3, b4, b5, b6, b7, b8, b9, b10, b11, b12, b13, b14, b15]
  }

  const PLAINTEXT: seq<bv8> :=
    Bytes16(0x00, 0x11, 0x22, 0x33, 0x44, 0x55, 0x66, 0x77,
            0x88, 0x99, 0xaa, 0xbb, 0xcc, 0xdd, 0xee, 0xff)
  const CIPHERTEXT: seq<bv8> :=
    Bytes16(0x69, 0xc4, 0xe0, 0xd8, 0x6a, 0x7b, 0x04, 0x30,
            0xd8, 0xcd, 0xb7, 0x80, 0x70, 0xb4, 0xc5, 0x5a)

  // The round keys; the first one is the cipher key itself.

  const KEY_0: seq<bv8> :=
    Bytes16(0x00, 0x01, 0x02, 0x03, 0x04, 0x05, 0x06, 0x07,
            0x08, 0x09, 0x0a, 0x0b, 0x0c, 0x0d, 0x0e, 0x0f)
  const KEY_1: seq<bv8> :=
    Bytes16(0xd6, 0xaa, 0x74, 0xfd, 0xd2, 0xaf, 0x72, 0xfa,
            0xda, 0xa6, 0x78, 0xf1, 0xd6, 0xab, 0x76, 0xfe)
  const KEY_2: seq<bv8> :=
    Bytes16(0xb6, 0x92, 0xcf, 0x0b, 0x64, 0x3d, 0xbd, 0xf1,
            0xbe, 0x9b, 0xc5, 0x00, 0x68, 0x30, 0xb3, 0xfe)
  const KEY_3: seq<bv8> :=
    Bytes16(0xb6, 0xff, 0x74, 0x4e, 0xd2, 0xc2, 0xc9, 0xbf,
            0x6c, 0x59, 0x0c, 0xbf, 0x04, 0x69, 0xbf, 0x41)
  const KEY_4: seq<bv8> :=
    Bytes16(0x47, 0xf7, 0xf7, 0xbc, 0x95, 0x35, 0x3e, 0x03,
            0xf9, 0x6c, 0x32, 0xbc, 0xfd, 0x05, 0x8d, 0xfd)
  const KEY_5: seq<bv8> :=
    Bytes16(0x3c, 0xaa, 0xa3, 0xe8, 0xa9, 0x9f, 0x9d, 0xeb,
            0x50, 0xf3, 0xaf, 0x57, 0xad, 0xf6, 0x22, 0xaa)
  const KEY_6: seq<bv8> :=
    Bytes16(0x5e, 0x39, 0x0f, 0x7d, 0xf7, 0xa6, 0x92, 0x96,
            0xa7, 0x55, 0x3d, 0xc1, 0x0a, 0xa3, 0x1f, 0x6b)
  const KEY_7: seq<bv8> :=
    Bytes16(0x14, 0xf9, 0x70, 0x1a, 0xe3, 0x5f, 0xe2, 0x8c,
            0x44, 0x0a, 0xdf, 0x4d, 0x4e, 0xa9, 0xc0, 0x26)
  const KEY_8: seq<bv8> :=
    Bytes16(0x47, 0x43, 0x87, 0x35, 0xa4, 0x1c, 0x65, 0xb9,
            0xe0, 0x16, 0xba, 0xf4, 0xae, 0xbf, 0x7a, 0xd2)
  const KEY_9: seq<bv8> :=
    Bytes16(0x54, 0x99, 0x32, 0xd1, 0xf0, 0x85, 0x57, 0x68,
            0x10, 0x93, 0xed, 0x9c, 0xbe, 0x2c, 0x97, 0x4e)
  const KEY_10: seq<bv8> :=
    Bytes16(0x13, 0x11, 0x1d, 0x7f, 0xe3, 0x94, 0x4a, 0x17,
            0xf3, 0x07, 0xa7, 0x8b, 0x4d, 0x2b, 0x30, 0xc5)

  // The states at the start of each round.

  const START_1: seq<bv8> :=
    Bytes16(0x00, 0x10, 0x20, 0x30, 0x40, 0x50, 0x60, 0x70,
            0x80, 0x90, 0xa0, 0xb0, 0xc0, 0xd0, 0xe0, 0xf0)
  const START_2: seq<bv8> :=
    Bytes16(0x89, 0xd8, 0x10, 0xe8, 0x85, 0x5a, 0xce, 0x68,
            0x2d, 0x18, 0x43, 0xd8, 0xcb, 0x12, 0x8f, 0xe4)
  const START_3: seq<bv8> :=
    Bytes16(0x49, 0x15, 0x59, 0x8f, 0x55, 0xe5, 0xd7, 0xa0,
            0xda, 0xca, 0x94, 0xfa, 0x1f, 0x0a, 0x63, 0xf7)
  const START_4: seq<bv8> :=
    Bytes16(0xfa, 0x63, 0x6a, 0x28, 0x25, 0xb3, 0x39, 0xc9,
            0x40, 0x66, 0x8a, 0x31, 0x57, 0x24, 0x4d, 0x17)
  const START_5: seq<bv8> :=
    Bytes16(0x24, 0x72, 0x40, 0x23, 0x69, 0x66, 0xb3, 0xfa,
            0x6e, 0xd2, 0x75, 0x32, 0x88, 0x42, 0x5b, 0x6c)
  const START_6: seq<bv8> :=
    Bytes16(0xc8, 0x16, 0x77, 0xbc, 0x9b, 0x7a, 0xc9, 0x3b,
            0x25, 0x02, 0x79, 0x92, 0xb0, 0x26, 0x19, 0x96)
  const START_7: seq<bv8> :=
    Bytes16(0xc6, 0x2f, 0xe1, 0x09, 0xf7, 0x5e, 0xed, 0xc3,
            0xcc, 0x79, 0x39, 0x5d, 0x84, 0xf9, 0xcf, 0x5d)
  const START_8: seq<bv8> :=
    Bytes16(0xd1, 0x87, 0x6c, 0x0f, 0x79, 0xc4, 0x30, 0x0a,
            0xb4, 0x55, 0x94, 0xad, 0xd6, 0x6f, 0xf4, 0x1f)
  const START_9: seq<bv8> :=
    Bytes16(0xfd, 0xe3, 0xba, 0xd2, 0x05, 0xe5, 0xd0, 0xd7,
            0x35, 0x47, 0x96, 0x4e, 0xf1, 0xfe, 0x37, 0xf1)
  const START_10: seq<bv8> :=
    Bytes16(0xbd, 0x6e, 0x7c, 0x3d, 0xf2, 0xb5, 0x77, 0x9e,
            0x0b, 0x61, 0x21, 0x6e, 0x8b, 0x10, 0xb6, 0x89)

  /** Column `c` of a state after the key addition. */
  ghost predicate KeyedColumn(d: seq<bv8>, k: seq<bv8>, e: seq<bv8>, c: nat)
    requires |d| == |k| == |e| == 16 && c < 4
  {
    && Add(d[4 * c], k[4 * c]) == e[4 * c] && Add(d[4 * c + 1], k[4 * c + 1]) == e[4 * c + 1]
    && Add(d[4 * c + 2], k[4 * c + 2]) == e[4 * c + 2] && Add(d[4 * c + 3], k[4 * c + 3]) == e[4 * c + 3]
  }

  lemma KeyedIs(d: seq<bv8>, k: seq<bv8>, e: seq<bv8>)
    requires |d| == |k| == |e| == 16
    requires KeyedColumn(d, k, e, 0) && KeyedColumn(d, k, e, 1) && KeyedColumn(d, k, e, 2) && KeyedColumn(d, k, e, 3)
    ensures AddRoundKey(d, k) == e
  {
    hide Add;
    forall i | 0 <= i < 16
      ensures Add(d[i], k[i]) == e[i]
    {
      var c := i / 4;
      assert c == 0 || c == 1 || c == 2 || c == 3;
      assert KeyedColumn(d, k, e, c) && (i == 4 * c || i == 4 * c + 1 || i == 4 * c + 2 || i == 4 * c + 3);
    }
  }

  /** A column of one round: four shifted bytes, four bytes of the round key, and what comes out. */
  ghost predicate ColumnGoes(s0: bv8, s1: bv8, s2: bv8, s3: bv8, k0: bv8, k1: bv8, k2: bv8, k3: bv8,
                             e0: bv8, e1: bv8, e2: bv8, e3: bv8)
  {
    var b0, b1, b2, b3 := SBox(s0), SBox(s1), SBox(s2), SBox(s3);
    && e0 == Add(Mixed0(b0, b1, b2, b3), k0) && e1 == Add(Mixed1(b0, b1, b2, b3), k1)
    && e2 == Add(Mixed2(b0, b1, b2, b3), k2) && e3 == Add(Mixed3(b0, b1, b2, b3), k3)
  }

  lemma Column(s0: bv8, s1: bv8, s2: bv8, s3: bv8, b0: bv8, b1: bv8, b2: bv8, b3: bv8,
               k0: bv8, k1: bv8, k2: bv8, k3: bv8, e0: bv8, e1: bv8, e2: bv8, e3: bv8)
    requires SBox(s0) == b0 && SBox(s1) == b1 && SBox(s2) == b2 && SBox(s3) == b3
    requires e0 == Add(Mixed0(b0, b1, b2, b3), k0) && e1 == Add(Mixed1(b0, b1, b2, b3), k1)
    requires e2 == Add(Mixed2(b0, b1, b2, b3), k2) && e3 == Add(Mixed3(b0, b1, b2, b3), k3)
    ensures ColumnGoes(s0, s1, s2, s3, k0, k1, k2, k3, e0, e1, e2, e3)
  {
    hide SBox, Add, Mixed0, Mixed1, Mixed2, Mixed3;
  }

  /** Four such columns are a round. */
  lemma RoundIs(s: seq<bv8>, k: seq<bv8>, e: seq<bv8>)
    requires |s| == |k| == |e| == 16
    requires ColumnGoes(s[0], s[5], s[10], s[15], k[0], k[1], k[2], k[3], e[0], e[1], e[2], e[3])
    requires ColumnGoes(s[4], s[9], s[14], s[3], k[4], k[5], k[6], k[7], e[4], e[5], e[6], e[7])
    requires ColumnGoes(s[8], s[13], s[2], s[7], k[8], k[9], k[10], k[11], e[8], e[9], e[10], e[11])
    requires ColumnGoes(s[12], s[1], s[6], s[11], k[12], k[13], k[14], k[15], e[12], e[13], e[14], e[15])
    ensures AddRoundKey(MixColumns(ShiftRows(SubBytes(s))), k) == e
  {
    hide SubBytes, ShiftRows, MixColumns, AddRoundKey, SBox, Bytes16, ColumnGoes, KeyedColumn;
    var t := ShiftRows(SubBytes(s));
    SubbedColumns(s, SubBytes(s), t);
    ColumnIs(t, k, e, 0, s[0], s[5], s[10], s[15]);
    ColumnIs(t, k, e, 1, s[4], s[9], s[14], s[3]);
    ColumnIs(t, k, e, 2, s[8], s[13], s[2], s[7]);
    ColumnIs(t, k, e, 3, s[12], s[1], s[6], s[11]);
    KeyedIs(MixColumns(t), k, e);
  }

  lemma ColumnIs(t: seq<bv8>, k: seq<bv8>, e: seq<bv8>, c: nat, s0: bv8, s1: bv8, s2: bv8, s3: bv8)
    requires |t| == |k| == |e| == 16 && c < 4
    requires t[4 * c] == SBox(s0) && t[4 * c + 1] == SBox(s1) && t[4 * c + 2] == SBox(s2) && t[4 * c + 3] == SBox(s3)
    requires ColumnGoes(s0, s1, s2, s3, k[4 * c], k[4 * c + 1], k[4 * c + 2], k[4 * c + 3],
                        e[4 * c], e[4 * c + 1], e[4 * c + 2], e[4 * c + 3])
    ensures KeyedColumn(MixColumns(t), k, e, c)
  {
    hide MixColumns, SBox, Add, Mixed0, Mixed1, Mixed2, Mixed3;
    MixedRows(t, c);
  }

  lemma SubbedColumns(s: seq<bv8>, b: seq<bv8>, t: seq<bv8>)
    requires |s| == 16 && b == SubBytes(s) && t == ShiftRows(b)
    ensures t[0] == SBox(s[0]) && t[1] == SBox(s[5]) && t[2] == SBox(s[10]) && t[3] == SBox(s[15])
    ensures t[4] == SBox(s[4]) && t[5] == SBox(s[9]) && t[6] == SBox(s[14]) && t[7] == SBox(s[3])
    ensures t[8] == SBox(s[8]) && t[9] == SBox(s[13]) && t[10] == SBox(s[2]) && t[11] == SBox(s[7])
    ensures t[12] == SBox(s[12]) && t[13] == SBox(s[1]) && t[14] == SBox(s[6]) && t[15] == SBox(s[11])
  {
    hide SBox;
  }

  lemma Round1()
    ensures AddRoundKey(MixColumns(ShiftRows(SubBytes(START_1))), KEY_1) == START_2
  {
    BoxTable();
    hide SBox, SubBytes, ShiftRows, MixColumns, AddRoundKey, Bytes16, ColumnGoes;
    Column(0x00, 0x50, 0xa0, 0xf0, 0x63, 0x53, 0xe0, 0x8c,
           0xd6, 0xaa, 0x74, 0xfd, 0x89, 0xd8, 0x10, 0xe8);
    Column(0x40, 0x90, 0xe0, 0x30, 0x09, 0x60, 0xe1, 0x04,
           0xd2, 0xaf, 0x72, 0xfa, 0x85, 0x5a, 0xce, 0x68);
    Column(0x80, 0xd0, 0x20, 0x70, 0xcd, 0x70, 0xb7, 0x51,
           0xda, 0xa6, 0x78, 0xf1, 0x2d, 0x18, 0x43, 0xd8);
    Column(0xc0, 0x10, 0x60, 0xb0, 0xba, 0xca, 0xd0, 0xe7,
           0xd6, 0xab, 0x76, 0xfe, 0xcb, 0x12, 0x8f, 0xe4);
    RoundIs(START_1, KEY_1, START_2);
  }

  lemma Round2()
    ensures AddRoundKey(MixColumns(ShiftRows(SubBytes(START_2))), KEY_2) == START_3
  {
    BoxTable();
    hide SBox, SubBytes, ShiftRows, MixColumns, AddRoundKey, Bytes16, ColumnGoes;
    Column(0x89, 0x5a, 0x43, 0xe4, 0xa7, 0xbe, 0x1a, 0x69,
           0xb6, 0x92, 0xcf, 0x0b, 0x49, 0x15, 0x59, 0x8f);
    Column(0x85, 0x18, 0x8f, 0xe8, 0x97, 0xad, 0x73, 0x9b,
           0x64, 0x3d, 0xbd, 0xf1, 0x55, 0xe5, 0xd7, 0xa0);
    Column(0x2d, 0x12, 0x10, 0x68, 0xd8, 0xc9, 0xca, 0x45,
           0xbe, 0x9b, 0xc5, 0x00, 0xda, 0xca, 0x94, 0xfa);
    Column(0xcb, 0xd8, 0xce, 0xd8, 0x1f, 0x61, 0x8b, 0x61,
           0x68, 0x30, 0xb3, 0xfe, 0x1f, 0x0a, 0x63, 0xf7);
    RoundIs(START_2, KEY_2, START_3);
  }

  lemma Round3()
    ensures AddRoundKey(MixColumns(ShiftRows(SubBytes(START_3))), KEY_3) == START_4
  {
    BoxTable();
    hide SBox, SubBytes, ShiftRows, MixColumns, AddRoundKey, Bytes16, ColumnGoes;
    Column(0x49, 0xe5, 0x94, 0xf7, 0x3b, 0xd9, 0x22, 0x68,
           0xb6, 0xff, 0x74, 0x4e, 0xfa, 0x63, 0x6a, 0x28);
    Column(0x55, 0xca, 0x63, 0x8f, 0xfc, 0x74, 0xfb, 0x73,
           0xd2, 0xc2, 0xc9, 0xbf, 0x25, 0xb3, 0x39, 0xc9);
    Column(0xda, 0x0a, 0x59, 0xa0, 0x57, 0x67, 0xcb, 0xe0,
           0x6c, 0x59, 0x0c, 0xbf, 0x40, 0x66, 0x8a, 0x31);
    Column(0x1f, 0x15, 0xd7, 0xfa, 0xc0, 0x59, 0x0e, 0x2d,
           0x04, 0x69, 0xbf, 0x41, 0x57, 0x24, 0x4d, 0x17);
    RoundIs(START_3, KEY_3, START_4);
  }

  lemma Round4()
    ensures AddRoundKey(MixColumns(ShiftRows(SubBytes(START_4))), KEY_4) == START_5
  {
    BoxTable();
    hide SBox, SubBytes, ShiftRows, MixColumns, AddRoundKey, Bytes16, ColumnGoes;
    Column(0xfa, 0xb3, 0x8a, 0x17, 0x2d, 0x6d, 0x7e, 0xf0,
           0x47, 0xf7, 0xf7, 0xbc, 0x24, 0x72, 0x40, 0x23);
    Column(0x25, 0x66, 0x4d, 0x28, 0x3f, 0x33, 0xe3, 0x34,
           0x95, 0x35, 0x3e, 0x03, 0x69, 0x66, 0xb3, 0xfa);
    Column(0x40, 0x24, 0x6a, 0xc9, 0x09, 0x36, 0x02, 0xdd,
           0xf9, 0x6c, 0x32, 0xbc, 0x6e, 0xd2, 0x75, 0x32);
    Column(0x57, 0x63, 0x39, 0x31, 0x5b, 0xfb, 0x12, 0xc7,
           0xfd, 0x05, 0x8d, 0xfd, 0x88, 0x42, 0x5b, 0x6c);
    RoundIs(START_4, KEY_4, START_5);
  }

  lemma Round5()
    ensures AddRoundKey(MixColumns(ShiftRows(SubBytes(START_5))), KEY_5) == START_6
  {
    BoxTable();
    hide SBox, SubBytes, ShiftRows, MixColumns, AddRoundKey, Bytes16, ColumnGoes;
    Column(0x24, 0x66, 0x75, 0x6c, 0x36, 0x33, 0x9d, 0x50,
           0x3c, 0xaa, 0xa3, 0xe8, 0xc8, 0x16, 0x77, 0xbc);
    Column(0x69, 0xd2, 0x5b, 0x23, 0xf9, 0xb5, 0x39, 0x26,
           0xa9, 0x9f, 0x9d, 0xeb, 0x9b, 0x7a, 0xc9, 0x3b);
    Column(0x6e, 0x42, 0x40, 0xfa, 0x9f, 0x2c, 0x09, 0x2d,
           0x50, 0xf3, 0xaf, 0x57, 0x25, 0x02, 0x79, 0x92);
    Column(0x88, 0x72, 0xb3, 0x32, 0xc4, 0x40, 0x6d, 0x23,
           0xad, 0xf6, 0x22, 0xaa, 0xb0, 0x26, 0x19, 0x96);
    RoundIs(START_5, KEY_5, START_6);
  }

  lemma Round6()
    ensures AddRoundKey(MixColumns(ShiftRows(SubBytes(START_6))), KEY_6) == START_7
  {
    BoxTable();
    hide SBox, SubBytes, ShiftRows, MixColumns, AddRoundKey, Bytes16, ColumnGoes;
    Column(0xc8, 0x7a, 0x79, 0x96, 0xe8, 0xda, 0xb6, 0x90,
           0x5e, 0x39, 0x0f, 0x7d, 0xc6, 0x2f, 0xe1, 0x09);
    Column(0x9b, 0x02, 0x19, 0xbc, 0x14, 0x77, 0xd4, 0x65,
           0xf7, 0xa6, 0x92, 0x96, 0xf7, 0x5e, 0xed, 0xc3);
    Column(0x25, 0x26, 0x77, 0x3b, 0x3f, 0xf7, 0xf5, 0xe2,
           0xa7, 0x55, 0x3d, 0xc1, 0xcc, 0x79, 0x39, 0x5d);
    Column(0xb0, 0x16, 0xc9, 0x92, 0xe7, 0x47, 0xdd, 0x4f,
           0x0a, 0xa3, 0x1f, 0x6b, 0x84, 0xf9, 0xcf, 0x5d);
    RoundIs(START_6, KEY_6, START_7);
  }

  lemma Round7()
    ensures AddRoundKey(MixColumns(ShiftRows(SubBytes(START_7))), KEY_7) == START_8
  {
    BoxTable();
    hide SBox, SubBytes, ShiftRows, MixColumns, AddRoundKey, Bytes16, ColumnGoes;
    Column(0xc6, 0x5e, 0x39, 0x5d, 0xb4, 0x58, 0x12, 0x4c,
           0x14, 0xf9, 0x70, 0x1a, 0xd1, 0x87, 0x6c, 0x0f);
    Column(0xf7, 0x79, 0xcf, 0x09, 0x68, 0xb6, 0x8a, 0x01,
           0xe3, 0x5f, 0xe2, 0x8c, 0x79, 0xc4, 0x30, 0x0a);
    Column(0xcc, 0xf9, 0xe1, 0xc3, 0x4b, 0x99, 0xf8, 0x2e,
           0x44, 0x0a, 0xdf, 0x4d, 0xb4, 0x55, 0x94, 0xad);
    Column(0x84, 0x2f, 0xed, 0x5d, 0x5f, 0x15, 0x55, 0x4c,
           0x4e, 0xa9, 0xc0, 0x26, 0xd6, 0x6f, 0xf4, 0x1f);
    RoundIs(START_7, KEY_7, START_8);
  }

  lemma Round8()
    ensures AddRoundKey(MixColumns(ShiftRows(SubBytes(START_8))), KEY_8) == START_9
  {
    BoxTable();
    hide SBox, SubBytes, ShiftRows, MixColumns, AddRoundKey, Bytes16, ColumnGoes;
    Column(0xd1, 0xc4, 0x94, 0x1f, 0x3e, 0x1c, 0x22, 0xc0,
           0x47, 0x43, 0x87, 0x35, 0xfd, 0xe3, 0xba, 0xd2);
    Column(0x79, 0x55, 0xf4, 0x0f, 0xb6, 0xfc, 0xbf, 0x76,
           0xa4, 0x1c, 0x65, 0xb9, 0x05, 0xe5, 0xd0, 0xd7);
    Column(0xb4, 0x6f, 0x6c, 0x0a, 0x8d, 0xa8, 0x50, 0x67,
           0xe0, 0x16, 0xba, 0xf4, 0x35, 0x47, 0x96, 0x4e);
    Column(0xd6, 0x87, 0x30, 0xad, 0xf6, 0x17, 0x04, 0x95,
           0xae, 0xbf, 0x7a, 0xd2, 0xf1, 0xfe, 0x37, 0xf1);
    RoundIs(START_8, KEY_8, START_9);
  }

  lemma Round9()
    ensures AddRoundKey(MixColumns(ShiftRows(SubBytes(START_9))), KEY_9) == START_10
  {
    BoxTable();
    hide SBox, SubBytes, ShiftRows, MixColumns, AddRoundKey, Bytes16, ColumnGoes;
    Column(0xfd, 0xe5, 0x96, 0xf1, 0x54, 0xd9, 0x90, 0xa1,
           0x54, 0x99, 0x32, 0xd1, 0xbd, 0x6e, 0x7c, 0x3d);
    Column(0x05, 0x47, 0x37, 0xd2, 0x6b, 0xa0, 0x9a, 0xb5,
           0xf0, 0x85, 0x57, 0x68, 0xf2, 0xb5, 0x77, 0x9e);
    Column(0x35, 0xfe, 0xba, 0xd7, 0x96, 0xbb, 0xf4, 0x0e,
           0x10, 0x93, 0xed, 0x9c, 0x0b, 0x61, 0x21, 0x6e);
    Column(0xf1, 0xe3, 0xd0, 0x4e, 0xa1, 0x11, 0x70, 0x2f,
           0xbe, 0x2c, 0x97, 0x4e, 0x8b, 0x10, 0xb6, 0x89);
    RoundIs(START_9, KEY_9, START_10);
  }

  lemma FirstAddition()
    ensures AddRoundKey(PLAINTEXT, KEY_0) == START_1
  {
    hide Bytes16, AddRoundKey;
    KeyedIs(PLAINTEXT, KEY_0, START_1);
  }

  lemma LastColumn(t: seq<bv8>, k: seq<bv8>, e: seq<bv8>, c: nat, s0: bv8, s1: bv8, s2: bv8, s3: bv8,
                   b0: bv8, b1: bv8, b2: bv8, b3: bv8)
    requires |t| == |k| == |e| == 16 && c < 4
    requires t[4 * c] == SBox(s0) && t[4 * c + 1] == SBox(s1) && t[4 * c + 2] == SBox(s2) && t[4 * c + 3] == SBox(s3)
    requires SBox(s0) == b0 && SBox(s1) == b1 && SBox(s2) == b2 && SBox(s3) == b3
    requires Add(b0, k[4 * c]) == e[4 * c] && Add(b1, k[4 * c + 1]) == e[4 * c + 1]
    requires Add(b2, k[4 * c + 2]) == e[4 * c + 2] && Add(b3, k[4 * c + 3]) == e[4 * c + 3]
    ensures KeyedColumn(t, k, e, c)
  {
    hide SBox, Add;
  }

  lemma LastRound()
    ensures AddRoundKey(ShiftRows(SubBytes(START_10)), KEY_10) == CIPHERTEXT
  {
    hide SBox, SubBytes, ShiftRows, AddRoundKey, Bytes16, KeyedColumn;
    var t := ShiftRows(SubBytes(START_10));
    SubbedColumns(START_10, SubBytes(START_10), t);
    BoxTable();
    LastColumn(t, KEY_10, CIPHERTEXT, 0, 0xbd, 0xb5, 0x21, 0x89, 0x7a, 0xd5, 0xfd, 0xa7);
    LastColumn(t, KEY_10, CIPHERTEXT, 1, 0xf2, 0x61, 0xb6, 0x3d, 0x89, 0xef, 0x4e, 0x27);
    LastColumn(t, KEY_10, CIPHERTEXT, 2, 0x0b, 0x10, 0x7c, 0x9e, 0x2b, 0xca, 0x10, 0x0b);
    LastColumn(t, KEY_10, CIPHERTEXT, 3, 0x8b, 0x6e, 0x77, 0x6e, 0x3d, 0x9f, 0xf5, 0x9f);
    KeyedIs(t, KEY_10, CIPHERTEXT);
  }

  // ---------- the key expansion ----------

  /** Bytes 16r to 16r + 15 of the schedule of `key` are `k`. */
  ghost predicate KeyListed(key: seq<bv8>, r: nat, k: seq<bv8>) {
    |k| == |key| == 16 && forall i :: 0 <= i < 16 ==> KeyByte(key, 16 * r + i) == k[i]
  }

  /** A word of the next round key from the word before it and the word above it. */
  ghost predicate WordGoes(p: seq<bv8>, k: seq<bv8>, i: nat)
    requires |p| == |k| == 16 && 4 <= i <= 12
  {
    && k[i] == Add(p[i], k[i - 4]) && k[i + 1] == Add(p[i + 1], k[i - 3])
    && k[i + 2] == Add(p[i + 2], k[i - 2]) && k[i + 3] == Add(p[i + 3], k[i - 1])
  }

  /** The four bytes of a word of the schedule. */
  ghost predicate WordListed(key: seq<bv8>, r: nat, k: seq<bv8>, i: nat)
    requires |key| == |k| == 16 && i <= 12
  {
    && KeyByte(key, 16 * r + i) == k[i] && KeyByte(key, 16 * r + i + 1) == k[i + 1]
    && KeyByte(key, 16 * r + i + 2) == k[i + 2] && KeyByte(key, 16 * r + i + 3) == k[i + 3]
  }

  lemma ListedAt(key: seq<bv8>, r: nat, k: seq<bv8>, i: nat, n: nat)
    requires KeyListed(key, r, k) && i < 16 && n == 16 * r + i
    ensures KeyByte(key, n) == k[i]
  {
    hide KeyByte;
  }

  ghost predicate ConstantIs(r: nat, c: bv8) { 1 <= r <= 10 && RCON[r - 1] == c }

  lemma Constants()
    ensures ConstantIs(1, 0x01) && ConstantIs(2, 0x02) && ConstantIs(3, 0x04) && ConstantIs(4, 0x08)
    ensures ConstantIs(5, 0x10) && ConstantIs(6, 0x20) && ConstantIs(7, 0x40) && ConstantIs(8, 0x80)
    ensures ConstantIs(9, 0x1b) && ConstantIs(10, 0x36)
  {
  }

  lemma FirstWordWith(key: seq<bv8>, r: nat, i: nat, c: bv8)
    requires |key| == 16 && 1 <= r <= 10 && i < 4 && ConstantIs(r, c)
    ensures KeyByte(key, 16 * r + i) == Add(KeyByte(key, 16 * r + i - 16),
      Add(SBox(KeyByte(key, if i == 3 then 16 * r - 4 else 16 * r + i - 3)), if i == 0 then c else 0))
  {
    hide SBox, Add, KeyByte;
    FirstWord(key, r, i);
  }

  /** Byte `i` of the first word: from the byte above it and the byte `j` of the last word, rotated. */
  lemma FirstByte(key: seq<bv8>, r: nat, p: seq<bv8>, k: seq<bv8>, i: nat, j: nat, c: bv8, x: bv8)
    requires 1 <= r <= 10 && |key| == |p| == |k| == 16 && KeyListed(key, r - 1, p) && ConstantIs(r, c)
    requires i < 4 && j == (if i == 3 then 12 else 13 + i) && x == if i == 0 then c else 0
    requires k[i] == Add(p[i], Add(SBox(p[j]), x))
    ensures KeyByte(key, 16 * r + i) == k[i]
  {
    hide *;
    FirstWordWith(key, r, i, c);
    ListedAt(key, r - 1, p, i, 16 * r + i - 16);
    ListedAt(key, r - 1, p, j, if i == 3 then 16 * r - 4 else 16 * r + i - 3);
  }

  /** The first word of the next round key from the last word of `p`, rotated, and the word above it. */
  ghost predicate FirstGoes(p: seq<bv8>, k: seq<bv8>, c: bv8)
    requires |p| == |k| == 16
  {
    && k[0] == Add(p[0], Add(SBox(p[13]), c)) && k[1] == Add(p[1], Add(SBox(p[14]), 0))
    && k[2] == Add(p[2], Add(SBox(p[15]), 0)) && k[3] == Add(p[3], Add(SBox(p[12]), 0))
  }

  lemma FirstBytes(key: seq<bv8>, r: nat, p: seq<bv8>, k: seq<bv8>, c: bv8)
    requires 1 <= r <= 10 && |key| == |p| == |k| == 16
    requires KeyListed(key, r - 1, p) && ConstantIs(r, c) && FirstGoes(p, k, c)
    ensures WordListed(key, r, k, 0)
  {
    hide SBox, Add, KeyByte, KeyListed, ConstantIs;
    FirstByte(key, r, p, k, 0, 13, c, c); FirstByte(key, r, p, k, 1, 14, c, 0);
    FirstByte(key, r, p, k, 2, 15, c, 0); FirstByte(key, r, p, k, 3, 12, c, 0);
  }

  lemma LaterBytes(key: seq<bv8>, r: nat, p: seq<bv8>, k: seq<bv8>, i: nat)
    requires 1 <= r <= 10 && KeyListed(key, r - 1, p) && |k| == 16 && 4 <= i <= 12
    requires WordListed(key, r, k, i - 4) && WordGoes(p, k, i)
    ensures WordListed(key, r, k, i)
  {
    assert |key| == |p| == 16;
    hide Add, KeyByte, KeyListed;
    var b := 16 * r;
    LaterWord(key, r, i); LaterWord(key, r, i + 1); LaterWord(key, r, i + 2); LaterWord(key, r, i + 3);
    ListedAt(key, r - 1, p, i, b + i - 16); ListedAt(key, r - 1, p, i + 1, b + i - 15);
    ListedAt(key, r - 1, p, i + 2, b + i - 14); ListedAt(key, r - 1, p, i + 3, b + i - 13);
  }

  lemma AllBytes(key: seq<bv8>, r: nat, k: seq<bv8>)
    requires |key| == |k| == 16
    requires WordListed(key, r, k, 0) && WordListed(key, r, k, 4)
    requires WordListed(key, r, k, 8) && WordListed(key, r, k, 12)
    ensures KeyListed(key, r, k)
  {
    hide KeyByte;
  }

  lemma OwnKey(key: seq<bv8>)
    requires |key| == 16
    ensures KeyListed(key, 0, key)
  {
    hide KeyByte;
    OwnBytes(key);
  }

  lemma NextKey(key: seq<bv8>, r: nat, p: seq<bv8>, k: seq<bv8>, c: bv8)
    requires 1 <= r <= 10 && |key| == |p| == |k| == 16 && KeyListed(key, r - 1, p) && ConstantIs(r, c)
    requires FirstGoes(p, k, c) && WordGoes(p, k, 4) && WordGoes(p, k, 8) && WordGoes(p, k, 12)
    ensures KeyListed(key, r, k)
  {
    hide SBox, Add, KeyByte;
    FirstBytes(key, r, p, k, c);
    hide *;
    LaterBytes(key, r, p, k, 4);
    LaterBytes(key, r, p, k, 8);
    LaterBytes(key, r, p, k, 12);
    AllBytes(key, r, k);
  }

  lemma Key1()
    ensures KeyListed(KEY_0, 1, KEY_1)
  {
    hide SBox, Bytes16, KeyListed, KeyByte, ConstantIs;
    OwnKey(KEY_0);
    BoxTable();
    Constants();
    NextKey(KEY_0, 1, KEY_0, KEY_1, 0x01);
  }

  lemma Key2()
    ensures KeyListed(KEY_0, 2, KEY_2)
  {
    hide SBox, Bytes16, KeyListed, KeyByte, ConstantIs;
    Key1();
    BoxTable();
    Constants();
    NextKey(KEY_0, 2, KEY_1, KEY_2, 0x02);
  }

  lemma Key3()
    ensures KeyListed(KEY_0, 3, KEY_3)
  {
    hide SBox, Bytes16, KeyListed, KeyByte, ConstantIs;
    Key2();
    BoxTable();
    Constants();
    NextKey(KEY_0, 3, KEY_2, KEY_3, 0x04);
  }

  lemma Key4()
    ensures KeyListed(KEY_0, 4, KEY_4)
  {
    hide SBox, Bytes16, KeyListed, KeyByte, ConstantIs;
    Key3();
    BoxTable();
    Constants();
    NextKey(KEY_0, 4, KEY_3, KEY_4, 0x08);
  }

  lemma Key5()
    ensures KeyListed(KEY_0, 5, KEY_5)
  {
    hide SBox, Bytes16, KeyListed, KeyByte, ConstantIs;
    Key4();
    BoxTable();
    Constants();
    NextKey(KEY_0, 5, KEY_4, KEY_5, 0x10);
  }

  lemma Key6()
    ensures KeyListed(KEY_0, 6, KEY_6)
  {
    hide SBox, Bytes16, KeyListed, KeyByte, ConstantIs;
    Key5();
    BoxTable();
    Constants();
    NextKey(KEY_0, 6, KEY_5, KEY_6, 0x20);
  }

  lemma Key7()
    ensures KeyListed(KEY_0, 7, KEY_7)
  {
    hide SBox, Bytes16, KeyListed, KeyByte, ConstantIs;
    Key6();
    BoxTable();
    Constants();
    NextKey(KEY_0, 7, KEY_6, KEY_7, 0x40);
  }

  lemma Key8()
    ensures KeyListed(KEY_0, 8, KEY_8)
  {
    hide SBox, Bytes16, KeyListed, KeyByte, ConstantIs;
    Key7();
    BoxTable();
    Constants();
    NextKey(KEY_0, 8, KEY_7, KEY_8, 0x80);
  }

  lemma Key9()
    ensures KeyListed(KEY_0, 9, KEY_9)
  {
    hide SBox, Bytes16, KeyListed, KeyByte, ConstantIs;
    Key8();
    BoxTable();
    Constants();
    NextKey(KEY_0, 9, KEY_8, KEY_9, 0x1b);
  }

  lemma Key10()
    ensures KeyListed(KEY_0, 10, KEY_10)
  {
    hide SBox, Bytes16, KeyListed, KeyByte, ConstantIs;
    Key9();
    BoxTable();
    Constants();
    NextKey(KEY_0, 10, KEY_9, KEY_10, 0x36);
  }

  lemma ListedIs(key: seq<bv8>, r: nat, k: seq<bv8>)
    requires r <= 10 && KeyListed(key, r, k)
    ensures RoundKey(Schedule(key), r) == k
  {
    hide KeyByte;
  }

  /** Appendix A.1 of FIPS 197 in the form of appendix C.1: the expansion of the key. */
  lemma ExpansionExample()
    ensures var keys := Schedule(KEY_0);
      && RoundKey(keys, 0) == KEY_0 && RoundKey(keys, 1) == KEY_1 && RoundKey(keys, 2) == KEY_2
      && RoundKey(keys, 3) == KEY_3 && RoundKey(keys, 4) == KEY_4 && RoundKey(keys, 5) == KEY_5
      && RoundKey(keys, 6) == KEY_6 && RoundKey(keys, 7) == KEY_7 && RoundKey(keys, 8) == KEY_8
      && RoundKey(keys, 9) == KEY_9 && RoundKey(keys, 10) == KEY_10
  {
    hide KeyListed, Schedule, RoundKey, Bytes16;
    OwnKey(KEY_0);
    ListedIs(KEY_0, 0, KEY_0);
    Key1(); ListedIs(KEY_0, 1, KEY_1);
    Key2(); ListedIs(KEY_0, 2, KEY_2);
    Key3(); ListedIs(KEY_0, 3, KEY_3);
    Key4(); ListedIs(KEY_0, 4, KEY_4);
    Key5(); ListedIs(KEY_0, 5, KEY_5);
    Key6(); ListedIs(KEY_0, 6, KEY_6);
    Key7(); ListedIs(KEY_0, 7, KEY_7);
    Key8(); ListedIs(KEY_0, 8, KEY_8);
    Key9(); ListedIs(KEY_0, 9, KEY_9);
    Key10(); ListedIs(KEY_0, 10, KEY_10);
  }

  lemma StateStep(block: seq<bv8>, keys: seq<bv8>, r: nat, s: seq<bv8>, k: seq<bv8>, e: seq<bv8>)
    requires |block| == 16 && |keys| == 176 && 1 <= r <= 9 && |s| == |k| == 16 && RoundKey(keys, r) == k
    requires Rounds(block, keys, r - 1) == s && AddRoundKey(MixColumns(ShiftRows(SubBytes(s))), k) == e
    ensures Rounds(block, keys, r) == e
  {
    hide RoundKey, SubBytes, ShiftRows, MixColumns, AddRoundKey;
  }

  lemma StateEnds(block: seq<bv8>, keys: seq<bv8>, s: seq<bv8>, e: seq<bv8>)
    requires |block| == 16 && |keys| == 176 && Rounds(block, keys, 9) == s
    requires AddRoundKey(ShiftRows(SubBytes(s)), RoundKey(keys, 10)) == e
    ensures Cipher(block, keys) == e
  {
    hide RoundKey, SubBytes, ShiftRows, AddRoundKey, Rounds;
  }

  lemma StateStarts(block: seq<bv8>, keys: seq<bv8>)
    requires |block| == 16 && |keys| == 176
    ensures Rounds(block, keys, 0) == AddRoundKey(block, RoundKey(keys, 0))
  {
    hide RoundKey, AddRoundKey;
  }

  /** Appendix C.1: the block encrypts to the listed one under the listed key, and decrypts back. */
  lemma CipherExample()
    ensures Cipher(PLAINTEXT, Schedule(KEY_0)) == CIPHERTEXT
    ensures InvCipher(CIPHERTEXT, Schedule(KEY_0)) == PLAINTEXT
  {
    hide Schedule, RoundKey, SubBytes, ShiftRows, MixColumns, AddRoundKey, Bytes16, Rounds, Cipher, InvCipher;
    var keys := Schedule(KEY_0);
    ExpansionExample();
    FirstAddition();
    StateStarts(PLAINTEXT, keys);
    Round1(); StateStep(PLAINTEXT, keys, 1, START_1, KEY_1, START_2);
    Round2(); StateStep(PLAINTEXT, keys, 2, START_2, KEY_2, START_3);
    Round3(); StateStep(PLAINTEXT, keys, 3, START_3, KEY_3, START_4);
    Round4(); StateStep(PLAINTEXT, keys, 4, START_4, KEY_4, START_5);
    Round5(); StateStep(PLAINTEXT, keys, 5, START_5, KEY_5, START_6);
    Round6(); StateStep(PLAINTEXT, keys, 6, START_6, KEY_6, START_7);
    Round7(); StateStep(PLAINTEXT, keys, 7, START_7, KEY_7, START_8);
    Round8(); StateStep(PLAINTEXT, keys, 8, START_8, KEY_8, START_9);
    Round9(); StateStep(PLAINTEXT, keys, 9, START_9, KEY_9, START_10);
    LastRound();
    StateEnds(PLAINTEXT, keys, START_10, CIPHERTEXT);
    DecryptUndoesEncrypt(PLAINTEXT, keys);
  }
}
