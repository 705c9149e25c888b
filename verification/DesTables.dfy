/** The tables of DES: bit numbers count from the least significant end. */
module DesTables {
  import opened DesShuffle

  /** The initial permutation. */
  const IP_SHUFFLE: Table :=
    [ 6, 14, 22, 30, 38, 46, 54, 62] +
    [ 4, 12, 20, 28, 36, 44, 52, 60] +
    [ 2, 10, 18, 26, 34, 42, 50, 58] +
    [ 0,  8, 16, 24, 32, 40, 48, 56] +
    [ 7, 15, 23, 31, 39, 47, 55, 63] +
    [ 5, 13, 21, 29, 37, 45, 53, 61] +
    [ 3, 11, 19, 27, 35, 43, 51, 59] +
    [ 1,  9, 17, 25, 33, 41, 49, 57]

  /** The permutation after the S-boxes. */
  const P_SHUFFLE: Table :=
    [16, 25, 12, 11] +
    [ 3, 20,  4, 15] +
    [31, 17,  9,  6] +
    [27, 14,  1, 22] +
    [30, 24,  8, 18] +
    [ 0,  5, 29, 23] +
    [13, 19,  2, 26] +
    [10, 21, 28,  7]

  /** The choice of key bits. */
  const PC1_SHUFFLE: Table :=
    [ 7, 15, 23, 31, 39, 47, 55] +
    [63,  6, 14, 22, 30, 38, 46] +
    [54, 62,  5, 13, 21, 29, 37] +
    [45, 53, 61,  4, 12, 20, 28] +
    [ 1,  9, 17, 25, 33, 41, 49] +
    [57,  2, 10, 18, 26, 34, 42] +
    [50, 58,  3, 11, 19, 27, 35] +
    [43, 51, 59, 36, 44, 52, 60]

  /** The choice of round key bits. */
  const PC2_SHUFFLE: Table :=
    [42, 39, 45, 32, 55, 51] +
    [53, 28, 41, 50, 35, 46] +
    [33, 37, 44, 52, 30, 48] +
    [40, 49, 29, 36, 43, 54] +
    [15,  4, 25, 19,  9,  1] +
    [26, 16,  5, 11, 23,  8] +
    [12,  7, 17,  0, 22,  3] +
    [10, 14,  6, 20, 27, 24]

  // ------------------------------------------------------------------ what the tables list

  lemma Lengths()
    ensures |IP_SHUFFLE| == 64 && |P_SHUFFLE| == 32 && |PC1_SHUFFLE| == 56 && |PC2_SHUFFLE| == 48
  {}

  lemma Empty()
    ensures Mask([]) == 0
  {}

  lemma RowMask(a: bv6, b: bv6, c: bv6, d: bv6, e: bv6, f: bv6, g: bv6, h: bv6)
    ensures Mask([a, b, c, d, e, f, g, h])
         == Or(BitAt(h), Or(BitAt(g), Or(BitAt(f), Or(BitAt(e), Or(BitAt(d), Or(BitAt(c), Or(BitAt(b), Or(BitAt(a), 0))))))))
  {
    hide Or, BitAt, Mask, Separate;
    Empty();
    MaskPush([], a);
    MaskPush([a], b);
    MaskPush([a, b], c);
    MaskPush([a, b, c], d);
    MaskPush([a, b, c, d], e);
    MaskPush([a, b, c, d, e], f);
    MaskPush([a, b, c, d, e, f], g);
    MaskPush([a, b, c, d, e, f, g], h);
    assert [] + [a] == [a] && [a] + [b] == [a, b] && [a, b] + [c] == [a, b, c] && [a, b, c] + [d] == [a, b, c, d];
    assert [a, b, c, d] + [e] == [a, b, c, d, e] && [a, b, c, d, e] + [f] == [a, b, c, d, e, f];
    assert [a, b, c, d, e, f] + [g] == [a, b, c, d, e, f, g] && [a, b, c, d, e, f, g] + [h] == [a, b, c, d, e, f, g, h];
  }

  lemma IpBits0() ensures Or(BitAt(62), Or(BitAt(54), Or(BitAt(46), Or(BitAt(38), Or(BitAt(30), Or(BitAt(22), Or(BitAt(14), Or(BitAt(6), 0)))))))) == 0x4040404040404040 {}

  lemma IpRow0()
    ensures Mask([ 6, 14, 22, 30, 38, 46, 54, 62]) == 0x4040404040404040 && Separate([ 6, 14, 22, 30, 38, 46, 54, 62])
  {
    hide Mask, Separate, Or, BitAt;
    IpBits0();
    RowMask(6, 14, 22, 30, 38, 46, 54, 62);
    DistinctSeparate([ 6, 14, 22, 30, 38, 46, 54, 62]);
  }

  lemma IpBits1() ensures Or(BitAt(60), Or(BitAt(52), Or(BitAt(44), Or(BitAt(36), Or(BitAt(28), Or(BitAt(20), Or(BitAt(12), Or(BitAt(4), 0)))))))) == 0x1010101010101010 {}

  lemma IpRow1()
    ensures Mask([ 4, 12, 20, 28, 36, 44, 52, 60]) == 0x1010101010101010 && Separate([ 4, 12, 20, 28, 36, 44, 52, 60])
  {
    hide Mask, Separate, Or, BitAt;
    IpBits1();
    RowMask(4, 12, 20, 28, 36, 44, 52, 60);
    DistinctSeparate([ 4, 12, 20, 28, 36, 44, 52, 60]);
  }

  lemma IpBits2() ensures Or(BitAt(58), Or(BitAt(50), Or(BitAt(42), Or(BitAt(34), Or(BitAt(26), Or(BitAt(18), Or(BitAt(10), Or(BitAt(2), 0)))))))) == 0x0404040404040404 {}

  lemma IpRow2()
    ensures Mask([ 2, 10, 18, 26, 34, 42, 50, 58]) == 0x0404040404040404 && Separate([ 2, 10, 18, 26, 34, 42, 50, 58])
  {
    hide Mask, Separate, Or, BitAt;
    IpBits2();
    RowMask(2, 10, 18, 26, 34, 42, 50, 58);
    DistinctSeparate([ 2, 10, 18, 26, 34, 42, 50, 58]);
  }

  lemma IpBits3() ensures Or(BitAt(56), Or(BitAt(48), Or(BitAt(40), Or(BitAt(32), Or(BitAt(24), Or(BitAt(16), Or(BitAt(8), Or(BitAt(0), 0)))))))) == 0x0101010101010101 {}

  lemma IpRow3()
    ensures Mask([ 0,  8, 16, 24, 32, 40, 48, 56]) == 0x0101010101010101 && Separate([ 0,  8, 16, 24, 32, 40, 48, 56])
  {
    hide Mask, Separate, Or, BitAt;
    IpBits3();
    RowMask(0, 8, 16, 24, 32, 40, 48, 56);
    DistinctSeparate([ 0,  8, 16, 24, 32, 40, 48, 56]);
  }

  lemma IpBits4() ensures Or(BitAt(63), Or(BitAt(55), Or(BitAt(47), Or(BitAt(39), Or(BitAt(31), Or(BitAt(23), Or(BitAt(15), Or(BitAt(7), 0)))))))) == 0x8080808080808080 {}

  lemma IpRow4()
    ensures Mask([ 7, 15, 23, 31, 39, 47, 55, 63]) == 0x8080808080808080 && Separate([ 7, 15, 23, 31, 39, 47, 55, 63])
  {
    hide Mask, Separate, Or, BitAt;
    IpBits4();
    RowMask(7, 15, 23, 31, 39, 47, 55, 63);
    DistinctSeparate([ 7, 15, 23, 31, 39, 47, 55, 63]);
  }

  lemma IpBits5() ensures Or(BitAt(61), Or(BitAt(53), Or(BitAt(45), Or(BitAt(37), Or(BitAt(29), Or(BitAt(21), Or(BitAt(13), Or(BitAt(5), 0)))))))) == 0x2020202020202020 {}

  lemma IpRow5()
    ensures Mask([ 5, 13, 21, 29, 37, 45, 53, 61]) == 0x2020202020202020 && Separate([ 5, 13, 21, 29, 37, 45, 53, 61])
  {
    hide Mask, Separate, Or, BitAt;
    IpBits5();
    RowMask(5, 13, 21, 29, 37, 45, 53, 61);
    DistinctSeparate([ 5, 13, 21, 29, 37, 45, 53, 61]);
  }

  lemma IpBits6() ensures Or(BitAt(59), Or(BitAt(51), Or(BitAt(43), Or(BitAt(35), Or(BitAt(27), Or(BitAt(19), Or(BitAt(11), Or(BitAt(3), 0)))))))) == 0x0808080808080808 {}

  lemma IpRow6()
    ensures Mask([ 3, 11, 19, 27, 35, 43, 51, 59]) == 0x0808080808080808 && Separate([ 3, 11, 19, 27, 35, 43, 51, 59])
  {
    hide Mask, Separate, Or, BitAt;
    IpBits6();
    RowMask(3, 11, 19, 27, 35, 43, 51, 59);
    DistinctSeparate([ 3, 11, 19, 27, 35, 43, 51, 59]);
  }

  lemma IpBits7() ensures Or(BitAt(57), Or(BitAt(49), Or(BitAt(41), Or(BitAt(33), Or(BitAt(25), Or(BitAt(17), Or(BitAt(9), Or(BitAt(1), 0)))))))) == 0x0202020202020202 {}

  lemma IpRow7()
    ensures Mask([ 1,  9, 17, 25, 33, 41, 49, 57]) == 0x0202020202020202 && Separate([ 1,  9, 17, 25, 33, 41, 49, 57])
  {
    hide Mask, Separate, Or, BitAt;
    IpBits7();
    RowMask(1, 9, 17, 25, 33, 41, 49, 57);
    DistinctSeparate([ 1,  9, 17, 25, 33, 41, 49, 57]);
  }

  /** The initial permutation lists every bit exactly once. */
  lemma IpListsAll()
    ensures Mask(IP_SHUFFLE) == ONES && Separate(IP_SHUFFLE)
  {
    hide Mask, Separate;
    IpRow0(); IpRow1(); IpRow2(); IpRow3(); IpRow4(); IpRow5(); IpRow6(); IpRow7();
    var r0, r1, r2, r3 := [ 6, 14, 22, 30, 38, 46, 54, 62], [ 4, 12, 20, 28, 36, 44, 52, 60], [ 2, 10, 18, 26, 34, 42, 50, 58], [ 0,  8, 16, 24, 32, 40, 48, 56];
    var r4, r5, r6, r7 := [ 7, 15, 23, 31, 39, 47, 55, 63], [ 5, 13, 21, 29, 37, 45, 53, 61], [ 3, 11, 19, 27, 35, 43, 51, 59], [ 1,  9, 17, 25, 33, 41, 49, 57];
    MaskConcat(r0, r1);
    SeparateConcat(r0, r1);
    MaskConcat(r0 + r1, r2);
    SeparateConcat(r0 + r1, r2);
    MaskConcat(r0 + r1 + r2, r3);
    SeparateConcat(r0 + r1 + r2, r3);
    MaskConcat(r0 + r1 + r2 + r3, r4);
    SeparateConcat(r0 + r1 + r2 + r3, r4);
    MaskConcat(r0 + r1 + r2 + r3 + r4, r5);
    SeparateConcat(r0 + r1 + r2 + r3 + r4, r5);
    MaskConcat(r0 + r1 + r2 + r3 + r4 + r5, r6);
    SeparateConcat(r0 + r1 + r2 + r3 + r4 + r5, r6);
    MaskConcat(r0 + r1 + r2 + r3 + r4 + r5 + r6, r7);
    SeparateConcat(r0 + r1 + r2 + r3 + r4 + r5 + r6, r7);
  }
}
