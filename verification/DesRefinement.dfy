/** The cipher is the one of the standard: for every block and every key, in both directions. */
module DesRefinement {
  import opened DesShuffle
  import opened DesTables
  import opened DesBoxes
  import opened DesCipher
  import opened DesCrypt
  import opened DesStandard
  import opened DesBits

  // ------------------------------------------------------------------ the tables

  lemma MirrorsBoth(a: Table, s: seq<nat>, b: Table, u: seq<nat>, n: nat)
    requires Mirrors(a, s, n) && Mirrors(b, u, n)
    ensures Mirrors(a + b, s + u, n)
  {}

  lemma IpMirrors()
    ensures Mirrors(IP_SHUFFLE, IP, 64)
  {
    var t0, s0 := [6, 14, 22, 30, 38, 46, 54, 62], [58, 50, 42, 34, 26, 18, 10, 2];
    var t1, s1 := [4, 12, 20, 28, 36, 44, 52, 60], [60, 52, 44, 36, 28, 20, 12, 4];
    var t2, s2 := [2, 10, 18, 26, 34, 42, 50, 58], [62, 54, 46, 38, 30, 22, 14, 6];
    var t3, s3 := [0, 8, 16, 24, 32, 40, 48, 56], [64, 56, 48, 40, 32, 24, 16, 8];
    var t4, s4 := [7, 15, 23, 31, 39, 47, 55, 63], [57, 49, 41, 33, 25, 17, 9, 1];
    var t5, s5 := [5, 13, 21, 29, 37, 45, 53, 61], [59, 51, 43, 35, 27, 19, 11, 3];
    var t6, s6 := [3, 11, 19, 27, 35, 43, 51, 59], [61, 53, 45, 37, 29, 21, 13, 5];
    var t7, s7 := [1, 9, 17, 25, 33, 41, 49, 57], [63, 55, 47, 39, 31, 23, 15, 7];
    assert Mirrors(t0, s0, 64);
    assert Mirrors(t1, s1, 64);
    assert Mirrors(t2, s2, 64);
    assert Mirrors(t3, s3, 64);
    assert Mirrors(t4, s4, 64);
    assert Mirrors(t5, s5, 64);
    assert Mirrors(t6, s6, 64);
    assert Mirrors(t7, s7, 64);
    hide Mirrors;
    MirrorsBoth(t0, s0, t1, s1, 64);
    MirrorsBoth(t0 + t1, s0 + s1, t2, s2, 64);
    MirrorsBoth(t0 + t1 + t2, s0 + s1 + s2, t3, s3, 64);
    MirrorsBoth(t0 + t1 + t2 + t3, s0 + s1 + s2 + s3, t4, s4, 64);
    MirrorsBoth(t0 + t1 + t2 + t3 + t4, s0 + s1 + s2 + s3 + s4, t5, s5, 64);
    MirrorsBoth(t0 + t1 + t2 + t3 + t4 + t5, s0 + s1 + s2 + s3 + s4 + s5, t6, s6, 64);
    MirrorsBoth(t0 + t1 + t2 + t3 + t4 + t5 + t6, s0 + s1 + s2 + s3 + s4 + s5 + s6, t7, s7, 64);
  }

  lemma PMirrors()
    ensures Mirrors(P_SHUFFLE, P, 32)
  {
    var t0, s0 := [16, 25, 12, 11], [16, 7, 20, 21];
    var t1, s1 := [3, 20, 4, 15], [29, 12, 28, 17];
    var t2, s2 := [31, 17, 9, 6], [1, 15, 23, 26];
    var t3, s3 := [27, 14, 1, 22], [5, 18, 31, 10];
    var t4, s4 := [30, 24, 8, 18], [2, 8, 24, 14];
    var t5, s5 := [0, 5, 29, 23], [32, 27, 3, 9];
    var t6, s6 := [13, 19, 2, 26], [19, 13, 30, 6];
    var t7, s7 := [10, 21, 28, 7], [22, 11, 4, 25];
    assert Mirrors(t0, s0, 32);
    assert Mirrors(t1, s1, 32);
    assert Mirrors(t2, s2, 32);
    assert Mirrors(t3, s3, 32);
    assert Mirrors(t4, s4, 32);
    assert Mirrors(t5, s5, 32);
    assert Mirrors(t6, s6, 32);
    assert Mirrors(t7, s7, 32);
    hide Mirrors;
    MirrorsBoth(t0, s0, t1, s1, 32);
    MirrorsBoth(t0 + t1, s0 + s1, t2, s2, 32);
    MirrorsBoth(t0 + t1 + t2, s0 + s1 + s2, t3, s3, 32);
    MirrorsBoth(t0 + t1 + t2 + t3, s0 + s1 + s2 + s3, t4, s4, 32);
    MirrorsBoth(t0 + t1 + t2 + t3 + t4, s0 + s1 + s2 + s3 + s4, t5, s5, 32);
    MirrorsBoth(t0 + t1 + t2 + t3 + t4 + t5, s0 + s1 + s2 + s3 + s4 + s5, t6, s6, 32);
    MirrorsBoth(t0 + t1 + t2 + t3 + t4 + t5 + t6, s0 + s1 + s2 + s3 + s4 + s5 + s6, t7, s7, 32);
  }

  lemma Pc1Mirrors()
    ensures Mirrors(PC1_SHUFFLE, PC1, 64)
  {
    var t0, s0 := [7, 15, 23, 31, 39, 47, 55], [57, 49, 41, 33, 25, 17, 9];
    var t1, s1 := [63, 6, 14, 22, 30, 38, 46], [1, 58, 50, 42, 34, 26, 18];
    var t2, s2 := [54, 62, 5, 13, 21, 29, 37], [10, 2, 59, 51, 43, 35, 27];
    var t3, s3 := [45, 53, 61, 4, 12, 20, 28], [19, 11, 3, 60, 52, 44, 36];
    var t4, s4 := [1, 9, 17, 25, 33, 41, 49], [63, 55, 47, 39, 31, 23, 15];
    var t5, s5 := [57, 2, 10, 18, 26, 34, 42], [7, 62, 54, 46, 38, 30, 22];
    var t6, s6 := [50, 58, 3, 11, 19, 27, 35], [14, 6, 61, 53, 45, 37, 29];
    var t7, s7 := [43, 51, 59, 36, 44, 52, 60], [21, 13, 5, 28, 20, 12, 4];
    assert Mirrors(t0, s0, 64);
    assert Mirrors(t1, s1, 64);
    assert Mirrors(t2, s2, 64);
    assert Mirrors(t3, s3, 64);
    assert Mirrors(t4, s4, 64);
    assert Mirrors(t5, s5, 64);
    assert Mirrors(t6, s6, 64);
    assert Mirrors(t7, s7, 64);
    hide Mirrors;
    MirrorsBoth(t0, s0, t1, s1, 64);
    MirrorsBoth(t0 + t1, s0 + s1, t2, s2, 64);
    MirrorsBoth(t0 + t1 + t2, s0 + s1 + s2, t3, s3, 64);
    MirrorsBoth(t0 + t1 + t2 + t3, s0 + s1 + s2 + s3, t4, s4, 64);
    MirrorsBoth(t0 + t1 + t2 + t3 + t4, s0 + s1 + s2 + s3 + s4, t5, s5, 64);
    MirrorsBoth(t0 + t1 + t2 + t3 + t4 + t5, s0 + s1 + s2 + s3 + s4 + s5, t6, s6, 64);
    MirrorsBoth(t0 + t1 + t2 + t3 + t4 + t5 + t6, s0 + s1 + s2 + s3 + s4 + s5 + s6, t7, s7, 64);
  }

  lemma Pc2Mirrors()
    ensures Mirrors(PC2_SHUFFLE, PC2, 56)
  {
    var t0, s0 := [42, 39, 45, 32, 55, 51], [14, 17, 11, 24, 1, 5];
    var t1, s1 := [53, 28, 41, 50, 35, 46], [3, 28, 15, 6, 21, 10];
    var t2, s2 := [33, 37, 44, 52, 30, 48], [23, 19, 12, 4, 26, 8];
    var t3, s3 := [40, 49, 29, 36, 43, 54], [16, 7, 27, 20, 13, 2];
    var t4, s4 := [15, 4, 25, 19, 9, 1], [41, 52, 31, 37, 47, 55];
    var t5, s5 := [26, 16, 5, 11, 23, 8], [30, 40, 51, 45, 33, 48];
    var t6, s6 := [12, 7, 17, 0, 22, 3], [44, 49, 39, 56, 34, 53];
    var t7, s7 := [10, 14, 6, 20, 27, 24], [46, 42, 50, 36, 29, 32];
    assert Mirrors(t0, s0, 56);
    assert Mirrors(t1, s1, 56);
    assert Mirrors(t2, s2, 56);
    assert Mirrors(t3, s3, 56);
    assert Mirrors(t4, s4, 56);
    assert Mirrors(t5, s5, 56);
    assert Mirrors(t6, s6, 56);
    assert Mirrors(t7, s7, 56);
    hide Mirrors;
    MirrorsBoth(t0, s0, t1, s1, 56);
    MirrorsBoth(t0 + t1, s0 + s1, t2, s2, 56);
    MirrorsBoth(t0 + t1 + t2, s0 + s1 + s2, t3, s3, 56);
    MirrorsBoth(t0 + t1 + t2 + t3, s0 + s1 + s2 + s3, t4, s4, 56);
    MirrorsBoth(t0 + t1 + t2 + t3 + t4, s0 + s1 + s2 + s3 + s4, t5, s5, 56);
    MirrorsBoth(t0 + t1 + t2 + t3 + t4 + t5, s0 + s1 + s2 + s3 + s4 + s5, t6, s6, 56);
    MirrorsBoth(t0 + t1 + t2 + t3 + t4 + t5 + t6, s0 + s1 + s2 + s3 + s4 + s5 + s6, t7, s7, 56);
  }

  lemma InverseRow0(i: nat) requires 0 <= i < 8 ensures |IP| == |IP_INVERSE| == 64 && 1 <= IP_INVERSE[i] <= 64 && IP[IP_INVERSE[i] - 1] == i + 1 {}
  lemma InverseRow1(i: nat) requires 8 <= i < 16 ensures |IP| == |IP_INVERSE| == 64 && 1 <= IP_INVERSE[i] <= 64 && IP[IP_INVERSE[i] - 1] == i + 1 {}
  lemma InverseRow2(i: nat) requires 16 <= i < 24 ensures |IP| == |IP_INVERSE| == 64 && 1 <= IP_INVERSE[i] <= 64 && IP[IP_INVERSE[i] - 1] == i + 1 {}
  lemma InverseRow3(i: nat) requires 24 <= i < 32 ensures |IP| == |IP_INVERSE| == 64 && 1 <= IP_INVERSE[i] <= 64 && IP[IP_INVERSE[i] - 1] == i + 1 {}
  lemma InverseRow4(i: nat) requires 32 <= i < 40 ensures |IP| == |IP_INVERSE| == 64 && 1 <= IP_INVERSE[i] <= 64 && IP[IP_INVERSE[i] - 1] == i + 1 {}
  lemma InverseRow5(i: nat) requires 40 <= i < 48 ensures |IP| == |IP_INVERSE| == 64 && 1 <= IP_INVERSE[i] <= 64 && IP[IP_INVERSE[i] - 1] == i + 1 {}
  lemma InverseRow6(i: nat) requires 48 <= i < 56 ensures |IP| == |IP_INVERSE| == 64 && 1 <= IP_INVERSE[i] <= 64 && IP[IP_INVERSE[i] - 1] == i + 1 {}
  lemma InverseRow7(i: nat) requires 56 <= i < 64 ensures |IP| == |IP_INVERSE| == 64 && 1 <= IP_INVERSE[i] <= 64 && IP[IP_INVERSE[i] - 1] == i + 1 {}

  // ------------------------------------------------------------------ the key schedule

  lemma ShiftedEnds(c: bv64)
    ensures On(KeyShiftLeft(c), 0) == On(c, 27) && On(KeyShiftLeft(c), 28) == On(c, 55)
  {}

  lemma ShiftedBit(c: bv64, k: bv6)
    requires k < 56 && k != 0 && k != 28
    ensures On(KeyShiftLeft(c), k) == On(c, k - 1)
  {}

  lemma ShiftedAt(c: bv64, i: nat)
    requires i < 56
    ensures BitsOf(KeyShiftLeft(c), 56)[i] == BitsOf(c, 56)[if i == 27 then 0 else if i == 55 then 28 else i + 1]
  {
    hide On, BitsOf, KeyShiftLeft;
    var k := Num(55 - i);
    NumIs(55 - i);
    BitIsAt(KeyShiftLeft(c), 56, k);
    if k == 0 {
      ShiftedEnds(c);
      BitIsAt(c, 56, 27);
    } else if k == 28 {
      ShiftedEnds(c);
      BitIsAt(c, 56, 55);
    } else {
      ShiftedBit(c, k);
      BitIsAt(c, 56, k - 1);
    }
  }

  lemma KeyShifts(c: bv64)
    ensures BitsOf(KeyShiftLeft(c), 56) == LeftShift(BitsOf(c, 56)[..28]) + LeftShift(BitsOf(c, 56)[28..])
  {
    hide BitsOf, KeyShiftLeft;
    var b, s := BitsOf(c, 56), BitsOf(KeyShiftLeft(c), 56);
    forall i: nat | i < 56
      ensures s[i] == (LeftShift(b[..28]) + LeftShift(b[28..]))[i]
    {
      ShiftedAt(c, i);
    }
  }

  lemma OneShift(b: Bits)
    requires b != []
    ensures LeftShifts(b, 1) == LeftShift(b) && LeftShifts(b, 2) == LeftShift(LeftShift(b))
  {}

  lemma KeyShiftIs(c: bv64, i: nat, h: Bits, d: Bits)
    requires i < 16 && |h| == |d| == 28 && BitsOf(c, 56) == h + d
    ensures BitsOf(KeyShift(c, i), 56) == LeftShifts(h, LEFT_SHIFTS[i]) + LeftShifts(d, LEFT_SHIFTS[i])
  {
    hide BitsOf, KeyShiftLeft, LeftShifts;
    KeyShifts(c);
    KeyShifts(KeyShiftLeft(c));
    OneShift(h);
    OneShift(d);
    assert (h + d)[..28] == h && (h + d)[28..] == d;
    var h', d' := LeftShift(h), LeftShift(d);
    assert (h' + d')[..28] == h' && (h' + d')[28..] == d';
    assert LEFT_SHIFTS[i] == if ShiftsTwice(i) then 2 else 1;
  }

  lemma {:induction false} KeyBitsAre(key: bv64, n: nat)
    requires n <= 16
    ensures BitsOf(KeyBits(key, n), 56) == HalvesOf(BitsOf(key, 64), n).0 + HalvesOf(BitsOf(key, 64), n).1
  {
    hide BitsOf, KeyShift, LeftShifts, Shuffle, Mirrors, Selects, PC1_SHUFFLE, PC1, LEFT_SHIFTS;
    if n == 0 {
      Lengths();
      KeySelects();
      Pc1Mirrors();
      ShufflePermutes(key, PC1_SHUFFLE, PC1, 64);
    } else {
      KeyBitsAre(key, n - 1);
      var (h, d) := HalvesOf(BitsOf(key, 64), n - 1);
      KeyShiftIs(KeyBits(key, n - 1), n - 1, h, d);
    }
  }

  /** Every round key is the one of the standard. */
  lemma RoundKeyIs(key: bv64, i: nat)
    requires i < 16
    ensures BitsOf(RoundKey(key, i), 48) == KeyOf(BitsOf(key, 64), i + 1)
  {
    hide BitsOf, Shuffle, Mirrors, Selects, PC2_SHUFFLE, PC2, HalvesOf, KeyBits;
    Lengths();
    KeySelects();
    Pc2Mirrors();
    KeyBitsAre(key, i + 1);
    ShufflePermutes(KeyBits(key, i + 1), PC2_SHUFFLE, PC2, 56);
  }

  // ------------------------------------------------------------------ the selection functions

  function LowHalf(s: bv8): bv4 { (s & 0xf) as bv4 }
  function HighHalf(s: bv8): bv4 { (s >> 4) as bv4 }

  predicate Holds(s: bv8, low: bv4, high: bv4) { LowHalf(s) == low && HighHalf(s) == high }

  /** Four bytes hold the entries of two rows from column `c` on. */
  predicate BytesHold(s: seq<bv8>, low: seq<bv4>, high: seq<bv4>, c: nat)
    requires |s| == 4 && |low| == |high| == 16 && c <= 12
  {
    && Holds(s[0], low[c], high[c]) && Holds(s[1], low[c + 1], high[c + 1])
    && Holds(s[2], low[c + 2], high[c + 2]) && Holds(s[3], low[c + 3], high[c + 3])
  }

  lemma Upper0() ensures forall r :: 0 <= r < 4 ==> BytesHold(S0[r], SELECTION1[0], SELECTION1[1], 4 * r) {}
  lemma Lower0() ensures forall r :: 0 <= r < 4 ==> BytesHold(S0[4 + r], SELECTION1[2], SELECTION1[3], 4 * r) {}
  lemma Upper1() ensures forall r :: 0 <= r < 4 ==> BytesHold(S1[r], SELECTION2[0], SELECTION2[1], 4 * r) {}
  lemma Lower1() ensures forall r :: 0 <= r < 4 ==> BytesHold(S1[4 + r], SELECTION2[2], SELECTION2[3], 4 * r) {}
  lemma Upper2() ensures forall r :: 0 <= r < 4 ==> BytesHold(S2[r], SELECTION3[0], SELECTION3[1], 4 * r) {}
  lemma Lower2() ensures forall r :: 0 <= r < 4 ==> BytesHold(S2[4 + r], SELECTION3[2], SELECTION3[3], 4 * r) {}
  lemma Upper3() ensures forall r :: 0 <= r < 4 ==> BytesHold(S3[r], SELECTION4[0], SELECTION4[1], 4 * r) {}
  lemma Lower3() ensures forall r :: 0 <= r < 4 ==> BytesHold(S3[4 + r], SELECTION4[2], SELECTION4[3], 4 * r) {}
  lemma Upper4() ensures forall r :: 0 <= r < 4 ==> BytesHold(S4[r], SELECTION5[0], SELECTION5[1], 4 * r) {}
  lemma Lower4() ensures forall r :: 0 <= r < 4 ==> BytesHold(S4[4 + r], SELECTION5[2], SELECTION5[3], 4 * r) {}
  lemma Upper5() ensures forall r :: 0 <= r < 4 ==> BytesHold(S5[r], SELECTION6[0], SELECTION6[1], 4 * r) {}
  lemma Lower5() ensures forall r :: 0 <= r < 4 ==> BytesHold(S5[4 + r], SELECTION6[2], SELECTION6[3], 4 * r) {}
  lemma Upper6() ensures forall r :: 0 <= r < 4 ==> BytesHold(S6[r], SELECTION7[0], SELECTION7[1], 4 * r) {}
  lemma Lower6() ensures forall r :: 0 <= r < 4 ==> BytesHold(S6[4 + r], SELECTION7[2], SELECTION7[3], 4 * r) {}
  lemma Upper7() ensures forall r :: 0 <= r < 4 ==> BytesHold(S7[r], SELECTION8[0], SELECTION8[1], 4 * r) {}
  lemma Lower7() ensures forall r :: 0 <= r < 4 ==> BytesHold(S7[4 + r], SELECTION8[2], SELECTION8[3], 4 * r) {}

  lemma BytesHoldAll(i: nat, r: nat)
    requires i < 8 && r < 8 && |SBox(i)| == 8 && |SBox(i)[r]| == 4
    requires |Box(i + 1)| == 4 && |Box(i + 1)[2 * (r / 4)]| == |Box(i + 1)[2 * (r / 4) + 1]| == 16
    ensures BytesHold(SBox(i)[r], Box(i + 1)[2 * (r / 4)], Box(i + 1)[2 * (r / 4) + 1], 4 * (r % 4))
  {
    hide BytesHold, S0, S1, S2, S3, S4, S5, S6, S7;
    hide SELECTION1, SELECTION2, SELECTION3, SELECTION4, SELECTION5, SELECTION6, SELECTION7, SELECTION8;
    match i
    case 0 => Upper0(); Lower0();
    case 1 => Upper1(); Lower1();
    case 2 => Upper2(); Lower2();
    case 3 => Upper3(); Lower3();
    case 4 => Upper4(); Lower4();
    case 5 => Upper5(); Lower5();
    case 6 => Upper6(); Lower6();
    case 7 => Upper7(); Lower7();
  }

  lemma ByteHolds(i: nat, m: nat)
    requires i < 8 && m < 32
    ensures |Box(i + 1)| == 4 && |Box(i + 1)[2 * (m / 16)]| == |Box(i + 1)[2 * (m / 16) + 1]| == 16
    ensures Holds(ByteAt(i, m), Box(i + 1)[2 * (m / 16)][m % 16], Box(i + 1)[2 * (m / 16) + 1][m % 16])
  {
    hide SBox, SBoxP, Box, Holds;
    Shapes(i, m / 4);
    BoxShape(i + 1, 2 * (m / 16));
    BoxShape(i + 1, 2 * (m / 16) + 1);
    assert (m / 4) / 4 == m / 16 && 4 * ((m / 4) % 4) + m % 4 == m % 16;
    BytesHoldAll(i, m / 4);
  }

  /** The six bits that go into a selection function. */
  function SixBits(t: bv6): (r: Bits)
    ensures |r| == 6
  {
    [t & 32 == 32, t & 16 == 16, t & 8 == 8, t & 4 == 4, t & 2 == 2, t & 1 == 1]
  }

  lemma RowColumn(t: bv6)
    ensures (t >> 1) as nat < 32
    ensures Row(SixBits(t)) == 2 * ((t >> 1) as nat / 16) + (if t & 1 == 1 then 1 else 0) && Column(SixBits(t)) == (t >> 1) as nat % 16
  {}

  lemma ShiftedHalf(s: bv8) ensures LowHalf(s >> 4) == HighHalf(s) {}

  lemma ValueSelects(i: nat, t: bv6)
    requires i < 8
    ensures FourBits(LowHalf(Value(i, t))) == Select(i + 1, SixBits(t))
  {
    hide Box, SixBits, Row, Column, LowHalf, HighHalf, ByteAt, FourBits;
    RowColumn(t);
    ByteHolds(i, (t >> 1) as nat);
    ShiftedHalf(ByteAt(i, (t >> 1) as nat));
  }

  // ------------------------------------------------------------------ the cipher function

  /** `b` is the half turned for the selection function with number `n`. */
  predicate Turned(b: Bits, half: Bits, n: nat) {
    |b| == |half| == 32 && forall j :: 0 <= j < 32 ==> b[j] == half[(j + 1 + 4 * n) % 32]
  }

  lemma Rol1Bit(r: bv32, k: bv6)
    requires k < 32
    ensures On(Wide(Rol1(r)), k) == On(Wide(r), if k == 0 then 31 else k - 1)
  {}

  lemma Ror4Bit(r: bv32, k: bv6)
    requires k < 32
    ensures On(Wide(Ror4(r)), k) == On(Wide(r), if k < 28 then k + 4 else k - 28)
  {}

  lemma Rol1At(r: bv32, j: nat)
    requires j < 32
    ensures BitsOf(Wide(Rol1(r)), 32)[j] == BitsOf(Wide(r), 32)[(j + 1) % 32]
  {
    hide On, BitsOf, Rol1, Wide;
    var k := Num(31 - j);
    NumIs(31 - j);
    BitIsAt(Wide(Rol1(r)), 32, k);
    Rol1Bit(r, k);
    if k == 0 {
      BitIsAt(Wide(r), 32, 31);
    } else {
      BitIsAt(Wide(r), 32, k - 1);
    }
  }

  lemma Ror4At(r: bv32, j: nat)
    requires j < 32
    ensures BitsOf(Wide(Ror4(r)), 32)[j] == BitsOf(Wide(r), 32)[(j + 28) % 32]
  {
    hide On, BitsOf, Ror4, Wide;
    var k := Num(31 - j);
    NumIs(31 - j);
    BitIsAt(Wide(Ror4(r)), 32, k);
    Ror4Bit(r, k);
    if k < 28 {
      BitIsAt(Wide(r), 32, k + 4);
    } else {
      BitIsAt(Wide(r), 32, k - 28);
    }
  }

  lemma TurnedFirst(r: bv32)
    ensures Turned(BitsOf(Wide(Rol1(r)), 32), BitsOf(Wide(r), 32), 8)
  {
    hide BitsOf, Rol1, Wide;
    forall j: nat | j < 32
      ensures BitsOf(Wide(Rol1(r)), 32)[j] == BitsOf(Wide(r), 32)[(j + 33) % 32]
    {
      Rol1At(r, j);
    }
  }

  lemma TurnedNext(r: bv32, half: Bits, n: nat)
    requires 0 < n <= 8 && Turned(BitsOf(Wide(r), 32), half, n)
    ensures Turned(BitsOf(Wide(Ror4(r)), 32), half, n - 1)
  {
    hide BitsOf, Ror4, Wide;
    forall j: nat | j < 32
      ensures BitsOf(Wide(Ror4(r)), 32)[j] == half[(j + 1 + 4 * (n - 1)) % 32]
    {
      Ror4At(r, j);
      TurnedIndex(j, n);
    }
  }

  lemma TurnedIndex(j: nat, n: nat)
    requires j < 32 && n > 0
    ensures ((j + 28) % 32 + 1 + 4 * n) % 32 == (j + 1 + 4 * (n - 1)) % 32
  {
    var a := j + 1 + 4 * (n - 1);
    assert (a + 32) % 32 == a % 32;
    if j >= 4 {
      assert (j + 28) % 32 == j - 4;
    } else {
      assert (j + 28) % 32 == j + 28;
    }
  }

  lemma ExpandedRow1(j: nat) requires j < 6 ensures |E| == 48 && E[j] - 1 == (31 + j) % 32 {}
  lemma ExpandedRow2(j: nat) requires j < 6 ensures |E| == 48 && E[6 + j] - 1 == (35 + j) % 32 {}
  lemma ExpandedRow3(j: nat) requires j < 6 ensures |E| == 48 && E[12 + j] - 1 == (39 + j) % 32 {}
  lemma ExpandedRow4(j: nat) requires j < 6 ensures |E| == 48 && E[18 + j] - 1 == (43 + j) % 32 {}
  lemma ExpandedRow5(j: nat) requires j < 6 ensures |E| == 48 && E[24 + j] - 1 == (47 + j) % 32 {}
  lemma ExpandedRow6(j: nat) requires j < 6 ensures |E| == 48 && E[30 + j] - 1 == (51 + j) % 32 {}
  lemma ExpandedRow7(j: nat) requires j < 6 ensures |E| == 48 && E[36 + j] - 1 == (55 + j) % 32 {}
  lemma ExpandedRow8(j: nat) requires j < 6 ensures |E| == 48 && E[42 + j] - 1 == (59 + j) % 32 {}

  lemma ExpandedFrom(n: nat, j: nat)
    requires 1 <= n <= 8 && j < 6
    ensures |E| == 48 && E[6 * (n - 1) + j] - 1 == (27 + j + 4 * n) % 32
  {
    hide E;
    match n
    case 1 => ExpandedRow1(j);
    case 2 => ExpandedRow2(j);
    case 3 => ExpandedRow3(j);
    case 4 => ExpandedRow4(j);
    case 5 => ExpandedRow5(j);
    case 6 => ExpandedRow6(j);
    case 7 => ExpandedRow7(j);
    case 8 => ExpandedRow8(j);
  }

  lemma ChunkBits(r: bv32, k: bv64)
    ensures SixBits(Chunk(r, k)) == [On(Wide(r), 5) != On(k, 5), On(Wide(r), 4) != On(k, 4), On(Wide(r), 3) != On(k, 3),
                                     On(Wide(r), 2) != On(k, 2), On(Wide(r), 1) != On(k, 1), On(Wide(r), 0) != On(k, 0)]
  {}

  lemma ChunkSums(r: bv32, k: bv64, n: nat, half: Bits, key: Bits)
    requires 1 <= n <= 8 && |half| == 32 && |key| == 48
    requires Turned(BitsOf(Wide(r), 32), half, n) && BitsOf(k, 6 * n) == key[..6 * n] && |E| == 48 && Selects(E, 32)
    ensures SixBits(Chunk(r, k)) == Sum(Permuted(half, E), key)[6 * (n - 1)..6 * n]
  {
    hide On, BitsOf, Wide, Chunk, E, SixBits, Turned, Selects;
    ChunkBits(r, k);
    ChunkSum(r, k, n, half, key, 5);
    ChunkSum(r, k, n, half, key, 4);
    ChunkSum(r, k, n, half, key, 3);
    ChunkSum(r, k, n, half, key, 2);
    ChunkSum(r, k, n, half, key, 1);
    ChunkSum(r, k, n, half, key, 0);
  }

  lemma ChunkSum(r: bv32, k: bv64, n: nat, half: Bits, key: Bits, j: bv6)
    requires 1 <= n <= 8 && |half| == 32 && |key| == 48 && j < 6
    requires Turned(BitsOf(Wide(r), 32), half, n) && BitsOf(k, 6 * n) == key[..6 * n] && |E| == 48 && Selects(E, 32)
    ensures j as nat < 6 && (On(Wide(r), j) != On(k, j)) == Sum(Permuted(half, E), key)[6 * n - 1 - j as nat]
  {
    hide On, BitsOf, Wide, E;
    BitIsAt(Wide(r), 32, j);
    BitIsAt(k, 6 * n, j);
    ExpandedFrom(n, 5 - j as nat);
  }

  lemma SixHalves(k: bv64)
    ensures Half(Half(Half(Half(Half(Half(k)))))) == Shr6(k)
  {}

  lemma Shr6Bits(k: bv64, n: nat)
    ensures BitsOf(Shr6(k), n) == BitsOf(k, n + 6)[..n]
  {
    hide Odd, Half, Shr6;
    SixHalves(k);
    assert BitsOf(k, n + 6)[..n + 5] == BitsOf(Half(k), n + 5);
    assert BitsOf(Half(k), n + 5)[..n + 4] == BitsOf(Half(Half(k)), n + 4);
    assert BitsOf(Half(Half(k)), n + 4)[..n + 3] == BitsOf(Half(Half(Half(k))), n + 3);
    assert BitsOf(Half(Half(Half(k))), n + 3)[..n + 2] == BitsOf(Half(Half(Half(Half(k)))), n + 2);
    assert BitsOf(Half(Half(Half(Half(k)))), n + 2)[..n + 1] == BitsOf(Half(Half(Half(Half(Half(k))))), n + 1);
  }

  lemma PushedTop(res: bv32, v: bv8)
    ensures [On(Wide(PushNibble(res, v)), 31), On(Wide(PushNibble(res, v)), 30), On(Wide(PushNibble(res, v)), 29), On(Wide(PushNibble(res, v)), 28)]
         == FourBits(LowHalf(v))
  {}

  lemma PushedRest(res: bv32, v: bv8, k: bv6)
    requires k < 28
    ensures On(Wide(PushNibble(res, v)), k) == On(Wide(res), k + 4)
  {}

  lemma PushedBits(res: bv32, v: bv8)
    ensures BitsOf(Wide(PushNibble(res, v)), 32) == FourBits(LowHalf(v)) + BitsOf(Wide(res), 32)[..28]
  {
    hide On, BitsOf, Wide, PushNibble, FourBits, LowHalf;
    var w := Wide(PushNibble(res, v));
    PushedTop(res, v);
    BitIsAt(w, 32, 31);
    BitIsAt(w, 32, 30);
    BitIsAt(w, 32, 29);
    BitIsAt(w, 32, 28);
    forall j: nat | 4 <= j < 32
      ensures BitsOf(w, 32)[j] == BitsOf(Wide(res), 32)[j - 4]
    {
      NumIs(31 - j);
      var k := Num(31 - j);
      BitIsAt(w, 32, k);
      PushedRest(res, v, k);
      BitIsAt(Wide(res), 32, k + 4);
    }
  }

  /** The loop over the S-boxes puts the selected bits in front of each other. */
  lemma {:induction false} BoxesSelect(r: bv32, k: bv64, n: nat, res: bv32, half: Bits, key: Bits)
    requires n <= 8 && |half| == 32 && |key| == 48 && |E| == 48 && Selects(E, 32)
    requires Turned(BitsOf(Wide(r), 32), half, n) && BitsOf(k, 6 * n) == key[..6 * n]
    ensures BitsOf(Wide(SmallBoxes(r, k, n, res)), 32) == Selected(Sum(Permuted(half, E), key), n) + BitsOf(Wide(res), 32)[..32 - 4 * n]
    decreases n
  {
    hide BitsOf, Wide, Turned, Ror4, Shr6, PushNibble, Value, Chunk, E, Selects, Permuted, Sum, Select, SixBits, FourBits, LowHalf;
    if n > 0 {
      var v := Value(n - 1, Chunk(r, k));
      ChunkSums(r, k, n, half, key);
      ValueSelects(n - 1, Chunk(r, k));
      TurnedNext(r, half, n);
      Shr6Bits(k, 6 * (n - 1));
      PushedBits(res, v);
      BoxesSelect(Ror4(r), Shr6(k), n - 1, PushNibble(res, v), half, key);
    }
  }

  lemma NarrowBit(z: bv64, k: bv6)
    requires k < 32
    ensures On(Wide(Narrow(z)), k) == On(z, k)
  {}

  /** The low bits of a word. */
  lemma LowBits(z: bv64)
    ensures BitsOf(Wide(Narrow(z)), 32) == BitsOf(z, 32) == BitsOf(z, 64)[32..]
  {
    hide On, BitsOf, Wide, Narrow;
    forall j: nat | j < 32
      ensures BitsOf(Wide(Narrow(z)), 32)[j] == BitsOf(z, 32)[j] == BitsOf(z, 64)[32 + j]
    {
      var k := Num(31 - j);
      NumIs(31 - j);
      BitIsAt(z, 32, k);
      BitIsAt(z, 64, k);
      BitIsAt(Wide(Narrow(z)), 32, k);
      NarrowBit(z, k);
    }
  }

  /** The round function is the cipher function of the standard. */
  lemma FIs(r: bv32, k: bv64)
    ensures BitsOf(Wide(F(r, k)), 32) == CipherFunction(BitsOf(Wide(r), 32), BitsOf(k, 48))
  {
    hide BitsOf, Wide, Narrow, F, SmallBoxes, Rol1, Shuffle, Turned, Mirrors, Selects, P_SHUFFLE, P, E, Selected, Sum;
    FastIsSmall(r, k);
    RoundSelects();
    var y, half, key := SmallBoxes(Rol1(r), k, 8, 0), BitsOf(Wide(r), 32), BitsOf(k, 48);
    TurnedFirst(r);
    BoxesSelect(Rol1(r), k, 8, 0, half, key);
    Lengths();
    PMirrors();
    LowBits(Shuffle(Wide(y), P_SHUFFLE));
    ShufflePermutes(Wide(y), P_SHUFFLE, P, 32);
  }

  // ------------------------------------------------------------------ the rounds

  lemma SwapBit(x: bv64, k: bv6)
    ensures On(Swap(x), k) == On(x, k + 32)
  {}

  lemma OtherHalf(k: bv6)
    ensures (k + 32) as nat == if k < 32 then k as nat + 32 else k as nat - 32
    ensures k < 32 <==> k as nat < 32
  {}

  lemma SwapBits(x: bv64)
    ensures BitsOf(Swap(x), 64) == BitsOf(x, 64)[32..] + BitsOf(x, 64)[..32]
  {
    hide On, BitsOf, Swap;
    forall j: nat | j < 64
      ensures BitsOf(Swap(x), 64)[j] == (BitsOf(x, 64)[32..] + BitsOf(x, 64)[..32])[j]
    {
      var k := Num(63 - j);
      NumIs(63 - j);
      OtherHalf(k);
      BitIsAt(Swap(x), 64, k);
      SwapBit(x, k);
      BitIsAt(x, 64, k + 32);
    }
  }

  lemma XorBits(a: bv64, b: bv64)
    requires IsBit(a) && IsBit(b)
    ensures Xor(a, b) == 1 <==> (a == 1) != (b == 1)
  {}

  lemma XorBit(x: bv64, y: bv64, k: bv6)
    ensures On(Xor(x, y), k) == (On(x, k) != On(y, k))
  {
    hide Bit, Xor;
    BitXor(x, y, k);
    BitIsBit(x, k);
    BitIsBit(y, k);
    XorBits(Bit(x, k), Bit(y, k));
  }

  lemma NoHighBit(w: bv32, k: bv6)
    requires k >= 32
    ensures !On(Wide(w), k)
  {}

  lemma XorWideBits(x: bv64, w: bv32)
    ensures BitsOf(Xor(x, Wide(w)), 64) == BitsOf(x, 64)[..32] + Sum(BitsOf(x, 64)[32..], BitsOf(Wide(w), 32))
  {
    hide On, BitsOf, Xor, Wide;
    forall j: nat | j < 64
      ensures BitsOf(Xor(x, Wide(w)), 64)[j] == (BitsOf(x, 64)[..32] + Sum(BitsOf(x, 64)[32..], BitsOf(Wide(w), 32)))[j]
    {
      var k := Num(63 - j);
      NumIs(63 - j);
      OtherHalf(k);
      BitIsAt(Xor(x, Wide(w)), 64, k);
      XorBit(x, Wide(w), k);
      BitIsAt(x, 64, k);
      if j >= 32 {
        BitIsAt(Wide(w), 32, k);
      } else {
        NoHighBit(w, k);
      }
    }
  }

  lemma RoundIs(x: bv64, k: bv64, l: Bits, r: Bits)
    requires |l| == |r| == 32 && BitsOf(x, 64) == l + r
    ensures BitsOf(Round(x, k), 64) == r + Sum(l, CipherFunction(r, BitsOf(k, 48)))
  {
    hide BitsOf, Xor, Wide, Narrow, Swap, F, CipherFunction, Sum;
    assert (l + r)[..32] == l && (l + r)[32..] == r;
    SwapBits(x);
    assert (r + l)[..32] == r && (r + l)[32..] == l;
    LowBits(x);
    FIs(Narrow(x), k);
    XorWideBits(Swap(x), F(Narrow(x), k));
  }

  /** The round keys are those of the standard, in the order in which they are used. */
  predicate KeysInOrder(order: seq<bv64>, key: Bits, decrypt: bool)
    requires |key| == 64
  {
    |order| == 16 && forall j :: 0 <= j < 16 ==> BitsOf(order[j], 48) == KeyOf(key, if decrypt then 16 - j else j + 1)
  }

  lemma {:induction false} RoundsAre(x: bv64, order: seq<bv64>, block: Bits, key: Bits, decrypt: bool, n: nat)
    requires |block| == |key| == 64 && KeysInOrder(order, key, decrypt) && n <= 16
    requires BitsOf(x, 64) == RoundsOf(block, key, decrypt, 0).0 + RoundsOf(block, key, decrypt, 0).1
    ensures BitsOf(Rounds(x, order[..n]), 64) == RoundsOf(block, key, decrypt, n).0 + RoundsOf(block, key, decrypt, n).1
    decreases n
  {
    hide BitsOf, Round, KeyOf, CipherFunction, Sum, IP;
    if n > 0 {
      RoundsAre(x, order, block, key, decrypt, n - 1);
      assert order[..n] == order[..n - 1] + [order[n - 1]];
      RoundsAppend(x, order[..n - 1], order[n - 1]);
      var (l, r) := RoundsOf(block, key, decrypt, n - 1);
      RoundIs(Rounds(x, order[..n - 1]), order[n - 1], l, r);
    } else {
      assert order[..0] == [];
    }
  }

  lemma KeysAreInOrder(key: bv64, decrypt: bool)
    ensures KeysInOrder(if decrypt then Reversed(RoundKeys(key)) else RoundKeys(key), BitsOf(key, 64), decrypt)
  {
    hide BitsOf, RoundKey, KeyOf;
    var order := if decrypt then Reversed(RoundKeys(key)) else RoundKeys(key);
    forall j | 0 <= j < 16
      ensures BitsOf(order[j], 48) == KeyOf(BitsOf(key, 64), if decrypt then 16 - j else j + 1)
    {
      RoundKeyIs(key, if decrypt then 15 - j else j);
    }
  }

  lemma InverseAt(i: nat)
    requires i < 64
    ensures |IP| == |IP_INVERSE| == 64 && 1 <= IP_INVERSE[i] <= 64 && IP[IP_INVERSE[i] - 1] == i + 1
  {
    hide IP, IP_INVERSE;
    if
    case i < 8 => InverseRow0(i);
    case 8 <= i < 16 => InverseRow1(i);
    case 16 <= i < 24 => InverseRow2(i);
    case 24 <= i < 32 => InverseRow3(i);
    case 32 <= i < 40 => InverseRow4(i);
    case 40 <= i < 48 => InverseRow5(i);
    case 48 <= i < 56 => InverseRow6(i);
    case 56 <= i => InverseRow7(i);
  }

  lemma InversePermutes(b: Bits, p: Bits)
    requires |b| == 64 && |IP| == |IP_INVERSE| == 64 && Selects(IP, 64) && Selects(IP_INVERSE, 64) && p == Permuted(b, IP)
    ensures Permuted(p, IP_INVERSE) == b
  {
    hide IP, IP_INVERSE;
    forall i | 0 <= i < 64
      ensures Permuted(p, IP_INVERSE)[i] == b[i]
    {
      InverseAt(i);
    }
  }

  /** Encryption and decryption of a block are those of the standard, for every key. */
  lemma DesIsTheStandard(x: bv64, key: bv64, decrypt: bool)
    ensures BitsOf(EncDec(x, RoundKeys(key), decrypt), 64) == Des(BitsOf(x, 64), BitsOf(key, 64), decrypt)
  {
    hide BitsOf, Shuffle, ShuffleInv, Swap, Rounds, RoundKeys, Reversed, IP, IP_INVERSE, IP_SHUFFLE, Mirrors, Selects, Permuted, KeysInOrder;
    IpSelects();
    InverseSelects();
    Lengths();
    IpMirrors();
    var order := if decrypt then Reversed(RoundKeys(key)) else RoundKeys(key);
    var p := Shuffle(x, IP_SHUFFLE);
    ShufflePermutes(x, IP_SHUFFLE, IP, 64);
    KeysAreInOrder(key, decrypt);
    RoundsAre(p, order, BitsOf(x, 64), BitsOf(key, 64), decrypt, 16);
    assert order[..16] == order;
    var z := Swap(Rounds(p, order));
    SwapBits(Rounds(p, order));
    IpInverse(z);
    var y := ShuffleInv(z, IP_SHUFFLE);
    ShufflePermutes(y, IP_SHUFFLE, IP, 64);
    InversePermutes(BitsOf(y, 64), BitsOf(z, 64));
  }

  // ------------------------------------------------------------------ keys and blocks in memory

  function EightBits(b: bv8): (r: Bits)
    ensures |r| == 8
  {
    [b & 128 == 128, b & 64 == 64, b & 32 == 32, b & 16 == 16, b & 8 == 8, b & 4 == 4, b & 2 == 2, b & 1 == 1]
  }

  /** Bytes as bits, the most significant bit of each first. */
  function BytesBits(s: seq<bv8>): (r: Bits)
    ensures |r| == 8 * |s|
  {
    if s == [] then [] else BytesBits(s[..|s| - 1]) + EightBits(s[|s| - 1])
  }

  function Shr8(x: bv64): bv64 { x >> 8 }
  function LowByte(x: bv64): bv8 { (x & 0xff) as bv8 }

  lemma EightHalves(x: bv64)
    ensures Half(Half(Half(Half(Half(Half(Half(Half(x)))))))) == Shr8(x)
    ensures EightBits(LowByte(x)) == [Odd(Half(Half(Half(Half(Half(Half(Half(x)))))))), Odd(Half(Half(Half(Half(Half(Half(x))))))),
                                      Odd(Half(Half(Half(Half(Half(x)))))), Odd(Half(Half(Half(Half(x)))))]
                                   + [Odd(Half(Half(Half(x)))), Odd(Half(Half(x))), Odd(Half(x)), Odd(x)]
  {}

  lemma FourMore(x: bv64, n: nat)
    ensures BitsOf(x, n + 4)
         == BitsOf(Half(Half(Half(Half(x)))), n) + [Odd(Half(Half(Half(x)))), Odd(Half(Half(x))), Odd(Half(x)), Odd(x)]
  {
    hide Odd, Half, BitsOf;
    OneMore(x, n + 3);
    OneMore(Half(x), n + 2);
    OneMore(Half(Half(x)), n + 1);
    OneMore(Half(Half(Half(x))), n);
  }

  lemma OneMore(x: bv64, n: nat)
    ensures BitsOf(x, n + 1) == BitsOf(Half(x), n) + [Odd(x)]
  {}

  lemma NextByte(x: bv64, n: nat)
    ensures BitsOf(x, n + 8) == BitsOf(Shr8(x), n) + EightBits(LowByte(x))
  {
    hide Odd, Half, BitsOf, Shr8, EightBits, LowByte;
    EightHalves(x);
    FourMore(x, n + 4);
    FourMore(Half(Half(Half(Half(x)))), n);
  }

  /** Eight bytes in a word, the first the most significant. */
  function Joined(a: bv8, b: bv8, c: bv8, d: bv8, e: bv8, f: bv8, g: bv8, h: bv8): bv64 {
    ((a as bv64) << 56) | ((b as bv64) << 48) | ((c as bv64) << 40) | ((d as bv64) << 32)
    | ((e as bv64) << 24) | ((f as bv64) << 16) | ((g as bv64) << 8) | h as bv64
  }

  function ByteFrom(x: bv64, s: bv6): bv8 { ((x >> s) & 0xff) as bv8 }

  lemma ShiftedBytes(x: bv64)
    ensures LowByte(x) == ByteFrom(x, 0) && LowByte(Shr8(x)) == ByteFrom(x, 8)
    ensures LowByte(Shr8(Shr8(x))) == ByteFrom(x, 16) && LowByte(Shr8(Shr8(Shr8(x)))) == ByteFrom(x, 24)
  {}

  lemma HighBytes(x: bv64)
    ensures var y := Shr8(Shr8(Shr8(Shr8(x))));
            && ByteFrom(y, 0) == ByteFrom(x, 32) && ByteFrom(y, 8) == ByteFrom(x, 40)
            && ByteFrom(y, 16) == ByteFrom(x, 48) && ByteFrom(y, 24) == ByteFrom(x, 56)
  {}

  lemma BytesFromLow(a: bv8, b: bv8, c: bv8, d: bv8, e: bv8, f: bv8, g: bv8, h: bv8)
    ensures ByteFrom(Joined(a, b, c, d, e, f, g, h), 0) == h && ByteFrom(Joined(a, b, c, d, e, f, g, h), 8) == g
    ensures ByteFrom(Joined(a, b, c, d, e, f, g, h), 16) == f && ByteFrom(Joined(a, b, c, d, e, f, g, h), 24) == e
  {}

  lemma BytesFromHigh(a: bv8, b: bv8, c: bv8, d: bv8, e: bv8, f: bv8, g: bv8, h: bv8)
    ensures ByteFrom(Joined(a, b, c, d, e, f, g, h), 32) == d && ByteFrom(Joined(a, b, c, d, e, f, g, h), 40) == c
    ensures ByteFrom(Joined(a, b, c, d, e, f, g, h), 48) == b && ByteFrom(Joined(a, b, c, d, e, f, g, h), 56) == a
  {}

  lemma LowFourBytes(x: bv64, n: nat)
    ensures BitsOf(x, n + 32) == BitsOf(Shr8(Shr8(Shr8(Shr8(x)))), n)
         + EightBits(ByteFrom(x, 24)) + EightBits(ByteFrom(x, 16)) + EightBits(ByteFrom(x, 8)) + EightBits(ByteFrom(x, 0))
  {
    hide BitsOf, EightBits, LowByte, Shr8, ByteFrom;
    ShiftedBytes(x);
    NextByte(x, n + 24);
    NextByte(Shr8(x), n + 16);
    NextByte(Shr8(Shr8(x)), n + 8);
    NextByte(Shr8(Shr8(Shr8(x))), n);
  }

  lemma JoinedBits(a: bv8, b: bv8, c: bv8, d: bv8, e: bv8, f: bv8, g: bv8, h: bv8)
    ensures BitsOf(Joined(a, b, c, d, e, f, g, h), 64)
         == EightBits(a) + EightBits(b) + EightBits(c) + EightBits(d) + EightBits(e) + EightBits(f) + EightBits(g) + EightBits(h)
  {
    hide BitsOf, EightBits, LowByte, Shr8, Joined, ByteFrom;
    BytesFromLow(a, b, c, d, e, f, g, h);
    BytesFromHigh(a, b, c, d, e, f, g, h);
    var x := Joined(a, b, c, d, e, f, g, h);
    HighBytes(x);
    var y := Shr8(Shr8(Shr8(Shr8(x))));
    LowFourBytes(x, 32);
    LowFourBytes(y, 0);
    NoBits(Shr8(Shr8(Shr8(Shr8(y)))), EightBits(a));
  }

  lemma NoBits(x: bv64, b: Bits) ensures BitsOf(x, 0) + b == b {}

  lemma FourBytes(k: seq<bv8>)
    requires |k| >= 4
    ensures BytesBits(k[..4]) == EightBits(k[0]) + EightBits(k[1]) + EightBits(k[2]) + EightBits(k[3])
  {
    hide EightBits, BytesBits;
    NoBytes(k);
    PushByte(k, 1);
    PushByte(k, 2);
    PushByte(k, 3);
    PushByte(k, 4);
    assert [] + EightBits(k[0]) == EightBits(k[0]);
  }

  lemma EightBytes(k: seq<bv8>)
    requires |k| == 8
    ensures BytesBits(k) == EightBits(k[0]) + EightBits(k[1]) + EightBits(k[2]) + EightBits(k[3])
                          + EightBits(k[4]) + EightBits(k[5]) + EightBits(k[6]) + EightBits(k[7])
  {
    hide EightBits, BytesBits;
    FourBytes(k);
    PushByte(k, 5);
    PushByte(k, 6);
    PushByte(k, 7);
    PushByte(k, 8);
    assert k[..8] == k;
  }

  lemma NoBytes(k: seq<bv8>) ensures BytesBits(k[..0]) == [] {}

  lemma PushByte(k: seq<bv8>, n: nat)
    requires 0 < n <= |k|
    ensures BytesBits(k[..n]) == BytesBits(k[..n - 1]) + EightBits(k[n - 1])
  {
    assert k[..n][..n - 1] == k[..n - 1];
  }

  /** The bits of a key are those of its bytes, in order. */
  lemma KeyBytes(k: seq<bv8>)
    requires |k| == 8
    ensures BitsOf(ReadBe64(k), 64) == BytesBits(k)
  {
    hide BitsOf, BytesBits, EightBits;
    EightBytes(k);
    JoinedBits(k[0], k[1], k[2], k[3], k[4], k[5], k[6], k[7]);
  }

  /** A word as a little-endian processor reads it. */
  function ReadLe64(b: seq<bv8>): bv64
    requires |b| == 8
  {
    Joined(b[7], b[6], b[5], b[4], b[3], b[2], b[1], b[0])
  }

  function Joined32(a: bv8, b: bv8, c: bv8, d: bv8): bv32 {
    ((a as bv32) << 24) | ((b as bv32) << 16) | ((c as bv32) << 8) | d as bv32
  }

  lemma SwappedJoined(a: bv8, b: bv8, c: bv8, d: bv8) ensures Bswap32(Joined32(a, b, c, d)) == Joined32(d, c, b, a) {}

  lemma JoinedPair(a: bv8, b: bv8, c: bv8, d: bv8, e: bv8, f: bv8, g: bv8, h: bv8)
    ensures Joined(a, b, c, d, e, f, g, h) == Pair(Joined32(a, b, c, d), Joined32(e, f, g, h))
  {}

  lemma SwappedRead(a: bv8, b: bv8, c: bv8, d: bv8, e: bv8, f: bv8, g: bv8, h: bv8)
    ensures Be2me(Joined(a, b, c, d, e, f, g, h)) == Joined(h, g, f, e, d, c, b, a)
  {
    hide Joined, Joined32, Bswap32, Pair, High32, Low32;
    JoinedPair(a, b, c, d, e, f, g, h);
    JoinedPair(h, g, f, e, d, c, b, a);
    PairParts(Joined32(a, b, c, d), Joined32(e, f, g, h));
    SwappedJoined(a, b, c, d);
    SwappedJoined(e, f, g, h);
  }

  /** So are those of a block read from memory. */
  lemma BlockBytes(b: seq<bv8>)
    requires |b| == 8
    ensures BitsOf(Be2me(ReadLe64(b)), 64) == BytesBits(b)
  {
    hide Be2me, BitsOf, BytesBits, EightBits, Joined;
    SwappedRead(b[7], b[6], b[5], b[4], b[3], b[2], b[1], b[0]);
    EightBytes(b);
    JoinedBits(b[0], b[1], b[2], b[3], b[4], b[5], b[6], b[7]);
  }

  /** Encryption of a block with one key or with three, from the bytes of the keys: with three it is an
      encryption, a decryption and an encryption, and back in the reverse order. */
  lemma BlockIsTheStandard(x: bv64, a: seq<bv8>, b: seq<bv8>, c: seq<bv8>, other: seq<bv64>)
    requires |a| == |b| == |c| == 8
    ensures var single := Keys(false, RoundKeys(ReadBe64(a)), other, other);
            && BitsOf(EncBlock(single, x), 64) == Des(BitsOf(x, 64), BytesBits(a), false)
            && BitsOf(DecBlock(single, x), 64) == Des(BitsOf(x, 64), BytesBits(a), true)
    ensures var triple := Keys(true, RoundKeys(ReadBe64(a)), RoundKeys(ReadBe64(b)), RoundKeys(ReadBe64(c)));
            && BitsOf(EncBlock(triple, x), 64) == Des(Des(Des(BitsOf(x, 64), BytesBits(a), false), BytesBits(b), true), BytesBits(c), false)
            && BitsOf(DecBlock(triple, x), 64) == Des(Des(Des(BitsOf(x, 64), BytesBits(c), true), BytesBits(b), false), BytesBits(a), true)
  {
    hide BitsOf, BytesBits, EncDec, RoundKeys, ReadBe64, Des;
    KeyBytes(a);
    KeyBytes(b);
    KeyBytes(c);
    var u, v, w := ReadBe64(a), ReadBe64(b), ReadBe64(c);
    DesIsTheStandard(x, u, false);
    DesIsTheStandard(EncDec(x, RoundKeys(u), false), v, true);
    DesIsTheStandard(EncDec(EncDec(x, RoundKeys(u), false), RoundKeys(v), true), w, false);
    DesIsTheStandard(x, u, true);
    DesIsTheStandard(x, w, true);
    DesIsTheStandard(EncDec(x, RoundKeys(w), true), v, false);
    DesIsTheStandard(EncDec(EncDec(x, RoundKeys(w), true), RoundKeys(v), false), u, true);
  }
}
