/** Complementing key and block complements the result. */
module DesComplement {
  import opened DesShuffle
  import opened DesTables
  import opened DesBoxes
  import opened DesCipher

  function Not(x: bv64): bv64 { Xor(x, ONES) }
  const ONES32: bv32 := 0xffff_ffff
  function Xor32(x: bv32, y: bv32): bv32 { x ^ y }
  function Not32(x: bv32): bv32 { Xor32(x, ONES32) }

  // ------------------------------------------------------------------ the key schedule

  const LOW56: bv64 := 0xff_ffff_ffff_ffff
  const LOW48: bv64 := 0xffff_ffff_ffff

  /** The low 56 bits differ everywhere; the bits above them do not matter. */
  predicate Opposite(c: bv64, d: bv64) { And(Xor(c, d), LOW56) == LOW56 }

  lemma ShiftOpposite(c: bv64, d: bv64)
    requires Opposite(c, d)
    ensures Opposite(KeyShiftLeft(c), KeyShiftLeft(d))
  {}

  lemma XorLowOpposite(c: bv64) ensures Opposite(c, Xor(c, LOW56)) {}

  lemma {:induction false} KeyBitsOpposite(key: bv64, n: nat)
    ensures Opposite(KeyBits(key, n), KeyBits(Not(key), n))
  {
    hide Opposite, Shuffle, PC1_SHUFFLE, KeyShiftLeft, Xor;
    if n == 0 {
      Lengths();
      LowValues();
      ShuffleNot(key, PC1_SHUFFLE);
      XorLowOpposite(Shuffle(key, PC1_SHUFFLE));
    } else {
      var c, d := KeyBits(key, n - 1), KeyBits(Not(key), n - 1);
      KeyBitsOpposite(key, n - 1);
      ShiftOpposite(c, d);
      ShiftOpposite(KeyShiftLeft(c), KeyShiftLeft(d));
    }
  }

  lemma BitWithin(k: bv6, m: bv64)
    requires k < 56 && Within(m, LOW56)
    ensures Within(Or(BitAt(k), m), LOW56)
  {}

  lemma {:induction false} MaskBelow(t: Table)
    requires forall i :: 0 <= i < |t| ==> t[i] < 56
    ensures Within(Mask(t), LOW56)
    decreases |t|
  {
    hide Within, Or, BitAt;
    if t == [] {
      ZeroWithin(LOW56);
    } else {
      MaskBelow(Init(t));
      BitWithin(Last(t), Mask(Init(t)));
    }
  }

  lemma Pc2Below()
    ensures forall i :: 0 <= i < |PC2_SHUFFLE| ==> PC2_SHUFFLE[i] < 56
  {}

  lemma SeesNot(c: bv64, d: bv64, m: bv64)
    requires Opposite(c, d) && Within(m, LOW56)
    ensures And(d, m) == And(Not(c), m)
  {}

  /** Every round key of the complemented key is complemented in its 48 bits. */
  lemma RoundKeyNot(key: bv64, i: nat)
    ensures RoundKey(Not(key), i) == Xor(RoundKey(key, i), LOW48)
  {
    hide Opposite, Shuffle, PC2_SHUFFLE, KeyBits, Xor, And, Within, Mask, Low;
    var c, d := KeyBits(key, i + 1), KeyBits(Not(key), i + 1);
    KeyBitsOpposite(key, i + 1);
    Pc2Below();
    MaskBelow(PC2_SHUFFLE);
    SeesNot(c, d, Mask(PC2_SHUFFLE));
    ShuffleSees(d, Not(c), PC2_SHUFFLE);
    Lengths();
    LowValues();
    ShuffleNot(c, PC2_SHUFFLE);
  }

  predicate AllOpposite(a: seq<bv64>, b: seq<bv64>) {
    |a| == |b| && forall i :: 0 <= i < |a| ==> b[i] == Xor(a[i], LOW48)
  }

  lemma RoundKeysNot(key: bv64)
    ensures AllOpposite(RoundKeys(key), RoundKeys(Not(key)))
  {
    hide Xor, RoundKey;
    forall i | 0 <= i < ROUNDS
      ensures RoundKeys(Not(key))[i] == Xor(RoundKeys(key)[i], LOW48)
    {
      RoundKeyNot(key, i);
    }
  }

  // ------------------------------------------------------------------ the rounds

  /** Ones in the bits that the next `n` S-boxes take. */
  function Sixes(n: nat): bv64
    requires n <= 8
  {
    match n
    case 0 => 0
    case 1 => 0x3f
    case 2 => 0xfff
    case 3 => 0x3_ffff
    case 4 => 0xff_ffff
    case 5 => 0x3fff_ffff
    case 6 => 0xf_ffff_ffff
    case 7 => 0x3ff_ffff_ffff
    case 8 => 0xffff_ffff_ffff
  }

  predicate NextOpposite(m: bv64) { m & 0x3f == 0x3f }

  lemma SixesNext(n: nat)
    requires 0 < n <= 8
    ensures Shr6(Sixes(n)) == Sixes(n - 1) && NextOpposite(Sixes(n))
  {}

  lemma ChunkSame(r: bv32, k: bv64, m: bv64)
    requires NextOpposite(m)
    ensures Chunk(Not32(r), Xor(k, m)) == Chunk(r, k)
  {}

  lemma Shr6Xor(k: bv64, m: bv64) ensures Shr6(Xor(k, m)) == Xor(Shr6(k), Shr6(m)) {}

  lemma Ror4Xor(r: bv32, m: bv32) ensures Ror4(Xor32(r, m)) == Xor32(Ror4(r), Ror4(m)) {}
  lemma Rol1Xor(r: bv32, m: bv32) ensures Rol1(Xor32(r, m)) == Xor32(Rol1(r), Rol1(m)) {}
  lemma RotatedOnes() ensures Ror4(ONES32) == ONES32 && Rol1(ONES32) == ONES32 {}

  lemma RotatedNot(r: bv32)
    ensures Ror4(Not32(r)) == Not32(Ror4(r)) && Rol1(Not32(r)) == Not32(Rol1(r))
  {
    RotatedOnes();
    hide Ror4, Rol1, Xor32, ONES32;
    Ror4Xor(r, ONES32);
    Rol1Xor(r, ONES32);
  }

  lemma {:induction false} BoxesSame(r: bv32, k: bv64, n: nat, res: bv32)
    requires n <= 8
    ensures FastBoxes(Not32(r), Xor(k, Sixes(n)), n, res) == FastBoxes(r, k, n, res)
    decreases n
  {
    hide Combined, Or32, Shr6, Ror4, Chunk, Xor, Not32, Sixes;
    if n > 0 {
      SixesNext(n);
      ChunkSame(r, k, Sixes(n));
      Shr6Xor(k, Sixes(n));
      RotatedNot(r);
      BoxesSame(Ror4(r), Shr6(k), n - 1, Or32(res, Combined(n - 1, Chunk(r, k))));
    }
  }

  /** Complementing both the half and the round key changes nothing in the round function. */
  lemma FSame(r: bv32, k: bv64)
    ensures F(Not32(r), Xor(k, LOW48)) == F(r, k)
  {
    hide FastBoxes, Rol1, Xor, Not32;
    RotatedNot(r);
    BoxesSame(Rol1(r), k, 8, 0);
  }

  lemma NarrowXor(x: bv64, y: bv64) ensures Narrow(Xor(x, y)) == Xor32(Narrow(x), Narrow(y)) {}
  lemma NarrowOnes() ensures Narrow(ONES) == ONES32 {}

  lemma NarrowNot(x: bv64)
    ensures Narrow(Not(x)) == Not32(Narrow(x))
  {
    NarrowOnes();
    hide Narrow, Xor, Xor32, ONES, ONES32;
    NarrowXor(x, ONES);
  }

  lemma SwapNot(x: bv64) ensures Swap(Not(x)) == Not(Swap(x)) {}
  lemma XorNot(x: bv64, y: bv64) ensures Xor(Not(x), y) == Not(Xor(x, y)) {}

  lemma RoundNot(x: bv64, k: bv64)
    ensures Round(Not(x), Xor(k, LOW48)) == Not(Round(x, k))
  {
    hide Xor, Not, Not32, Swap, F, Narrow, Wide, LOW48;
    NarrowNot(x);
    FSame(Narrow(x), k);
    SwapNot(x);
    XorNot(Swap(x), Wide(F(Narrow(x), k)));
  }

  lemma {:induction false} RoundsNot(x: bv64, a: seq<bv64>, b: seq<bv64>)
    requires AllOpposite(a, b)
    ensures Rounds(Not(x), b) == Not(Rounds(x, a))
    decreases |a|
  {
    hide Round, Not, Xor;
    if a != [] {
      RoundNot(x, a[0]);
      RoundsNot(Round(x, a[0]), a[1..], b[1..]);
    }
  }

  lemma IpNot(x: bv64)
    ensures Shuffle(Not(x), IP_SHUFFLE) == Not(Shuffle(x, IP_SHUFFLE))
    ensures ShuffleInv(Not(x), IP_SHUFFLE) == Not(ShuffleInv(x, IP_SHUFFLE))
  {
    hide Shuffle, ShuffleInv, IP_SHUFFLE, Xor, Low;
    Lengths();
    LowValues();
    ShuffleNot(x, IP_SHUFFLE);
    var y := ShuffleInv(x, IP_SHUFFLE);
    IpInverse(x);
    ShuffleNot(y, IP_SHUFFLE);
    IpInverse(Not(y));
  }

  lemma CipherNot(x: bv64, a: seq<bv64>, b: seq<bv64>)
    requires AllOpposite(a, b)
    ensures Cipher(Not(x), b) == Not(Cipher(x, a))
  {
    hide Shuffle, ShuffleInv, IP_SHUFFLE, Rounds, Swap, Not, AllOpposite;
    IpNot(x);
    RoundsNot(Shuffle(x, IP_SHUFFLE), a, b);
    SwapNot(Rounds(Shuffle(x, IP_SHUFFLE), a));
    IpNot(Swap(Rounds(Shuffle(x, IP_SHUFFLE), a)));
  }

  /** The complementation property, for every key and block and in both directions. */
  lemma Complementation(x: bv64, key: bv64, decrypt: bool)
    ensures EncDec(Not(x), RoundKeys(Not(key)), decrypt) == Not(EncDec(x, RoundKeys(key), decrypt))
  {
    hide Not, Cipher, Xor, RoundKey;
    RoundKeysNot(key);
    var a, b := RoundKeys(key), RoundKeys(Not(key));
    assert AllOpposite(Reversed(a), Reversed(b));
    CipherNot(x, if decrypt then Reversed(a) else a, if decrypt then Reversed(b) else b);
  }
}
