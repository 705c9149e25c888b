/** Bit permutations by table, as DES uses them: a bit of the word for every entry of the table, most
    significant first, and the reverse. */
module DesShuffle {

  const ONES: bv64 := 0xffff_ffff_ffff_ffff

  type Table = seq<bv6>

  // The operations on words have names, so that proofs can treat them as such.
  function Bit(x: bv64, k: bv6): bv64 { (x >> k) & 1 }
  function BitAt(k: bv6): bv64 { 1 << k }
  function Append(res: bv64, bit: bv64): bv64 { res + (res + bit) }
  function Place(z: bv64, k: bv6): bv64 { (z & 1) << k }
  function Half(z: bv64): bv64 { z >> 1 }
  function Lsb(z: bv64): bv64 { z & 1 }
  function Or(x: bv64, y: bv64): bv64 { x | y }
  function And(x: bv64, y: bv64): bv64 { x & y }
  function Xor(x: bv64, y: bv64): bv64 { x ^ y }
  function Twice(p: bv64): bv64 { p << 1 }
  function Pred(p: bv64): bv64 { p - 1 }
  predicate Within(v: bv64, m: bv64) { v & !m == 0 }
  predicate Apart(a: bv64, b: bv64) { a & b == 0 }
  predicate Below(x: bv64, p: bv64) { x < p }

  // What the names stand for. A proof about several operations hides all the names, gives the meaning of
  // each one on plain words, and leaves one fact about plain words.
  lemma BitIs(x: bv64, k: bv6) ensures Bit(x, k) == (x >> k) & 1 {}
  lemma OrIs(x: bv64, y: bv64) ensures Or(x, y) == x | y {}
  lemma AndIs(x: bv64, y: bv64) ensures And(x, y) == x & y {}
  lemma XorIs(x: bv64, y: bv64) ensures Xor(x, y) == x ^ y {}
  lemma TwiceIs(x: bv64) ensures Twice(x) == x << 1 {}

  function Init(t: Table): Table
    requires t != []
  {
    t[..|t| - 1]
  }

  function Last(t: Table): bv6
    requires t != []
  {
    t[|t| - 1]
  }

  /** The bits of `x` that the table lists, in order. */
  function Shuffle(x: bv64, t: Table): bv64
    decreases |t|
  {
    if t == [] then 0 else Append(Shuffle(x, Init(t)), Bit(x, Last(t)))
  }

  /** The bits of `z` put where the table says, the last first. */
  function ShuffleInv(z: bv64, t: Table): bv64
    decreases |t|
  {
    if t == [] then 0 else Or(Place(z, Last(t)), ShuffleInv(Half(z), Init(t)))
  }

  /** The bits that the table lists. */
  function Mask(t: Table): bv64
    decreases |t|
  {
    if t == [] then 0 else Or(BitAt(Last(t)), Mask(Init(t)))
  }

  // ------------------------------------------------------------------ powers of two

  function Power(n: nat): bv64 { if n == 0 then 1 else Twice(Power(n - 1)) }

  /** The word of `n` ones. */
  function Low(n: nat): bv64 { Pred(Power(n)) }

  function Shl4(p: bv64): bv64 { p << 4 }

  lemma Twice4(p: bv64) ensures Twice(Twice(Twice(Twice(p)))) == Shl4(p) {}

  lemma Power4(n: nat)
    ensures Power(n + 4) == Shl4(Power(n))
  {
    hide Twice, Shl4;
    Twice4(Power(n));
    assert Power(n + 2) == Twice(Power(n + 1)) && Power(n + 3) == Twice(Power(n + 2)) && Power(n + 4) == Twice(Power(n + 3));
  }

  lemma PowerValues()
    ensures Power(48) == 0x1_0000_0000_0000 && Power(56) == 0x100_0000_0000_0000
    ensures Power(63) == 0x8000_0000_0000_0000 && Power(64) == 0
  {
    Power4(0); Power4(4); Power4(8); Power4(12); Power4(16); Power4(20); Power4(24); Power4(28);
    Power4(32); Power4(36); Power4(40); Power4(44); Power4(48); Power4(52); Power4(56);
    assert Power(60) == 0x1000_0000_0000_0000;
    assert Power(61) == Twice(Power(60));
    assert Power(62) == Twice(Power(61));
    assert Power(64) == Twice(Power(63));
  }

  lemma LowValues()
    ensures Low(64) == ONES && Low(48) == 0xffff_ffff_ffff && Low(56) == 0xff_ffff_ffff_ffff
  {
    PowerValues();
  }

  /** At most one bit. */
  predicate OneBit(p: bv64) { p & (p - 1) == 0 }

  predicate HasRoom(p: bv64) { p & 0x8000_0000_0000_0000 == 0 }

  lemma TwiceOneBit(p: bv64)
    requires OneBit(p)
    ensures OneBit(Twice(p)) && (Twice(p) != 0 ==> p != 0 && HasRoom(p))
  {}

  lemma {:induction false} PowerShape(n: nat)
    ensures OneBit(Power(n))
  {
    if n > 0 {
      PowerShape(n - 1);
      TwiceOneBit(Power(n - 1));
    } else {
      assert Power(0) == 1;
    }
  }

  lemma {:induction false} PowerFits(n: nat)
    requires n <= 63
    ensures Power(n) != 0 && (n < 63 ==> HasRoom(Power(n)))
    decreases 63 - n
  {
    hide Twice, OneBit, HasRoom;
    if n < 63 {
      PowerFits(n + 1);
      PowerShape(n);
      TwiceOneBit(Power(n));
    } else {
      PowerValues();
    }
  }

  // ------------------------------------------------------------------ the bits of a shuffled word

  predicate IsBit(b: bv64) { b <= 1 }

  lemma BitIsBit(x: bv64, k: bv6) ensures IsBit(Bit(x, k)) {}

  lemma AppendFits(res: bv64, bit: bv64, p: bv64)
    requires Below(res, p) && HasRoom(p) && IsBit(bit)
    ensures Below(Append(res, bit), Twice(p))
  {}

  lemma AppendSplits(res: bv64, bit: bv64)
    requires HasRoom(res) && IsBit(bit)
    ensures Half(Append(res, bit)) == res && Lsb(Append(res, bit)) == bit
  {}

  lemma BelowHasRoom(x: bv64, p: bv64)
    requires Below(x, p) && OneBit(p)
    ensures HasRoom(x)
  {}

  /** A shuffled word has no more bits than the table has entries. */
  lemma {:induction false} ShuffleFits(x: bv64, t: Table)
    requires |t| <= 63
    ensures Below(Shuffle(x, t), Power(|t|)) && HasRoom(Shuffle(x, t))
    decreases |t|
  {
    hide Bit, Append, Twice, Below, HasRoom, OneBit, IsBit;
    PowerShape(|t|);
    if t != [] {
      ShuffleFits(x, Init(t));
      PowerFits(|t| - 1);
      BitIsBit(x, Last(t));
      AppendFits(Shuffle(x, Init(t)), Bit(x, Last(t)), Power(|t| - 1));
    } else {
      ZeroBelowOne();
    }
    BelowHasRoom(Shuffle(x, t), Power(|t|));
  }

  lemma ZeroBelowOne() ensures Below(0, 1) {}

  lemma ShuffleSplits(x: bv64, t: Table)
    requires 0 < |t| <= 64
    ensures Half(Shuffle(x, t)) == Shuffle(x, Init(t)) && Lsb(Shuffle(x, t)) == Bit(x, Last(t))
  {
    hide Append, Bit, Half, Lsb, HasRoom, IsBit;
    ShuffleFits(x, Init(t));
    BitIsBit(x, Last(t));
    AppendSplits(Shuffle(x, Init(t)), Bit(x, Last(t)));
  }

  lemma PlaceBit(x: bv64, z: bv64, k: bv6, m: bv64)
    requires Lsb(z) == Bit(x, k)
    ensures Or(Place(z, k), And(x, m)) == And(x, Or(BitAt(k), m))
  {}

  lemma AndZero(x: bv64) ensures And(x, 0) == 0 {}

  /** Undoing a shuffle gives back the bits that the table lists. */
  lemma {:induction false} InverseOfShuffle(x: bv64, t: Table)
    requires |t| <= 64
    ensures ShuffleInv(Shuffle(x, t), t) == And(x, Mask(t))
    decreases |t|
  {
    hide Bit, Append, Half, Lsb, Place, BitAt, And, Or;
    if t != [] {
      ShuffleSplits(x, t);
      InverseOfShuffle(x, Init(t));
      PlaceBit(x, Shuffle(x, t), Last(t), Mask(Init(t)));
    } else {
      AndZero(x);
    }
  }

  // ------------------------------------------------------------------ the other way round

  /** No bit is listed twice. */
  predicate Separate(t: Table)
    decreases |t|
  {
    t == [] || (Apart(Mask(Init(t)), BitAt(Last(t))) && Separate(Init(t)))
  }

  lemma AndOr(x: bv64, b: bv64, m: bv64)
    ensures And(And(x, Or(b, m)), m) == And(x, m)
  {
    hide *;
    OrIs(b, m); AndIs(x, b | m); AndIs(x & (b | m), m); AndIs(x, m);
    AndOrRaw(x, b, m);
  }

  lemma AndOrRaw(x: bv64, b: bv64, m: bv64) ensures (x & (b | m)) & m == x & m {}

  lemma OrCommutes(a: bv64, b: bv64) ensures Or(a, b) == Or(b, a) {}

  lemma BitSees(x: bv64, k: bv6) ensures Bit(x, k) == Bit(And(x, BitAt(k)), k) {}

  lemma SeesBoth(x: bv64, y: bv64, k: bv6, m: bv64)
    requires And(x, Or(BitAt(k), m)) == And(y, Or(BitAt(k), m))
    ensures And(x, m) == And(y, m) && Bit(x, k) == Bit(y, k)
  {
    hide And, Or, BitAt, Bit;
    AndOr(x, BitAt(k), m);
    AndOr(y, BitAt(k), m);
    OrCommutes(BitAt(k), m);
    AndOr(x, m, BitAt(k));
    AndOr(y, m, BitAt(k));
    BitSees(x, k);
    BitSees(y, k);
  }

  /** Only the bits that the table lists matter. */
  lemma {:induction false} ShuffleSees(x: bv64, y: bv64, t: Table)
    requires And(x, Mask(t)) == And(y, Mask(t))
    ensures Shuffle(x, t) == Shuffle(y, t)
    decreases |t|
  {
    hide Append, Bit, BitAt, And, Or;
    if t != [] {
      SeesBoth(x, y, Last(t), Mask(Init(t)));
      ShuffleSees(x, y, Init(t));
    }
  }

  lemma ZeroWithin(m: bv64) ensures Within(0, m) {}

  lemma PlaceWithin(z: bv64, k: bv6, v: bv64, m: bv64)
    requires Within(v, m)
    ensures Within(Or(Place(z, k), v), Or(BitAt(k), m))
  {}

  lemma {:induction false} InverseWithin(z: bv64, t: Table)
    ensures Within(ShuffleInv(z, t), Mask(t))
    decreases |t|
  {
    hide BitAt, Place, Half, Within, Or;
    if t != [] {
      InverseWithin(Half(z), Init(t));
      PlaceWithin(z, Last(t), ShuffleInv(Half(z), Init(t)), Mask(Init(t)));
    } else {
      ZeroWithin(0);
    }
  }

  /** `z` has no more than `n` bits. */
  predicate Fits(z: bv64, n: nat) { if n == 0 then z == 0 else Fits(Half(z), n - 1) }

  lemma PlaceApart(z: bv64, k: bv6, v: bv64, m: bv64)
    requires Within(v, m) && Apart(m, BitAt(k))
    ensures Bit(Or(Place(z, k), v), k) == Lsb(z) && And(Or(Place(z, k), v), m) == And(v, m)
  {
    hide And, Or, BitAt, Bit, Place, Within, Apart, Lsb;
    BitOr(Place(z, k), v, k);
    BitPlaced(z, k, m);
    WithinApart(v, m, BitAt(k));
    BitMissing(v, k);
    OrZero(Lsb(z));
    OrAnd(Place(z, k), v, m);
    OrZero(And(v, m));
  }

  lemma BitOr(p: bv64, v: bv64, k: bv6)
    ensures Bit(Or(p, v), k) == Or(Bit(p, k), Bit(v, k))
  {
    hide *;
    OrIs(p, v); BitIs(p | v, k); BitIs(p, k); BitIs(v, k); OrIs((p >> k) & 1, (v >> k) & 1);
    BitOrRaw(p, v, k);
  }

  lemma BitOrRaw(p: bv64, v: bv64, k: bv6) ensures ((p | v) >> k) & 1 == ((p >> k) & 1) | ((v >> k) & 1) {}
  lemma OrAnd(p: bv64, v: bv64, m: bv64)
    ensures And(Or(p, v), m) == Or(And(p, m), And(v, m))
  {
    hide *;
    OrIs(p, v); AndIs(p | v, m); AndIs(p, m); AndIs(v, m); OrIs(p & m, v & m);
    OrAndRaw(p, v, m);
  }

  lemma OrAndRaw(p: bv64, v: bv64, m: bv64) ensures (p | v) & m == (p & m) | (v & m) {}
  lemma BitPlaced(z: bv64, k: bv6, m: bv64)
    requires Apart(m, BitAt(k))
    ensures Bit(Place(z, k), k) == Lsb(z) && And(Place(z, k), m) == 0
  {}
  lemma WithinApart(v: bv64, m: bv64, b: bv64)
    requires Within(v, m) && Apart(m, b)
    ensures Apart(v, b)
  {}
  lemma BitMissing(v: bv64, k: bv6)
    requires Apart(v, BitAt(k))
    ensures Bit(v, k) == 0
  {}

  lemma HalfAppend(z: bv64) ensures Append(Half(z), Lsb(z)) == z {}

  /** Shuffling what was put where a table without repetition says gives the word back. */
  lemma {:induction false} ShuffleOfInverse(z: bv64, t: Table)
    requires Separate(t) && Fits(z, |t|)
    ensures Shuffle(ShuffleInv(z, t), t) == z
    decreases |t|
  {
    hide Bit, Append, Half, Lsb, Place, BitAt, And, Or, Within, Apart;
    if t != [] {
      var u, k, v := Init(t), Last(t), ShuffleInv(Half(z), Init(t));
      InverseWithin(Half(z), u);
      PlaceApart(z, k, v, Mask(u));
      ShuffleSees(Or(Place(z, k), v), v, u);
      ShuffleOfInverse(Half(z), u);
      HalfAppend(z);
    }
  }

  function Shr4(z: bv64): bv64 { z >> 4 }
  function Shr16(z: bv64): bv64 { z >> 16 }

  lemma Half4(z: bv64) ensures Half(Half(Half(Half(z)))) == Shr4(z) {}
  lemma FourTimes(z: bv64) ensures Shr4(Shr4(Shr4(Shr4(z)))) == Shr16(z) {}
  lemma AllOut(z: bv64) ensures Shr16(Shr16(Shr16(Shr16(z)))) == 0 {}

  lemma Fits4(z: bv64, n: nat)
    ensures Fits(z, n + 4) == Fits(Shr4(z), n)
  {
    hide Half, Shr4;
    Half4(z);
    assert Fits(z, n + 4) == Fits(Half(z), n + 3) == Fits(Half(Half(z)), n + 2) == Fits(Half(Half(Half(z))), n + 1);
  }

  lemma Fits16(z: bv64, n: nat)
    ensures Fits(z, n + 16) == Fits(Shr16(z), n)
  {
    hide Half, Fits, Shr4, Shr16;
    Fits4(z, n + 12);
    Fits4(Shr4(z), n + 8);
    Fits4(Shr4(Shr4(z)), n + 4);
    Fits4(Shr4(Shr4(Shr4(z))), n);
    FourTimes(z);
  }

  lemma Fits64(z: bv64)
    ensures Fits(z, 64)
  {
    hide Half, Shr16;
    Fits16(z, 48);
    Fits16(Shr16(z), 32);
    Fits16(Shr16(Shr16(z)), 16);
    Fits16(Shr16(Shr16(Shr16(z))), 0);
    AllOut(z);
  }

  // ------------------------------------------------------------------ linearity and complements

  lemma AppendXor(a: bv64, b: bv64, x: bv64, y: bv64, k: bv6)
    ensures Append(Xor(a, b), Bit(Xor(x, y), k)) == Xor(Append(a, Bit(x, k)), Append(b, Bit(y, k)))
  {
    hide Append, Xor, Bit, IsBit, Or, Twice;
    BitXor(x, y, k);
    BitIsBit(x, k);
    BitIsBit(y, k);
    BitIsBit(Xor(x, y), k);
    AppendIsOr(Xor(a, b), Bit(Xor(x, y), k));
    AppendIsOr(a, Bit(x, k));
    AppendIsOr(b, Bit(y, k));
    OrXor(a, b, Bit(x, k), Bit(y, k));
  }

  lemma BitXor(x: bv64, y: bv64, k: bv6)
    ensures Bit(Xor(x, y), k) == Xor(Bit(x, k), Bit(y, k))
  {
    hide *;
    XorIs(x, y); BitIs(x ^ y, k); BitIs(x, k); BitIs(y, k); XorIs((x >> k) & 1, (y >> k) & 1);
    BitXorRaw(x, y, k);
  }

  lemma BitXorRaw(x: bv64, y: bv64, k: bv6) ensures ((x ^ y) >> k) & 1 == ((x >> k) & 1) ^ ((y >> k) & 1) {}

  lemma AppendIsOr(res: bv64, bit: bv64) requires IsBit(bit) ensures Append(res, bit) == Or(Twice(res), bit) {}
  lemma OrXor(a: bv64, b: bv64, p: bv64, q: bv64)
    requires IsBit(p) && IsBit(q)
    ensures Or(Twice(Xor(a, b)), Xor(p, q)) == Xor(Or(Twice(a), p), Or(Twice(b), q))
  {
    hide *;
    TwiceXor(a, b);
    OrXorEven(Twice(a), Twice(b), p, q);
  }

  lemma TwiceXor(a: bv64, b: bv64)
    ensures Twice(Xor(a, b)) == Xor(Twice(a), Twice(b)) && Even(Twice(a)) && Even(Twice(b))
  {
    TwiceEven(a);
    TwiceEven(b);
    hide *;
    XorIs(a, b); TwiceIs(a ^ b); TwiceIs(a); TwiceIs(b); XorIs(a << 1, b << 1);
    TwiceXorRaw(a, b);
  }

  predicate Even(a: bv64) { a & 1 == 0 }

  lemma TwiceEven(a: bv64) ensures Even(Twice(a)) {}
  lemma TwiceXorRaw(a: bv64, b: bv64) ensures (a ^ b) << 1 == (a << 1) ^ (b << 1) {}

  lemma OrXorEven(a: bv64, b: bv64, p: bv64, q: bv64)
    requires Even(a) && Even(b) && IsBit(p) && IsBit(q)
    ensures Or(Xor(a, b), Xor(p, q)) == Xor(Or(a, p), Or(b, q))
  {
    OrXorRaw(a, b, p, q);
    hide *;
    XorIs(a, b); XorIs(p, q); OrIs(a ^ b, p ^ q); OrIs(a, p); OrIs(b, q); XorIs(a | p, b | q);
  }

  lemma OrXorRaw(a: bv64, b: bv64, p: bv64, q: bv64)
    requires Even(a) && Even(b) && IsBit(p) && IsBit(q)
    ensures (a ^ b) | (p ^ q) == (a | p) ^ (b | q)
  {}

  lemma XorZero() ensures Xor(0, 0) == 0 {}

  /** Shuffling is linear. */
  lemma {:induction false} ShuffleXor(x: bv64, y: bv64, t: Table)
    ensures Shuffle(Xor(x, y), t) == Xor(Shuffle(x, t), Shuffle(y, t))
    decreases |t|
  {
    hide Append, Bit, Xor;
    if t != [] {
      ShuffleXor(x, y, Init(t));
      AppendXor(Shuffle(x, Init(t)), Shuffle(y, Init(t)), x, y, Last(t));
    } else {
      XorZero();
    }
  }

  lemma AppendOnes(p: bv64, k: bv6)
    ensures Append(Pred(p), Bit(ONES, k)) == Pred(Twice(p))
  {}

  lemma PredOne() ensures Pred(1) == 0 {}

  lemma {:induction false} ShuffleOnes(t: Table)
    ensures Shuffle(ONES, t) == Low(|t|)
    decreases |t|
  {
    hide Append, Bit, Twice, Pred;
    if t != [] {
      ShuffleOnes(Init(t));
      AppendOnes(Power(|t| - 1), Last(t));
    } else {
      PredOne();
    }
  }

  /** Complementing a word complements the bits picked from it. */
  lemma ShuffleNot(x: bv64, t: Table)
    ensures Shuffle(Xor(x, ONES), t) == Xor(Shuffle(x, t), Low(|t|))
  {
    hide Xor, Low;
    ShuffleXor(x, ONES, t);
    ShuffleOnes(t);
  }

  // ------------------------------------------------------------------ tables row by row

  lemma MaskPush(t: Table, k: bv6)
    ensures Mask(t + [k]) == Or(BitAt(k), Mask(t))
    ensures Separate(t + [k]) <==> Apart(Mask(t), BitAt(k)) && Separate(t)
  {
    hide Or, BitAt, Apart;
    assert Init(t + [k]) == t && Last(t + [k]) == k;
  }

  lemma {:induction false} MaskConcat(a: Table, b: Table)
    ensures Mask(a + b) == Or(Mask(a), Mask(b))
    decreases |b|
  {
    hide Or, BitAt;
    if b == [] {
      assert a + b == a;
      OrZero(Mask(a));
    } else {
      assert Init(a + b) == a + Init(b) && Last(a + b) == Last(b);
      MaskConcat(a, Init(b));
      OrAssociates(BitAt(Last(b)), Mask(a), Mask(Init(b)));
      OrCommutes(BitAt(Last(b)), Mask(a));
      OrAssociates(Mask(a), BitAt(Last(b)), Mask(Init(b)));
    }
  }

  lemma {:induction false} SeparateConcat(a: Table, b: Table)
    requires Separate(a) && Separate(b) && Apart(Mask(a), Mask(b))
    ensures Separate(a + b)
    decreases |b|
  {
    hide Or, BitAt, Apart;
    if b == [] {
      assert a + b == a;
    } else {
      assert Init(a + b) == a + Init(b) && Last(a + b) == Last(b);
      ApartOr(Mask(a), BitAt(Last(b)), Mask(Init(b)));
      SeparateConcat(a, Init(b));
      MaskConcat(a, Init(b));
      OrApart(Mask(a), Mask(Init(b)), BitAt(Last(b)));
    }
  }

  lemma ApartOr(a: bv64, b: bv64, c: bv64)
    requires Apart(a, Or(b, c))
    ensures Apart(a, b) && Apart(a, c)
  {}

  lemma OrApart(a: bv64, b: bv64, m: bv64)
    requires Apart(a, m) && Apart(b, m)
    ensures Apart(Or(a, b), m)
  {}

  lemma OtherBit(j: bv6, k: bv6)
    requires j != k
    ensures Apart(BitAt(j), BitAt(k))
  {}

  lemma ZeroApart(m: bv64) ensures Apart(0, m) {}

  lemma {:induction false} MaskMisses(t: Table, k: bv6)
    requires k !in t
    ensures Apart(Mask(t), BitAt(k))
    decreases |t|
  {
    hide BitAt, Apart, Or;
    if t != [] {
      assert Last(t) in t;
      MaskMisses(Init(t), k);
      OtherBit(Last(t), k);
      OrApart(BitAt(Last(t)), Mask(Init(t)), BitAt(k));
    } else {
      ZeroApart(BitAt(k));
    }
  }

  predicate Distinct(t: Table) { forall i, j :: 0 <= i < j < |t| ==> t[i] != t[j] }

  lemma {:induction false} DistinctSeparate(t: Table)
    requires Distinct(t)
    ensures Separate(t)
    decreases |t|
  {
    hide BitAt, Apart, Mask;
    if t != [] {
      DistinctSeparate(Init(t));
      MaskMisses(Init(t), Last(t));
    }
  }

  // ------------------------------------------------------------------ as loops

  lemma ShuffleNext(x: bv64, t: Table, n: nat)
    requires n < |t|
    ensures Shuffle(x, t[..n + 1]) == Append(Shuffle(x, t[..n]), Bit(x, t[n]))
  {
    hide Append, Bit;
    assert Init(t[..n + 1]) == t[..n] && Last(t[..n + 1]) == t[n];
  }

  lemma ShuffleNone(x: bv64)
    ensures Shuffle(x, []) == 0 && ShuffleInv(x, []) == 0
  {}

  method ShuffleLoop(x: bv64, t: Table) returns (res: bv64)
    ensures res == Shuffle(x, t)
  {
    hide Append, Bit, Shuffle;
    res := 0;
    var i := 0;
    ShuffleNone(x);
    while i < |t|
      invariant i <= |t| && res == Shuffle(x, t[..i])
    {
      ShuffleNext(x, t, i);
      res := Append(res, Bit(x, t[i]));
      i := i + 1;
    }
    assert t[..|t|] == t;
  }

  lemma ShuffleInvNext(res: bv64, z: bv64, t: Table, n: nat)
    requires n < |t|
    ensures Or(res, ShuffleInv(z, t[..n + 1])) == Or(Or(res, Place(z, t[n])), ShuffleInv(Half(z), t[..n]))
  {
    hide Or, Place, Half;
    assert Init(t[..n + 1]) == t[..n] && Last(t[..n + 1]) == t[n];
    OrAssociates(res, Place(z, t[n]), ShuffleInv(Half(z), t[..n]));
  }

  lemma OrAssociates(a: bv64, b: bv64, c: bv64)
    ensures Or(Or(a, b), c) == Or(a, Or(b, c))
  {
    hide *;
    OrIs(a, b); OrIs(a | b, c); OrIs(b, c); OrIs(a, b | c);
    OrAssociatesRaw(a, b, c);
  }

  lemma OrAssociatesRaw(a: bv64, b: bv64, c: bv64) ensures (a | b) | c == a | (b | c) {}


  lemma OrZero(a: bv64) ensures Or(a, 0) == a && Or(0, a) == a {}

  method ShuffleInvLoop(z: bv64, t: Table) returns (res: bv64)
    ensures res == ShuffleInv(z, t)
  {
    hide Place, Half, Or, ShuffleInv;
    res := 0;
    var i, rest := |t|, z;
    assert t[..|t|] == t;
    OrZero(ShuffleInv(z, t));
    while i > 0
      invariant 0 <= i <= |t| && Or(res, ShuffleInv(rest, t[..i])) == ShuffleInv(z, t)
    {
      ShuffleInvNext(res, rest, t, i - 1);
      res := Or(res, Place(rest, t[i - 1]));
      rest := Half(rest);
      i := i - 1;
    }
    ShuffleNone(rest);
    OrZero(res);
  }
}
