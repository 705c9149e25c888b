/** The conditions under which a copied instruction is faithful are exact: where one of them does
    not hold there are a memory and a machine state in which the copy goes wrong. */
module Arm64Exactness {
  import opened Arm64Isa
  import opened Arm64Assembler
  import opened Arm64MovImmediate
  import opened Arm64Copier
  import opened Arm64Relocation
  import opened Arm64RelocationData

  // ------------------------------------------------------------------ the size of a copy

  function Bytes(words: seq<bv32>): bv64 {
    if words == [] then 0 else Plus(4, Bytes(words[1..]))
  }

  lemma PlusAssoc(a: bv64, b: bv64, c: bv64)
    ensures Plus(Plus(a, b), c) == Plus(a, Plus(b, c))
  {
    assert Plus(a + b, c) == Plus(a, b + c);
  }

  lemma PlusZero(a: bv64)
    ensures Plus(a, 0) == a
  {}

  lemma MinusPlus(a: bv64, b: bv64)
    ensures Minus(Plus(a, b), a) == b
  {
    assert Minus(a + b, a) == b;
  }

  lemma {:induction false} EndOfBytes(base: bv64, words: seq<bv32>)
    ensures EndOf(base, words) == Plus(base, Bytes(words))
    decreases |words|
  {
    if words == [] {
      PlusZero(base);
    } else {
      hide Plus;
      EndOfBytes(Plus(base, 4), words[1..]);
      PlusAssoc(base, 4, Bytes(words[1..]));
    }
  }

  lemma BytesStep(words: seq<bv32>, bound: bv64)
    requires bound <= 96 && (words == [] || Bytes(words[1..]) <= bound)
    ensures Bytes(words) <= bound + 4
  {}

  /** A copied instruction takes at most 24 bytes. */
  lemma BytesOfCopy(words: seq<bv32>)
    requires |words| <= 6
    ensures Bytes(words) <= 24
  {
    hide Plus;
    if |words| > 0 {
      if |words| > 1 {
        if |words| > 2 {
          if |words| > 3 {
            if |words| > 4 {
              if |words| > 5 {
                BytesStep(words[1..][1..][1..][1..][1..], 0);
              }
              BytesStep(words[1..][1..][1..][1..], 4);
            }
            BytesStep(words[1..][1..][1..], 8);
          }
          BytesStep(words[1..][1..], 12);
        }
        BytesStep(words[1..], 16);
      }
      BytesStep(words, 20);
    }
  }

  lemma BeyondCopy(delta: bv64, half: bv64)
    requires !Fits(delta, half) && (half == HALF_ADR || half == HALF_TBZ)
    ensures delta > 24
  {}

  /** A target out of near range is neither in the copy nor just past it. */
  lemma FarOutside(target: bv64, dest: bv64, half: bv64, words: seq<bv32>)
    requires !Fits(Minus(target, dest), half) && (half == HALF_ADR || half == HALF_TBZ)
    requires |words| <= 6
    ensures var end := EndOf(dest, words); target != end && !Inside(dest, end, target) && !Inside(dest, end, end)
  {
    hide Plus, Minus, Fits, Bytes, EndOf;
    EndOfBytes(dest, words);
    BytesOfCopy(words);
    MinusPlus(dest, Bytes(words));
    BeyondCopy(Minus(target, dest), half);
  }

  // ------------------------------------------------------------------ a copy cannot both branch and fall through

  lemma NotBothWays(m: Machine, dest: bv64, words: seq<bv32>, c: Core, target: bv64)
    requires var end := EndOf(dest, words); target != end && !Inside(dest, end, target) && !Inside(dest, end, end)
    requires Branched(m, dest, EndOf(dest, words), dest, words, c, true, target)
    ensures !Branched(m, dest, EndOf(dest, words), dest, words, c, false, target)
  {
    hide Reaches, Agree, EndOf, Inside;
    var end := EndOf(dest, words);
    if Branched(m, dest, end, dest, words, c, false, target) {
      var t: Core :| Agree(c, t) && Reaches(m, dest, end, State(dest, c), State(target, t));
      var u: Core :| Agree(c, u) && Reaches(m, dest, end, State(dest, c), State(end, u));
      ExitUnique(m, dest, end, State(dest, c), State(target, t), State(end, u));
    }
  }

  /** Where the copy takes the wrong way out, it is not faithful. */
  lemma WrongWay(m: Machine, src: bv64, dest: bv64, words: seq<bv32>, i: bv32, c: Core, taken: bool, target: bv64)
    requires var end := EndOf(dest, words); target != end && !Inside(dest, end, target) && !Inside(dest, end, end)
    requires Exec(m, Decode(i), src, EndOf(dest, words), c) == Outcome(c, Take(!taken, target))
    requires Branched(m, dest, EndOf(dest, words), dest, words, c, taken, target)
    ensures !Faithful(m, dest, EndOf(dest, words), src, dest, words, i, c)
  {
    hide Exec, Decode, EndOf, Inside, Branched, Faithful;
    FromBranched(m, dest, EndOf(dest, words), src, dest, words, i, c, !taken, target);
    if Branched(m, dest, EndOf(dest, words), dest, words, c, !taken, target) {
      NotBothWays(m, dest, words, c, target);
    }
  }

  // ------------------------------------------------------------------ conditional branches

  /** A copied B.cond is faithful in a state exactly when it stays near or its condition is one of
      the fourteen that can be inverted: the always conditions 14 and 15 fall through instead. */
  lemma BccExact(m: Machine, src: bv64, dest: bv64, i: bv32, c: Core)
    requires KindOf(i) == KBcc && Aligned4(src) && Aligned4(dest)
    requires Placed(m.mem, dest, EndOf(dest, CopyBcc(src, dest, i)), dest, CopyBcc(src, dest, i))
    ensures Faithful(m, dest, EndOf(dest, CopyBcc(src, dest, i)), src, dest, CopyBcc(src, dest, i), i, c)
       <==> Relocatable(src, dest, i)
  {
    hide Aligned4, Placed, Fits, Minus, Target19, ConditionHolds, Branched, Faithful, CopyBcc, Cond, KindOf, Exec, Decode, EndOf, Inside, AdrSafe, IsFar, LiteralSafe, Reg0, Target14;
    var words, target := CopyBcc(src, dest, i), Target19(src, i);
    var end := EndOf(dest, words);
    if Relocatable(src, dest, i) {
      BccFaithful(m, dest, end, src, dest, i, c);
    } else {
      AlwaysCondition(Cond(i), c.nzcv);
      BccRun(m, dest, end, src, dest, i, c, false);
      BccSource(m, src, end, i, c);
      FarOutside(target, dest, HALF_ADR, words);
      WrongWay(m, src, dest, words, i, c, false, target);
    }
  }

  lemma FarIsNotNear(target: bv64, dest: bv64, half: bv64)
    requires IsFar(target, dest, half)
    ensures !Fits(Minus(target, dest), half)
  {}

  /** A value of x17 on which the test differs from the test of `other`. */
  lemma CbzOther(i: bv32, other: bv64) returns (value: bv64)
    ensures CbzTaken(i, value) <==> !CbzTaken(i, other)
  {
    hide Size, Nz;
    CompareZeroOne(Size(i), Nz(i) == 1);
    value := if CbzTaken(i, other) == CbzTaken(i, 0) then 1 else 0;
  }

  lemma CompareZeroOne(size: bv32, nz: bool)
    ensures CompareTaken(if size == 1 then W64 else W32, nz, 0) <==> !CompareTaken(if size == 1 then W64 else W32, nz, 1)
  {}

  lemma TbzOther(i: bv32, other: bv64) returns (value: bv64)
    ensures TbzTaken(i, value) <==> !TbzTaken(i, other)
  {
    hide BitNumber, Nz, TestTaken;
    TestZeroOnes(BitNumber(i), Nz(i) == 1);
    value := if TbzTaken(i, other) == TbzTaken(i, 0) then 0xffff_ffff_ffff_ffff else 0;
  }

  lemma TestZeroOnes(bit: bv6, nz: bool)
    ensures TestTaken(bit, nz, 0) <==> !TestTaken(bit, nz, 0xffff_ffff_ffff_ffff)
  {}

  /** A core whose x17 holds `value`. */
  function WithScratch(value: bv64): Core {
    Core(map[R(SCRATCH) := value], 0, 0, map[], map[])
  }

  lemma WithScratchGet(value: bv64, target: bv64)
    ensures X(WithScratch(value), SCRATCH) == value && X(SetX(WithScratch(value), SCRATCH, target), SCRATCH) == target
  {}

  /** A copied CBZ or CBNZ is faithful in every state exactly when it is not a far form testing x17. */
  lemma CbzExact(m: Machine, src: bv64, dest: bv64, i: bv32)
    requires KindOf(i) == KCbz && Aligned4(src) && Aligned4(dest)
    requires Placed(m.mem, dest, EndOf(dest, CopyCbz(src, dest, i)), dest, CopyCbz(src, dest, i))
    ensures (forall c: Core :: Faithful(m, dest, EndOf(dest, CopyCbz(src, dest, i)), src, dest, CopyCbz(src, dest, i), i, c))
       <==> Relocatable(src, dest, i)
  {
    hide Aligned4, Placed, Target19, Branched, Faithful, CopyCbz, KindOf, Exec, Decode, EndOf, Inside, AdrSafe, IsFar, LiteralSafe, Reg0, Target14, CbzTaken, X, SetX, WithScratch;
    var words, target := CopyCbz(src, dest, i), Target19(src, i);
    var end := EndOf(dest, words);
    if Relocatable(src, dest, i) {
      forall c: Core
        ensures Faithful(m, dest, end, src, dest, words, i, c)
      {
        CbzFaithful(m, dest, end, src, dest, i, c);
      }
    } else {
      var value := CbzOther(i, target);
      var c := WithScratch(value);
      WithScratchGet(value, target);
      CbzRun(m, dest, end, src, dest, i, c, CbzTaken(i, target));
      CbzSource(m, src, end, i, c);
      FarIsNotNear(target, dest, HALF_ADR);
      FarOutside(target, dest, HALF_ADR, words);
      WrongWay(m, src, dest, words, i, c, CbzTaken(i, target), target);
      assert !Faithful(m, dest, end, src, dest, words, i, c);
    }
  }

  /** A copied TBZ or TBNZ is faithful in every state exactly when it is not a far form testing x17. */
  lemma TbzExact(m: Machine, src: bv64, dest: bv64, i: bv32)
    requires KindOf(i) == KTbz && Aligned4(src) && Aligned4(dest)
    requires Placed(m.mem, dest, EndOf(dest, CopyTbz(src, dest, i)), dest, CopyTbz(src, dest, i))
    ensures (forall c: Core :: Faithful(m, dest, EndOf(dest, CopyTbz(src, dest, i)), src, dest, CopyTbz(src, dest, i), i, c))
       <==> Relocatable(src, dest, i)
  {
    hide Aligned4, Placed, Target19, Branched, Faithful, CopyTbz, KindOf, Exec, Decode, EndOf, Inside, AdrSafe, IsFar, LiteralSafe, Reg0, Target14, TbzTaken, X, SetX, WithScratch;
    var words, target := CopyTbz(src, dest, i), Target14(src, i);
    var end := EndOf(dest, words);
    if Relocatable(src, dest, i) {
      forall c: Core
        ensures Faithful(m, dest, end, src, dest, words, i, c)
      {
        TbzFaithful(m, dest, end, src, dest, i, c);
      }
    } else {
      var value := TbzOther(i, target);
      var c := WithScratch(value);
      WithScratchGet(value, target);
      TbzRun(m, dest, end, src, dest, i, c, TbzTaken(i, target));
      TbzSource(m, src, end, i, c);
      FarIsNotNear(target, dest, HALF_TBZ);
      FarOutside(target, dest, HALF_TBZ, words);
      WrongWay(m, src, dest, words, i, c, TbzTaken(i, target), target);
      assert !Faithful(m, dest, end, src, dest, words, i, c);
    }
  }

  // ------------------------------------------------------------------ address computation

  lemma EndIsOutside(dest: bv64, words: seq<bv32>)
    ensures !Inside(dest, EndOf(dest, words), EndOf(dest, words))
  {
    hide EndOf, Minus;
  }

  /** A copied ADR is faithful in a state exactly when it computes the same core up to x17. */
  lemma AdrByResult(m: Machine, src: bv64, dest: bv64, i: bv32, c: Core)
    requires KindOf(i) == KAdr
    requires Placed(m.mem, dest, EndOf(dest, CopyAdr(src, dest, i)), dest, CopyAdr(src, dest, i))
    ensures Faithful(m, dest, EndOf(dest, CopyAdr(src, dest, i)), src, dest, CopyAdr(src, dest, i), i, c)
       <==> Agree(SetX(c, Reg0(i), AddressOf(src, i)), AdrResult(src, dest, i, c))
  {
    hide Placed, EndOf, Reaches, Agree, Exec, Decode, KindOf, CopyAdr, AddressOf, SetX, Reg0, AdrResult, Inside;
    var words := CopyAdr(src, dest, i);
    var end := EndOf(dest, words);
    var out := State(end, AdrResult(src, dest, i, c));
    AdrRun(m, dest, end, src, dest, i, c);
    AdrSource(m, src, end, i, c);
    EndIsOutside(dest, words);
    if Faithful(m, dest, end, src, dest, words, i, c) {
      var t: Core :| Agree(SetX(c, Reg0(i), AddressOf(src, i)), t) && Reaches(m, dest, end, State(dest, c), State(end, t));
      ExitUnique(m, dest, end, State(dest, c), out, State(end, t));
    }
  }

  lemma PairStack(page: bv32)
    requires page <= 0xfff
    ensures Clip32(Plus(0x1_0000_0000, page as bv64)) != 0x1_0000_0000
  {}

  lemma DisagreeAt(a: Core, b: Core, r: bv5)
    requires r != SCRATCH && X(a, r) != X(b, r)
    ensures !Agree(a, b)
  {}

  lemma SetXGet(c: Core, r: bv5, value: bv64)
    requires r != ZR
    ensures X(SetX(c, r, value), r) == value
  {}

  /** A copied ADR or ADRP computes the right address in every state exactly when it is not the pair
      ADRP, ADD with a target of 4 GB or more, or on register 31. */
  lemma AdrExact(m: Machine, src: bv64, dest: bv64, i: bv32)
    requires KindOf(i) == KAdr
    requires Placed(m.mem, dest, EndOf(dest, CopyAdr(src, dest, i)), dest, CopyAdr(src, dest, i))
    ensures (forall c: Core :: Faithful(m, dest, EndOf(dest, CopyAdr(src, dest, i)), src, dest, CopyAdr(src, dest, i), i, c))
       <==> Relocatable(src, dest, i)
  {
    hide Placed, Faithful, CopyAdr, KindOf, EndOf, IsPagePair, LiteralSafe, Reg0, Target14, Target19, IsFar, X, SetX, AddressOf, Clip32, Plus, PageOffset, Agree;
    var words, target, rd := CopyAdr(src, dest, i), AddressOf(src, i), Reg0(i);
    var end := EndOf(dest, words);
    if Relocatable(src, dest, i) {
      forall c: Core
        ensures Faithful(m, dest, end, src, dest, words, i, c)
      {
        AdrFaithful(m, dest, end, src, dest, i, c);
      }
    } else {
      var c := Core(map[], 0x1_0000_0000, 0, map[], map[]);
      AdrByResult(m, src, dest, i, c);
      if rd == ZR {
        PageOffsetSmall(target);
        PairStack(PageOffset(target));
        StackDiffers(c, Clip32(Plus(c.sp, PageOffset(target) as bv64)), target);
      } else {
        LowHalf(target);
        SetXGet(c, rd, target);
        SetXGet(c, rd, Clip32(target));
        DisagreeAt(SetX(c, rd, target), SetX(c, rd, Clip32(target)), rd);
      }
      assert !Faithful(m, dest, end, src, dest, words, i, c);
    }
  }

  lemma StackDiffers(c: Core, sp: bv64, value: bv64)
    requires sp != c.sp
    ensures !Agree(SetX(c, ZR, value), c.(sp := sp))
  {}

  // ------------------------------------------------------------------ literal loads

  function DeltaOffset(delta: bv64): bv64 { Offset19((Low32(delta) >> 2) & 0x7_ffff) }

  lemma NearAddressIs(target: bv64, dest: bv64)
    ensures NearAddress(target, dest) == Plus(dest, DeltaOffset(Minus(target, dest)))
  {
    hide Plus, Offset19, Minus, Low32;
  }

  lemma FieldFits(imm: bv32)
    requires imm <= 0x7_ffff
    ensures Fits(Offset19(imm), HALF_ADR)
  {}

  lemma DeltaOffsetExact(delta: bv64)
    requires Aligned4(delta)
    ensures DeltaOffset(delta) == delta <==> Fits(delta, HALF_ADR)
  {
    hide Fits, Offset19, Low32, Aligned4;
    FieldFits((Low32(delta) >> 2) & 0x7_ffff);
    if Fits(delta, HALF_ADR) {
      SignField19(delta);
    }
  }

  /** The near form of a literal load reads the original literal exactly when the distance fits the
      19-bit field, half of the range that the copier tests. */
  lemma LiteralReachExact(target: bv64, dest: bv64)
    requires Aligned4(target) && Aligned4(dest)
    ensures NearAddress(target, dest) == target <==> Fits(Minus(target, dest), HALF_ADR)
  {
    hide Fits, Plus, Minus, DeltaOffset, Aligned4, NearAddress;
    var delta := Minus(target, dest);
    AlignedDifference(target, dest);
    NearAddressIs(target, dest);
    DeltaOffsetExact(delta);
    AddBack(target, dest);
    MinusPlus(dest, DeltaOffset(delta));
  }

  // ------------------------------------------------------------------ a memory that holds a copy

  /** The word at a distance in bytes from the first one. */
  function WordAt(words: seq<bv32>, offset: bv64): bv32 {
    if offset == 0 && |words| > 0 then words[0]
    else if offset == 4 && |words| > 1 then words[1]
    else if offset == 8 && |words| > 2 then words[2]
    else if offset == 12 && |words| > 3 then words[3]
    else if offset == 16 && |words| > 4 then words[4]
    else if offset == 20 && |words| > 5 then words[5]
    else 0
  }

  function Image(dest: bv64, words: seq<bv32>): Memory {
    (a: bv64) => WordAt(words, Minus(a, dest))
  }

  function Distance(k: nat): bv64
    requires k <= 6
  {
    if k == 0 then 0 else if k == 1 then 4 else if k == 2 then 8 else if k == 3 then 12 else if k == 4 then 16 else if k == 5 then 20 else 24
  }

  lemma DistanceStep(words: seq<bv32>, k: nat)
    requires k < |words| <= 6
    ensures Plus(Distance(k), 4) == Distance(k + 1) && Distance(k) < Distance(|words|) && WordAt(words, Distance(k)) == words[k]
  {}

  lemma {:induction false} BytesIsDistance(words: seq<bv32>)
    requires |words| <= 6
    ensures Bytes(words) == Distance(|words|)
    decreases |words|
  {
    hide Plus, Distance;
    if words == [] {
      assert Distance(0) == 0 by { DistanceZero(); }
    } else {
      BytesIsDistance(words[1..]);
      DistancePlus(|words| - 1);
    }
  }

  lemma DistanceZero()
    ensures Distance(0) == 0
  {}

  lemma DistancePlus(k: nat)
    requires k < 6
    ensures Plus(4, Distance(k)) == Distance(k + 1)
  {}

  lemma {:induction false} SuffixPlaced(dest: bv64, words: seq<bv32>, k: nat)
    requires k <= |words| <= 6
    ensures Placed(Image(dest, words), dest, EndOf(dest, words), Plus(dest, Distance(k)), words[k..])
    decreases |words| - k
  {
    hide Plus, Minus, Distance, EndOf, WordAt, Bytes;
    if k < |words| {
      var at := Plus(dest, Distance(k));
      SuffixPlaced(dest, words, k + 1);
      DistanceStep(words, k);
      MinusPlus(dest, Distance(k));
      PlusAssoc(dest, Distance(k), 4);
      EndOfBytes(dest, words);
      BytesIsDistance(words);
      MinusPlus(dest, Bytes(words));
      assert words[k..] == [words[k]] + words[k + 1..];
      PlacedCons(Image(dest, words), dest, EndOf(dest, words), at, words[k], words[k + 1..]);
    }
  }

  /** Any copy can be in memory. */
  lemma ImagePlaced(dest: bv64, words: seq<bv32>)
    requires |words| <= 6
    ensures Placed(Image(dest, words), dest, EndOf(dest, words), dest, words)
  {
    hide Plus, Image, EndOf, Placed;
    SuffixPlaced(dest, words, 0);
    PlusZero(dest);
    DistanceZero();
    assert words[0..] == words;
  }

  // ------------------------------------------------------------------ literal loads that go wrong

  lemma WideLow(low: bv32, high: bv32)
    ensures Low32(Wide(low, high)) == low
  {}

  lemma SignLow(a: bv32)
    ensures Low32(SignExtend32(a)) == a
  {}

  /** Loads of different words leave different states, if the register is one that is looked at. */
  lemma LoadDiffers(mem: Memory, kind: LoadKind, rt: bv5, a: bv64, b: bv64, c: Core)
    requires mem(a) != mem(b) && kind != Prefetch
    requires (kind.LoadW? || kind.LoadX? || kind.LoadSW?) ==> rt != ZR && rt != SCRATCH
    ensures !Agree(Load(mem, kind, rt, a, c), Load(mem, kind, rt, b, c))
  {
    hide Wide, SignExtend32, Plus, Agree, SetX, Low32, ZR, SCRATCH, X;
    match kind
    case LoadW => SetDiffers(c, rt, Wide(mem(a), 0), Wide(mem(b), 0), mem(a), mem(b), 0, 0);
    case LoadX => SetDiffers(c, rt, Word64(mem, a), Word64(mem, b), mem(a), mem(b), mem(Plus(a, 4)), mem(Plus(b, 4)));
    case LoadSW =>
      SignLow(mem(a));
      SignLow(mem(b));
      ValueDiffers(c, rt, SignExtend32(mem(a)), SignExtend32(mem(b)));
    case LoadS => VectorDiffers(c, rt, Vec(Wide(mem(a), 0), 0), Vec(Wide(mem(b), 0), 0), mem(a), mem(b), 0, 0);
    case LoadD => VectorDiffers(c, rt, Vec(Word64(mem, a), 0), Vec(Word64(mem, b), 0), mem(a), mem(b), mem(Plus(a, 4)), mem(Plus(b, 4)));
    case LoadQ =>
      VectorDiffers(c, rt, Vec(Word64(mem, a), Word64(mem, Plus(a, 8))), Vec(Word64(mem, b), Word64(mem, Plus(b, 8))),
                    mem(a), mem(b), mem(Plus(a, 4)), mem(Plus(b, 4)));
  }

  lemma SetDiffers(c: Core, rt: bv5, x: bv64, y: bv64, xl: bv32, yl: bv32, xh: bv32, yh: bv32)
    requires x == Wide(xl, xh) && y == Wide(yl, yh) && xl != yl && rt != ZR && rt != SCRATCH
    ensures !Agree(SetX(c, rt, x), SetX(c, rt, y))
  {
    hide Wide, SetX, Agree, Low32, ZR, SCRATCH;
    WideLow(xl, xh);
    WideLow(yl, yh);
    ValueDiffers(c, rt, x, y);
  }

  lemma ValueDiffers(c: Core, rt: bv5, x: bv64, y: bv64)
    requires x != y && rt != ZR && rt != SCRATCH
    ensures !Agree(SetX(c, rt, x), SetX(c, rt, y))
  {
    hide SetX, Agree, X;
    SetXGet(c, rt, x);
    SetXGet(c, rt, y);
    DisagreeAt(SetX(c, rt, x), SetX(c, rt, y), rt);
  }

  lemma VectorDiffers(c: Core, rt: bv5, x: Vec, y: Vec, xl: bv32, yl: bv32, xh: bv32, yh: bv32)
    requires x.lo == Wide(xl, xh) && y.lo == Wide(yl, yh) && xl != yl
    ensures !Agree(SetV(c, rt, x), SetV(c, rt, y))
  {
    hide Wide, Low32;
    WideLow(xl, xh);
    WideLow(yl, yh);
    assert SetV(c, rt, x).v[R(rt)] != SetV(c, rt, y).v[R(rt)];
  }

  /** Where both fall through, the copy is faithful exactly if it leaves an agreeing state. */
  lemma FaithfulByResult(m: Machine, src: bv64, dest: bv64, words: seq<bv32>, i: bv32, c: Core, expected: Core, result: Core)
    requires Exec(m, Decode(i), src, EndOf(dest, words), c) == Outcome(expected, Fall)
    requires Reaches(m, dest, EndOf(dest, words), State(dest, c), State(EndOf(dest, words), result))
    ensures Faithful(m, dest, EndOf(dest, words), src, dest, words, i, c) <==> Agree(expected, result)
  {
    hide EndOf, Reaches, Agree, Exec, Decode, Inside;
    var end := EndOf(dest, words);
    EndIsOutside(dest, words);
    if Faithful(m, dest, end, src, dest, words, i, c) {
      var t: Core :| Agree(expected, t) && Reaches(m, dest, end, State(dest, c), State(end, t));
      ExitUnique(m, dest, end, State(dest, c), State(end, result), State(end, t));
    }
  }

  /** Memory in which a copied near load, at `dest`, reads another word than the original. */
  function Misread(dest: bv64, word: bv32, target: bv64, near: bv64): Memory {
    (a: bv64) => if a == target then !Image(dest, [word])(near) else Image(dest, [word])(a)
  }

  lemma NotNot(a: bv32)
    ensures !a != a
  {}

  lemma SelfFits(a: bv64)
    ensures Fits(Minus(a, a), HALF_ADR)
  {}

  lemma MisreadPlaced(dest: bv64, word: bv32, target: bv64, near: bv64)
    requires target != dest && near != target
    ensures var mem := Misread(dest, word, target, near);
            Placed(mem, dest, EndOf(dest, [word]), dest, [word]) && mem(near) != mem(target)
  {
    hide Image, EndOf;
    ImagePlaced(dest, [word]);
    NotNot(Image(dest, [word])(near));
  }

  /** The copy of `i` at `dest` is faithful in every memory that holds it and still holds the literal, and in
      every state. */
  ghost predicate AlwaysFaithful(src: bv64, dest: bv64, i: bv32) {
    forall mem: Memory, m: Machine, c: Core ::
      (KindOf(i) == KLiteral ==> LiteralStable(mem, m.mem, Target19(src, i)))
      && Placed(m.mem, dest, EndOf(dest, CopyWords(mem, src, dest, i)), dest, CopyWords(mem, src, dest, i))
      ==> Faithful(m, dest, EndOf(dest, CopyWords(mem, src, dest, i)), src, dest, CopyWords(mem, src, dest, i), i, c)
  }

  function Falls(): (bv32, Core) -> Outcome { (word: bv32, c: Core) => Outcome(c, Fall) }

  /** A near load out of the reach of its field. */
  lemma NearLoadWrong(src: bv64, dest: bv64, i: bv32)
    requires KindOf(i) == KLiteral && IsAllocated(i) && Aligned4(src) && Aligned4(dest)
    requires !Unseen(i) && LoadKindOf(i) != Prefetch
    requires Fits(Minus(Target19(src, i), dest), HALF_LITERAL) && !Fits(Minus(Target19(src, i), dest), HALF_ADR)
    ensures !AlwaysFaithful(src, dest, i)
  {
    hide Aligned4, Placed, Fits, Minus, Target19, Faithful, KindOf, Exec, Decode, Agree, Reaches, EndOf, Perform, Low32, Load, LiteralKind, LiteralSize, FpNeon, Reg0,
      NearAddress, AssembleLdrLit, Misread, Unseen, ZR, SCRATCH, LiteralValue, Plus, CopyAdr, CopyBcc, CopyBranch, CopyCbz, CopyTbz, ScratchLoad, MovImmediate;
    var target, rt := Target19(src, i), Reg0(i);
    var near, kind, word := NearAddress(target, dest), LoadKindOf(i), AssembleLdrLit(LiteralSize(i), FpNeon(i), rt, Low32(Minus(target, dest)));
    SelfFits(dest);
    AlignedTarget19(src, i);
    LiteralReachExact(target, dest);
    var mem := Misread(dest, word, target, near);
    var m, words := Machine(mem, Falls()), CopyLdrLiteral(mem, src, dest, i);
    assert words == [word];
    var end := EndOf(dest, words);
    MisreadPlaced(dest, word, target, near);
    var c := WithScratch(0);
    LiteralFields(i);
    LiteralSource(m, src, end, i, c);
    PerformLiteral(m, LiteralSize(i), FpNeon(i), rt, dest, c, target);
    OneWord(m, dest, end, dest, word, c);
    SeenLoad(i);
    LoadDiffers(mem, kind, rt, target, near, c);
    FaithfulByResult(m, src, dest, words, i, c, Load(mem, kind, rt, target, c), Load(mem, kind, rt, near, c));
    assert !Faithful(m, dest, end, src, dest, CopyWords(mem, src, dest, i), i, c);
  }

  lemma SeenLoad(i: bv32)
    requires !Unseen(i) && IsAllocated(i)
    ensures (LoadKindOf(i).LoadW? || LoadKindOf(i).LoadX? || LoadKindOf(i).LoadSW?) ==> Reg0(i) != ZR && Reg0(i) != SCRATCH
  {
    LiteralFields(i);
  }

  /** A far prefetch, which becomes a move of zero into a register. */
  lemma FarPrefetchWrong(src: bv64, dest: bv64, i: bv32)
    requires KindOf(i) == KLiteral && IsAllocated(i) && Aligned4(src)
    requires !Unseen(i) && LoadKindOf(i) == Prefetch && !Fits(Minus(Target19(src, i), dest), HALF_LITERAL)
    ensures !AlwaysFaithful(src, dest, i)
  {
    hide Aligned4, Placed, Fits, Minus, Target19, Faithful, KindOf, Exec, Decode, Agree, Reaches, EndOf, Reg0, Image, ZR, SCRATCH, Plus, AssembleLdrLit, SetX, X,
      CopyAdr, CopyBcc, CopyBranch, CopyCbz, CopyTbz, ScratchLoad, MovImmediate;
    PrefetchIs(i);
    var target, rt := Target19(src, i), Reg0(i);
    var words := MovImmediate(rt, 0);
    var mem := Image(dest, words);
    var m, end := Machine(mem, Falls()), EndOf(dest, words);
    var c := Core(map[R(rt) := 1], 0, 0, map[], map[]);
    ImagePlaced(dest, words);
    LiteralSource(m, src, end, i, c);
    MovImmediateRun(m, dest, end, dest, c, rt, 0);
    OneThenZero(c, rt);
    FaithfulByResult(m, src, dest, words, i, c, c, SetX(c, rt, 0));
    assert CopyLdrLiteral(mem, src, dest, i) == words;
    assert !Faithful(m, dest, end, src, dest, CopyWords(mem, src, dest, i), i, c);
  }

  lemma PrefetchIs(i: bv32)
    requires LoadKindOf(i) == Prefetch
    ensures FpNeon(i) == 0 && (forall mem: Memory, target: bv64 :: LiteralValue(mem, LiteralSize(i), target) == 0)
    ensures !Unseen(i) ==> Reg0(i) != ZR && Reg0(i) != SCRATCH
  {
    LiteralFields(i);
  }

  lemma OneThenZero(c: Core, rt: bv5)
    requires c == Core(map[R(rt) := 1], 0, 0, map[], map[]) && rt != ZR && rt != SCRATCH
    ensures !Agree(c, SetX(c, rt, 0))
  {
    DisagreeAt(c, SetX(c, rt, 0), rt);
  }

  // ------------------------------------------------------------------ every instruction

  /** For every instruction that the architecture allocates and all pairs of addresses: the copy is faithful
      in all memories and states exactly under the condition of `CopyFaithful`. */
  lemma RelocatableExact(src: bv64, dest: bv64, i: bv32)
    requires Aligned4(src) && Aligned4(dest) && (KindOf(i) == KLiteral ==> IsAllocated(i))
    ensures AlwaysFaithful(src, dest, i) <==> Relocatable(src, dest, i)
  {
    hide Aligned4, Placed, Faithful, CopyWords, AdrSafe, LiteralSafe, LiteralStable, Fits, Target19, Target14, Reg0, Cond, IsFar, Minus, EndOf, AlwaysFaithful, KindOf;
    if Relocatable(src, dest, i) {
      RelocatableAlways(src, dest, i);
    } else if KindOf(i) == KLiteral {
      LiteralWrong(src, dest, i);
    } else {
      OtherWrong(src, dest, i);
    }
  }

  lemma RelocatableAlways(src: bv64, dest: bv64, i: bv32)
    requires Aligned4(src) && Aligned4(dest) && Relocatable(src, dest, i)
    ensures AlwaysFaithful(src, dest, i)
  {
    hide Aligned4, Placed, Faithful, CopyWords, LiteralStable, Target19, EndOf, KindOf, Relocatable;
    forall mem: Memory, m: Machine, c: Core |
      (KindOf(i) == KLiteral ==> LiteralStable(mem, m.mem, Target19(src, i)))
      && Placed(m.mem, dest, EndOf(dest, CopyWords(mem, src, dest, i)), dest, CopyWords(mem, src, dest, i))
      ensures Faithful(m, dest, EndOf(dest, CopyWords(mem, src, dest, i)), src, dest, CopyWords(mem, src, dest, i), i, c)
    {
      CopyFaithful(mem, m, dest, EndOf(dest, CopyWords(mem, src, dest, i)), src, dest, i, c);
    }
  }

  lemma LiteralWrong(src: bv64, dest: bv64, i: bv32)
    requires Aligned4(src) && Aligned4(dest) && KindOf(i) == KLiteral && IsAllocated(i) && !Relocatable(src, dest, i)
    ensures !AlwaysFaithful(src, dest, i)
  {
    hide Aligned4, AlwaysFaithful, Fits, Minus, Target19, Unseen, IsAllocated, LoadKindOf, KindOf;
    if LoadKindOf(i) == Prefetch {
      FarPrefetchWrong(src, dest, i);
    } else {
      NearLoadWrong(src, dest, i);
    }
  }

  /** The words of these do not depend on memory, and can be placed in one. */
  lemma OtherWrong(src: bv64, dest: bv64, i: bv32)
    requires Aligned4(src) && Aligned4(dest) && KindOf(i) != KLiteral && !Relocatable(src, dest, i)
    ensures !AlwaysFaithful(src, dest, i)
  {
    hide Aligned4, Placed, Faithful, CopyAdr, CopyBcc, CopyCbz, CopyTbz, CopyBranch, CopyLdrLiteral, EndOf, Image, AdrSafe, LiteralSafe, Fits, Minus, Target19, Target14, Reg0, Cond, IsFar,
      LiteralStable, Relocatable;
    NotPure(src, dest, i);
    var words := CopyWords(Image(dest, []), src, dest, i);
    var m := Machine(Image(dest, words), Falls());
    ImagePlaced(dest, words);
    assert forall mem: Memory :: CopyWords(mem, src, dest, i) == words;
    var c := WithScratch(0);
    if KindOf(i) == KAdr {
      AdrExact(m, src, dest, i);
    } else if KindOf(i) == KBcc {
      BccExact(m, src, dest, i, c);
    } else if KindOf(i) == KCbz {
      CbzExact(m, src, dest, i);
    } else {
      TbzExact(m, src, dest, i);
    }
    var d: Core :| !Faithful(m, dest, EndOf(dest, words), src, dest, words, i, d);
    assert !Faithful(m, dest, EndOf(dest, CopyWords(m.mem, src, dest, i)), src, dest, CopyWords(m.mem, src, dest, i), i, d);
  }

  lemma NotPure(src: bv64, dest: bv64, i: bv32)
    requires !Relocatable(src, dest, i)
    ensures KindOf(i) != KPure && KindOf(i) != KBranch
  {}
}
