/** The copied instructions that compute an address or load a literal, and those that are copied
    unchanged; then the theorem for every instruction that the copier handles. */
module Arm64RelocationData {
  import opened Arm64Isa
  import opened Arm64Assembler
  import opened Arm64MovImmediate
  import opened Arm64Copier
  import opened Arm64Relocation

  // ------------------------------------------------------------------ page arithmetic

  lemma PageIs(a: bv64)
    ensures Page(a) == Shl12(Shr12(a))
  {
    assert Shl12(a >> 12) == Page(a);
  }

  lemma ShlPlus(a: bv64, b: bv64)
    ensures Plus(Shl12(a), Shl12(b)) == Shl12(Plus(a, b))
  {
    assert Plus(a << 12, b << 12) == Shl12(a + b);
  }

  lemma PageShl(a: bv64)
    ensures Page(Shl12(a)) == Shl12(a)
  {
    assert Page(a << 12) == a << 12;
  }

  lemma PageReach(target: bv64, dest: bv64)
    ensures Plus(Page(dest), Shl12(PageDelta(target, dest))) == Page(target)
  {
    hide Plus, Minus, Shl12, Shr12, Page;
    PageIs(dest);
    PageIs(target);
    ShlPlus(Shr12(dest), Minus(Shr12(target), Shr12(dest)));
    AddBack(Shr12(target), Shr12(dest));
  }

  lemma PageTarget(src: bv64, imm: bv64)
    ensures Shl12(Plus(Shr12(src), imm)) == Plus(Page(src), Shl12(imm))
    ensures Page(Shl12(Plus(Shr12(src), imm))) == Shl12(Plus(Shr12(src), imm))
  {
    hide *;
    PageIs(src);
    ShlPlus(Shr12(src), imm);
    PageShl(Plus(Shr12(src), imm));
  }

  lemma PageRest(target: bv64)
    ensures Plus(Page(target), PageOffset(target) as bv64) == target
  {
    assert Plus(target & 0xffff_ffff_ffff_f000, ((target & 0xffff_ffff) as bv32 & 0xfff) as bv64) == target;
  }

  lemma PageOffsetSmall(target: bv64)
    ensures PageOffset(target) <= 0xfff
  {}

  lemma LowHalf(target: bv64)
    ensures target < 0x1_0000_0000 <==> Clip32(target) == target
  {}

  // ------------------------------------------------------------------ ADR and ADRP

  lemma SourceAdr(i: bv32)
    requires KindOf(i) == KAdr
    ensures i >> 31 == 0 ==> Decode(i) == Adr(Reg0(i), AdrField(i))
    ensures i >> 31 != 0 ==> Decode(i) == Adrp(Reg0(i), AdrField(i))
  {}

  /** The address that ADR or ADRP `i` computes. */
  function AddressOf(src: bv64, i: bv32): bv64 {
    if i >> 31 == 0 then AdrTarget(src, i) else AdrpTarget(src, i)
  }

  lemma AdrSource(m: Machine, src: bv64, link: bv64, i: bv32, c: Core)
    requires KindOf(i) == KAdr
    ensures Exec(m, Decode(i), src, link, c) == Outcome(SetX(c, Reg0(i), AddressOf(src, i)), Fall)
  {
    hide Decode, Offset14, Offset19, Offset26, SignExtend21, Page, SetX, X, XSP, SetXSP, Load, MovValue, TestTaken, CompareTaken, ConditionHolds, Plus, Shl12, Shr12, Clip32, KindOf, AdrField, AdrImm;
    SourceAdr(i);
    AdrImmIs(i);
    PageTarget(src, AdrImm(i));
  }

  lemma PerformAdr(m: Machine, rd: bv5, pc: bv64, c: Core, target: bv64)
    requires Fits(Minus(target, pc), HALF_ADR)
    ensures Perform(m, AssembleAdr19(0, rd, Low32(Minus(target, pc))), pc, c) == State(Plus(pc, 4), SetX(c, rd, target))
  {
    hide Decode, Offset14, Offset19, Offset26, SignExtend21, Page, SetX, X, XSP, SetXSP, Load, MovValue, TestTaken, CompareTaken, ConditionHolds, Plus, Shl12, Shr12, Clip32, Fits, Minus, Low32, Adr19Word;
    SignField21(Minus(target, pc));
    DecodeAdrWord(rd, Low32(Minus(target, pc)) & 0x1f_ffff);
    AddBack(target, pc);
  }

  lemma PerformAdrp(m: Machine, rd: bv5, pc: bv64, c: Core, target: bv64)
    requires Fits(PageDelta(target, pc), HALF_ADR)
    ensures Perform(m, AssembleAdr19(1, rd, Low32(PageDelta(target, pc))), pc, c) == State(Plus(pc, 4), SetX(c, rd, Page(target)))
  {
    hide Decode, Offset14, Offset19, Offset26, SignExtend21, Page, SetX, X, XSP, SetXSP, Load, MovValue, TestTaken, CompareTaken, ConditionHolds, Plus, Shl12, Shr12, Clip32, Fits, PageDelta, Low32, Adr19Word;
    SignField21(PageDelta(target, pc));
    DecodeAdrpWord(rd, Low32(PageDelta(target, pc)) & 0x1f_ffff);
    PageReach(target, pc);
  }

  lemma AddField(imm: bv32)
    requires imm <= 0xfff
    ensures imm & 0xfff == imm
  {}

  lemma PerformAdd32(m: Machine, rd: bv5, pc: bv64, c: Core, imm: bv32)
    requires imm <= 0xfff
    ensures Perform(m, AssembleAdd32(rd, rd, imm, 0), pc, c) == State(Plus(pc, 4), SetXSP(c, rd, Clip32(Plus(XSP(c, rd), imm as bv64))))
  {
    hide Decode, Offset14, Offset19, Offset26, SignExtend21, Page, SetX, X, XSP, SetXSP, Load, MovValue, TestTaken, CompareTaken, ConditionHolds, Plus, Shl12, Shr12, Clip32, AssembleAdd32;
    DecodeAdd32(rd, rd, imm);
    AddField(imm);
  }

  predicate IsPagePair(target: bv64, dest: bv64) {
    !Fits(Minus(target, dest), HALF_ADR) && Fits(PageDelta(target, dest), HALF_ADR)
  }

  /** What a copied ADR leaves in its register: the pair ADRP, ADD has only a 32-bit addition, and on
      register 31 it changes the stack pointer. */
  function AdrResult(src: bv64, dest: bv64, i: bv32, c: Core): Core {
    var target, rd := AddressOf(src, i), Reg0(i);
    if i >> 31 == 0 && IsPagePair(target, dest) then PairResult(c, rd, target)
    else SetX(c, rd, target)
  }

  /** The core after the pair ADRP, ADD (32-bit). */
  function PairResult(c: Core, rd: bv5, target: bv64): Core {
    if rd == ZR then c.(sp := Clip32(Plus(c.sp, PageOffset(target) as bv64)))
    else SetX(c, rd, Clip32(target))
  }

  lemma PairCore(c: Core, rd: bv5, target: bv64)
    ensures var d := SetX(c, rd, Page(target));
            SetXSP(d, rd, Clip32(Plus(XSP(d, rd), PageOffset(target) as bv64))) == PairResult(c, rd, target)
  {
    hide Page, Clip32, Plus, PageOffset;
    if rd != ZR {
      SetTwice(c, rd, Page(target), Clip32(target));
      PageRest(target);
    }
  }

  lemma AdrPairRun(m: Machine, lo: bv64, hi: bv64, dest: bv64, rd: bv5, target: bv64, c: Core)
    requires Fits(PageDelta(target, dest), HALF_ADR)
    requires Placed(m.mem, lo, hi, dest,
               [AssembleAdr19(1, rd, Low32(PageDelta(target, dest))), AssembleAdd32(rd, rd, PageOffset(target), 0)])
    ensures EndOf(dest, [AssembleAdr19(1, rd, Low32(PageDelta(target, dest))), AssembleAdd32(rd, rd, PageOffset(target), 0)]) == Plus(dest, 8)
    ensures Reaches(m, lo, hi, State(dest, c), State(Plus(dest, 8), PairResult(c, rd, target)))
  {
    hide *;
    var first, second := AssembleAdr19(1, rd, Low32(PageDelta(target, dest))), AssembleAdd32(rd, rd, PageOffset(target), 0);
    var d := SetX(c, rd, Page(target));
    PerformAdrp(m, rd, dest, c, target);
    PageOffsetSmall(target);
    PerformAdd32(m, rd, Plus(dest, 4), d, PageOffset(target));
    PlusEight(dest);
    PairCore(c, rd, target);
    FirstOfTwo(m, lo, hi, dest, first, second, c, d);
  }

  lemma FirstOfTwo(m: Machine, lo: bv64, hi: bv64, dest: bv64, first: bv32, second: bv32, c: Core, d: Core)
    requires Placed(m.mem, lo, hi, dest, [first, second])
    requires Perform(m, first, dest, c) == State(Plus(dest, 4), d)
    ensures EndOf(dest, [first, second]) == Plus(dest, 8)
    ensures Reaches(m, lo, hi, State(dest, c), Perform(m, second, Plus(dest, 4), d))
  {
    hide *;
    assert [first, second] == [first] + [second];
    PlacedCons(m.mem, lo, hi, dest, first, [second]);
    OneWord(m, lo, hi, Plus(dest, 4), second, d);
    FirstWord(m, lo, hi, dest, first, [second], c, Perform(m, second, Plus(dest, 4), d));
    PlusEight(dest);
  }

  lemma AdrRun(m: Machine, lo: bv64, hi: bv64, src: bv64, dest: bv64, i: bv32, c: Core)
    requires Placed(m.mem, lo, hi, dest, CopyAdr(src, dest, i))
    ensures Reaches(m, lo, hi, State(dest, c), State(EndOf(dest, CopyAdr(src, dest, i)), AdrResult(src, dest, i, c)))
  {
    hide Placed, Fits, Minus, PageDelta, Low32, AssembleAdr19, AssembleAdd32, EndOf, Reaches, Perform, Plus, Page, PageOffset, Clip32, AdrTarget, AdrpTarget, Reg0, SetX, MovImmediate, PairResult;
    var target, rd := AddressOf(src, i), Reg0(i);
    var words := CopyAdr(src, dest, i);
    if i >> 31 == 0 && Fits(Minus(target, dest), HALF_ADR) {
      PerformAdr(m, rd, dest, c, target);
      OneWord(m, lo, hi, dest, words[0], c);
    } else if i >> 31 == 0 && Fits(PageDelta(target, dest), HALF_ADR) {
      AdrPairRun(m, lo, hi, dest, rd, target, c);
    } else if i >> 31 != 0 && Fits(PageDelta(target, dest), HALF_ADR) {
      PerformAdrp(m, rd, dest, c, target);
      AdrpPage(src, i);
      OneWord(m, lo, hi, dest, words[0], c);
    } else {
      MovImmediateRun(m, lo, hi, dest, c, rd, target);
    }
  }

  lemma AdrpPage(src: bv64, i: bv32)
    ensures Page(AdrpTarget(src, i)) == AdrpTarget(src, i)
  {
    hide Plus, AdrImm, Page, Shl12, Shr12;
    PageTarget(src, AdrImm(i));
  }

  /** The copies of ADR and ADRP that compute the right address in every state. */
  predicate AdrSafe(src: bv64, dest: bv64, i: bv32) {
    i >> 31 == 0 && IsPagePair(AddressOf(src, i), dest) ==>
      Reg0(i) != ZR && (AddressOf(src, i) < 0x1_0000_0000 || Reg0(i) == SCRATCH)
  }

  lemma AgreeScratchTwice(c: Core, a: bv64, b: bv64)
    ensures Agree(SetX(c, SCRATCH, a), SetX(c, SCRATCH, b))
  {}

  lemma AdrFaithful(m: Machine, lo: bv64, hi: bv64, src: bv64, dest: bv64, i: bv32, c: Core)
    requires KindOf(i) == KAdr && AdrSafe(src, dest, i)
    requires Placed(m.mem, lo, hi, dest, CopyAdr(src, dest, i))
    ensures Faithful(m, lo, hi, src, dest, CopyAdr(src, dest, i), i, c)
  {
    hide Placed, IsPagePair, EndOf, Reaches, Agree, Exec, Decode, KindOf, CopyAdr, AddressOf, SetX, Reg0, Faithful, Plus, Low32, Clip32, PageOffset;
    var words, target, rd := CopyAdr(src, dest, i), AddressOf(src, i), Reg0(i);
    AdrRun(m, lo, hi, src, dest, i, c);
    AdrSource(m, src, EndOf(dest, words), i, c);
    LowHalf(target);
    AgreeSelf(SetX(c, rd, target));
    AgreeScratchTwice(c, target, Clip32(target));
    FaithfulIntro(m, lo, hi, src, dest, words, i, c, Outcome(SetX(c, rd, target), Fall), AdrResult(src, dest, i, c));
  }

  // ------------------------------------------------------------------ literal loads

  function LoadKindOf(i: bv32): LoadKind { LiteralKind(LiteralSize(i), FpNeon(i) == 1) }

  /** Size 3 with the vector bit is not an allocated instruction. */
  predicate IsAllocated(i: bv32) { !(LiteralSize(i) == 3 && FpNeon(i) == 1) }

  lemma SourceLiteral(i: bv32)
    requires KindOf(i) == KLiteral && IsAllocated(i)
    ensures Decode(i) == LoadLiteral(LoadKindOf(i), Reg0(i), Imm19Field(i))
  {}

  lemma LiteralFields(i: bv32)
    ensures LiteralSize(i) <= 3 && FpNeon(i) <= 1
  {}

  lemma LiteralSource(m: Machine, src: bv64, link: bv64, i: bv32, c: Core)
    requires KindOf(i) == KLiteral && IsAllocated(i) && Aligned4(src)
    ensures Exec(m, Decode(i), src, link, c) == Outcome(Load(m.mem, LoadKindOf(i), Reg0(i), Target19(src, i), c), Fall)
  {
    hide Decode, Offset14, Offset19, Offset26, SignExtend21, Page, SetX, X, XSP, SetXSP, Load, MovValue, TestTaken, CompareTaken, ConditionHolds, Plus, Shl12, Shr12, Clip32, KindOf, LoadKindOf, IsAllocated, Reg0, Imm19Field, Target19, Aligned4;
    SourceLiteral(i);
    AlignedTarget19(src, i);
  }

  /** The address that the near form reads. */
  function NearAddress(target: bv64, pc: bv64): bv64 {
    Plus(pc, Offset19((Low32(Minus(target, pc)) >> 2) & 0x7_ffff))
  }

  lemma PerformLiteral(m: Machine, size: bv32, fpneon: bv32, rt: bv5, pc: bv64, c: Core, target: bv64)
    requires size <= 3 && fpneon <= 1 && !(size == 3 && fpneon == 1)
    ensures Perform(m, AssembleLdrLit(size, fpneon, rt, Low32(Minus(target, pc))), pc, c)
         == State(Plus(pc, 4), Load(m.mem, LiteralKind(size, fpneon == 1), rt, NearAddress(target, pc), c))
  {
    hide Decode, Offset14, Offset19, Offset26, SignExtend21, Page, SetX, X, XSP, SetXSP, Load, MovValue, TestTaken, CompareTaken, ConditionHolds, Plus, Shl12, Shr12, Clip32, Minus, Low32, LdrLit19Word, LiteralKind;
    DecodeLdrLitWord(size, fpneon, rt, (Low32(Minus(target, pc)) >> 2) & 0x7_ffff);
  }

  lemma PerformScratch(m: Machine, size: bv32, rt: bv5, pc: bv64, c: Core)
    requires size <= 2
    ensures Perform(m, ScratchLoad(size, rt), pc, c)
         == State(Plus(pc, 4), Load(m.mem, LiteralKind(size, true), rt, X(c, SCRATCH), c))
  {
    hide Decode, Offset14, Offset19, Offset26, SignExtend21, Page, SetX, X, XSP, SetXSP, Load, MovValue, TestTaken, CompareTaken, ConditionHolds, Plus, Shl12, Shr12, Clip32, AssembleLdrFpNeon, LiteralKind;
    DecodeLdrFpNeon(size, rt);
  }

  /** A load of a general register is the value that the far form bakes in. */
  lemma LoadIsValue(mem: Memory, size: bv32, rt: bv5, a: bv64, c: Core)
    requires size <= 2
    ensures Load(mem, LiteralKind(size, false), rt, a, c) == SetX(c, rt, LiteralValue(mem, size, a))
  {
    hide SetX, Word64, SignExtend32, Wide;
  }

  predicate LiteralStable(before: Memory, after: Memory, a: bv64) {
    before(a) == after(a) && before(Plus(a, 4)) == after(Plus(a, 4))
  }

  lemma StableValue(before: Memory, after: Memory, size: bv32, a: bv64)
    requires LiteralStable(before, after, a)
    ensures LiteralValue(before, size, a) == LiteralValue(after, size, a)
  {
    hide Plus, SignExtend32, Wide;
  }

  /** Loads into the vector bank do not see the scratch register. */
  lemma VectorLoadAgrees(mem: Memory, size: bv32, rt: bv5, a: bv64, c: Core, value: bv64)
    requires size <= 2
    ensures Agree(Load(mem, LiteralKind(size, true), rt, a, c), Load(mem, LiteralKind(size, true), rt, a, SetX(c, SCRATCH, value)))
  {
    hide Word64, Wide, SetX, Agree;
    AgreeScratch(c, value);
    var vec := Load(mem, LiteralKind(size, true), rt, a, c).v[R(rt)];
    VectorAgrees(c, SetX(c, SCRATCH, value), rt, vec);
  }

  lemma VectorAgrees(a: Core, b: Core, rt: bv5, vec: Vec)
    requires Agree(a, b)
    ensures Agree(SetV(a, rt, vec), SetV(b, rt, vec))
  {
    assert forall r: bv5 :: X(SetV(a, rt, vec), r) == X(a, r) && X(SetV(b, rt, vec), r) == X(b, r);
  }

  /** A general register whose value nothing depends on: the zero register, or the one the copier takes. */
  predicate Unseen(i: bv32) { FpNeon(i) == 0 && (Reg0(i) == ZR || Reg0(i) == SCRATCH) }

  /** The literal loads whose copies do what they do: the near range is twice as wide as the field, which
      only a prefetch does not mind, and a far prefetch becomes a move into a register. One encoding is
      not allocated. */
  predicate LiteralSafe(src: bv64, dest: bv64, i: bv32) {
    var delta := Minus(Target19(src, i), dest);
    && IsAllocated(i)
    && (Unseen(i) || if LoadKindOf(i) == Prefetch then Fits(delta, HALF_LITERAL) else Fits(delta, HALF_LITERAL) ==> Fits(delta, HALF_ADR))
  }

  lemma UnseenLoad(mem: Memory, kind: LoadKind, rt: bv5, a: bv64, c: Core, value: bv64)
    requires !kind.LoadS? && !kind.LoadD? && !kind.LoadQ? && (rt == ZR || rt == SCRATCH)
    ensures Agree(c, Load(mem, kind, rt, a, c)) && Agree(c, SetX(c, rt, value))
  {
    hide SetX, Agree, Word64, Wide, SignExtend32, ZR, SCRATCH;
    UnseenSet(c, rt, value);
    UnseenSet(c, rt, Wide(mem(a), 0));
    UnseenSet(c, rt, Word64(mem, a));
    UnseenSet(c, rt, SignExtend32(mem(a)));
    AgreeSelf(c);
  }

  lemma UnseenSet(c: Core, rt: bv5, value: bv64)
    requires rt == ZR || rt == SCRATCH
    ensures Agree(c, SetX(c, rt, value))
  {}

  lemma AgreeBoth(a: Core, b: Core, c: Core)
    requires Agree(c, a) && Agree(c, b)
    ensures Agree(a, b)
  {}

  lemma UnseenKind(i: bv32)
    requires FpNeon(i) == 0
    ensures !LoadKindOf(i).LoadS? && !LoadKindOf(i).LoadD? && !LoadKindOf(i).LoadQ?
  {}

  /** A near copy leaves what it reads at the near address. */
  lemma NearLoadAgrees(m: Machine, src: bv64, dest: bv64, i: bv32, c: Core)
    requires LiteralSafe(src, dest, i) && Fits(Minus(Target19(src, i), dest), HALF_LITERAL)
    requires Aligned4(Minus(Target19(src, i), dest))
    ensures var target := Target19(src, i);
            Agree(Load(m.mem, LoadKindOf(i), Reg0(i), target, c), Load(m.mem, LoadKindOf(i), Reg0(i), NearAddress(target, dest), c))
  {
    hide Aligned4, Fits, Minus, Target19, Agree, Reg0, FpNeon, LiteralSize, LiteralKind, NearAddress, ZR, SCRATCH, SetX, SetV, Wide, Word64;
    var target, rt, kind := Target19(src, i), Reg0(i), LoadKindOf(i);
    if Unseen(i) {
      UnseenKind(i);
      UnseenLoad(m.mem, kind, rt, target, c, 0);
      UnseenLoad(m.mem, kind, rt, NearAddress(target, dest), c, 0);
      AgreeBoth(Load(m.mem, kind, rt, target, c), Load(m.mem, kind, rt, NearAddress(target, dest), c), c);
    } else if kind == Prefetch {
      AgreeSelf(c);
    } else {
      NearIsTarget(target, dest);
      AgreeSelf(Load(m.mem, kind, rt, target, c));
    }
  }

  lemma NearIsTarget(target: bv64, dest: bv64)
    requires Fits(Minus(target, dest), HALF_ADR) && Aligned4(Minus(target, dest))
    ensures NearAddress(target, dest) == target
  {
    hide Fits, Minus, Aligned4, Plus, Offset19, Low32;
    Reach19(target, dest);
  }

  /** A far copy leaves the value itself. */
  lemma FarValueAgrees(m: Machine, i: bv32, target: bv64, c: Core)
    requires FpNeon(i) == 0 && (Unseen(i) || LoadKindOf(i) != Prefetch)
    ensures Agree(Load(m.mem, LoadKindOf(i), Reg0(i), target, c), SetX(c, Reg0(i), LiteralValue(m.mem, LiteralSize(i), target)))
  {
    hide Agree, Reg0, FpNeon, LiteralSize, LiteralKind, LiteralValue, ZR, SCRATCH, SetX, SetV, Wide, Word64, Load;
    var rt, kind, size := Reg0(i), LoadKindOf(i), LiteralSize(i);
    if Unseen(i) {
      UnseenKind(i);
      UnseenLoad(m.mem, kind, rt, target, c, LiteralValue(m.mem, size, target));
      AgreeBoth(Load(m.mem, kind, rt, target, c), SetX(c, rt, LiteralValue(m.mem, size, target)), c);
    } else {
      PrefetchSize(i);
      LoadIsValue(m.mem, size, rt, target, c);
      AgreeSelf(SetX(c, rt, LiteralValue(m.mem, size, target)));
    }
  }

  lemma PrefetchSize(i: bv32)
    requires FpNeon(i) == 0 && LoadKindOf(i) != Prefetch
    ensures LiteralSize(i) <= 2
  {}

  lemma LiteralFaithful(mem: Memory, m: Machine, lo: bv64, hi: bv64, src: bv64, dest: bv64, i: bv32, c: Core)
    requires KindOf(i) == KLiteral && Aligned4(src) && Aligned4(dest) && LiteralSafe(src, dest, i)
    requires LiteralStable(mem, m.mem, Target19(src, i))
    requires Placed(m.mem, lo, hi, dest, CopyLdrLiteral(mem, src, dest, i))
    ensures Faithful(m, lo, hi, src, dest, CopyLdrLiteral(mem, src, dest, i), i, c)
  {
    hide Aligned4, Placed, Fits, Plus, Minus, Target19, Faithful, KindOf, Exec, Decode, SetX, X, MovImmediate, AssembleLdrLit, ScratchLoad, Agree, Reaches, EndOf, Perform, Low32, Load, LiteralKind, LiteralStable, LiteralValue, LiteralSize, FpNeon, Reg0;
    var words, target := CopyLdrLiteral(mem, src, dest, i), Target19(src, i);
    var end, size, rt := EndOf(dest, words), LiteralSize(i), Reg0(i);
    var loaded := Load(m.mem, LoadKindOf(i), rt, target, c);
    LiteralSource(m, src, end, i, c);
    AlignedTarget19(src, i);
    AlignedDifference(target, dest);
    LiteralFields(i);
    if Fits(Minus(target, dest), HALF_LITERAL) {
      PerformLiteral(m, size, FpNeon(i), rt, dest, c, target);
      OneWord(m, lo, hi, dest, words[0], c);
      NearLoadAgrees(m, src, dest, i, c);
      FaithfulIntro(m, lo, hi, src, dest, words, i, c, Outcome(loaded, Fall), Load(m.mem, LoadKindOf(i), rt, NearAddress(target, dest), c));
    } else if FpNeon(i) == 0 {
      StableValue(mem, m.mem, size, target);
      MovImmediateRun(m, lo, hi, dest, c, rt, LiteralValue(mem, size, target));
      FarValueAgrees(m, i, target, c);
      FaithfulIntro(m, lo, hi, src, dest, words, i, c, Outcome(loaded, Fall), SetX(c, rt, LiteralValue(mem, size, target)));
    } else {
      var mid, d := EndOf(dest, MovImmediate(SCRATCH, target)), SetX(c, SCRATCH, target);
      var word := ScratchLoad(size, rt);
      MovThen(m, lo, hi, dest, SCRATCH, target, [word], c);
      OneWord(m, lo, hi, mid, word, d);
      AgreeScratch(c, target);
      PerformScratch(m, size, rt, mid, d);
      VectorLoadAgrees(m.mem, size, rt, target, c, target);
      var t := Load(m.mem, LoadKindOf(i), rt, target, d);
      ReachesTrans(m, lo, hi, State(dest, c), State(mid, d), State(end, t));
      FaithfulIntro(m, lo, hi, src, dest, words, i, c, Outcome(loaded, Fall), t);
    }
  }

  // ------------------------------------------------------------------ everything else is copied unchanged

  predicate UsesAddress(i: Instr) {
    i.Adr? || i.Adrp? || i.BCond? || i.Branch? || i.CompareBranch? || i.TestBranch? || i.LoadLiteral?
  }

  /** The instructions that the copier does not recognise do not depend on their own address. */
  lemma PureDecode(i: bv32)
    requires KindOf(i) == KPure
    ensures !UsesAddress(Decode(i))
  {}

  lemma PureExec(m: Machine, i: Instr, a: bv64, b: bv64, link: bv64, c: Core)
    requires !UsesAddress(i)
    ensures Exec(m, i, a, link, c) == Exec(m, i, b, link, c)
  {
    hide Decode, Offset14, Offset19, Offset26, SignExtend21, Page, SetX, X, XSP, SetXSP, Load, MovValue, TestTaken, CompareTaken, ConditionHolds, Plus, Shl12, Shr12, Clip32;
  }

  lemma PureFaithful(m: Machine, lo: bv64, hi: bv64, src: bv64, dest: bv64, i: bv32, c: Core)
    requires KindOf(i) == KPure
    requires Placed(m.mem, lo, hi, dest, [i])
    ensures Faithful(m, lo, hi, src, dest, [i], i, c)
  {
    hide KindOf, Decode, Placed, Faithful, Exec, EndOf, Reaches, Agree, UsesAddress, Plus;
    OneWord(m, lo, hi, dest, i, c);
    PureDecode(i);
    PureExec(m, Decode(i), src, dest, Plus(dest, 4), c);
    var o := Exec(m, Decode(i), src, Plus(dest, 4), c);
    AgreeSelf(o.core);
    FaithfulIntro(m, lo, hi, src, dest, [i], i, c, o, o.core);
  }

  // ------------------------------------------------------------------ every instruction

  /** The instructions whose copy from `src` to `dest` is faithful in every state. */
  predicate Relocatable(src: bv64, dest: bv64, i: bv32) {
    match KindOf(i)
    case KAdr => AdrSafe(src, dest, i)
    case KBcc => Fits(Minus(Target19(src, i), dest), HALF_ADR) || Cond(i) < 14
    case KBranch => true
    case KCbz => !IsFar(Target19(src, i), dest, HALF_ADR) || Reg0(i) != SCRATCH
    case KTbz => !IsFar(Target14(src, i), dest, HALF_TBZ) || Reg0(i) != SCRATCH
    case KLiteral => LiteralSafe(src, dest, i)
    case KPure => true
  }

  /** Copying any instruction at any distance is faithful, for all addresses and machine states, under
      a condition on the instruction and the two addresses alone. */
  lemma CopyFaithful(mem: Memory, m: Machine, lo: bv64, hi: bv64, src: bv64, dest: bv64, i: bv32, c: Core)
    requires Aligned4(src) && Aligned4(dest) && Relocatable(src, dest, i)
    requires KindOf(i) == KLiteral ==> LiteralStable(mem, m.mem, Target19(src, i))
    requires Placed(m.mem, lo, hi, dest, CopyWords(mem, src, dest, i))
    ensures Faithful(m, lo, hi, src, dest, CopyWords(mem, src, dest, i), i, c)
  {
    hide Aligned4, Placed, Fits, Faithful, KindOf, CopyAdr, CopyBcc, CopyBranch, CopyCbz, CopyTbz, CopyLdrLiteral, Target19, Target14,
      IsFar, AdrSafe, LiteralSafe, LiteralStable, Minus, Cond, Reg0;
    match KindOf(i)
    case KAdr => AdrFaithful(m, lo, hi, src, dest, i, c);
    case KBcc => BccFaithful(m, lo, hi, src, dest, i, c);
    case KBranch => BranchFaithful(m, lo, hi, src, dest, i, c);
    case KCbz => CbzFaithful(m, lo, hi, src, dest, i, c);
    case KTbz => TbzFaithful(m, lo, hi, src, dest, i, c);
    case KLiteral => LiteralFaithful(mem, m, lo, hi, src, dest, i, c);
    case KPure => PureFaithful(m, lo, hi, src, dest, i, c);
  }
}
