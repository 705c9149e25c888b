/** Running what the copier wrote has the effect of the source instruction: each near, medium and
    far form reaches the original target exactly when the source branch is taken, and otherwise
    falls through to the end of the copy; the other forms leave the same value. */
module Arm64Relocation {
  import opened Arm64Isa
  import opened Arm64Assembler
  import opened Arm64MovImmediate
  import opened Arm64Copier

  /** The same state up to the scratch register x17. */
  ghost predicate Agree(a: Core, b: Core) {
    a.sp == b.sp && a.nzcv == b.nzcv && a.data == b.data && a.v == b.v
    && forall r: bv5 :: r != SCRATCH ==> X(a, r) == X(b, r)
  }

  /** Running `words` placed at `dest` from core `c`, inside `[lo, hi)`, does what instruction `i`
      does at `src`: control ends at the same target, or just past the copy when `i` falls through,
      with the same state up to x17. A linking branch stores the address just past the copy. */
  ghost predicate Faithful(m: Machine, lo: bv64, hi: bv64, src: bv64, dest: bv64, words: seq<bv32>, i: bv32, c: Core) {
    var end := EndOf(dest, words);
    var o := Exec(m, Decode(i), src, end, c);
    exists t: Core :: Agree(o.core, t) && Reaches(m, lo, hi, State(dest, c), State(After(o.next, end), t))
  }

  lemma AgreeSelf(c: Core)
    ensures Agree(c, c)
  {}

  lemma AgreeScratch(c: Core, value: bv64)
    ensures Agree(c, SetX(c, SCRATCH, value)) && X(SetX(c, SCRATCH, value), SCRATCH) == value
  {
    hide *;
    ScratchOther(c, value);
    ScratchFrame(c, value);
    ScratchGet(c, value);
    AgreeIntro(c, SetX(c, SCRATCH, value));
  }

  lemma ScratchGet(c: Core, value: bv64)
    ensures X(SetX(c, SCRATCH, value), SCRATCH) == value
  {}

  lemma ScratchFrame(c: Core, value: bv64)
    ensures var d := SetX(c, SCRATCH, value); d.sp == c.sp && d.nzcv == c.nzcv && d.data == c.data && d.v == c.v
  {}

  lemma ScratchOther(c: Core, value: bv64)
    ensures forall r: bv5 :: r != SCRATCH ==> X(c, r) == X(SetX(c, SCRATCH, value), r)
  {}

  lemma AgreeIntro(a: Core, b: Core)
    requires a.sp == b.sp && a.nzcv == b.nzcv && a.data == b.data && a.v == b.v
    requires forall r: bv5 :: r != SCRATCH ==> X(a, r) == X(b, r)
    ensures Agree(a, b)
  {}

  // ------------------------------------------------------------------ short stretches of code

  /** The state after executing `word` at `pc`. */
  function Perform(m: Machine, word: bv32, pc: bv64, c: Core): State {
    var o := Exec(m, Decode(word), pc, Plus(pc, 4), c);
    State(After(o.next, Plus(pc, 4)), o.core)
  }

  lemma StepIsPerform(m: Machine, pc: bv64, c: Core)
    ensures Step(m, State(pc, c)) == Perform(m, m.mem(pc), pc, c)
  {
    hide Decode, Exec, Plus;
  }

  /** The word at the head of a placed sequence is executed, and the rest is placed after it. */
  lemma FirstWord(m: Machine, lo: bv64, hi: bv64, dest: bv64, word: bv32, rest: seq<bv32>, c: Core, t: State)
    requires Placed(m.mem, lo, hi, dest, [word] + rest)
    requires Reaches(m, lo, hi, Perform(m, word, dest, c), t)
    ensures Reaches(m, lo, hi, State(dest, c), t)
    ensures EndOf(dest, [word] + rest) == EndOf(Plus(dest, 4), rest)
    ensures Placed(m.mem, lo, hi, Plus(dest, 4), rest)
  {
    hide *;
    PlacedCons(m.mem, lo, hi, dest, word, rest);
    EndOfCons(dest, word, rest);
    StepIsPerform(m, dest, c);
    ReachesStep(m, lo, hi, State(dest, c), t);
  }

  lemma EndOfNone(base: bv64)
    ensures EndOf(base, []) == base
  {}

  lemma OneWord(m: Machine, lo: bv64, hi: bv64, dest: bv64, word: bv32, c: Core)
    requires Placed(m.mem, lo, hi, dest, [word])
    ensures EndOf(dest, [word]) == Plus(dest, 4)
    ensures Reaches(m, lo, hi, State(dest, c), Perform(m, word, dest, c))
  {
    hide *;
    assert [word] == [word] + [];
    ReachesSelf(m, lo, hi, Perform(m, word, dest, c));
    FirstWord(m, lo, hi, dest, word, [], c, Perform(m, word, dest, c));
    EndOfNone(Plus(dest, 4));
  }

  lemma TwoWords(m: Machine, lo: bv64, hi: bv64, dest: bv64, first: bv32, second: bv32, c: Core)
    requires Placed(m.mem, lo, hi, dest, [first, second])
    ensures EndOf(dest, [first, second]) == Plus(dest, 8)
    ensures Reaches(m, lo, hi, State(dest, c), Perform(m, first, dest, c))
    ensures Perform(m, first, dest, c) == State(Plus(dest, 4), c) ==>
              Reaches(m, lo, hi, State(dest, c), Perform(m, second, Plus(dest, 4), c))
  {
    hide *;
    assert [first, second] == [first] + [second];
    ReachesSelf(m, lo, hi, Perform(m, first, dest, c));
    FirstWord(m, lo, hi, dest, first, [second], c, Perform(m, first, dest, c));
    OneWord(m, lo, hi, Plus(dest, 4), second, c);
    PlusEight(dest);
    if Perform(m, first, dest, c) == State(Plus(dest, 4), c) {
      FirstWord(m, lo, hi, dest, first, [second], c, Perform(m, second, Plus(dest, 4), c));
    }
  }

  /** A constant loaded into a register, then more words. */
  lemma MovThen(m: Machine, lo: bv64, hi: bv64, dest: bv64, rd: bv5, value: bv64, rest: seq<bv32>, c: Core)
    requires Placed(m.mem, lo, hi, dest, MovImmediate(rd, value) + rest)
    ensures var mid := EndOf(dest, MovImmediate(rd, value));
            && Placed(m.mem, lo, hi, mid, rest)
            && EndOf(dest, MovImmediate(rd, value) + rest) == EndOf(mid, rest)
            && Reaches(m, lo, hi, State(dest, c), State(mid, SetX(c, rd, value)))
  {
    hide *;
    PlacedConcat(m.mem, lo, hi, dest, MovImmediate(rd, value), rest);
    EndOfConcat(dest, MovImmediate(rd, value), rest);
    MovImmediateRun(m, lo, hi, dest, c, rd, value);
  }

  // ------------------------------------------------------------------ conditional branches

  /** Control ends at `target` if `taken`, otherwise just past the copy, with the state kept up to x17. */
  ghost predicate Branched(m: Machine, lo: bv64, hi: bv64, dest: bv64, words: seq<bv32>, c: Core, taken: bool, target: bv64) {
    exists t: Core :: Agree(c, t) && Reaches(m, lo, hi, State(dest, c), State(if taken then target else EndOf(dest, words), t))
  }

  lemma BranchedIntro(m: Machine, lo: bv64, hi: bv64, dest: bv64, words: seq<bv32>, c: Core, taken: bool, target: bv64, t: Core)
    requires Agree(c, t) && Reaches(m, lo, hi, State(dest, c), State(if taken then target else EndOf(dest, words), t))
    ensures Branched(m, lo, hi, dest, words, c, taken, target)
  {
    hide Agree, Reaches, EndOf;
  }

  /** Wherever it is placed, `word` skips the next word unless `taken`. */
  ghost predicate SkipsUnless(m: Machine, word: bv32, taken: bool, c: Core) {
    forall pc: bv64 :: Perform(m, word, pc, c) == State(if taken then Plus(pc, 4) else Plus(pc, 8), c)
  }

  lemma SkipJump(m: Machine, lo: bv64, hi: bv64, dest: bv64, inverted: bv32, jump: bv32, c: Core, taken: bool, target: bv64)
    requires Placed(m.mem, lo, hi, dest, [inverted, jump])
    requires SkipsUnless(m, inverted, taken, c)
    requires Perform(m, jump, Plus(dest, 4), c) == State(target, c)
    ensures Reaches(m, lo, hi, State(dest, c), State(if taken then target else EndOf(dest, [inverted, jump]), c))
  {
    hide Placed, EndOf, Reaches, Perform;
    TwoWords(m, lo, hi, dest, inverted, jump, c);
    assert Perform(m, inverted, dest, c) == State(if taken then Plus(dest, 4) else Plus(dest, 8), c);
  }

  lemma AddBack(target: bv64, dest: bv64)
    ensures Plus(dest, Minus(target, dest)) == target
  {
    assert Plus(dest, target - dest) == target;
  }

  lemma PlusEight(a: bv64)
    ensures Plus(Plus(a, 4), 4) == Plus(a, 8)
  {
    assert Plus(a + 4, 4) == Plus(a, 8);
  }

  lemma AlignedDifference(a: bv64, b: bv64)
    requires Aligned4(a) && Aligned4(b)
    ensures Aligned4(Minus(a, b)) && Aligned4(Minus(a, Plus(b, 4)))
  {}

  lemma PerformBranch(m: Machine, link: bool, pc: bv64, c: Core, target: bv64)
    requires Fits(Minus(target, pc), HALF_BRANCH) && Aligned4(Minus(target, pc))
    ensures Perform(m, AssembleBranch(link, Low32(Minus(target, pc))), pc, c)
         == State(target, if link then SetX(c, LR, Plus(pc, 4)) else c)
  {
    hide Fits, Aligned4, Perform, AssembleBranch, Low32, SetX, Offset26, Decode;
    AddBack(target, pc);
    SignField26(Minus(target, pc));
    DecodeBranchField(link, Minus(target, pc));
    PerformBranchField(m, link, pc, c, ((Low32(Minus(target, pc)) >> 2) & 0x3ff_ffff), AssembleBranch(link, Low32(Minus(target, pc))));
  }

  lemma DecodeBranchField(link: bool, delta: bv64)
    ensures Decode(AssembleBranch(link, Low32(delta))) == Branch(link, (Low32(delta) >> 2) & 0x3ff_ffff)
  {
    hide Decode, Branch26Word, Low32;
    DecodeBranchWord(link, (Low32(delta) >> 2) & 0x3ff_ffff);
  }

  lemma PerformBranchField(m: Machine, link: bool, pc: bv64, c: Core, imm: bv32, word: bv32)
    requires Decode(word) == Branch(link, imm)
    ensures Perform(m, word, pc, c) == State(Plus(pc, Offset26(imm)), if link then SetX(c, LR, Plus(pc, 4)) else c)
  {
    hide Decode, Offset14, Offset19, Offset26, SignExtend21, Page, SetX, X, XSP, SetXSP, Load, MovValue, TestTaken, CompareTaken, ConditionHolds, Plus;
  }

  lemma PerformBr(m: Machine, link: bool, pc: bv64, c: Core)
    ensures Perform(m, AssembleBr(SCRATCH, link), pc, c) == State(X(c, SCRATCH), if link then SetX(c, LR, Plus(pc, 4)) else c)
  {
    hide Decode, Offset14, Offset19, Offset26, SignExtend21, Page, SetX, X, XSP, SetXSP, Load, MovValue, TestTaken, CompareTaken, ConditionHolds, Plus, AssembleBr;
    DecodeBr(SCRATCH, link);
  }

  lemma ConditionalRun(m: Machine, lo: bv64, hi: bv64, dest: bv64, target: bv64, half: bv64, near: bv32, inverted: bv32, c: Core, taken: bool)
    requires Placed(m.mem, lo, hi, dest, Conditional(target, dest, half, near, inverted))
    requires Aligned4(target) && Aligned4(dest)
    requires Fits(Minus(target, dest), half) ==> Perform(m, near, dest, c) == State(if taken then target else Plus(dest, 4), c)
    requires !Fits(Minus(target, dest), half) && Fits(Minus(target, Plus(dest, 4)), HALF_BRANCH) ==> SkipsUnless(m, inverted, taken, c)
    requires !Fits(Minus(target, dest), half) && !Fits(Minus(target, Plus(dest, 4)), HALF_BRANCH) ==>
               SkipsUnless(m, inverted, taken, SetX(c, SCRATCH, target))
    ensures Branched(m, lo, hi, dest, Conditional(target, dest, half, near, inverted), c, taken, target)
  {
    hide Placed, Fits, Aligned4, Perform, SkipsUnless, Branched, Reaches, EndOf, Agree, MovImmediate, AssembleBranch, AssembleBr, SetX, X, Low32;
    AlignedDifference(target, dest);
    if Fits(Minus(target, dest), half) {
      NearRun(m, lo, hi, dest, target, near, c, taken);
    } else if Fits(Minus(target, Plus(dest, 4)), HALF_BRANCH) {
      MediumRun(m, lo, hi, dest, target, inverted, c, taken);
    } else {
      FarRun(m, lo, hi, dest, target, inverted, c, taken);
    }
  }

  lemma NearRun(m: Machine, lo: bv64, hi: bv64, dest: bv64, target: bv64, near: bv32, c: Core, taken: bool)
    requires Placed(m.mem, lo, hi, dest, [near])
    requires Perform(m, near, dest, c) == State(if taken then target else Plus(dest, 4), c)
    ensures Branched(m, lo, hi, dest, [near], c, taken, target)
  {
    hide *;
    AgreeSelf(c);
    OneWord(m, lo, hi, dest, near, c);
    BranchedIntro(m, lo, hi, dest, [near], c, taken, target, c);
  }

  lemma MediumRun(m: Machine, lo: bv64, hi: bv64, dest: bv64, target: bv64, inverted: bv32, c: Core, taken: bool)
    requires Fits(Minus(target, Plus(dest, 4)), HALF_BRANCH) && Aligned4(Minus(target, Plus(dest, 4)))
    requires Placed(m.mem, lo, hi, dest, [inverted, AssembleBranch(false, Low32(Minus(target, Plus(dest, 4))))])
    requires SkipsUnless(m, inverted, taken, c)
    ensures Branched(m, lo, hi, dest, [inverted, AssembleBranch(false, Low32(Minus(target, Plus(dest, 4))))], c, taken, target)
  {
    hide *;
    var jump := AssembleBranch(false, Low32(Minus(target, Plus(dest, 4))));
    AgreeSelf(c);
    PerformBranch(m, false, Plus(dest, 4), c, target);
    SkipJump(m, lo, hi, dest, inverted, jump, c, taken, target);
    BranchedIntro(m, lo, hi, dest, [inverted, jump], c, taken, target, c);
  }

  lemma FarRun(m: Machine, lo: bv64, hi: bv64, dest: bv64, target: bv64, inverted: bv32, c: Core, taken: bool)
    requires Placed(m.mem, lo, hi, dest, MovImmediate(SCRATCH, target) + [inverted, AssembleBr(SCRATCH, false)])
    requires SkipsUnless(m, inverted, taken, SetX(c, SCRATCH, target))
    ensures Branched(m, lo, hi, dest, MovImmediate(SCRATCH, target) + [inverted, AssembleBr(SCRATCH, false)], c, taken, target)
  {
    hide *;
    var jump := AssembleBr(SCRATCH, false);
    var words := MovImmediate(SCRATCH, target) + [inverted, jump];
    var mid, d := EndOf(dest, MovImmediate(SCRATCH, target)), SetX(c, SCRATCH, target);
    MovThen(m, lo, hi, dest, SCRATCH, target, [inverted, jump], c);
    AgreeScratch(c, target);
    PerformBr(m, false, Plus(mid, 4), d);
    SkipJump(m, lo, hi, mid, inverted, jump, d, taken, target);
    ReachesTrans(m, lo, hi, State(dest, c), State(mid, d), State(if taken then target else EndOf(dest, words), d));
    BranchedIntro(m, lo, hi, dest, words, c, taken, target, d);
  }

  // ------------------------------------------------------------------ executing one assembled branch

  /** Displacement 8, as the skipping branches encode it. */
  lemma FieldOfEight()
    ensures Offset19((8 >> 2) & 0x7_ffff) == 8 && Offset14((8 >> 2) & 0x3fff) == 8
  {}

  lemma PerformBccField(m: Machine, pc: bv64, c: Core, word: bv32, cond: bv4, imm: bv32)
    requires Decode(word) == BCond(cond, imm)
    ensures Perform(m, word, pc, c) == State(if ConditionHolds(cond, c.nzcv) then Plus(pc, Offset19(imm)) else Plus(pc, 4), c)
  {
    hide Decode, Offset14, Offset19, Offset26, SignExtend21, Page, SetX, X, XSP, SetXSP, Load, MovValue, TestTaken, CompareTaken, ConditionHolds, Plus;
  }

  lemma PerformCbzField(m: Machine, pc: bv64, c: Core, word: bv32, width: Width, nz: bool, rt: bv5, imm: bv32)
    requires Decode(word) == CompareBranch(width, nz, rt, imm)
    ensures Perform(m, word, pc, c) == State(if CompareTaken(width, nz, X(c, rt)) then Plus(pc, Offset19(imm)) else Plus(pc, 4), c)
  {
    hide Decode, Offset14, Offset19, Offset26, SignExtend21, Page, SetX, X, XSP, SetXSP, Load, MovValue, TestTaken, CompareTaken, ConditionHolds, Plus;
  }

  lemma PerformTbzField(m: Machine, pc: bv64, c: Core, word: bv32, bit: bv6, nz: bool, rt: bv5, imm: bv32)
    requires Decode(word) == TestBranch(bit, nz, rt, imm)
    ensures Perform(m, word, pc, c) == State(if TestTaken(bit, nz, X(c, rt)) then Plus(pc, Offset14(imm)) else Plus(pc, 4), c)
  {
    hide Decode, Offset14, Offset19, Offset26, SignExtend21, Page, SetX, X, XSP, SetXSP, Load, MovValue, TestTaken, CompareTaken, ConditionHolds, Plus;
  }

  /** The field of a branch over a distance that fits denotes that distance. */
  lemma Reach19(target: bv64, pc: bv64)
    requires Fits(Minus(target, pc), HALF_ADR) && Aligned4(Minus(target, pc))
    ensures Plus(pc, Offset19((Low32(Minus(target, pc)) >> 2) & 0x7_ffff)) == target
  {
    hide Fits, Aligned4, Plus, Minus, Offset19, Low32;
    SignField19(Minus(target, pc));
    AddBack(target, pc);
  }

  lemma Reach14(target: bv64, pc: bv64)
    requires Fits(Minus(target, pc), HALF_TBZ) && Aligned4(Minus(target, pc))
    ensures Plus(pc, Offset14((Low32(Minus(target, pc)) >> 2) & 0x3fff)) == target
  {
    hide Fits, Aligned4, Plus, Minus, Offset14, Low32;
    FitsTbzWider(Minus(target, pc));
    SignField14(Minus(target, pc));
    AddBack(target, pc);
  }

  lemma FitsTbzWider(delta: bv64)
    requires Fits(delta, HALF_TBZ)
    ensures Fits(delta, 0x2000 << 2)
  {}

  // ------------------------------------------------------------------ the source instructions

  lemma SourceBcc(i: bv32)
    requires KindOf(i) == KBcc
    ensures Decode(i) == BCond(Cond(i), Imm19Field(i))
  {}

  lemma SourceBranch(i: bv32)
    requires KindOf(i) == KBranch
    ensures Decode(i) == Branch(i & 0x8000_0000 != 0, Imm26Field(i))
  {}

  lemma SourceCbz(i: bv32)
    requires KindOf(i) == KCbz
    ensures Decode(i) == CompareBranch(if Size(i) == 1 then W64 else W32, Nz(i) == 1, Reg0(i), Imm19Field(i))
    ensures Size(i) <= 1 && Nz(i) <= 1
  {}

  function BitNumber(i: bv32): bv6 { (((i >> 26) & 0x20) | ((i >> 19) & 0x1f)) as bv6 }

  lemma SourceTbz(i: bv32)
    requires KindOf(i) == KTbz
    ensures Decode(i) == TestBranch(BitNumber(i), Nz(i) == 1, Reg0(i), Imm14Field(i))
  {}

  lemma SourceTbzFields(i: bv32)
    ensures Size(i) <= 1 && Nz(i) <= 1 && Bit(i) <= 31 && ((Size(i) << 5) | Bit(i)) as bv6 == BitNumber(i)
  {}

  lemma AlignedTarget19(src: bv64, i: bv32)
    requires Aligned4(src)
    ensures Aligned4(Target19(src, i)) && Target19(src, i) == Plus(src, Offset19(Imm19Field(i)))
  {
    Imm19Is(i);
  }

  lemma AlignedTarget14(src: bv64, i: bv32)
    requires Aligned4(src)
    ensures Aligned4(Target14(src, i)) && Target14(src, i) == Plus(src, Offset14(Imm14Field(i)))
  {
    Imm14Is(i);
  }

  lemma AlignedTarget26(src: bv64, i: bv32)
    requires Aligned4(src)
    ensures Aligned4(Target26(src, i)) && Target26(src, i) == Plus(src, Offset26(Imm26Field(i)))
  {
    Imm26Is(i);
  }

  // ------------------------------------------------------------------ conditional branches are faithful

  lemma InvertedCondition(cond: bv4, nzcv: bv4)
    requires cond < 14
    ensures ConditionHolds(cond ^ 1, nzcv) <==> !ConditionHolds(cond, nzcv)
  {}

  lemma AlwaysCondition(cond: bv4, nzcv: bv4)
    requires cond >= 14
    ensures ConditionHolds(cond, nzcv) && ConditionHolds(cond ^ 1, nzcv)
  {}

  lemma FromBranched(m: Machine, lo: bv64, hi: bv64, src: bv64, dest: bv64, words: seq<bv32>, i: bv32, c: Core, taken: bool, target: bv64)
    requires Exec(m, Decode(i), src, EndOf(dest, words), c) == Outcome(c, Take(taken, target))
    ensures Faithful(m, lo, hi, src, dest, words, i, c) <==> Branched(m, lo, hi, dest, words, c, taken, target)
  {
    hide Exec, Decode, EndOf, Agree, Reaches;
  }

  lemma BccSkips(m: Machine, cond: bv4, c: Core, taken: bool)
    requires ConditionHolds(cond, c.nzcv) <==> !taken
    ensures SkipsUnless(m, AssembleBcc(cond, 8), taken, c)
  {
    forall pc: bv64
      ensures Perform(m, AssembleBcc(cond, 8), pc, c) == State(if taken then Plus(pc, 4) else Plus(pc, 8), c)
    {
      hide Perform, Decode, ConditionHolds, Plus, Bcc19Word;
      FieldOfEight();
      DecodeBccWord(cond, (8 >> 2) & 0x7_ffff);
      PerformBccField(m, pc, c, AssembleBcc(cond, 8), cond, (8 >> 2) & 0x7_ffff);
    }
  }

  lemma BccNear(m: Machine, cond: bv4, pc: bv64, c: Core, target: bv64)
    requires Fits(Minus(target, pc), HALF_ADR) && Aligned4(Minus(target, pc))
    ensures Perform(m, AssembleBcc(cond, Low32(Minus(target, pc))), pc, c)
         == State(if ConditionHolds(cond, c.nzcv) then target else Plus(pc, 4), c)
  {
    hide Perform, Decode, ConditionHolds, Plus, Minus, Bcc19Word, Low32, Fits, Aligned4, Offset19;
    var imm := (Low32(Minus(target, pc)) >> 2) & 0x7_ffff;
    Reach19(target, pc);
    DecodeBccWord(cond, imm);
    PerformBccField(m, pc, c, AssembleBcc(cond, Low32(Minus(target, pc))), cond, imm);
  }

  /** What a copied B.cond does: `taken` may differ from the condition when the inversion fails. */
  lemma BccRun(m: Machine, lo: bv64, hi: bv64, src: bv64, dest: bv64, i: bv32, c: Core, taken: bool)
    requires Aligned4(src) && Aligned4(dest)
    requires Placed(m.mem, lo, hi, dest, CopyBcc(src, dest, i))
    requires Fits(Minus(Target19(src, i), dest), HALF_ADR) ==> (ConditionHolds(Cond(i), c.nzcv) <==> taken)
    requires !Fits(Minus(Target19(src, i), dest), HALF_ADR) ==> (ConditionHolds(Cond(i) ^ 1, c.nzcv) <==> !taken)
    ensures Branched(m, lo, hi, dest, CopyBcc(src, dest, i), c, taken, Target19(src, i))
  {
    hide Aligned4, Placed, Fits, Minus, Plus, Target19, ConditionHolds, Branched, Conditional, AssembleBcc, Low32, Perform, SkipsUnless, Cond, SetX;
    var target := Target19(src, i);
    AlignedTarget19(src, i);
    AlignedDifference(target, dest);
    if Fits(Minus(target, dest), HALF_ADR) {
      BccNear(m, Cond(i), dest, c, target);
    } else {
      BccSkips(m, Cond(i) ^ 1, c, taken);
      ScratchFrame(c, target);
      BccSkips(m, Cond(i) ^ 1, SetX(c, SCRATCH, target), taken);
    }
    ConditionalRun(m, lo, hi, dest, target, HALF_ADR,
                   AssembleBcc(Cond(i), Low32(Minus(target, dest))), AssembleBcc(Cond(i) ^ 1, 8), c, taken);
  }

  lemma BccSource(m: Machine, src: bv64, link: bv64, i: bv32, c: Core)
    requires KindOf(i) == KBcc && Aligned4(src)
    ensures Exec(m, Decode(i), src, link, c) == Outcome(c, Take(ConditionHolds(Cond(i), c.nzcv), Target19(src, i)))
  {
    hide Decode, Offset14, Offset19, Offset26, SignExtend21, Page, SetX, X, XSP, SetXSP, Load, MovValue, TestTaken, CompareTaken, ConditionHolds, Plus, KindOf, Cond, Target19, Aligned4;
    SourceBcc(i);
    AlignedTarget19(src, i);
  }

  /** Every form of a copied B.cond is faithful when its condition can be inverted or need not be. */
  lemma BccFaithful(m: Machine, lo: bv64, hi: bv64, src: bv64, dest: bv64, i: bv32, c: Core)
    requires KindOf(i) == KBcc && Aligned4(src) && Aligned4(dest)
    requires Placed(m.mem, lo, hi, dest, CopyBcc(src, dest, i))
    requires Fits(Minus(Target19(src, i), dest), HALF_ADR) || Cond(i) < 14
    ensures Faithful(m, lo, hi, src, dest, CopyBcc(src, dest, i), i, c)
  {
    hide Aligned4, Placed, Fits, Minus, Plus, Target19, ConditionHolds, Branched, Faithful, CopyBcc, Cond, KindOf, Exec, Decode;
    var taken := ConditionHolds(Cond(i), c.nzcv);
    if Cond(i) < 14 {
      InvertedCondition(Cond(i), c.nzcv);
    }
    BccRun(m, lo, hi, src, dest, i, c, taken);
    BccSource(m, src, EndOf(dest, CopyBcc(src, dest, i)), i, c);
    FromBranched(m, lo, hi, src, dest, CopyBcc(src, dest, i), i, c, taken, Target19(src, i));
  }

  // ---- CBZ and CBNZ

  lemma CbzSkips(m: Machine, size: bv32, nz: bv32, rt: bv5, c: Core, taken: bool)
    requires size <= 1 && nz <= 1
    requires CompareTaken(if size == 1 then W64 else W32, nz == 1, X(c, rt)) <==> taken
    ensures SkipsUnless(m, AssembleCbz(size, nz ^ 1, rt, 8), taken, c)
  {
    var inverse := nz ^ 1;
    assert inverse <= 1 && (inverse == 1 <==> nz != 1);
    forall pc: bv64
      ensures Perform(m, AssembleCbz(size, inverse, rt, 8), pc, c) == State(if taken then Plus(pc, 4) else Plus(pc, 8), c)
    {
      hide Perform, Decode, Plus, Cbz19Word, X;
      FieldOfEight();
      DecodeCbzWord(size, inverse, rt, (8 >> 2) & 0x7_ffff);
      PerformCbzField(m, pc, c, AssembleCbz(size, inverse, rt, 8), if size == 1 then W64 else W32, inverse == 1, rt, (8 >> 2) & 0x7_ffff);
    }
  }

  lemma CbzNear(m: Machine, size: bv32, nz: bv32, rt: bv5, pc: bv64, c: Core, target: bv64)
    requires size <= 1 && nz <= 1
    requires Fits(Minus(target, pc), HALF_ADR) && Aligned4(Minus(target, pc))
    ensures Perform(m, AssembleCbz(size, nz, rt, Low32(Minus(target, pc))), pc, c)
         == State(if CompareTaken(if size == 1 then W64 else W32, nz == 1, X(c, rt)) then target else Plus(pc, 4), c)
  {
    hide Perform, Decode, CompareTaken, Plus, Minus, Cbz19Word, Low32, Fits, Aligned4, Offset19, X;
    var imm := (Low32(Minus(target, pc)) >> 2) & 0x7_ffff;
    Reach19(target, pc);
    DecodeCbzWord(size, nz, rt, imm);
    PerformCbzField(m, pc, c, AssembleCbz(size, nz, rt, Low32(Minus(target, pc))), if size == 1 then W64 else W32, nz == 1, rt, imm);
  }

  /** Whether CBZ or CBNZ `i` branches when its register holds `value`. */
  predicate CbzTaken(i: bv32, value: bv64) {
    CompareTaken(if Size(i) == 1 then W64 else W32, Nz(i) == 1, value)
  }

  predicate IsFar(target: bv64, dest: bv64, half: bv64) {
    !Fits(Minus(target, dest), half) && !Fits(Minus(target, Plus(dest, 4)), HALF_BRANCH)
  }

  /** What a copied CBZ or CBNZ does: the far form tests the register after x17 has been loaded. */
  lemma CbzRun(m: Machine, lo: bv64, hi: bv64, src: bv64, dest: bv64, i: bv32, c: Core, taken: bool)
    requires KindOf(i) == KCbz && Aligned4(src) && Aligned4(dest)
    requires Placed(m.mem, lo, hi, dest, CopyCbz(src, dest, i))
    requires var target := Target19(src, i);
      taken <==> CbzTaken(i, X(if IsFar(target, dest, HALF_ADR) then SetX(c, SCRATCH, target) else c, Reg0(i)))
    ensures Branched(m, lo, hi, dest, CopyCbz(src, dest, i), c, taken, Target19(src, i))
  {
    hide Aligned4, Placed, Fits, Minus, Plus, Target19, CompareTaken, Branched, Conditional, AssembleCbz, Low32, Perform, SkipsUnless, SetX, X, KindOf, Size, Nz, Reg0;
    var target, d := Target19(src, i), SetX(c, SCRATCH, Target19(src, i));
    SourceCbz(i);
    AlignedTarget19(src, i);
    AlignedDifference(target, dest);
    if Fits(Minus(target, dest), HALF_ADR) {
      CbzNear(m, Size(i), Nz(i), Reg0(i), dest, c, target);
    } else if Fits(Minus(target, Plus(dest, 4)), HALF_BRANCH) {
      CbzSkips(m, Size(i), Nz(i), Reg0(i), c, taken);
    } else {
      CbzSkips(m, Size(i), Nz(i), Reg0(i), d, taken);
    }
    ConditionalRun(m, lo, hi, dest, target, HALF_ADR,
                   AssembleCbz(Size(i), Nz(i), Reg0(i), Low32(Minus(target, dest))), AssembleCbz(Size(i), Nz(i) ^ 1, Reg0(i), 8), c, taken);
  }

  lemma CbzSource(m: Machine, src: bv64, link: bv64, i: bv32, c: Core)
    requires KindOf(i) == KCbz && Aligned4(src)
    ensures Exec(m, Decode(i), src, link, c) == Outcome(c, Take(CbzTaken(i, X(c, Reg0(i))), Target19(src, i)))
  {
    hide Decode, Offset14, Offset19, Offset26, SignExtend21, Page, SetX, X, XSP, SetXSP, Load, MovValue, TestTaken, CompareTaken, ConditionHolds, Plus, KindOf, Aligned4, Target19, Size, Nz, Reg0;
    SourceCbz(i);
    AlignedTarget19(src, i);
  }

  lemma XScratch(c: Core, value: bv64, r: bv5)
    ensures X(SetX(c, SCRATCH, value), r) == if r == SCRATCH then value else X(c, r)
  {}

  /** Every form of a copied CBZ or CBNZ is faithful, unless the far form tests x17. */
  lemma CbzFaithful(m: Machine, lo: bv64, hi: bv64, src: bv64, dest: bv64, i: bv32, c: Core)
    requires KindOf(i) == KCbz && Aligned4(src) && Aligned4(dest)
    requires Placed(m.mem, lo, hi, dest, CopyCbz(src, dest, i))
    requires !IsFar(Target19(src, i), dest, HALF_ADR) || Reg0(i) != SCRATCH
    ensures Faithful(m, lo, hi, src, dest, CopyCbz(src, dest, i), i, c)
  {
    hide Aligned4, Placed, IsFar, Plus, Target19, CbzTaken, Branched, Faithful, CopyCbz, KindOf, Exec, Decode, SetX, X, Reg0;
    var taken := CbzTaken(i, X(c, Reg0(i)));
    XScratch(c, Target19(src, i), Reg0(i));
    CbzRun(m, lo, hi, src, dest, i, c, taken);
    CbzSource(m, src, EndOf(dest, CopyCbz(src, dest, i)), i, c);
    FromBranched(m, lo, hi, src, dest, CopyCbz(src, dest, i), i, c, taken, Target19(src, i));
  }

  // ---- TBZ and TBNZ

  lemma TbzSkips(m: Machine, size: bv32, nz: bv32, rt: bv5, bit: bv32, c: Core, taken: bool)
    requires size <= 1 && nz <= 1 && bit <= 31
    requires TestTaken(((size << 5) | bit) as bv6, nz == 1, X(c, rt)) <==> taken
    ensures SkipsUnless(m, AssembleTbz(size, nz ^ 1, rt, bit, 8), taken, c)
  {
    var inverse, number := nz ^ 1, ((size << 5) | bit) as bv6;
    assert inverse <= 1 && (inverse == 1 <==> nz != 1);
    TestInverse(number, X(c, rt));
    forall pc: bv64
      ensures Perform(m, AssembleTbz(size, inverse, rt, bit, 8), pc, c) == State(if taken then Plus(pc, 4) else Plus(pc, 8), c)
    {
      hide Perform, Decode, Plus, Tbz14Word, X, TestTaken;
      FieldOfEight();
      DecodeTbzWord(size, inverse, rt, bit, (8 >> 2) & 0x3fff);
      PerformTbzField(m, pc, c, AssembleTbz(size, inverse, rt, bit, 8), number, inverse == 1, rt, (8 >> 2) & 0x3fff);
    }
  }

  lemma TestInverse(bit: bv6, value: bv64)
    ensures TestTaken(bit, true, value) <==> !TestTaken(bit, false, value)
  {}

  lemma TbzNear(m: Machine, size: bv32, nz: bv32, rt: bv5, bit: bv32, pc: bv64, c: Core, target: bv64)
    requires size <= 1 && nz <= 1 && bit <= 31
    requires Fits(Minus(target, pc), HALF_TBZ) && Aligned4(Minus(target, pc))
    ensures Perform(m, AssembleTbz(size, nz, rt, bit, Low32(Minus(target, pc))), pc, c)
         == State(if TestTaken(((size << 5) | bit) as bv6, nz == 1, X(c, rt)) then target else Plus(pc, 4), c)
  {
    hide Perform, Decode, TestTaken, Plus, Minus, Tbz14Word, Low32, Fits, Aligned4, Offset14, X;
    var imm := (Low32(Minus(target, pc)) >> 2) & 0x3fff;
    Reach14(target, pc);
    DecodeTbzWord(size, nz, rt, bit, imm);
    PerformTbzField(m, pc, c, AssembleTbz(size, nz, rt, bit, Low32(Minus(target, pc))), ((size << 5) | bit) as bv6, nz == 1, rt, imm);
  }

  /** Whether TBZ or TBNZ `i` branches when its register holds `value`. */
  predicate TbzTaken(i: bv32, value: bv64) {
    TestTaken(BitNumber(i), Nz(i) == 1, value)
  }

  /** What a copied TBZ or TBNZ does: the far form tests the register after x17 has been loaded. */
  lemma TbzRun(m: Machine, lo: bv64, hi: bv64, src: bv64, dest: bv64, i: bv32, c: Core, taken: bool)
    requires KindOf(i) == KTbz && Aligned4(src) && Aligned4(dest)
    requires Placed(m.mem, lo, hi, dest, CopyTbz(src, dest, i))
    requires var target := Target14(src, i);
      taken <==> TbzTaken(i, X(if IsFar(target, dest, HALF_TBZ) then SetX(c, SCRATCH, target) else c, Reg0(i)))
    ensures Branched(m, lo, hi, dest, CopyTbz(src, dest, i), c, taken, Target14(src, i))
  {
    hide Aligned4, Placed, Fits, Minus, Plus, Target14, TestTaken, Branched, Conditional, AssembleTbz, Low32, Perform, SkipsUnless, SetX, X, KindOf, Size, Nz, Reg0, Bit, BitNumber;
    var target, d := Target14(src, i), SetX(c, SCRATCH, Target14(src, i));
    SourceTbzFields(i);
    AlignedTarget14(src, i);
    AlignedDifference(target, dest);
    if Fits(Minus(target, dest), HALF_TBZ) {
      TbzNear(m, Size(i), Nz(i), Reg0(i), Bit(i), dest, c, target);
    } else if Fits(Minus(target, Plus(dest, 4)), HALF_BRANCH) {
      TbzSkips(m, Size(i), Nz(i), Reg0(i), Bit(i), c, taken);
    } else {
      TbzSkips(m, Size(i), Nz(i), Reg0(i), Bit(i), d, taken);
    }
    ConditionalRun(m, lo, hi, dest, target, HALF_TBZ,
                   AssembleTbz(Size(i), Nz(i), Reg0(i), Bit(i), Low32(Minus(target, dest))),
                   AssembleTbz(Size(i), Nz(i) ^ 1, Reg0(i), Bit(i), 8), c, taken);
  }

  lemma TbzSource(m: Machine, src: bv64, link: bv64, i: bv32, c: Core)
    requires KindOf(i) == KTbz && Aligned4(src)
    ensures Exec(m, Decode(i), src, link, c) == Outcome(c, Take(TbzTaken(i, X(c, Reg0(i))), Target14(src, i)))
  {
    hide Decode, Offset14, Offset19, Offset26, SignExtend21, Page, SetX, X, XSP, SetXSP, Load, MovValue, TestTaken, CompareTaken, ConditionHolds, Plus, KindOf, Aligned4, Target14, BitNumber, Nz, Reg0;
    SourceTbz(i);
    AlignedTarget14(src, i);
  }

  /** Every form of a copied TBZ or TBNZ is faithful, unless the far form tests x17. */
  lemma TbzFaithful(m: Machine, lo: bv64, hi: bv64, src: bv64, dest: bv64, i: bv32, c: Core)
    requires KindOf(i) == KTbz && Aligned4(src) && Aligned4(dest)
    requires Placed(m.mem, lo, hi, dest, CopyTbz(src, dest, i))
    requires !IsFar(Target14(src, i), dest, HALF_TBZ) || Reg0(i) != SCRATCH
    ensures Faithful(m, lo, hi, src, dest, CopyTbz(src, dest, i), i, c)
  {
    hide Aligned4, Placed, IsFar, Plus, Target14, TbzTaken, Branched, Faithful, CopyTbz, KindOf, Exec, Decode, SetX, X, Reg0;
    var taken := TbzTaken(i, X(c, Reg0(i)));
    XScratch(c, Target14(src, i), Reg0(i));
    TbzRun(m, lo, hi, src, dest, i, c, taken);
    TbzSource(m, src, EndOf(dest, CopyTbz(src, dest, i)), i, c);
    FromBranched(m, lo, hi, src, dest, CopyTbz(src, dest, i), i, c, taken, Target14(src, i));
  }

  // ---- B and BL

  lemma BranchSource(m: Machine, src: bv64, link: bv64, i: bv32, c: Core)
    requires KindOf(i) == KBranch && Aligned4(src)
    ensures Exec(m, Decode(i), src, link, c)
         == Outcome(if i & 0x8000_0000 != 0 then SetX(c, LR, link) else c, Jump(Target26(src, i)))
  {
    hide Decode, Offset14, Offset19, Offset26, SignExtend21, Page, SetX, X, XSP, SetXSP, Load, MovValue, TestTaken, CompareTaken, ConditionHolds, Plus, KindOf, Aligned4, Target26;
    SourceBranch(i);
    AlignedTarget26(src, i);
  }

  lemma FaithfulIntro(m: Machine, lo: bv64, hi: bv64, src: bv64, dest: bv64, words: seq<bv32>, i: bv32, c: Core, o: Outcome, t: Core)
    requires Exec(m, Decode(i), src, EndOf(dest, words), c) == o
    requires Agree(o.core, t) && Reaches(m, lo, hi, State(dest, c), State(After(o.next, EndOf(dest, words)), t))
    ensures Faithful(m, lo, hi, src, dest, words, i, c)
  {
    hide Exec, Decode, EndOf, Agree, Reaches;
  }

  lemma AgreeLinked(c: Core, value: bv64, link: bv64)
    ensures Agree(SetX(c, LR, link), SetX(SetX(c, SCRATCH, value), LR, link))
  {}

  /** Both forms of a copied B or BL are faithful, without exception. */
  lemma BranchFaithful(m: Machine, lo: bv64, hi: bv64, src: bv64, dest: bv64, i: bv32, c: Core)
    requires KindOf(i) == KBranch && Aligned4(src) && Aligned4(dest)
    requires Placed(m.mem, lo, hi, dest, CopyBranch(src, dest, i, i & 0x8000_0000 != 0))
    ensures Faithful(m, lo, hi, src, dest, CopyBranch(src, dest, i, i & 0x8000_0000 != 0), i, c)
  {
    hide Aligned4, Placed, Fits, Plus, Minus, Target26, Faithful, KindOf, Exec, Decode, SetX, X, MovImmediate, AssembleBranch, AssembleBr, Agree, Reaches, EndOf, Perform, Low32;
    var link := i & 0x8000_0000 != 0;
    var words, target := CopyBranch(src, dest, i, link), Target26(src, i);
    var end := EndOf(dest, words);
    BranchSource(m, src, end, i, c);
    AlignedTarget26(src, i);
    AlignedDifference(target, dest);
    if Fits(Minus(target, dest), HALF_BRANCH) {
      OneWord(m, lo, hi, dest, words[0], c);
      PerformBranch(m, link, dest, c, target);
      var t := if link then SetX(c, LR, end) else c;
      AgreeSelf(t);
      FaithfulIntro(m, lo, hi, src, dest, words, i, c, Outcome(t, Jump(target)), t);
    } else {
      var mid, d := EndOf(dest, MovImmediate(SCRATCH, target)), SetX(c, SCRATCH, target);
      MovThen(m, lo, hi, dest, SCRATCH, target, [AssembleBr(SCRATCH, link)], c);
      OneWord(m, lo, hi, mid, AssembleBr(SCRATCH, link), d);
      PerformBr(m, link, mid, d);
      AgreeScratch(c, target);
      AgreeLinked(c, target, end);
      var t := if link then SetX(d, LR, end) else d;
      ReachesTrans(m, lo, hi, State(dest, c), State(mid, d), State(target, t));
      FaithfulIntro(m, lo, hi, src, dest, words, i, c, Outcome(if link then SetX(c, LR, end) else c, Jump(target)), t);
    }
  }

  /** The target that the copier reports is where the branch goes when it is taken. */
  lemma ReportedIsTaken(m: Machine, src: bv64, link: bv64, i: bv32, c: Core)
    requires Aligned4(src) && (KindOf(i) == KBcc || KindOf(i) == KBranch || KindOf(i) == KCbz || KindOf(i) == KTbz)
    ensures Exec(m, Decode(i), src, link, c).next.Jump? ==> Exec(m, Decode(i), src, link, c).next.target == ReportedTarget(src, i)
  {
    hide Exec, Decode, KindOf, Aligned4, Target19, Target14, Target26, SetX, X, ConditionHolds, CbzTaken, TbzTaken, Reg0, Cond;
    match KindOf(i)
    case KBcc => BccSource(m, src, link, i, c);
    case KBranch => BranchSource(m, src, link, i, c);
    case KCbz => CbzSource(m, src, link, i, c);
    case KTbz => TbzSource(m, src, link, i, c);
  }
}
