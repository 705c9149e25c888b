/** The moved block: the first instructions of a function, copied one after the other into the
    trampoline, followed by a jump to the rest of the function. Running the trampoline has the effect
    of running the original instructions. */
module Arm64MovedBlock {
  import opened Arm64Isa
  import opened Arm64Assembler
  import opened Arm64Copier
  import opened Arm64Relocation
  import opened Arm64RelocationData

  type Semantics = (bv32, Core) -> Outcome

  // ------------------------------------------------------------------ the original block

  /** The original instructions from `pc` on, until one of them transfers control, be it into the block
      again, or the block ends; `remain` is where the function goes on after the block. */
  function RunBlock(m: Machine, block: seq<bv32>, pc: bv64, remain: bv64, c: Core): State
    decreases |block|
  {
    if block == [] then State(remain, c)
    else
      var o := Exec(m, Decode(block[0]), pc, Plus(pc, 4), c);
      match o.next
      case Jump(target) => State(target, o.core)
      case Fall => RunBlock(m, block[1..], Plus(pc, 4), remain, o.core)
  }

  /** RET, or an unconditional branch. */
  predicate EndsFunction(i: bv32) {
    i & 0xffff_fc1f == 0xd65f_0000 || i & 0xfc00_0000 == 0x1400_0000
  }

  /** Control never runs past the block, or runs on at `end`. */
  predicate FallsTo(block: seq<bv32>, pc: bv64, end: bv64)
    decreases |block|
  {
    if block == [] then pc == end else (|block| == 1 && EndsFunction(block[0])) || FallsTo(block[1..], Plus(pc, 4), end)
  }

  /** An unconditional branch that leaves no return address, or a return. */
  predicate LeavesForGood(i: Instr) { i.Ret? || (i.Branch? && !i.link) }

  /** The attach loop recognises exactly the instructions behind which nothing is run. */
  lemma EndsFunctionExact(i: bv32)
    ensures EndsFunction(i) <==> LeavesForGood(Decode(i))
  {}

  lemma EndsFunctionJumps(m: Machine, i: bv32, pc: bv64, link: bv64, c: Core)
    requires EndsFunction(i)
    ensures Exec(m, Decode(i), pc, link, c).next.Jump?
  {
    EndsFunctionExact(i);
    hide Decode;
  }

  /** That is a run of the machine, when the block is in its memory. */
  lemma {:induction false} RunBlockIsRun(m: Machine, lo: bv64, hi: bv64, block: seq<bv32>, pc: bv64, end: bv64, c: Core)
    requires Placed(m.mem, lo, hi, pc, block) && FallsTo(block, pc, end)
    ensures Reaches(m, lo, hi, State(pc, c), RunBlock(m, block, pc, end, c))
    decreases |block|
  {
    hide Exec, Decode, Plus, Inside, Reaches, EndsFunction;
    if block == [] {
      ReachesSelf(m, lo, hi, State(pc, c));
    } else {
      var o := Exec(m, Decode(block[0]), pc, Plus(pc, 4), c);
      var s := State(After(o.next, Plus(pc, 4)), o.core);
      assert Step(m, State(pc, c)) == s;
      if o.next.Fall? {
        if EndsFunction(block[0]) {
          EndsFunctionJumps(m, block[0], pc, Plus(pc, 4), c);
        }
        RunBlockIsRun(m, lo, hi, block[1..], Plus(pc, 4), end, o.core);
      } else {
        ReachesSelf(m, lo, hi, s);
      }
      ReachesStep(m, lo, hi, State(pc, c), RunBlock(m, block, pc, end, c));
    }
  }

  // ------------------------------------------------------------------ instructions that leave x17 alone

  /** What an instruction outside the decoded part does neither depends on x17 nor differs beyond it. */
  ghost predicate ForeignInsensitive(f: Semantics, word: bv32) {
    forall a: Core, b: Core :: Agree(a, b) ==> Agree(f(word, a).core, f(word, b).core) && f(word, a).next == f(word, b).next
  }

  /** The instruction does not read x17, which the copier takes for itself. */
  ghost predicate Insensitive(f: Semantics, i: Instr) {
    match i
    case CompareBranch(_, _, rt, _) => rt != SCRATCH
    case TestBranch(_, _, rt, _) => rt != SCRATCH
    case LoadScratch(_, _) => false
    case AddImm(_, _, rn, _) => rn != SCRATCH
    case BranchReg(_, rn) => rn != SCRATCH
    case Ret(rn) => rn != SCRATCH
    case Foreign(word) => ForeignInsensitive(f, word)
    case _ => true
  }

  predicate Links(i: Instr) {
    (i.Branch? && i.link) || (i.BranchReg? && i.link)
  }

  /** The same state up to x17 and the link register, which hold the given return addresses. */
  ghost predicate AgreeBut(a: Core, b: Core, linkA: bv64, linkB: bv64) {
    a.sp == b.sp && a.nzcv == b.nzcv && a.data == b.data && a.v == b.v
    && (forall r: bv5 :: r != SCRATCH && r != LR ==> X(a, r) == X(b, r))
    && X(a, LR) == linkA && X(b, LR) == linkB
  }

  lemma XSet(c: Core, r: bv5, value: bv64, q: bv5)
    ensures X(SetX(c, r, value), q) == if q == r && r != ZR then value else X(c, q)
  {}

  lemma SetFrame(c: Core, r: bv5, value: bv64)
    ensures var d := SetX(c, r, value); d.sp == c.sp && d.nzcv == c.nzcv && d.data == c.data && d.v == c.v
  {}

  lemma AgreeSet(a: Core, b: Core, r: bv5, value: bv64)
    requires Agree(a, b)
    ensures Agree(SetX(a, r, value), SetX(b, r, value))
  {
    hide SetX, X;
    SetFrame(a, r, value);
    SetFrame(b, r, value);
    forall q: bv5 | q != SCRATCH
      ensures X(SetX(a, r, value), q) == X(SetX(b, r, value), q)
    {
      XSet(a, r, value, q);
      XSet(b, r, value, q);
    }
  }

  lemma AgreeSetSP(a: Core, b: Core, r: bv5, value: bv64)
    requires Agree(a, b)
    ensures Agree(SetXSP(a, r, value), SetXSP(b, r, value))
  {
    if r == ZR {
      assert forall q: bv5 :: X(a.(sp := value), q) == X(a, q) && X(b.(sp := value), q) == X(b, q);
    } else {
      AgreeSet(a, b, r, value);
    }
  }

  lemma AgreeSetLink(a: Core, b: Core, linkA: bv64, linkB: bv64)
    requires Agree(a, b)
    ensures AgreeBut(SetX(a, LR, linkA), SetX(b, LR, linkB), linkA, linkB)
  {
    hide SetX, X;
    SetFrame(a, LR, linkA);
    SetFrame(b, LR, linkB);
    XSet(a, LR, linkA, LR);
    XSet(b, LR, linkB, LR);
    forall q: bv5 | q != SCRATCH && q != LR
      ensures X(SetX(a, LR, linkA), q) == X(SetX(b, LR, linkB), q)
    {
      XSet(a, LR, linkA, q);
      XSet(b, LR, linkB, q);
    }
  }

  lemma AgreeSetScratch(a: Core, b: Core, value: bv64, other: bv64)
    requires Agree(a, b)
    ensures Agree(SetX(a, SCRATCH, value), SetX(b, SCRATCH, other))
  {
    hide Agree;
    AgreeSet(a, b, SCRATCH, value);
    AgreeScratchTwice(b, value, other);
    AgreeTrans(SetX(a, SCRATCH, value), SetX(b, SCRATCH, value), SetX(b, SCRATCH, other));
  }

  lemma AgreeGet(a: Core, b: Core, r: bv5)
    requires Agree(a, b) && r != SCRATCH
    ensures X(a, r) == X(b, r) && XSP(a, r) == XSP(b, r)
  {}

  lemma AgreeTrans(a: Core, b: Core, c: Core)
    requires Agree(a, b) && Agree(b, c)
    ensures Agree(a, c)
  {}

  lemma AgreeButTrans(a: Core, b: Core, c: Core, linkA: bv64, linkB: bv64)
    requires AgreeBut(a, b, linkA, linkB) && Agree(b, c)
    ensures AgreeBut(a, c, linkA, linkB)
  {}

  lemma LoadAgrees(before: Memory, after: Memory, kind: LoadKind, rt: bv5, at: bv64, a: Core, b: Core)
    requires Agree(a, b) && QuadStable(before, after, at)
    ensures Agree(Load(before, kind, rt, at, a), Load(after, kind, rt, at, b))
  {
    hide Agree, SetX, Wide, SignExtend32, Plus, SetV;
    match kind
    case LoadW => AgreeSet(a, b, rt, Wide(after(at), 0));
    case LoadX => AgreeSet(a, b, rt, Word64(after, at));
    case LoadSW => AgreeSet(a, b, rt, SignExtend32(after(at)));
    case Prefetch =>
    case LoadS => VectorAgrees(a, b, rt, Vec(Wide(after(at), 0), 0));
    case LoadD => VectorAgrees(a, b, rt, Vec(Word64(after, at), 0));
    case LoadQ => VectorAgrees(a, b, rt, Vec(Word64(after, at), Word64(after, Plus(at, 8))));
  }

  /** The sixteen bytes that the widest literal load reads are the same in both memories. */
  predicate QuadStable(before: Memory, after: Memory, at: bv64) {
    LiteralStable(before, after, at) && LiteralStable(before, after, Plus(at, 8))
  }

  predicate IsControl(i: Instr) {
    i.BCond? || i.CompareBranch? || i.TestBranch? || i.Foreign?
  }

  predicate IsJump(i: Instr) { i.Branch? || i.BranchReg? || i.Ret? }

  lemma JumpAgrees(before: Memory, after: Memory, f: Semantics, i: Instr, pc: bv64, linkA: bv64, linkB: bv64, a: Core, b: Core)
    requires Agree(a, b) && Insensitive(f, i) && IsJump(i)
    ensures var p := Exec(Machine(before, f), i, pc, linkA, a);
            var q := Exec(Machine(after, f), i, pc, linkB, b);
            && p.next == q.next && p.next.Jump?
            && if Links(i) then AgreeBut(p.core, q.core, linkA, linkB) else Agree(p.core, q.core)
  {
    hide Agree, AgreeBut, SetX, X, SetXSP, XSP, Load, MovValue, TestTaken, CompareTaken, ConditionHolds, Plus, Shl12, Page, Clip32,
      Offset14, Offset19, Offset26, SignExtend21, QuadStable, ForeignInsensitive;
    AgreeSetLink(a, b, linkA, linkB);
    if i.BranchReg? || i.Ret? {
      AgreeGet(a, b, i.rn);
    }
  }

  lemma ControlAgrees(before: Memory, after: Memory, f: Semantics, i: Instr, pc: bv64, linkA: bv64, linkB: bv64, a: Core, b: Core)
    requires Agree(a, b) && Insensitive(f, i) && IsControl(i)
    ensures var p := Exec(Machine(before, f), i, pc, linkA, a);
            var q := Exec(Machine(after, f), i, pc, linkB, b);
            p.next == q.next && Agree(p.core, q.core)
  {
    hide Agree, AgreeBut, SetX, X, SetXSP, XSP, Load, MovValue, TestTaken, CompareTaken, ConditionHolds, Plus, Shl12, Page, Clip32,
      Offset14, Offset19, Offset26, SignExtend21, QuadStable, ForeignInsensitive, SCRATCH;
    match i
    case BCond(cond, imm) => AgreeParts(a, b);
    case CompareBranch(width, nz, rt, imm) => AgreeGet(a, b, rt);
    case TestBranch(bit, nz, rt, imm) => AgreeGet(a, b, rt);
    case Foreign(word) => ForeignAgrees(f, word, a, b);
  }

  lemma DataAgrees(before: Memory, after: Memory, f: Semantics, i: Instr, pc: bv64, linkA: bv64, linkB: bv64, a: Core, b: Core)
    requires Agree(a, b) && Insensitive(f, i) && !IsControl(i) && !IsJump(i)
    requires i.LoadLiteral? ==> QuadStable(before, after, Plus(pc, Offset19(i.imm19)))
    ensures var p := Exec(Machine(before, f), i, pc, linkA, a);
            var q := Exec(Machine(after, f), i, pc, linkB, b);
            p.next == Fall && q.next == Fall && Agree(p.core, q.core)
  {
    hide Agree, AgreeBut, SetX, X, SetXSP, XSP, Load, MovValue, TestTaken, CompareTaken, ConditionHolds, Plus, Shl12, Page, Clip32,
      Offset14, Offset19, Offset26, SignExtend21, QuadStable, ForeignInsensitive;
    match i
    case Adr(rd, imm) => AgreeSet(a, b, rd, Plus(pc, SignExtend21(imm)));
    case Adrp(rd, imm) => AgreeSet(a, b, rd, Plus(Page(pc), Shl12(SignExtend21(imm))));
    case LoadLiteral(kind, rt, imm) => LoadAgrees(before, after, kind, rt, Plus(pc, Offset19(imm)), a, b);
    case MovWide(width, op, rd, imm, hw) => MovAgrees(a, b, width, op, rd, imm, hw);
    case AddImm(width, rd, rn, imm) =>
      AgreeGet(a, b, rn);
      AgreeSetSP(a, b, rd, Plus(XSP(a, rn), imm));
      AgreeSetSP(a, b, rd, Clip32(Plus(XSP(a, rn), imm)));
  }

  lemma MovAgrees(a: Core, b: Core, width: Width, op: MovOp, rd: bv5, imm: bv16, hw: bv2)
    requires Agree(a, b)
    ensures Agree(SetX(a, rd, MovValue(width, op, X(a, rd), imm, hw)), SetX(b, rd, MovValue(width, op, X(b, rd), imm, hw)))
  {
    hide Agree, SetX, X, MovValue;
    if rd == SCRATCH {
      AgreeSetScratch(a, b, MovValue(width, op, X(a, rd), imm, hw), MovValue(width, op, X(b, rd), imm, hw));
    } else {
      AgreeGet(a, b, rd);
      AgreeSet(a, b, rd, MovValue(width, op, X(a, rd), imm, hw));
    }
  }

  /** The same instruction on two states that agree up to x17, in two memories that agree on its literal. */
  lemma ExecAgrees(before: Memory, after: Memory, f: Semantics, i: Instr, pc: bv64, linkA: bv64, linkB: bv64, a: Core, b: Core)
    requires Agree(a, b) && Insensitive(f, i)
    requires i.LoadLiteral? ==> QuadStable(before, after, Plus(pc, Offset19(i.imm19)))
    ensures var p := Exec(Machine(before, f), i, pc, linkA, a);
            var q := Exec(Machine(after, f), i, pc, linkB, b);
            && p.next == q.next
            && (Links(i) ==> p.next.Jump?)
            && if Links(i) then AgreeBut(p.core, q.core, linkA, linkB) else Agree(p.core, q.core)
  {
    hide Agree, AgreeBut, Exec, Insensitive, QuadStable;
    if IsControl(i) {
      ControlAgrees(before, after, f, i, pc, linkA, linkB, a, b);
    } else if IsJump(i) {
      JumpAgrees(before, after, f, i, pc, linkA, linkB, a, b);
    } else {
      DataAgrees(before, after, f, i, pc, linkA, linkB, a, b);
    }
  }

  lemma AgreeParts(a: Core, b: Core)
    requires Agree(a, b)
    ensures a.sp == b.sp && a.nzcv == b.nzcv && a.data == b.data && a.v == b.v
  {}

  lemma ForeignAgrees(f: Semantics, word: bv32, a: Core, b: Core)
    requires ForeignInsensitive(f, word) && Agree(a, b)
    ensures Agree(f(word, a).core, f(word, b).core) && f(word, a).next == f(word, b).next
  {
    hide Agree;
  }

  // ------------------------------------------------------------------ the copied block

  /** The copies of the block's instructions, one after the other from `dest` on. */
  function CopyBlock(mem: Memory, src: bv64, dest: bv64, block: seq<bv32>): seq<bv32>
    decreases |block|
  {
    if block == [] then []
    else
      var words := CopyWords(mem, src, dest, block[0]);
      words + CopyBlock(mem, Plus(src, 4), EndOf(dest, words), block[1..])
  }

  /** An instruction that can be moved from `src` to `dest` whatever comes before and after it. */
  ghost predicate Movable(before: Memory, after: Memory, f: Semantics, src: bv64, dest: bv64, i: bv32) {
    && Relocatable(src, dest, i)
    && Insensitive(f, Decode(i))
    && (KindOf(i) == KLiteral ==> QuadStable(before, after, Target19(src, i)))
  }

  ghost predicate AllMovable(before: Memory, after: Memory, f: Semantics, src: bv64, dest: bv64, block: seq<bv32>)
    decreases |block|
  {
    block == [] ||
    (Movable(before, after, f, src, dest, block[0])
     && AllMovable(before, after, f, Plus(src, 4), EndOf(dest, CopyWords(before, src, dest, block[0])), block[1..]))
  }

  /** `a` and `b` are the return addresses after corresponding instructions of the block and of its copy. */
  predicate Corresponding(mem: Memory, src: bv64, dest: bv64, block: seq<bv32>, a: bv64, b: bv64)
    decreases |block|
  {
    block != [] &&
    var mid := EndOf(dest, CopyWords(mem, src, dest, block[0]));
    (a == Plus(src, 4) && b == mid) || Corresponding(mem, Plus(src, 4), mid, block[1..], a, b)
  }

  /** The outcome of the original block and that of its copy: the same address, the same state up to
      x17, and corresponding return addresses when the block ended in a linking branch. */
  ghost predicate SameOutcome(mem: Memory, src: bv64, dest: bv64, block: seq<bv32>, original: State, copied: State) {
    && original.pc == copied.pc
    && (Agree(original.core, copied.core)
        || exists a: bv64, b: bv64 :: Corresponding(mem, src, dest, block, a, b) && AgreeBut(original.core, copied.core, a, b))
  }

  /** The jump to `remain` through a literal: LDR X17, literal; BR X17. */
  function TailJump(pc: bv64, literal: bv64): seq<bv32> {
    [0x5800_0011 | ((Low32(Minus(literal, pc)) >> 2) << 5), 0xd61f_0000 | (17 << 5)]
  }

  lemma TailWords(delta: bv64)
    requires delta <= 120 && Aligned4(delta)
    ensures 0x5800_0011 | ((Low32(delta) >> 2) << 5) == AssembleLdrLit(1, 0, SCRATCH, Low32(delta))
  {}

  lemma TailBr()
    ensures 0xd61f_0000 | (17 << 5) == AssembleBr(SCRATCH, false)
  {}

  lemma SmallFits(delta: bv64)
    requires delta <= 120
    ensures Fits(delta, HALF_ADR)
  {}

  lemma TailIs(pc: bv64, literal: bv64)
    requires Minus(literal, pc) <= 120 && Aligned4(Minus(literal, pc))
    ensures TailJump(pc, literal) == [AssembleLdrLit(1, 0, SCRATCH, Low32(Minus(literal, pc))), AssembleBr(SCRATCH, false)]
  {
    hide Minus, Aligned4, AssembleLdrLit, AssembleBr, Low32;
    TailWords(Minus(literal, pc));
    TailBr();
  }

  lemma TailLoad(m: Machine, pc: bv64, literal: bv64, c: Core)
    requires Minus(literal, pc) <= 120 && Aligned4(Minus(literal, pc))
    ensures Perform(m, AssembleLdrLit(1, 0, SCRATCH, Low32(Minus(literal, pc))), pc, c)
         == State(Plus(pc, 4), SetX(c, SCRATCH, Word64(m.mem, literal)))
  {
    hide Minus, Aligned4, AssembleLdrLit, Low32, Perform, Fits, Word64, SetX, Plus, Offset19, Load;
    SmallFits(Minus(literal, pc));
    Reach19(literal, pc);
    PerformLiteral(m, 1, 0, SCRATCH, pc, c, literal);
    LoadIsValue(m.mem, 1, SCRATCH, literal, c);
  }

  /** The tail jump reaches `remain` and changes x17 only. */
  lemma TailRun(m: Machine, lo: bv64, hi: bv64, pc: bv64, literal: bv64, remain: bv64, c: Core)
    requires Placed(m.mem, lo, hi, pc, TailJump(pc, literal))
    requires Minus(literal, pc) <= 120 && Aligned4(Minus(literal, pc))
    requires Word64(m.mem, literal) == remain
    ensures Reaches(m, lo, hi, State(pc, c), State(remain, SetX(c, SCRATCH, remain)))
  {
    hide *;
    var first, second := AssembleLdrLit(1, 0, SCRATCH, Low32(Minus(literal, pc))), AssembleBr(SCRATCH, false);
    var d := SetX(c, SCRATCH, remain);
    TailIs(pc, literal);
    TailLoad(m, pc, literal, c);
    PerformBr(m, false, Plus(pc, 4), d);
    ScratchGet(c, remain);
    FirstOfTwo(m, lo, hi, pc, first, second, c, d);
  }

  // ------------------------------------------------------------------ the theorem, instruction by instruction

  lemma Target19IsLiteral(src: bv64, i: bv32)
    requires KindOf(i) == KLiteral && IsAllocated(i) && Aligned4(src)
    ensures Decode(i).LoadLiteral? && Plus(src, Offset19(Decode(i).imm19)) == Target19(src, i)
  {
    hide Decode, KindOf, Plus, Offset19, Target19, Aligned4, IsAllocated, Imm19Field, Reg0, LoadKindOf;
    SourceLiteral(i);
    AlignedTarget19(src, i);
  }

  lemma OnlyLiteralsLoad(i: bv32)
    requires Decode(i).LoadLiteral?
    ensures KindOf(i) == KLiteral
  {}

  /** One copied instruction against its original, from states that agree up to x17. */
  lemma MovedInstruction(before: Memory, after: Memory, f: Semantics, lo: bv64, hi: bv64, src: bv64, dest: bv64, i: bv32, a: Core, b: Core)
    returns (t: Core)
    requires Aligned4(src) && Aligned4(dest) && Agree(a, b) && Movable(before, after, f, src, dest, i)
    requires Placed(after, lo, hi, dest, CopyWords(before, src, dest, i))
    ensures var end := EndOf(dest, CopyWords(before, src, dest, i));
            var o := Exec(Machine(before, f), Decode(i), src, Plus(src, 4), a);
            && Reaches(Machine(after, f), lo, hi, State(dest, b), State(After(o.next, end), t))
            && (Links(Decode(i)) ==> o.next.Jump?)
            && if Links(Decode(i)) then AgreeBut(o.core, t, Plus(src, 4), end) else Agree(o.core, t)
  {
    hide Aligned4, Agree, AgreeBut, Placed, CopyWords, EndOf, Exec, Decode, Plus, Reaches, Links, Relocatable, Insensitive, KindOf, Target19, Offset19, Faithful;
    var m, words := Machine(after, f), CopyWords(before, src, dest, i);
    var end := EndOf(dest, words);
    LiteralCondition(before, after, f, src, dest, i);
    CopyFaithful(before, m, lo, hi, src, dest, i, b);
    t := FaithfulWitness(m, lo, hi, src, dest, words, i, b);
    ExecAgrees(before, after, f, Decode(i), src, Plus(src, 4), end, a, b);
    var o, q := Exec(Machine(before, f), Decode(i), src, Plus(src, 4), a), Exec(m, Decode(i), src, end, b);
    if Links(Decode(i)) {
      AgreeButTrans(o.core, q.core, t, Plus(src, 4), end);
    } else {
      AgreeTrans(o.core, q.core, t);
    }
  }

  lemma FaithfulWitness(m: Machine, lo: bv64, hi: bv64, src: bv64, dest: bv64, words: seq<bv32>, i: bv32, c: Core) returns (t: Core)
    requires Faithful(m, lo, hi, src, dest, words, i, c)
    ensures var o := Exec(m, Decode(i), src, EndOf(dest, words), c);
            Agree(o.core, t) && Reaches(m, lo, hi, State(dest, c), State(After(o.next, EndOf(dest, words)), t))
  {
    hide Exec, Decode, EndOf, Agree, Reaches;
    var o := Exec(m, Decode(i), src, EndOf(dest, words), c);
    t :| Agree(o.core, t) && Reaches(m, lo, hi, State(dest, c), State(After(o.next, EndOf(dest, words)), t));
  }

  lemma LiteralCondition(before: Memory, after: Memory, f: Semantics, src: bv64, dest: bv64, i: bv32)
    requires Movable(before, after, f, src, dest, i) && Aligned4(src)
    ensures KindOf(i) == KLiteral ==> LiteralStable(before, after, Target19(src, i))
    ensures Decode(i).LoadLiteral? ==> QuadStable(before, after, Plus(src, Offset19(Decode(i).imm19)))
  {
    hide Aligned4, Insensitive, LiteralStable, Target19, Offset19, Plus, Decode, KindOf, AdrSafe, Fits, Minus, Cond, IsFar, Target14, Reg0, IsAllocated, LoadKindOf;
    if Decode(i).LoadLiteral? {
      OnlyLiteralsLoad(i);
      Target19IsLiteral(src, i);
    }
  }

  // ------------------------------------------------------------------ the whole block

  lemma {:induction false} EndOfAligned(base: bv64, words: seq<bv32>)
    requires Aligned4(base)
    ensures Aligned4(EndOf(base, words))
    decreases |words|
  {
    if words != [] {
      AlignedNext(base);
      hide Aligned4, Plus;
      EndOfAligned(Plus(base, 4), words[1..]);
    }
  }

  lemma AlignedNext(base: bv64)
    requires Aligned4(base)
    ensures Aligned4(Plus(base, 4))
  {}

  lemma OutcomeOfRest(mem: Memory, src: bv64, dest: bv64, block: seq<bv32>, original: State, copied: State)
    requires block != []
    requires SameOutcome(mem, Plus(src, 4), EndOf(dest, CopyWords(mem, src, dest, block[0])), block[1..], original, copied)
    ensures SameOutcome(mem, src, dest, block, original, copied)
  {
    hide Agree, AgreeBut, EndOf, CopyWords, Plus;
    var mid := EndOf(dest, CopyWords(mem, src, dest, block[0]));
    if !Agree(original.core, copied.core) {
      var x: bv64, y: bv64 :| Corresponding(mem, Plus(src, 4), mid, block[1..], x, y) && AgreeBut(original.core, copied.core, x, y);
      assert Corresponding(mem, src, dest, block, x, y);
    }
  }

  lemma OutcomeOfJump(mem: Memory, src: bv64, dest: bv64, block: seq<bv32>, target: bv64, original: Core, copied: Core)
    requires block != []
    requires Agree(original, copied) || AgreeBut(original, copied, Plus(src, 4), EndOf(dest, CopyWords(mem, src, dest, block[0])))
    ensures SameOutcome(mem, src, dest, block, State(target, original), State(target, copied))
  {
    hide Agree, AgreeBut, EndOf, CopyWords, Plus;
    assert Corresponding(mem, src, dest, block, Plus(src, 4), EndOf(dest, CopyWords(mem, src, dest, block[0])));
  }

  lemma CopyBlockCons(mem: Memory, src: bv64, dest: bv64, block: seq<bv32>)
    requires block != []
    ensures var words := CopyWords(mem, src, dest, block[0]);
            CopyBlock(mem, src, dest, block) == words + CopyBlock(mem, Plus(src, 4), EndOf(dest, words), block[1..])
  {
    hide EndOf, CopyWords, Plus;
  }

  /** By induction over the block: the copy, with the tail jump behind it, reaches the outcome of the original. */
  lemma {:induction false} BlockRun(before: Memory, after: Memory, f: Semantics, lo: bv64, hi: bv64, src: bv64, dest: bv64,
                                    block: seq<bv32>, tail: bv64, literal: bv64, remain: bv64, a: Core, b: Core)
    returns (t: State)
    requires Aligned4(src) && Aligned4(dest) && Agree(a, b) && AllMovable(before, after, f, src, dest, block)
    requires tail == EndOf(dest, CopyBlock(before, src, dest, block))
    requires Placed(after, lo, hi, dest, CopyBlock(before, src, dest, block)) && Placed(after, lo, hi, tail, TailJump(tail, literal))
    requires Minus(literal, tail) <= 120 && Aligned4(Minus(literal, tail)) && Word64(after, literal) == remain
    ensures Reaches(Machine(after, f), lo, hi, State(dest, b), t)
    ensures SameOutcome(before, src, dest, block, RunBlock(Machine(before, f), block, src, remain, a), t)
    decreases |block|
  {
    hide Aligned4, Agree, AgreeBut, Placed, CopyWords, EndOf, Exec, Decode, Plus, Minus, Word64, Reaches, Links, Movable, TailJump, SetX, CopyBlock, Corresponding, SameOutcome;
    if block == [] {
      t := BlockEnd(before, after, f, lo, hi, src, dest, tail, literal, remain, a, b);
    } else {
      var words := CopyWords(before, src, dest, block[0]);
      var mid, rest := EndOf(dest, words), block[1..];
      CopyBlockCons(before, src, dest, block);
      PlacedConcat(after, lo, hi, dest, words, CopyBlock(before, Plus(src, 4), mid, rest));
      EndOfConcat(dest, words, CopyBlock(before, Plus(src, 4), mid, rest));
      AlignedNext(src);
      EndOfAligned(dest, words);
      var core := MovedInstruction(before, after, f, lo, hi, src, dest, block[0], a, b);
      var o := Exec(Machine(before, f), Decode(block[0]), src, Plus(src, 4), a);
      if o.next.Fall? {
        t := BlockRun(before, after, f, lo, hi, Plus(src, 4), mid, rest, tail, literal, remain, o.core, core);
        ReachesTrans(Machine(after, f), lo, hi, State(dest, b), State(mid, core), t);
        OutcomeOfRest(before, src, dest, block, RunBlock(Machine(before, f), block, src, remain, a), t);
      } else {
        t := State(o.next.target, core);
        OutcomeOfJump(before, src, dest, block, o.next.target, o.core, core);
      }
    }
  }

  lemma BlockEnd(before: Memory, after: Memory, f: Semantics, lo: bv64, hi: bv64, src: bv64, dest: bv64,
                 tail: bv64, literal: bv64, remain: bv64, a: Core, b: Core)
    returns (t: State)
    requires Agree(a, b) && tail == EndOf(dest, CopyBlock(before, src, dest, []))
    requires Placed(after, lo, hi, tail, TailJump(tail, literal))
    requires Minus(literal, tail) <= 120 && Aligned4(Minus(literal, tail)) && Word64(after, literal) == remain
    ensures Reaches(Machine(after, f), lo, hi, State(dest, b), t)
    ensures SameOutcome(before, src, dest, [], RunBlock(Machine(before, f), [], src, remain, a), t)
  {
    hide Aligned4, Agree, AgreeBut, Placed, Plus, Minus, Word64, Reaches, TailJump, SetX, Corresponding;
    t := State(remain, SetX(b, SCRATCH, remain));
    TailRun(Machine(after, f), lo, hi, tail, literal, remain, b);
    AgreeScratch(b, remain);
    AgreeTrans(a, b, t.core);
  }
}
