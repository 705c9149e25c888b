/** Where control goes when it leaves the overwritten instructions, and where it goes when it leaves
    the trampoline. The two agree exactly as long as no branch of the block leads back into it: the
    copy of such a branch goes to the overwritten place. */
module Arm64BlockExit {
  import opened Arm64Isa
  import opened Arm64Assembler
  import opened Arm64Copier
  import opened Arm64Relocation
  import opened Arm64MovedBlock

  // ------------------------------------------------------------------ branches into a stretch of code

  /** In state `c`, the instruction at `pc` sends control into `[lo, hi)`. */
  predicate Enters(m: Machine, i: bv32, pc: bv64, lo: bv64, hi: bv64, c: Core) {
    var next := Exec(m, Decode(i), pc, Plus(pc, 4), c).next;
    next.Jump? && Inside(lo, hi, next.target)
  }

  ghost predicate CanEnter(m: Machine, i: bv32, pc: bv64, lo: bv64, hi: bv64) {
    exists c: Core :: Enters(m, i, pc, lo, hi, c)
  }

  /** Some instruction of the block can branch into `[lo, hi)`. */
  ghost predicate SomeEnters(m: Machine, block: seq<bv32>, pc: bv64, lo: bv64, hi: bv64)
    decreases |block|
  {
    block != [] && (CanEnter(m, block[0], pc, lo, hi) || SomeEnters(m, block[1..], Plus(pc, 4), lo, hi))
  }

  /** The address of a direct branch; CBNZ and TBNZ on the zero register never branch. */
  function DirectTarget(i: Instr, pc: bv64): Next {
    match i
    case BCond(_, imm) => Jump(Plus(pc, Offset19(imm)))
    case Branch(_, imm) => Jump(Plus(pc, Offset26(imm)))
    case CompareBranch(_, nz, rt, imm) => Take(!nz || rt != ZR, Plus(pc, Offset19(imm)))
    case TestBranch(_, nz, rt, imm) => Take(!nz || rt != ZR, Plus(pc, Offset14(imm)))
    case _ => Fall
  }

  predicate IsDirect(i: Instr) { !i.BranchReg? && !i.Ret? && !i.Foreign? }

  lemma SomeFlagsHold(cond: bv4) returns (nzcv: bv4)
    ensures ConditionHolds(cond, nzcv)
  {
    nzcv := if ConditionHolds(cond, 0) then 0 else if ConditionHolds(cond, 1) then 1 else if ConditionHolds(cond, 2) then 2
            else if ConditionHolds(cond, 4) then 4 else 8;
  }

  lemma ZeroReads(rt: bv5)
    ensures X(Core(map[], 0, 0, map[], map[]), rt) == 0 && X(Core(map[R(rt) := 0xffff_ffff_ffff_ffff], 0, 0, map[], map[]), rt) == (if rt == ZR then 0 else 0xffff_ffff_ffff_ffff)
  {}

  lemma CompareOnExtremes(width: Width, nz: bool)
    ensures CompareTaken(width, nz, 0) <==> !nz
    ensures CompareTaken(width, nz, 0xffff_ffff_ffff_ffff) <==> nz
  {}

  lemma TestOnExtremes(bit: bv6, nz: bool)
    ensures TestTaken(bit, nz, 0) <==> !nz
    ensures TestTaken(bit, nz, 0xffff_ffff_ffff_ffff) <==> nz
  {}

  /** A state in which a direct branch that can be taken is taken. */
  lemma TakenIn(m: Machine, i: Instr, pc: bv64, link: bv64) returns (c: Core)
    requires DirectTarget(i, pc).Jump?
    ensures Exec(m, i, pc, link, c).next == DirectTarget(i, pc)
  {
    hide X, CompareTaken, TestTaken, ConditionHolds, Plus, Offset14, Offset19, Offset26, SetX;
    c := Core(map[], 0, 0, map[], map[]);
    match i
    case BCond(cond, imm) =>
      var nzcv := SomeFlagsHold(cond);
      c := c.(nzcv := nzcv);
    case Branch(_, _) =>
    case CompareBranch(width, nz, rt, imm) =>
      ZeroReads(rt);
      CompareOnExtremes(width, nz);
      if nz { c := c.(x := map[R(rt) := 0xffff_ffff_ffff_ffff]); }
    case TestBranch(bit, nz, rt, imm) =>
      ZeroReads(rt);
      TestOnExtremes(bit, nz);
      if nz { c := c.(x := map[R(rt) := 0xffff_ffff_ffff_ffff]); }
  }

  lemma NeverTaken(c: Core, width: Width, bit: bv6)
    ensures !CompareTaken(width, true, X(c, ZR)) && !TestTaken(bit, true, X(c, ZR))
  {}

  /** A direct branch goes nowhere else. */
  lemma OnlyDirect(m: Machine, i: Instr, pc: bv64, link: bv64, c: Core)
    requires IsDirect(i)
    ensures Exec(m, i, pc, link, c).next.Jump? ==> Exec(m, i, pc, link, c).next == DirectTarget(i, pc)
  {
    hide X, CompareTaken, TestTaken, ConditionHolds, Plus, Offset14, Offset19, Offset26, SetX, SetXSP, XSP, Load, MovValue, Page, Shl12, Clip32, SignExtend21;
    match i
    case CompareBranch(width, nz, rt, imm) => NeverTaken(c, width, 0);
    case TestBranch(bit, nz, rt, imm) => NeverTaken(c, W64, bit);
    case _ =>
  }

  /** Whether an instruction other than a register branch can enter a stretch of code shows in its word. */
  lemma CanEnterExact(m: Machine, i: bv32, pc: bv64, lo: bv64, hi: bv64)
    requires IsDirect(Decode(i))
    ensures CanEnter(m, i, pc, lo, hi)
       <==> DirectTarget(Decode(i), pc).Jump? && Inside(lo, hi, DirectTarget(Decode(i), pc).target)
  {
    hide Decode, Exec, Inside, DirectTarget, Plus;
    if CanEnter(m, i, pc, lo, hi) {
      var c: Core :| Enters(m, i, pc, lo, hi, c);
      OnlyDirect(m, Decode(i), pc, Plus(pc, 4), c);
    }
    if DirectTarget(Decode(i), pc).Jump? && Inside(lo, hi, DirectTarget(Decode(i), pc).target) {
      var c := TakenIn(m, Decode(i), pc, Plus(pc, 4));
      assert Enters(m, i, pc, lo, hi, c);
    }
  }

  /** A block none of whose branches enters a stretch ends outside of it, if what follows the block is outside. */
  lemma {:induction false} RunBlockStays(m: Machine, block: seq<bv32>, pc: bv64, end: bv64, lo: bv64, hi: bv64, c: Core)
    requires !SomeEnters(m, block, pc, lo, hi) && !Inside(lo, hi, end)
    ensures !Inside(lo, hi, RunBlock(m, block, pc, end, c).pc)
    decreases |block|
  {
    hide Exec, Decode, Plus, Inside;
    if block != [] {
      var o := Exec(m, Decode(block[0]), pc, Plus(pc, 4), c);
      assert !Enters(m, block[0], pc, lo, hi, c);
      if o.next.Fall? {
        RunBlockStays(m, block[1..], Plus(pc, 4), end, lo, hi, o.core);
      }
    }
  }

  // ------------------------------------------------------------------ the two runs

  /** Code that is moved: what memory holds before and after, the overwritten bytes `[start, end)`, and
      the trampoline `[lo, hi)` whose tail jump at `tail` takes its address from `literal`. */
  datatype Move = Move(before: Memory, after: Memory, f: Semantics, start: bv64, end: bv64, lo: bv64, hi: bv64, tail: bv64, literal: bv64)

  /** The machine before the move, and the one after it. */
  function Original(v: Move): Machine { Machine(v.before, v.f) }
  function Moved(v: Move): Machine { Machine(v.after, v.f) }

  /** The instructions `block` at `src` are copied to `dest`, and the tail jump follows the copies. */
  ghost predicate Ready(v: Move, src: bv64, dest: bv64, block: seq<bv32>) {
    && Aligned4(src) && Aligned4(dest) && AllMovable(v.before, v.after, v.f, src, dest, block)
    && Placed(v.before, v.start, v.end, src, block) && FallsTo(block, src, v.end)
    && Placed(v.after, v.lo, v.hi, dest, CopyBlock(v.before, src, dest, block))
    && v.tail == EndOf(dest, CopyBlock(v.before, src, dest, block))
    && Placed(v.after, v.lo, v.hi, v.tail, TailJump(v.tail, v.literal))
    && Minus(v.literal, v.tail) <= 120 && Aligned4(Minus(v.literal, v.tail)) && Word64(v.after, v.literal) == v.end
  }

  /** In state `c` the original code at `src` and the trampoline at `dest` are both left, with the same outcome. */
  ghost predicate SameExit(v: Move, src: bv64, dest: bv64, block: seq<bv32>, c: Core) {
    exists u: State, t: State ::
      && SameOutcome(v.before, src, dest, block, u, t)
      && Reaches(Original(v), v.start, v.end, State(src, c), u) && !Inside(v.start, v.end, u.pc)
      && Reaches(Moved(v), v.lo, v.hi, State(dest, c), t) && !Inside(v.lo, v.hi, t.pc)
  }

  /** The same in every state, from each instruction of the block on. */
  ghost predicate SameExits(v: Move, src: bv64, dest: bv64, block: seq<bv32>)
    decreases |block|
  {
    block == [] ||
    ((forall c: Core :: SameExit(v, src, dest, block, c))
     && SameExits(v, Plus(src, 4), EndOf(dest, CopyWords(v.before, src, dest, block[0])), block[1..]))
  }

  /** The run of the trampoline that `BlockRun` follows. */
  lemma MovedRun(v: Move, src: bv64, dest: bv64, block: seq<bv32>, c: Core) returns (t: State)
    requires Ready(v, src, dest, block)
    ensures Reaches(Moved(v), v.lo, v.hi, State(dest, c), t)
    ensures SameOutcome(v.before, src, dest, block, RunBlock(Original(v), block, src, v.end, c), t)
  {
    hide Aligned4, Agree, Placed, CopyBlock, EndOf, Plus, Minus, Word64, AllMovable, Reaches, SameOutcome, RunBlock, TailJump, FallsTo;
    AgreeSelf(c);
    t := BlockRun(v.before, v.after, v.f, v.lo, v.hi, src, dest, block, v.tail, v.literal, v.end, c, c);
  }

  /** The trampoline is not part of the code that is overwritten. */
  ghost predicate Apart(v: Move) {
    forall a: bv64 :: Inside(v.start, v.end, a) ==> !Inside(v.lo, v.hi, a)
  }

  /** In a given state both are left with the same outcome exactly when the branch by which the block
      is left leads neither back into the overwritten code nor into the trampoline. */
  lemma ExitExact(v: Move, src: bv64, dest: bv64, block: seq<bv32>, c: Core)
    requires Ready(v, src, dest, block) && Apart(v)
    ensures var pc := RunBlock(Original(v), block, src, v.end, c).pc;
            SameExit(v, src, dest, block, c) <==> !Inside(v.start, v.end, pc) && !Inside(v.lo, v.hi, pc)
  {
    hide Ready, Reaches, RunBlock, Inside, SameOutcome;
    var s := RunBlock(Original(v), block, src, v.end, c);
    var t := MovedRun(v, src, dest, block, c);
    OriginalRun(v, src, dest, block, c);
    SameAddress(v, src, dest, block, s, t);
    if SameExit(v, src, dest, block, c) {
      var u: State, w: State :|
        && SameOutcome(v.before, src, dest, block, u, w)
        && Reaches(Original(v), v.start, v.end, State(src, c), u) && !Inside(v.start, v.end, u.pc)
        && Reaches(Moved(v), v.lo, v.hi, State(dest, c), w) && !Inside(v.lo, v.hi, w.pc);
      SameAddress(v, src, dest, block, u, w);
      if Inside(v.start, v.end, s.pc) {
        ExitUnique(Moved(v), v.lo, v.hi, State(dest, c), t, w);
      } else {
        ExitUnique(Original(v), v.start, v.end, State(src, c), s, u);
      }
    }
  }

  lemma OriginalRun(v: Move, src: bv64, dest: bv64, block: seq<bv32>, c: Core)
    requires Ready(v, src, dest, block)
    ensures Reaches(Original(v), v.start, v.end, State(src, c), RunBlock(Original(v), block, src, v.end, c))
  {
    hide Aligned4, CopyBlock, EndOf, Minus, Word64, AllMovable, Reaches, RunBlock, TailJump, FallsTo, Placed;
    RunBlockIsRun(Original(v), v.start, v.end, block, src, v.end, c);
  }

  lemma SameAddress(v: Move, src: bv64, dest: bv64, block: seq<bv32>, s: State, t: State)
    requires SameOutcome(v.before, src, dest, block, s, t)
    ensures s.pc == t.pc
  {
    hide Corresponding, Agree, AgreeBut;
  }

  lemma ReadyNext(v: Move, src: bv64, dest: bv64, block: seq<bv32>)
    requires |block| > 1 && Ready(v, src, dest, block)
    ensures Ready(v, Plus(src, 4), EndOf(dest, CopyWords(v.before, src, dest, block[0])), block[1..])
  {
    hide Aligned4, CopyWords, CopyBlock, EndOf, Plus, Minus, Word64, Inside, Movable, TailJump, EndsFunction;
    var words := CopyWords(v.before, src, dest, block[0]);
    var mid := EndOf(dest, words);
    CopyBlockCons(v.before, src, dest, block);
    PlacedConcat(v.after, v.lo, v.hi, dest, words, CopyBlock(v.before, Plus(src, 4), mid, block[1..]));
    EndOfConcat(dest, words, CopyBlock(v.before, Plus(src, 4), mid, block[1..]));
    AlignedNext(src);
    EndOfAligned(dest, words);
  }

  /** An instruction that branches back ends the block right there. */
  lemma EntersAtOnce(m: Machine, block: seq<bv32>, pc: bv64, end: bv64, lo: bv64, hi: bv64, c: Core)
    requires block != [] && Enters(m, block[0], pc, lo, hi, c)
    ensures Inside(lo, hi, RunBlock(m, block, pc, end, c).pc)
  {
    hide Exec, Decode, Plus, Inside;
  }

  /** From every instruction of the block and in every state, the original code and the trampoline are
      left with the same outcome exactly when no instruction of the block can branch into either. */
  lemma {:induction false} ExitsExact(v: Move, src: bv64, dest: bv64, block: seq<bv32>)
    requires block != [] && Ready(v, src, dest, block) && Apart(v) && !Inside(v.lo, v.hi, v.end)
    ensures SameExits(v, src, dest, block)
       <==> !SomeEnters(Original(v), block, src, v.start, v.end) && !SomeEnters(Original(v), block, src, v.lo, v.hi)
    decreases |block|
  {
    hide Aligned4, Placed, CopyBlock, CopyWords, EndOf, Plus, Minus, Word64, AllMovable, TailJump, FallsTo, Inside, Exec, Decode, SameExit, RunBlock, Ready, Apart, CanEnter;
    var m := Original(v);
    if |block| > 1 {
      ReadyNext(v, src, dest, block);
      ExitsExact(v, Plus(src, 4), EndOf(dest, CopyWords(v.before, src, dest, block[0])), block[1..]);
    }
    if CanEnter(m, block[0], src, v.start, v.end) {
      EnteringIsLost(v, src, dest, block, v.start, v.end);
    } else if CanEnter(m, block[0], src, v.lo, v.hi) {
      EnteringIsLost(v, src, dest, block, v.lo, v.hi);
    } else if !SomeEnters(m, block, src, v.start, v.end) && !SomeEnters(m, block, src, v.lo, v.hi) {
      AllExit(v, src, dest, block);
    }
  }

  lemma AllExit(v: Move, src: bv64, dest: bv64, block: seq<bv32>)
    requires Ready(v, src, dest, block) && Apart(v) && !Inside(v.lo, v.hi, v.end)
    requires !SomeEnters(Original(v), block, src, v.start, v.end) && !SomeEnters(Original(v), block, src, v.lo, v.hi)
    ensures forall c: Core :: SameExit(v, src, dest, block, c)
  {
    hide Inside, SameExit, RunBlock, Ready, Apart, SomeEnters;
    NotInItself(v.start, v.end);
    forall c: Core
      ensures SameExit(v, src, dest, block, c)
    {
      RunBlockStays(Original(v), block, src, v.end, v.start, v.end, c);
      RunBlockStays(Original(v), block, src, v.end, v.lo, v.hi, c);
      ExitExact(v, src, dest, block, c);
    }
  }

  lemma EnteringIsLost(v: Move, src: bv64, dest: bv64, block: seq<bv32>, lo: bv64, hi: bv64)
    requires block != [] && Ready(v, src, dest, block) && Apart(v)
    requires (lo == v.start && hi == v.end) || (lo == v.lo && hi == v.hi)
    ensures CanEnter(Original(v), block[0], src, lo, hi) ==> !SameExits(v, src, dest, block)
  {
    hide Enters, Inside, SameExit, RunBlock, Ready, Apart, CopyWords, EndOf, Plus;
    if CanEnter(Original(v), block[0], src, lo, hi) {
      var c: Core :| Enters(Original(v), block[0], src, lo, hi, c);
      EntersAtOnce(Original(v), block, src, v.end, lo, hi, c);
      ExitExact(v, src, dest, block, c);
      assert !SameExit(v, src, dest, block, c);
    }
  }

  lemma NotInItself(lo: bv64, hi: bv64)
    ensures !Inside(lo, hi, hi)
  {}

  // ------------------------------------------------------------------ a branch to itself

  /** CBZ X0 to its own address. */
  const SELF_BRANCH: bv32 := 0xb400_0000

  lemma SelfBranchExec(m: Machine, pc: bv64, link: bv64, c: Core)
    requires X(c, 0) == 0
    ensures Exec(m, Decode(SELF_BRANCH), pc, link, c) == Outcome(c, Jump(pc))
  {}

  lemma {:induction false} Stuck(m: Machine, lo: bv64, hi: bv64, s: State, n: nat, u: State)
    requires Step(m, s) == s && StepsTo(m, lo, hi, s, n, u)
    ensures u == s
    decreases n
  {
    hide Step, Inside;
    if n != 0 {
      Stuck(m, lo, hi, s, n - 1, u);
    }
  }

  /** A function that waits for x0 by branching to its first instruction never leaves the block while
      x0 is zero; the trampoline goes to the overwritten code. */
  lemma SelfBranchIsLost(v: Move, src: bv64, dest: bv64, block: seq<bv32>, c: Core)
    requires Ready(v, src, dest, block) && block != [] && block[0] == SELF_BRANCH && X(c, 0) == 0 && Apart(v)
    ensures forall u: State | Reaches(Original(v), v.start, v.end, State(src, c), u) :: u == State(src, c)
    ensures exists t: Core :: Reaches(Moved(v), v.lo, v.hi, State(dest, c), State(src, t))
    ensures Inside(v.start, v.end, src) && !SameExit(v, src, dest, block, c)
  {
    hide Aligned4, EndOf, CopyBlock, Minus, Word64, AllMovable, TailJump, FallsTo, Exec, Decode, Plus, Inside, Agree, AgreeBut, Corresponding;
    SelfBranchExec(Original(v), src, Plus(src, 4), c);
    assert Step(Original(v), State(src, c)) == State(src, c);
    forall u: State | Reaches(Original(v), v.start, v.end, State(src, c), u)
      ensures u == State(src, c)
    {
      var n: nat :| StepsTo(Original(v), v.start, v.end, State(src, c), n, u);
      Stuck(Original(v), v.start, v.end, State(src, c), n, u);
    }
    var t := MovedRun(v, src, dest, block, c);
    ExitExact(v, src, dest, block, c);
    assert t.pc == src;
  }

  /** And the attach loop does move it. */
  lemma SelfBranchMoves(before: Memory, after: Memory, f: Semantics, src: bv64, dest: bv64)
    ensures Movable(before, after, f, src, dest, SELF_BRANCH)
  {}
}
