/** The part of the AArch64 instruction set that relocated code is made of: a decoder from
    32-bit instruction words and an interpreter over the program counter, the registers and the
    flags (section C6.2 of the Arm Architecture Reference Manual, DDI 0487). Every instruction
    outside that part is left to a parameter of the machine. */
module Arm64Isa {

  // ------------------------------------------------------------------ state

  /** A register name, used as the key of a register file. */
  datatype Reg = R(n: bv5)

  /** A data address, used as the key of the data memory. */
  datatype Address = At(a: bv64)

  /** One 128-bit vector register. */
  datatype Vec = Vec(lo: bv64, hi: bv64)

  /** Everything an instruction may read or write except the program counter. A general register
      that is not in the map holds zero; register 31 is the zero register and is never stored. */
  datatype Core = Core(x: map<Reg, bv64>, sp: bv64, nzcv: bv4, v: map<Reg, Vec>, data: map<Address, bv8>)

  datatype State = State(pc: bv64, core: Core)

  /** Where control goes after an instruction. */
  datatype Next = Fall | Jump(target: bv64)

  datatype Outcome = Outcome(core: Core, next: Next)

  /** Code and literal pools, read one 32-bit word at a time. */
  type Memory = bv64 -> bv32

  /** A machine: its read-only image, and what the instructions outside the decoded part do. */
  datatype Machine = Machine(mem: Memory, foreign: (bv32, Core) -> Outcome)

  const LR: bv5 := 30
  const ZR: bv5 := 31
  const SCRATCH: bv5 := 17

  function X(c: Core, r: bv5): bv64 {
    if r == ZR || R(r) !in c.x then 0 else c.x[R(r)]
  }

  function SetX(c: Core, r: bv5, value: bv64): Core {
    if r == ZR then c else c.(x := c.x[R(r) := value])
  }

  function SetV(c: Core, r: bv5, value: Vec): Core {
    c.(v := c.v[R(r) := value])
  }

  /** Register 31 is the stack pointer in ADD (immediate). */
  function XSP(c: Core, r: bv5): bv64 {
    if r == ZR then c.sp else X(c, r)
  }

  function SetXSP(c: Core, r: bv5, value: bv64): Core {
    if r == ZR then c.(sp := value) else SetX(c, r, value)
  }

  // ------------------------------------------------------------------ arithmetic of fields

  function SignExtend16(f: bv32): bv64 { (f as bv64 ^ 0x8000) - 0x8000 }
  function SignExtend21(f: bv32): bv64 { (f as bv64 ^ 0x10_0000) - 0x10_0000 }
  function SignExtend28(f: bv32): bv64 { (f as bv64 ^ 0x800_0000) - 0x800_0000 }
  function SignExtend32(f: bv32): bv64 { (f as bv64 ^ 0x80000000) - 0x80000000 }

  /** Branch and literal displacements: two zero bits are appended to the field before it is extended. */
  function Offset14(imm14: bv32): bv64 { SignExtend16(imm14 << 2) }
  function Offset19(imm19: bv32): bv64 { SignExtend21(imm19 << 2) }
  function Offset26(imm26: bv32): bv64 { SignExtend28(imm26 << 2) }

  function Low32(a: bv64): bv32 { (a & 0xffff_ffff) as bv32 }
  function Reg0(i: bv32): bv5 { (i & 0x1f) as bv5 }
  function Reg5(i: bv32): bv5 { ((i >> 5) & 0x1f) as bv5 }

  /** Address arithmetic, modulo 2^64. The sums are kept behind a name so that proofs about runs need
      not look inside them. */
  function Plus(a: bv64, b: bv64): bv64 { a + b }
  function Minus(a: bv64, b: bv64): bv64 { a - b }

  function Shl12(a: bv64): bv64 { a << 12 }
  function Shr12(a: bv64): bv64 { a >> 12 }
  function Clip32(a: bv64): bv64 { a & 0xffff_ffff }

  function Page(a: bv64): bv64 { a & 0xffff_ffff_ffff_f000 }

  // ------------------------------------------------------------------ instructions

  datatype Width = W32 | W64

  datatype LoadKind = LoadW | LoadX | LoadSW | Prefetch | LoadS | LoadD | LoadQ

  /** An immediate is the raw field of the instruction word; `Exec` scales and sign-extends it. */
  datatype Instr =
    | Adr(rd: bv5, imm21: bv32)
    | Adrp(rd: bv5, imm21: bv32)
    | BCond(cond: bv4, imm19: bv32)
    | Branch(link: bool, imm26: bv32)
    | CompareBranch(width: Width, nz: bool, rt: bv5, imm19: bv32)
    | TestBranch(bit: bv6, nz: bool, rt: bv5, imm14: bv32)
    | LoadLiteral(kind: LoadKind, rt: bv5, imm19: bv32)
    | LoadScratch(kind: LoadKind, rt: bv5)
    | MovWide(width: Width, op: MovOp, rd: bv5, imm: bv16, hw: bv2)
    | AddImm(width: Width, rd: bv5, rn: bv5, addend: bv64)
    | BranchReg(link: bool, rn: bv5)
    | Ret(rn: bv5)
    | Foreign(word: bv32)

  datatype MovOp = MovN | MovZ | MovK

  /** The load width and bank selected by the size and the vector bit; size 3 with the vector bit
      is not allocated. */
  function LiteralKind(size: bv32, vector: bool): LoadKind {
    if !vector then (if size == 0 then LoadW else if size == 1 then LoadX else if size == 2 then LoadSW else Prefetch)
    else (if size == 0 then LoadS else if size == 1 then LoadD else LoadQ)
  }

  function Decode(i: bv32): Instr {
    if i & 0x9f00_0000 == 0x1000_0000 then Adr(Reg0(i), ((i >> 3) & 0x1f_fffc) | ((i >> 29) & 3))
    else if i & 0x9f00_0000 == 0x9000_0000 then Adrp(Reg0(i), ((i >> 3) & 0x1f_fffc) | ((i >> 29) & 3))
    else if i & 0xff00_0010 == 0x5400_0000 then BCond((i & 0xf) as bv4, (i >> 5) & 0x7_ffff)
    else if i & 0x7c00_0000 == 0x1400_0000 then Branch(i & 0x8000_0000 != 0, i & 0x3ff_ffff)
    else if i & 0x7e00_0000 == 0x3400_0000 then
      CompareBranch(if i & 0x8000_0000 != 0 then W64 else W32, i & 0x0100_0000 != 0, Reg0(i), (i >> 5) & 0x7_ffff)
    else if i & 0x7e00_0000 == 0x3600_0000 then
      TestBranch((((i >> 26) & 0x20) | ((i >> 19) & 0x1f)) as bv6, i & 0x0100_0000 != 0, Reg0(i), (i >> 5) & 0x3fff)
    else if i & 0x3b00_0000 == 0x1800_0000 && i & 0xff00_0000 != 0xdc00_0000 then
      LoadLiteral(LiteralKind(i >> 30, i & 0x0400_0000 != 0), Reg0(i), (i >> 5) & 0x7_ffff)
    else if i == 0xbd40_0220 | (i & 0x1f) then LoadScratch(LoadS, Reg0(i))
    else if i == 0xfd40_0220 | (i & 0x1f) then LoadScratch(LoadD, Reg0(i))
    else if i == 0x3dc0_0220 | (i & 0x1f) then LoadScratch(LoadQ, Reg0(i))
    else if i & 0x1f80_0000 == 0x1280_0000 && i & 0x6000_0000 != 0x2000_0000 && i & 0x8040_0000 != 0x0040_0000 then
      MovWide(if i & 0x8000_0000 != 0 then W64 else W32,
              if i & 0x6000_0000 == 0 then MovN else if i & 0x6000_0000 == 0x4000_0000 then MovZ else MovK,
              Reg0(i), ((i >> 5) & 0xffff) as bv16, ((i >> 21) & 3) as bv2)
    else if i & 0x7f80_0000 == 0x1100_0000 then
      AddImm(if i & 0x8000_0000 != 0 then W64 else W32, Reg0(i), Reg5(i),
             if i & 0x0040_0000 != 0 then ((i >> 10) & 0xfff) as bv64 << 12 else ((i >> 10) & 0xfff) as bv64)
    else if i & 0xffff_fc1f == 0xd61f_0000 then BranchReg(false, Reg5(i))
    else if i & 0xffff_fc1f == 0xd63f_0000 then BranchReg(true, Reg5(i))
    else if i & 0xffff_fc1f == 0xd65f_0000 then Ret(Reg5(i))
    else Foreign(i)
  }

  /** ConditionHolds: the top three bits choose a test, the lowest bit inverts it, and 15 means always. */
  function ConditionHolds(cond: bv4, nzcv: bv4): bool {
    var n, z, c, v := nzcv & 8 != 0, nzcv & 4 != 0, nzcv & 2 != 0, nzcv & 1 != 0;
    var base :=
      match cond >> 1
      case 0 => z
      case 1 => c
      case 2 => n
      case 3 => v
      case 4 => c && !z
      case 5 => n == v
      case 6 => n == v && !z
      case _ => true;
    if cond & 1 == 1 && cond != 15 then !base else base
  }

  function Merge(prior: bv64, imm: bv16, hw: bv2): bv64 {
    match hw
    case 0 => (prior & 0xffff_ffff_ffff_0000) | imm as bv64
    case 1 => (prior & 0xffff_ffff_0000_ffff) | (imm as bv64 << 16)
    case 2 => (prior & 0xffff_0000_ffff_ffff) | (imm as bv64 << 32)
    case _ => (prior & 0x0000_ffff_ffff_ffff) | (imm as bv64 << 48)
  }

  function MovValue(width: Width, op: MovOp, prior: bv64, imm: bv16, hw: bv2): bv64 {
    var wide :=
      match op
      case MovN => !Merge(0, imm, hw)
      case MovZ => Merge(0, imm, hw)
      case MovK => Merge(prior, imm, hw);
    if width == W32 then Clip32(wide) else wide
  }

  function Wide(low: bv32, high: bv32): bv64 { low as bv64 | (high as bv64 << 32) }

  function Word64(mem: Memory, a: bv64): bv64 {
    Wide(mem(a), mem(Plus(a, 4)))
  }

  /** The effect of a load of the given kind from address `a` into register `rt`. */
  function Load(mem: Memory, kind: LoadKind, rt: bv5, a: bv64, c: Core): Core {
    match kind
    case LoadW => SetX(c, rt, Wide(mem(a), 0))
    case LoadX => SetX(c, rt, Word64(mem, a))
    case LoadSW => SetX(c, rt, SignExtend32(mem(a)))
    case Prefetch => c
    case LoadS => SetV(c, rt, Vec(Wide(mem(a), 0), 0))
    case LoadD => SetV(c, rt, Vec(Word64(mem, a), 0))
    case LoadQ => SetV(c, rt, Vec(Word64(mem, a), Word64(mem, Plus(a, 8))))
  }

  function Take(taken: bool, target: bv64): Next {
    if taken then Jump(target) else Fall
  }

  function CompareTaken(width: Width, nz: bool, value: bv64): bool {
    (if width == W64 then value == 0 else value & 0xffff_ffff == 0) != nz
  }

  function TestTaken(bit: bv6, nz: bool, value: bv64): bool {
    ((value >> bit) & 1 == 0) != nz
  }

  /** One instruction at address `pc`; `link` is the return address that the linking branches store. */
  function Exec(m: Machine, i: Instr, pc: bv64, link: bv64, c: Core): Outcome {
    match i
    case Adr(rd, imm) => Outcome(SetX(c, rd, Plus(pc, SignExtend21(imm))), Fall)
    case Adrp(rd, imm) => Outcome(SetX(c, rd, Plus(Page(pc), Shl12(SignExtend21(imm)))), Fall)
    case BCond(cond, imm) => Outcome(c, Take(ConditionHolds(cond, c.nzcv), Plus(pc, Offset19(imm))))
    case Branch(l, imm) => Outcome(if l then SetX(c, LR, link) else c, Jump(Plus(pc, Offset26(imm))))
    case CompareBranch(width, nz, rt, imm) => Outcome(c, Take(CompareTaken(width, nz, X(c, rt)), Plus(pc, Offset19(imm))))
    case TestBranch(bit, nz, rt, imm) => Outcome(c, Take(TestTaken(bit, nz, X(c, rt)), Plus(pc, Offset14(imm))))
    case LoadLiteral(kind, rt, imm) => Outcome(Load(m.mem, kind, rt, Plus(pc, Offset19(imm)), c), Fall)
    case LoadScratch(kind, rt) => Outcome(Load(m.mem, kind, rt, X(c, SCRATCH), c), Fall)
    case MovWide(width, op, rd, imm, hw) => Outcome(SetX(c, rd, MovValue(width, op, X(c, rd), imm, hw)), Fall)
    case AddImm(width, rd, rn, imm) =>
      var sum := Plus(XSP(c, rn), imm);
      Outcome(SetXSP(c, rd, if width == W32 then Clip32(sum) else sum), Fall)
    case BranchReg(l, rn) => Outcome(if l then SetX(c, LR, link) else c, Jump(X(c, rn)))
    case Ret(rn) => Outcome(c, Jump(X(c, rn)))
    case Foreign(word) => m.foreign(word, c)
  }

  function After(next: Next, fall: bv64): bv64 {
    match next case Fall => fall case Jump(target) => target
  }

  function Step(m: Machine, s: State): State {
    var o := Exec(m, Decode(m.mem(s.pc)), s.pc, Plus(s.pc, 4), s.core);
    State(After(o.next, Plus(s.pc, 4)), o.core)
  }

  // ------------------------------------------------------------------ runs inside a stretch of code

  predicate Inside(lo: bv64, hi: bv64, pc: bv64) {
    Minus(pc, lo) < Minus(hi, lo)
  }

  /** `n` steps, each taken from an address in `[lo, hi)`, lead from `s` to `t`. */
  predicate StepsTo(m: Machine, lo: bv64, hi: bv64, s: State, n: nat, t: State)
    decreases n
  {
    if n == 0 then s == t else Inside(lo, hi, s.pc) && StepsTo(m, lo, hi, Step(m, s), n - 1, t)
  }

  ghost predicate Reaches(m: Machine, lo: bv64, hi: bv64, s: State, t: State) {
    exists n: nat :: StepsTo(m, lo, hi, s, n, t)
  }

  lemma ReachesSelf(m: Machine, lo: bv64, hi: bv64, s: State)
    ensures Reaches(m, lo, hi, s, s)
  {
    assert StepsTo(m, lo, hi, s, 0, s);
  }

  lemma ReachesStep(m: Machine, lo: bv64, hi: bv64, s: State, t: State)
    requires Inside(lo, hi, s.pc) && Reaches(m, lo, hi, Step(m, s), t)
    ensures Reaches(m, lo, hi, s, t)
  {
    var n: nat :| StepsTo(m, lo, hi, Step(m, s), n, t);
    assert StepsTo(m, lo, hi, s, n + 1, t);
  }

  lemma {:induction false} StepsCompose(m: Machine, lo: bv64, hi: bv64, s: State, a: nat, t: State, b: nat, u: State)
    requires StepsTo(m, lo, hi, s, a, t) && StepsTo(m, lo, hi, t, b, u)
    ensures StepsTo(m, lo, hi, s, a + b, u)
    decreases a
  {
    if a != 0 {
      StepsCompose(m, lo, hi, Step(m, s), a - 1, t, b, u);
    }
  }

  lemma ReachesTrans(m: Machine, lo: bv64, hi: bv64, s: State, t: State, u: State)
    requires Reaches(m, lo, hi, s, t) && Reaches(m, lo, hi, t, u)
    ensures Reaches(m, lo, hi, s, u)
  {
    var a: nat :| StepsTo(m, lo, hi, s, a, t);
    var b: nat :| StepsTo(m, lo, hi, t, b, u);
    StepsCompose(m, lo, hi, s, a, t, b, u);
  }

  lemma {:induction false} StepsExitUnique(m: Machine, lo: bv64, hi: bv64, s: State, a: nat, t: State, b: nat, u: State)
    requires StepsTo(m, lo, hi, s, a, t) && !Inside(lo, hi, t.pc)
    requires StepsTo(m, lo, hi, s, b, u) && !Inside(lo, hi, u.pc)
    ensures t == u
    decreases a
  {
    if a != 0 && b != 0 {
      StepsExitUnique(m, lo, hi, Step(m, s), a - 1, t, b - 1, u);
    }
  }

  /** A run leaves a stretch of code in one way only. */
  lemma ExitUnique(m: Machine, lo: bv64, hi: bv64, s: State, t: State, u: State)
    requires Reaches(m, lo, hi, s, t) && !Inside(lo, hi, t.pc)
    requires Reaches(m, lo, hi, s, u) && !Inside(lo, hi, u.pc)
    ensures t == u
  {
    var a: nat :| StepsTo(m, lo, hi, s, a, t);
    var b: nat :| StepsTo(m, lo, hi, s, b, u);
    StepsExitUnique(m, lo, hi, s, a, t, b, u);
  }

  // ------------------------------------------------------------------ code in memory

  /** The address just past `words` placed at `base`. */
  function EndOf(base: bv64, words: seq<bv32>): bv64
    decreases |words|
  {
    if words == [] then base else EndOf(Plus(base, 4), words[1..])
  }

  /** The memory holds `words` from `base` on, all of them at addresses in `[lo, hi)`. */
  predicate Placed(mem: Memory, lo: bv64, hi: bv64, base: bv64, words: seq<bv32>)
    decreases |words|
  {
    words == [] || (mem(base) == words[0] && Inside(lo, hi, base) && Placed(mem, lo, hi, Plus(base, 4), words[1..]))
  }

  lemma EndOfCons(base: bv64, word: bv32, rest: seq<bv32>)
    ensures EndOf(base, [word] + rest) == EndOf(Plus(base, 4), rest)
  {
    assert ([word] + rest)[1..] == rest;
  }

  lemma PlacedCons(mem: Memory, lo: bv64, hi: bv64, base: bv64, word: bv32, rest: seq<bv32>)
    ensures Placed(mem, lo, hi, base, [word] + rest)
       <==> mem(base) == word && Inside(lo, hi, base) && Placed(mem, lo, hi, Plus(base, 4), rest)
  {
    assert ([word] + rest)[1..] == rest;
  }

  lemma {:induction false} EndOfConcat(base: bv64, a: seq<bv32>, b: seq<bv32>)
    ensures EndOf(base, a + b) == EndOf(EndOf(base, a), b)
    decreases |a|
  {
    if a == [] {
      assert a + b == b;
    } else {
      assert (a + b)[1..] == a[1..] + b;
      EndOfConcat(Plus(base, 4), a[1..], b);
    }
  }

  lemma {:induction false} PlacedConcat(mem: Memory, lo: bv64, hi: bv64, base: bv64, a: seq<bv32>, b: seq<bv32>)
    ensures Placed(mem, lo, hi, base, a + b) <==> Placed(mem, lo, hi, base, a) && Placed(mem, lo, hi, EndOf(base, a), b)
    decreases |a|
  {
    if a == [] {
      assert a + b == b;
    } else {
      assert (a + b)[1..] == a[1..] + b;
      PlacedConcat(mem, lo, hi, Plus(base, 4), a[1..], b);
    }
  }
}
