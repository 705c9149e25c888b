/** What the copier writes for one source instruction: the same instruction when it does not
    depend on its own address, and a near, medium or far re-encoding when it does. */
module Arm64Copier {
  import opened Arm64Isa
  import opened Arm64Assembler
  import opened Arm64MovImmediate

  /** A 32-bit signed number, shifted right arithmetically and widened to 64 bits: the sign ends up
      in bit 31 less the shift, and is extended from there. */
  function Asr4(f: bv32): bv64 { ((f >> 4) as bv64 ^ 0x800_0000) - 0x800_0000 }
  function Asr11(f: bv32): bv64 { ((f >> 11) as bv64 ^ 0x10_0000) - 0x10_0000 }
  function Asr16(f: bv32): bv64 { ((f >> 16) as bv64 ^ 0x8000) - 0x8000 }

  function AdrField(i: bv32): bv32 { ((i >> 3) & 0x1f_fffc) | ((i >> 29) & 3) }
  function Imm19Field(i: bv32): bv32 { (i >> 5) & 0x7_ffff }
  function Imm14Field(i: bv32): bv32 { (i >> 5) & 0x3fff }
  function Imm26Field(i: bv32): bv32 { i & 0x3ff_ffff }

  function AdrImm(i: bv32): bv64 { Asr11(AdrField(i) << 11) }
  function Imm19(i: bv32): bv64 { Asr11(Imm19Field(i) << 13) }
  function Imm14(i: bv32): bv64 { Asr16(Imm14Field(i) << 18) }
  function Imm26(i: bv32): bv64 { Asr4(Imm26Field(i) << 6) }

  const HALF_ADR: bv64 := 0x10_0000
  const HALF_TBZ: bv64 := 0x2000
  const HALF_LITERAL: bv64 := 0x20_0000
  const HALF_BRANCH: bv64 := 0x800_0000

  function PageOffset(target: bv64): bv32 { Low32(target) & 0xfff }

  function PageDelta(target: bv64, dest: bv64): bv64 { Minus(Shr12(target), Shr12(dest)) }

  // ------------------------------------------------------------------ targets

  function AdrTarget(src: bv64, i: bv32): bv64 { Plus(src, AdrImm(i)) }
  function AdrpTarget(src: bv64, i: bv32): bv64 { Shl12(Plus(Shr12(src), AdrImm(i))) }
  function Target19(src: bv64, i: bv32): bv64 { Plus(src, Imm19(i)) }
  function Target14(src: bv64, i: bv32): bv64 { Plus(src, Imm14(i)) }
  function Target26(src: bv64, i: bv32): bv64 { Plus(src, Imm26(i)) }

  // ------------------------------------------------------------------ words written

  function CopyAdr(src: bv64, dest: bv64, i: bv32): (words: seq<bv32>)
    ensures 1 <= |words| <= 4
  {
    hide Fits, MovImmediate;
    var rd := Reg0(i);
    if i >> 31 == 0 then
      var target := AdrTarget(src, i);
      if Fits(Minus(target, dest), HALF_ADR) then [AssembleAdr19(0, rd, Low32(Minus(target, dest)))]
      else if Fits(PageDelta(target, dest), HALF_ADR) then
        [AssembleAdr19(1, rd, Low32(PageDelta(target, dest))), AssembleAdd32(rd, rd, PageOffset(target), 0)]
      else MovImmediate(rd, target)
    else
      var target := AdrpTarget(src, i);
      if Fits(PageDelta(target, dest), HALF_ADR) then [AssembleAdr19(1, rd, Low32(PageDelta(target, dest)))]
      else MovImmediate(rd, target)
  }

  /** The three forms of a conditional branch: the branch itself; the inverted branch skipping an
      unconditional one; the target in the scratch register and the inverted branch skipping a jump
      through it. */
  function Conditional(target: bv64, dest: bv64, half: bv64, near: bv32, inverted: bv32): (words: seq<bv32>)
    ensures 1 <= |words| <= 6
  {
    hide Fits, MovImmediate;
    if Fits(Minus(target, dest), half) then [near]
    else if Fits(Minus(target, Plus(dest, 4)), HALF_BRANCH) then [inverted, AssembleBranch(false, Low32(Minus(target, Plus(dest, 4))))]
    else MovImmediate(SCRATCH, target) + [inverted, AssembleBr(SCRATCH, false)]
  }

  function Cond(i: bv32): bv4 { (i & 0xf) as bv4 }
  function Size(i: bv32): bv32 { i >> 31 }
  function Nz(i: bv32): bv32 { (i >> 24) & 1 }
  function Bit(i: bv32): bv32 { (i >> 19) & 0x1f }

  function CopyBcc(src: bv64, dest: bv64, i: bv32): (words: seq<bv32>)
    ensures 1 <= |words| <= 6
  {
    var target := Target19(src, i);
    Conditional(target, dest, HALF_ADR, AssembleBcc(Cond(i), Low32(Minus(target, dest))), AssembleBcc(Cond(i) ^ 1, 8))
  }

  function CopyBranch(src: bv64, dest: bv64, i: bv32, link: bool): (words: seq<bv32>)
    ensures 1 <= |words| <= 5
  {
    hide Fits, MovImmediate;
    var target := Target26(src, i);
    if Fits(Minus(target, dest), HALF_BRANCH) then [AssembleBranch(link, Low32(Minus(target, dest)))]
    else MovImmediate(SCRATCH, target) + [AssembleBr(SCRATCH, link)]
  }

  function CopyCbz(src: bv64, dest: bv64, i: bv32): (words: seq<bv32>)
    ensures 1 <= |words| <= 6
  {
    var target := Target19(src, i);
    Conditional(target, dest, HALF_ADR,
                AssembleCbz(Size(i), Nz(i), Reg0(i), Low32(Minus(target, dest))), AssembleCbz(Size(i), Nz(i) ^ 1, Reg0(i), 8))
  }

  function CopyTbz(src: bv64, dest: bv64, i: bv32): (words: seq<bv32>)
    ensures 1 <= |words| <= 6
  {
    var target := Target14(src, i);
    Conditional(target, dest, HALF_TBZ,
                AssembleTbz(Size(i), Nz(i), Reg0(i), Bit(i), Low32(Minus(target, dest))),
                AssembleTbz(Size(i), Nz(i) ^ 1, Reg0(i), Bit(i), 8))
  }

  /** The value that a far literal load bakes into the copy. */
  function LiteralValue(mem: Memory, size: bv32, target: bv64): bv64 {
    if size == 0 then Wide(mem(target), 0)
    else if size == 1 then Word64(mem, target)
    else if size == 2 then SignExtend32(mem(target))
    else 0
  }

  function LiteralSize(i: bv32): bv32 { i >> 30 }
  function FpNeon(i: bv32): bv32 { (i >> 26) & 1 }

  /** The vector load through the scratch register. */
  function ScratchLoad(size: bv32, rt: bv5): bv32 { AssembleLdrFpNeon(2 + size, rt, SCRATCH, 0) }

  function CopyLdrLiteral(mem: Memory, src: bv64, dest: bv64, i: bv32): (words: seq<bv32>)
    ensures 1 <= |words| <= 5
  {
    hide Fits, MovImmediate;
    var target := Target19(src, i);
    if Fits(Minus(target, dest), HALF_LITERAL) then
      [AssembleLdrLit(LiteralSize(i), FpNeon(i), Reg0(i), Low32(Minus(target, dest)))]
    else if FpNeon(i) == 0 then MovImmediate(Reg0(i), LiteralValue(mem, LiteralSize(i), target))
    else MovImmediate(SCRATCH, target) + [ScratchLoad(LiteralSize(i), Reg0(i))]
  }

  datatype Kind = KAdr | KBcc | KBranch | KCbz | KTbz | KLiteral | KPure

  /** The order of the tests is the copier's. */
  function KindOf(i: bv32): Kind {
    if i & 0x1f00_0000 == 0x1000_0000 then KAdr
    else if i & 0xff00_0010 == 0x5400_0000 then KBcc
    else if i & 0x7c00_0000 == 0x1400_0000 then KBranch
    else if i & 0x7e00_0000 == 0x3400_0000 then KCbz
    else if i & 0x7e00_0000 == 0x3600_0000 then KTbz
    else if i & 0x3b00_0000 == 0x1800_0000 then KLiteral
    else KPure
  }

  /** The words that copying instruction `i` from `src` to `dest` writes. */
  function CopyWords(mem: Memory, src: bv64, dest: bv64, i: bv32): (words: seq<bv32>)
    ensures 1 <= |words| <= 6
  {
    hide CopyAdr, CopyBcc, CopyBranch, CopyCbz, CopyTbz, CopyLdrLiteral, KindOf;
    match KindOf(i)
    case KAdr => CopyAdr(src, dest, i)
    case KBcc => CopyBcc(src, dest, i)
    case KBranch => CopyBranch(src, dest, i, i & 0x8000_0000 != 0)
    case KCbz => CopyCbz(src, dest, i)
    case KTbz => CopyTbz(src, dest, i)
    case KLiteral => CopyLdrLiteral(mem, src, dest, i)
    case KPure => [i]
  }

  /** The target that the copier reports: none unless the instruction is a branch. */
  function ReportedTarget(src: bv64, i: bv32): bv64 {
    match KindOf(i)
    case KBcc => Target19(src, i)
    case KBranch => Target26(src, i)
    case KCbz => Target19(src, i)
    case KTbz => Target14(src, i)
    case _ => 0
  }

  // ------------------------------------------------------------------ the fields are the architecture's

  lemma AdrImmIs(i: bv32)
    ensures AdrImm(i) == SignExtend21(AdrField(i))
  {}

  lemma Imm19Is(i: bv32)
    ensures Imm19(i) == Offset19(Imm19Field(i))
  {}

  lemma Imm14Is(i: bv32)
    ensures Imm14(i) == Offset14(Imm14Field(i))
  {}

  lemma Imm26Is(i: bv32)
    ensures Imm26(i) == Offset26(Imm26Field(i))
  {}
}
