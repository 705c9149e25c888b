/** The instruction words that the copier writes, assembled field by field, with the lemmas that
    decoding them gives the intended instruction back. */
module Arm64Assembler {
  import opened Arm64Isa

  // ------------------------------------------------------------------ assembling

  function AssembleAdd32(rd: bv5, rn: bv5, imm: bv32, shift: bv32): bv32 {
    rd as bv32 | (rn as bv32 << 5) | ((imm & 0xfff) << 10) | ((shift & 3) << 22) | (0x11 << 24)
  }

  function Adr19Word(kind: bv32, rd: bv5, imm: bv32): bv32 {
    rd as bv32 | ((imm >> 2) << 5) | (0x10 << 24) | ((imm & 3) << 29) | ((kind & 1) << 31)
  }

  function AssembleAdr19(kind: bv32, rd: bv5, delta: bv32): bv32 {
    Adr19Word(kind, rd, delta & 0x1f_ffff)
  }

  function Bcc19Word(cond: bv4, imm: bv32): bv32 {
    cond as bv32 | (imm << 5) | (0x54 << 24)
  }

  function AssembleBcc(cond: bv4, delta: bv32): bv32 {
    Bcc19Word(cond, (delta >> 2) & 0x7ffff)
  }

  function Branch26Word(link: bool, imm: bv32): bv32 {
    imm | (5 << 26) | (if link then 0x8000_0000 else 0)
  }

  function AssembleBranch(link: bool, delta: bv32): bv32 {
    Branch26Word(link, (delta >> 2) & 0x3ff_ffff)
  }

  function AssembleBr(rn: bv5, link: bool): bv32 {
    (rn as bv32 << 5) | (0x3587c0 << 10) | (if link then 0x0020_0000 else 0)
  }

  function Cbz19Word(size: bv32, nz: bv32, rt: bv5, imm: bv32): bv32 {
    rt as bv32 | (imm << 5) | ((nz & 1) << 24) | (0x1a << 25) | ((size & 1) << 31)
  }

  function AssembleCbz(size: bv32, nz: bv32, rt: bv5, delta: bv32): bv32 {
    Cbz19Word(size, nz, rt, (delta >> 2) & 0x7ffff)
  }

  function Tbz14Word(size: bv32, nz: bv32, rt: bv5, bit: bv32, imm: bv32): bv32 {
    rt as bv32 | (imm << 5) | ((bit & 0x1f) << 19) | ((nz & 1) << 24) | (0x1b << 25) | ((size & 1) << 31)
  }

  function AssembleTbz(size: bv32, nz: bv32, rt: bv5, bit: bv32, delta: bv32): bv32 {
    Tbz14Word(size, nz, rt, bit, (delta >> 2) & 0x3fff)
  }

  function LdrLit19Word(size: bv32, fpneon: bv32, rt: bv5, imm: bv32): bv32 {
    rt as bv32 | (imm << 5) | ((fpneon & 1) << 26) | (3 << 27) | ((size & 3) << 30)
  }

  function AssembleLdrLit(size: bv32, fpneon: bv32, rt: bv5, delta: bv32): bv32 {
    LdrLit19Word(size, fpneon, rt, (delta >> 2) & 0x7ffff)
  }

  function AssembleLdrFpNeon(size: bv32, rt: bv5, rn: bv5, imm: bv32): bv32 {
    rt as bv32 | (rn as bv32 << 5) | ((imm & 0xfff) << 10) | (1 << 22) | (((size >> 2) & 1) << 23) | (0x3d << 24) | ((size & 3) << 30)
  }

  function AssembleMov(width: Width, op: MovOp, rd: bv5, imm: bv16, hw: bv2): bv32 {
    var kind: bv32 := match op case MovN => 0 case MovZ => 2 case MovK => 3;
    rd as bv32 | (imm as bv32 << 5) | (hw as bv32 << 21) | (0x25 << 23) | (kind << 29) | (if width == W64 then 0x8000_0000 else 0)
  }

  function AssembleMovn32(rd: bv5, imm: bv16, hw: bv2): bv32 { AssembleMov(W32, MovN, rd, imm, hw) }
  function AssembleMovn64(rd: bv5, imm: bv16, hw: bv2): bv32 { AssembleMov(W64, MovN, rd, imm, hw) }
  function AssembleMovz64(rd: bv5, imm: bv16, hw: bv2): bv32 { AssembleMov(W64, MovZ, rd, imm, hw) }
  function AssembleMovk64(rd: bv5, imm: bv16, hw: bv2): bv32 { AssembleMov(W64, MovK, rd, imm, hw) }

  // ------------------------------------------------------------------ signed ranges

  /** `-half <= delta < half` for the signed reading of `delta`. */
  predicate Fits(delta: bv64, half: bv64)
  {
    (delta ^ 0x8000_0000_0000_0000) >= (0x8000_0000_0000_0000 - half)
    && (delta ^ 0x8000_0000_0000_0000) < (0x8000_0000_0000_0000 + half)
  }

  predicate Aligned4(a: bv64) { a & 3 == 0 }

  // ------------------------------------------------------------------ decoding what was assembled

  lemma SignField14(delta: bv64)
    requires Fits(delta, 0x2000 << 2) && Aligned4(delta)
    ensures Offset14((Low32(delta) >> 2) & 0x3fff) == delta
  {}

  lemma SignField19(delta: bv64)
    requires Fits(delta, 0x10_0000) && Aligned4(delta)
    ensures Offset19((Low32(delta) >> 2) & 0x7ffff) == delta
  {}

  lemma SignField21(delta: bv64)
    requires Fits(delta, 0x10_0000)
    ensures SignExtend21(Low32(delta) & 0x1f_ffff) == delta
  {}

  lemma SignField26(delta: bv64)
    requires Fits(delta, 0x800_0000) && Aligned4(delta)
    ensures Offset26((Low32(delta) >> 2) & 0x3ff_ffff) == delta
  {}

  lemma DecodeAdrWord(rd: bv5, imm: bv32)
    requires imm <= 0x1f_ffff
    ensures Decode(Adr19Word(0, rd, imm)) == Adr(rd, imm)
  {}

  lemma DecodeAdrpWord(rd: bv5, imm: bv32)
    requires imm <= 0x1f_ffff
    ensures Decode(Adr19Word(1, rd, imm)) == Adrp(rd, imm)
  {}

  lemma DecodeBccWord(cond: bv4, imm: bv32)
    requires imm <= 0x7ffff
    ensures Decode(Bcc19Word(cond, imm)) == BCond(cond, imm)
  {}

  lemma DecodeBranchWord(link: bool, imm: bv32)
    requires imm <= 0x3ff_ffff
    ensures Decode(Branch26Word(link, imm)) == Branch(link, imm)
  {}

  lemma DecodeCbzWord(size: bv32, nz: bv32, rt: bv5, imm: bv32)
    requires size <= 1 && nz <= 1 && imm <= 0x7ffff
    ensures Decode(Cbz19Word(size, nz, rt, imm))
         == CompareBranch(if size == 1 then W64 else W32, nz == 1, rt, imm)
  {}

  lemma DecodeTbzWord(size: bv32, nz: bv32, rt: bv5, bit: bv32, imm: bv32)
    requires size <= 1 && nz <= 1 && bit <= 31 && imm <= 0x3fff
    ensures Decode(Tbz14Word(size, nz, rt, bit, imm))
         == TestBranch(((size << 5) | bit) as bv6, nz == 1, rt, imm)
  {}

  lemma DecodeLdrLitWord(size: bv32, fpneon: bv32, rt: bv5, imm: bv32)
    requires size <= 3 && fpneon <= 1 && !(size == 3 && fpneon == 1) && imm <= 0x7ffff
    ensures Decode(LdrLit19Word(size, fpneon, rt, imm))
         == LoadLiteral(LiteralKind(size, fpneon == 1), rt, imm)
  {}

  lemma DecodeBr(rn: bv5, link: bool)
    ensures Decode(AssembleBr(rn, link)) == BranchReg(link, rn)
  {}

  lemma DecodeLdrFpNeon(size: bv32, rt: bv5)
    requires size <= 2
    ensures Decode(AssembleLdrFpNeon(2 + size, rt, SCRATCH, 0)) == LoadScratch(LiteralKind(size, true), rt)
  {}

  lemma DecodeAdd32(rd: bv5, rn: bv5, imm: bv32)
    ensures Decode(AssembleAdd32(rd, rn, imm, 0)) == AddImm(W32, rd, rn, (imm & 0xfff) as bv64)
  {}

  lemma DecodeMov(width: Width, op: MovOp, rd: bv5, imm: bv16, hw: bv2)
    requires width == W32 ==> hw <= 1
    ensures Decode(AssembleMov(width, op, rd, imm, hw)) == MovWide(width, op, rd, imm, hw)
  {}
}
