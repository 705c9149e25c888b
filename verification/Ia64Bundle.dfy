/** IA64 instruction bundles: a five-bit template and three 41-bit instructions in 128 bits, the
    fields of the IP-relative instructions, and the long branch. */
module Ia64Bundle {

  datatype Bundle = Bundle(wide0: bv64, wide1: bv64)

  datatype Slot = S0 | S1 | S2

  datatype ExecutionUnit = NoUnit | AUnit | IUnit | MUnit | BUnit | FUnit | LUnit | XUnit

  // ------------------------------------------------------------------ templates

  function Template(b: Bundle): bv5 { (b.wide0 & 0x1f) as bv5 }

  /** The units of the three slots, by template. */
  function Units(t: bv5): (ExecutionUnit, ExecutionUnit, ExecutionUnit) {
    match t >> 1
    case 0 => (MUnit, IUnit, IUnit)
    case 1 => (MUnit, IUnit, IUnit)
    case 2 => (MUnit, LUnit, XUnit)
    case 4 => (MUnit, MUnit, IUnit)
    case 5 => (MUnit, MUnit, IUnit)
    case 6 => (MUnit, FUnit, IUnit)
    case 7 => (MUnit, MUnit, FUnit)
    case 8 => (MUnit, IUnit, BUnit)
    case 9 => (MUnit, BUnit, BUnit)
    case 11 => (BUnit, BUnit, BUnit)
    case 12 => (MUnit, MUnit, BUnit)
    case 14 => (MUnit, FUnit, BUnit)
    case _ => (NoUnit, NoUnit, NoUnit)
  }

  function UnitOf(b: Bundle, slot: Slot): ExecutionUnit {
    var u := Units(Template(b));
    match slot case S0 => u.0 case S1 => u.1 case S2 => u.2
  }

  // ------------------------------------------------------------------ the three instructions

  // Fields of the two words, read and written.
  function Read0(w0: bv64): bv64 { (w0 >> 5) & 0x1ff_ffff_ffff }
  function Read1(w0: bv64, w1: bv64): bv64 { ((w0 >> 46) & 0x3_ffff) | ((w1 & 0x7f_ffff) << 18) }
  function Read2(w1: bv64): bv64 { w1 >> 23 }
  function Write0(w0: bv64, i: bv64): bv64 { (w0 & 0xffff_c000_0000_001f) | ((i << 5) & 0x3fff_ffff_ffe0) }
  function Write1Low(w0: bv64, i: bv64): bv64 { (w0 & 0x3fff_ffff_ffff) | ((i << 46) & 0xffff_c000_0000_0000) }
  function Write1High(w1: bv64, i: bv64): bv64 { (w1 & 0xffff_ffff_ff80_0000) | ((i >> 18) & 0x7f_ffff) }
  function Write2(w1: bv64, i: bv64): bv64 { (w1 & 0x7f_ffff) | ((i << 23) & 0xffff_ffff_ff80_0000) }

  function Get0(b: Bundle): bv64 { Read0(b.wide0) }
  function Get1(b: Bundle): bv64 { Read1(b.wide0, b.wide1) }
  function Get2(b: Bundle): bv64 { Read2(b.wide1) }

  function Set0(b: Bundle, i: bv64): Bundle { Bundle(Write0(b.wide0, i), b.wide1) }
  function Set1(b: Bundle, i: bv64): Bundle { Bundle(Write1Low(b.wide0, i), Write1High(b.wide1, i)) }
  function Set2(b: Bundle, i: bv64): Bundle { Bundle(b.wide0, Write2(b.wide1, i)) }

  function Get(b: Bundle, slot: Slot): bv64 {
    match slot case S0 => Get0(b) case S1 => Get1(b) case S2 => Get2(b)
  }

  function Set(b: Bundle, slot: Slot, i: bv64): Bundle {
    match slot case S0 => Set0(b, i) case S1 => Set1(b, i) case S2 => Set2(b, i)
  }

  /** An instruction has 41 bits. */
  predicate IsInstruction(i: bv64) { i <= 0x1ff_ffff_ffff }

  lemma Read0Write0(w0: bv64, i: bv64) requires IsInstruction(i) ensures Read0(Write0(w0, i)) == i {}
  lemma Read0Write1(w0: bv64, i: bv64) ensures Read0(Write1Low(w0, i)) == Read0(w0) {}
  lemma Read1Write0(w0: bv64, w1: bv64, i: bv64) ensures Read1(Write0(w0, i), w1) == Read1(w0, w1) {}
  lemma Read1Write1(w0: bv64, w1: bv64, i: bv64) requires IsInstruction(i) ensures Read1(Write1Low(w0, i), Write1High(w1, i)) == i {}
  lemma Read1Write2(w0: bv64, w1: bv64, i: bv64) ensures Read1(w0, Write2(w1, i)) == Read1(w0, w1) {}
  lemma Read2Write1(w1: bv64, i: bv64) ensures Read2(Write1High(w1, i)) == Read2(w1) {}
  lemma Read2Write2(w1: bv64, i: bv64) requires IsInstruction(i) ensures Read2(Write2(w1, i)) == i {}

  lemma TemplateSet(b: Bundle, slot: Slot, i: bv64)
    ensures Template(Set(b, slot, i)) == Template(b)
  {
    TemplateSet0(b, i);
    TemplateSet1(b, i);
  }

  lemma TemplateSet0(b: Bundle, i: bv64) ensures Template(Set0(b, i)) == Template(b) {}
  lemma TemplateSet1(b: Bundle, i: bv64) ensures Template(Set1(b, i)) == Template(b) {}

  lemma GetIsInstruction(b: Bundle, slot: Slot)
    ensures IsInstruction(Get(b, slot))
  {}

  /** Setting one instruction changes that instruction and no other, and not the template. */
  lemma GetSet(b: Bundle, slot: Slot, i: bv64, other: Slot)
    requires IsInstruction(i)
    ensures Get(Set(b, slot, i), other) == if other == slot then i else Get(b, other)
    ensures Template(Set(b, slot, i)) == Template(b)
  {
    hide Read0, Read1, Read2, Write0, Write1Low, Write1High, Write2, Template, IsInstruction;
    TemplateSet(b, slot, i);
    var w0, w1 := b.wide0, b.wide1;
    match slot {
      case S0 => Read0Write0(w0, i); Read1Write0(w0, w1, i);
      case S1 => Read0Write1(w0, i); Read1Write1(w0, w1, i); Read2Write1(w1, i);
      case S2 => Read1Write2(w0, w1, i); Read2Write2(w1, i);
    }
  }

  lemma Pieces(b: Bundle)
    ensures b == Bundle((Template(b) as bv64) | (Get0(b) << 5) | (Get1(b) << 46), (Get1(b) >> 18) | (Get2(b) << 23))
  {}

  /** A bundle is its template and its three instructions. */
  lemma BundleExtensional(a: Bundle, b: Bundle)
    requires Template(a) == Template(b) && Get0(a) == Get0(b) && Get1(a) == Get1(b) && Get2(a) == Get2(b)
    ensures a == b
  {
    hide Template, Get0, Get1, Get2;
    Pieces(a);
    Pieces(b);
  }

  // ------------------------------------------------------------------ IP-relative instructions

  /** Where an IP-relative instruction keeps its 21-bit bundle displacement; the sign is bit 36. */
  datatype Form = NotRelative | Imm13and7 | Imm20a | Imm20b

  function Opcode(i: bv64): bv64 { (i >> 37) & 0xf }
  function X(i: bv64): bv64 { (i >> 33) & 1 }
  function X3(i: bv64): bv64 { (i >> 33) & 7 }
  function X6(i: bv64): bv64 { (i >> 27) & 0x3f }

  /** The recognised instructions: fchkf; chk.s on the M unit; chk.a; chk.s on the I unit; br and br.call. */
  function FormOf(u: ExecutionUnit, i: bv64): Form {
    match u
    case FUnit => if Opcode(i) == 0 && X(i) == 0 && X6(i) == 8 then Imm20a else NotRelative
    case MUnit =>
      if Opcode(i) == 1 && (X3(i) == 1 || X3(i) == 3) then Imm13and7
      else if Opcode(i) == 0 && (X3(i) == 4 || X3(i) == 5 || X3(i) == 6 || X3(i) == 7) then Imm20b
      else NotRelative
    case IUnit => if Opcode(i) == 0 && X3(i) == 1 then Imm13and7 else NotRelative
    case BUnit => if Opcode(i) == 4 || Opcode(i) == 5 then Imm20b else NotRelative
    case _ => NotRelative
  }

  function SignBit(i: bv64): bv64 { (i >> 36) & 1 }

  /** The 21-bit displacement in bundles. */
  function Field(form: Form, i: bv64): bv64 {
    match form
    case Imm13and7 => (SignBit(i) << 20) | (((i >> 20) & 0x1fff) << 7) | ((i >> 6) & 0x7f)
    case Imm20a => (SignBit(i) << 20) | ((i >> 6) & 0xf_ffff)
    case Imm20b => (SignBit(i) << 20) | ((i >> 13) & 0xf_ffff)
    case NotRelative => 0
  }

  /** Sign extension of 21 bits, then scaling by the bundle size. */
  function Displacement(field: bv64): bv64 { ((field << 4) ^ 0x100_0000) - 0x100_0000 }

  /** The instruction with its displacement replaced; `distance` is in bytes and `backward` its sign. */
  function SetField(form: Form, i: bv64, distance: bv64, backward: bool): bv64 {
    var sign: bv64 := if backward then 0x10_0000_0000 else 0;
    match form
    case Imm13and7 => (i & 0x1ee_000f_e03f) | (((distance >> 4) & 0x7f) << 6) | (((distance >> 11) & 0x1fff) << 20) | sign
    case Imm20a => (i & 0x1ef_fc00_003f) | (((distance >> 4) & 0xf_ffff) << 6) | sign
    case Imm20b => (i & 0x1ee_0000_1fff) | (((distance >> 4) & 0xf_ffff) << 13) | sign
    case NotRelative => i
  }

  function Plus(a: bv64, b: bv64): bv64 { a + b }
  function Minus(a: bv64, b: bv64): bv64 { a - b }

  predicate Aligned16(a: bv64) { a & 0xf == 0 }

  /** A distance in bytes that 21 bits of bundles can express. */
  predicate Reachable(distance: bv64, backward: bool) {
    Aligned16(distance) && if backward then distance >= 0xffff_ffff_ff00_0000 else distance < 0x100_0000
  }

  /** The displacement written into a field is read back. */
  lemma Field13and7(i: bv64, d: bv64) requires IsInstruction(i) && Reachable(d, false) ensures Displacement(Field(Imm13and7, SetField(Imm13and7, i, d, false))) == d {}
  lemma Field20a(i: bv64, d: bv64) requires IsInstruction(i) && Reachable(d, false) ensures Displacement(Field(Imm20a, SetField(Imm20a, i, d, false))) == d {}
  lemma Field20b(i: bv64, d: bv64) requires IsInstruction(i) && Reachable(d, false) ensures Displacement(Field(Imm20b, SetField(Imm20b, i, d, false))) == d {}
  lemma Back13and7(i: bv64, d: bv64) requires IsInstruction(i) && Reachable(d, true) ensures Displacement(Field(Imm13and7, SetField(Imm13and7, i, d, true))) == d {}
  lemma Back20a(i: bv64, d: bv64) requires IsInstruction(i) && Reachable(d, true) ensures Displacement(Field(Imm20a, SetField(Imm20a, i, d, true))) == d {}
  lemma Back20b(i: bv64, d: bv64) requires IsInstruction(i) && Reachable(d, true) ensures Displacement(Field(Imm20b, SetField(Imm20b, i, d, true))) == d {}

  lemma FieldRoundTrip(form: Form, i: bv64, distance: bv64, backward: bool)
    requires form != NotRelative && IsInstruction(i) && Reachable(distance, backward)
    ensures Displacement(Field(form, SetField(form, i, distance, backward))) == distance
  {
    hide Displacement, Field, SetField, Reachable, IsInstruction;
    if backward {
      match form case Imm13and7 => Back13and7(i, distance); case Imm20a => Back20a(i, distance); case Imm20b => Back20b(i, distance);
    } else {
      match form case Imm13and7 => Field13and7(i, distance); case Imm20a => Field20a(i, distance); case Imm20b => Field20b(i, distance);
    }
  }

  function Keep(form: Form): bv64 {
    match form
    case Imm13and7 => 0x1ee_000f_e03f
    case Imm20a => 0x1ef_fc00_003f
    case Imm20b => 0x1ee_0000_1fff
    case NotRelative => 0x1ff_ffff_ffff
  }

  function Kept(form: Form, i: bv64): bv64 { i & Keep(form) }

  lemma Kept13and7(i: bv64, d: bv64, back: bool) ensures Kept(Imm13and7, SetField(Imm13and7, i, d, back)) == Kept(Imm13and7, i) {}
  lemma Kept20a(i: bv64, d: bv64, back: bool) ensures Kept(Imm20a, SetField(Imm20a, i, d, back)) == Kept(Imm20a, i) {}
  lemma Kept20b(i: bv64, d: bv64, back: bool) ensures Kept(Imm20b, SetField(Imm20b, i, d, back)) == Kept(Imm20b, i) {}
  lemma Size13and7(i: bv64, d: bv64, back: bool) ensures IsInstruction(SetField(Imm13and7, i, d, back)) {}
  lemma Size20a(i: bv64, d: bv64, back: bool) ensures IsInstruction(SetField(Imm20a, i, d, back)) {}
  lemma Size20b(i: bv64, d: bv64, back: bool) ensures IsInstruction(SetField(Imm20b, i, d, back)) {}

  /** Setting the displacement leaves every other bit alone. */
  lemma SetFieldKeeps(form: Form, i: bv64, d: bv64, back: bool)
    requires form != NotRelative
    ensures Kept(form, SetField(form, i, d, back)) == Kept(form, i)
  {
    hide Kept, SetField;
    match form
    case Imm13and7 => Kept13and7(i, d, back);
    case Imm20a => Kept20a(i, d, back);
    case Imm20b => Kept20b(i, d, back);
  }

  lemma SetFieldSize(form: Form, i: bv64, d: bv64, back: bool)
    requires form != NotRelative
    ensures IsInstruction(SetField(form, i, d, back))
  {
    hide IsInstruction, SetField;
    match form
    case Imm13and7 => Size13and7(i, d, back);
    case Imm20a => Size20a(i, d, back);
    case Imm20b => Size20b(i, d, back);
  }

  lemma OpcodeKept(form: Form, i: bv64)
    ensures Opcode(Kept(form, i)) == Opcode(i)
  {
    match form case Imm13and7 => case Imm20a => case Imm20b => case NotRelative =>
  }

  lemma X3Kept13and7(i: bv64) ensures X3(Kept(Imm13and7, i)) == X3(i) {}
  lemma X3Kept20b(i: bv64) ensures X3(Kept(Imm20b, i)) == X3(i) {}
  lemma XKept20a(i: bv64) ensures X(Kept(Imm20a, i)) == X(i) && X6(Kept(Imm20a, i)) == X6(i) {}

  /** The displacement field is disjoint from the bits that the instruction is recognised by. */
  lemma FormOfKept(u: ExecutionUnit, i: bv64, j: bv64)
    requires FormOf(u, i) != NotRelative && Kept(FormOf(u, i), j) == Kept(FormOf(u, i), i)
    ensures FormOf(u, j) == FormOf(u, i)
  {
    hide Opcode, X, X3, X6, Kept;
    OpcodeKept(FormOf(u, i), i);
    OpcodeKept(FormOf(u, i), j);
    X3Kept13and7(i);
    X3Kept13and7(j);
    X3Kept20b(i);
    X3Kept20b(j);
    XKept20a(i);
    XKept20a(j);
  }

  // ------------------------------------------------------------------ long branches

  function BrlImm(w0: bv64, w1: bv64): bv64 {
    ((w1 & 0x00ff_fff0_0000_0000) >> 32) | ((w0 & 0xffff_0000_0000_0000) >> 24) | ((w1 & 0x7f_ffff) << 40) | ((w1 & 0x0800_0000_0000_0000) << 4)
  }

  function BrlLow(w0: bv64, imm: bv64): bv64 {
    (w0 & 0x0000_ffff_ffff_ffff) | ((imm & 0xff_ff00_0000) << 24)
  }

  function BrlHigh(w1: bv64, imm: bv64): bv64 {
    (w1 & 0xf700_000f_ff80_0000) | ((imm & 0xff_fff0) << 32) | ((imm & 0x7fff_ff00_0000_0000) >> 40) | ((imm & 0x8000_0000_0000_0000) >> 4)
  }

  function GetBrlImm(b: Bundle): bv64 { BrlImm(b.wide0, b.wide1) }
  function SetBrlImm(b: Bundle, imm: bv64): Bundle { Bundle(BrlLow(b.wide0, imm), BrlHigh(b.wide1, imm)) }

  function BrlMark(w0: bv64, w1: bv64): bool {
    w0 & 0x1e == 4 && w1 & 0xe000_0000_0000_0000 == 0xc000_0000_0000_0000
  }
  predicate IsBrl(b: Bundle) { BrlMark(b.wide0, b.wide1) }

  /** brl.sptk.few with a zero displacement. */
  const BRL: Bundle := Bundle(0x0000_0001_0000_0005, 0xc000_0008_0000_0000)

  function BrlTarget(address: bv64, b: Bundle): bv64 { Plus(address, GetBrlImm(b)) }
  function SetBrlTarget(address: bv64, b: Bundle, target: bv64): Bundle { SetBrlImm(b, Minus(target, address)) }

  lemma BrlImmRead(w0: bv64, w1: bv64, imm: bv64)
    requires Aligned16(imm)
    ensures BrlImm(BrlLow(w0, imm), BrlHigh(w1, imm)) == imm
  {}

  lemma BrlImmAligned(w0: bv64, w1: bv64)
    ensures Aligned16(BrlImm(w0, w1))
  {}

  lemma BrlMarkKept(w0: bv64, w1: bv64, imm: bv64)
    ensures BrlMark(BrlLow(w0, imm), BrlHigh(w1, imm)) <==> BrlMark(w0, w1)
  {}

  lemma AddBack(target: bv64, address: bv64)
    ensures Plus(address, Minus(target, address)) == target
  {
    assert Plus(address, target - address) == target;
  }

  lemma AlignedSums(a: bv64, b: bv64)
    requires Aligned16(a) && Aligned16(b)
    ensures Aligned16(Plus(a, b)) && Aligned16(Minus(a, b))
  {}

  /** A long branch set to an aligned target has that target, and is still a long branch. */
  lemma BrlRoundTrip(address: bv64, b: Bundle, target: bv64)
    requires Aligned16(address) && Aligned16(target)
    ensures BrlTarget(address, SetBrlTarget(address, b, target)) == target
    ensures IsBrl(SetBrlTarget(address, b, target)) <==> IsBrl(b)
  {
    hide Plus, Minus, Aligned16, BrlImm, BrlLow, BrlHigh, BrlMark;
    AlignedSums(target, address);
    BrlImmRead(b.wide0, b.wide1, Minus(target, address));
    BrlMarkKept(b.wide0, b.wide1, Minus(target, address));
    AddBack(target, address);
  }
}
