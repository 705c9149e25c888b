/** What the instructions of an IA64 bundle do with the address they stand at, after the instruction formats
    of the Itanium architecture: written from the formats alone, not from how the relocator tells the
    instructions apart. */
module Ia64Isa {
  import opened Ia64Bundle

  /** The units of the three slots, as the architecture names the templates; an empty name is reserved. */
  function TemplateName(t: bv5): string {
    match t
    case 0x00 => "MII" case 0x01 => "MII" case 0x02 => "MII" case 0x03 => "MII"
    case 0x04 => "MLX" case 0x05 => "MLX"
    case 0x08 => "MMI" case 0x09 => "MMI" case 0x0a => "MMI" case 0x0b => "MMI"
    case 0x0c => "MFI" case 0x0d => "MFI" case 0x0e => "MMF" case 0x0f => "MMF"
    case 0x10 => "MIB" case 0x11 => "MIB" case 0x12 => "MBB" case 0x13 => "MBB"
    case 0x16 => "BBB" case 0x17 => "BBB" case 0x18 => "MMB" case 0x19 => "MMB"
    case 0x1c => "MFB" case 0x1d => "MFB"
    case _ => ""
  }

  function SlotNumber(slot: Slot): nat { match slot case S0 => 0 case S1 => 1 case S2 => 2 }

  /** The letter of a slot's unit, a blank for a reserved template. */
  function UnitLetter(b: Bundle, slot: Slot): char {
    var name := TemplateName(Template(b));
    if |name| == 3 then name[SlotNumber(slot)] else ' '
  }

  /** The instructions that depend on the address of their bundle, and everything else; formats B1 and B2,
      B3, M20 and M21, M22 and M23, I20, F14 and I25. */
  datatype Instr = Br | BrCall | ChkSpeculativeM | ChkAdvanced | ChkSpeculativeI | FChkF | MovIp | Other

  /** By the bits that each format fixes: the major opcode at the top, and the extensions x, x3 and x6. */
  function Decode(letter: char, i: bv64): Instr {
    if letter == 'B' then
      if i & 0x1e0_0000_0000 == 0x080_0000_0000 then Br
      else if i & 0x1e0_0000_0000 == 0x0a0_0000_0000 then BrCall
      else Other
    else if letter == 'M' then
      if i & 0x1ee_0000_0000 == 0x022_0000_0000 || i & 0x1ee_0000_0000 == 0x026_0000_0000 then ChkSpeculativeM
      else if i & 0x1e8_0000_0000 == 0x008_0000_0000 then ChkAdvanced
      else Other
    else if letter == 'I' then
      if i & 0x1ee_0000_0000 == 0x002_0000_0000 then ChkSpeculativeI
      else if i & 0x1ef_f800_0000 == 0x001_8000_0000 then MovIp
      else Other
    else if letter == 'F' then
      if i & 0x1e3_f800_0000 == 0x000_4000_0000 then FChkF else Other
    else Other
  }

  /** Twenty bits with a sign above them, in bundles, as a distance in bytes. */
  function Scaled(low: bv64, negative: bool): bv64 { (if negative then low - 0x10_0000 else low) << 4 }

  predicate Negative(i: bv64) { i & 0x10_0000_0000 != 0 }

  // The immediates imm20b, imm20a, and imm13c above imm7a.
  function Imm20bOf(i: bv64): bv64 { (i & 0x1_ffff_e000) >> 13 }
  function Imm20aOf(i: bv64): bv64 { (i & 0x3ff_ffc0) >> 6 }
  function Imm13and7Of(i: bv64): bv64 { ((i & 0x1_fff0_0000) >> 13) | ((i & 0x1fc0) >> 6) }

  /** The distance of a branch from its bundle. */
  function Offset(k: Instr, i: bv64): bv64 {
    match k
    case Br => Scaled(Imm20bOf(i), Negative(i))
    case BrCall => Scaled(Imm20bOf(i), Negative(i))
    case ChkAdvanced => Scaled(Imm20bOf(i), Negative(i))
    case ChkSpeculativeM => Scaled(Imm13and7Of(i), Negative(i))
    case ChkSpeculativeI => Scaled(Imm13and7Of(i), Negative(i))
    case FChkF => Scaled(Imm20aOf(i), Negative(i))
    case _ => 0
  }

  /** What an instruction does with its address: nothing, it branches when it does, or it reads it. */
  datatype Effect = Plain | Branches(target: bv64) | Reads(value: bv64)

  function EffectOf(letter: char, i: bv64, ip: bv64): Effect {
    match Decode(letter, i)
    case Other => Plain
    case MovIp => Reads(ip)
    case k => Branches(Plus(ip, Offset(k, i)))
  }

  function EffectAt(b: Bundle, slot: Slot, ip: bv64): Effect { EffectOf(UnitLetter(b, slot), Get(b, slot), ip) }

  /** A bundle whose last two slots are one long branch, conditional or call. */
  predicate IsLong(b: Bundle) {
    UnitLetter(b, S1) == 'L' && (Get(b, S2) >> 37 == 0xc || Get(b, S2) >> 37 == 0xd)
  }

  /** Its distance: 60 bits from the two slots, in bundles. */
  function LongOffset(low: bv64, high: bv64): bv64 {
    (((high & 0x10_0000_0000) << 23) | ((low & 0x1ff_ffff_fffc) << 18) | ((high & 0x1_ffff_e000) >> 13)) << 4
  }

  function LongTarget(b: Bundle, ip: bv64): bv64 { Plus(ip, LongOffset(Get(b, S1), Get(b, S2))) }

  /** A bundle that does nothing but branch far away, whatever the predicates are: a nop, and a long branch
      under predicate register 0. */
  predicate OnlyBranches(b: Bundle) {
    IsLong(b) && Get(b, S0) == 0x800_0000 && Get(b, S2) >> 37 == 0xc && Get(b, S2) & 0x1ff == 0
  }

  // ------------------------------------------------------------------ the relocator tells them apart

  lemma UnitsByName(b: Bundle, slot: Slot)
    ensures UnitOf(b, slot) == FUnit <==> UnitLetter(b, slot) == 'F'
    ensures UnitOf(b, slot) == MUnit <==> UnitLetter(b, slot) == 'M'
    ensures UnitOf(b, slot) == IUnit <==> UnitLetter(b, slot) == 'I'
    ensures UnitOf(b, slot) == BUnit <==> UnitLetter(b, slot) == 'B'
    ensures UnitOf(b, slot) == LUnit <==> UnitLetter(b, slot) == 'L'
  {
    TemplateUnits(Template(b));
    hide Template, Units, TemplateName;
  }

  function LetterOf(u: ExecutionUnit): char {
    match u case IUnit => 'I' case MUnit => 'M' case BUnit => 'B' case FUnit => 'F' case LUnit => 'L' case XUnit => 'X' case AUnit => 'A' case NoUnit => ' '
  }

  lemma TemplateUnits(t: bv5)
    ensures var u, name := Units(t), TemplateName(t);
            if name == "" then u == (NoUnit, NoUnit, NoUnit)
            else |name| == 3 && name[0] == LetterOf(u.0) && name[1] == LetterOf(u.1) && name[2] == LetterOf(u.2)
  {}
}
