/** Moving an IA64 bundle: each IP-relative instruction is pointed at an island of its own, and the
    island is a long branch to the original target. */
module Ia64Relocation {
  import opened Ia64Bundle
  import opened Ia64Isa

  /** The address that slot `slot` of bundle `b` at `address` branches to. */
  function TargetOf(address: bv64, b: Bundle, slot: Slot): bv64 {
    Plus(address, Displacement(Field(FormAt(b, slot), Get(b, slot))))
  }

  function FormAt(b: Bundle, slot: Slot): Form { FormOf(UnitOf(b, slot), Get(b, slot)) }

  predicate IsRelative(b: Bundle, slot: Slot) { FormAt(b, slot) != NotRelative }

  /** The extra bundle at `extra` is within reach of the bundle at `dest`. */
  predicate InReach(dest: bv64, extra: bv64) {
    Reachable(Minus(extra, dest), extra < dest)
  }

  /** The bundle at `dest` with its slot pointed at `extra`. */
  function Redirect(d: Bundle, dest: bv64, slot: Slot, form: Form, i: bv64, extra: bv64): Bundle {
    Set(d, slot, SetField(form, i, Minus(extra, dest), extra < dest))
  }

  function Island(extra: bv64, target: bv64): Bundle { SetBrlTarget(extra, BRL, target) }

  /** What moving promises about one slot: the instruction in `d` at `dest` is the one in `b` at `src`
      unless it is IP-relative; then it differs in its displacement alone, branches to the island at
      `extra`, and the island branches to the original target. */
  predicate SlotMoved(b: Bundle, src: bv64, d: Bundle, dest: bv64, slot: Slot, extra: bv64, island: Bundle) {
    && UnitOf(d, slot) == UnitOf(b, slot)
    && if !IsRelative(b, slot) then Get(d, slot) == Get(b, slot)
       else
         && FormAt(d, slot) == FormAt(b, slot)
         && Kept(FormAt(b, slot), Get(d, slot)) == Kept(FormAt(b, slot), Get(b, slot))
         && TargetOf(dest, d, slot) == extra
         && OnlyBranches(island) && LongTarget(island, extra) == TargetOf(src, b, slot)
  }

  lemma AlignedTarget(address: bv64, field: bv64)
    requires Aligned16(address)
    ensures Aligned16(Plus(address, Displacement(field)))
  {}

  // ------------------------------------------------------------------ what the relocator recognises

  lemma LongOffsetIs(w0: bv64, w1: bv64)
    ensures LongOffset(Read1(w0, w1), Read2(w1)) == BrlImm(w0, w1)
  {}

  /** The displacement of a long branch is the architecture's. */
  lemma LongTargetIs(b: Bundle, address: bv64)
    ensures LongTarget(b, address) == BrlTarget(address, b)
  {
    hide LongOffset, BrlImm, Read1, Read2, Plus;
    LongOffsetIs(b.wide0, b.wide1);
  }

  lemma MarkIsLong(b: Bundle)
    ensures UnitOf(b, S1) == LUnit && IsBrl(b) <==> IsLong(b)
  {
    UnitsByName(b, S1);
    LongOpcode(b.wide1);
    LongTemplate(b);
    hide Template, Units, TemplateName, UnitLetter, UnitOf;
  }

  lemma LongOpcode(w1: bv64)
    ensures w1 & 0xe000_0000_0000_0000 == 0xc000_0000_0000_0000 <==> Read2(w1) >> 37 == 0xc || Read2(w1) >> 37 == 0xd
  {}

  lemma LongTemplate(b: Bundle)
    ensures UnitOf(b, S1) == LUnit <==> b.wide0 & 0x1e == 4
  {}

  lemma IslandBranches(imm: bv64)
    ensures OnlyBranches(SetBrlImm(BRL, imm))
  {
    var b := SetBrlImm(BRL, imm);
    assert Template(b) == 5 && Get(b, S0) == 0x800_0000 && Get(b, S2) >> 37 == 0xc && Get(b, S2) & 0x1ff == 0;
  }

  lemma IslandReaches(extra: bv64, target: bv64)
    requires Aligned16(extra) && Aligned16(target)
    ensures OnlyBranches(Island(extra, target)) && LongTarget(Island(extra, target), extra) == target
  {
    hide IsBrl, BRL, Aligned16, OnlyBranches, LongTarget, SetBrlImm, GetBrlImm;
    IslandBranches(Minus(target, extra));
    LongTargetIs(Island(extra, target), extra);
    BrlRoundTrip(extra, BRL, target);
  }

  // The recognised instructions are those that branch relative to their address.
  lemma FormB(i: bv64)
    ensures if FormOf(BUnit, i) == NotRelative then Decode('B', i) == Other else FormOf(BUnit, i) == Imm20b && (Decode('B', i) == Br || Decode('B', i) == BrCall)
  {}
  lemma FormI(i: bv64)
    ensures if FormOf(IUnit, i) == NotRelative then Decode('I', i) == Other || Decode('I', i) == MovIp
            else FormOf(IUnit, i) == Imm13and7 && Decode('I', i) == ChkSpeculativeI
  {}
  lemma FormF(i: bv64)
    ensures if FormOf(FUnit, i) == NotRelative then Decode('F', i) == Other else FormOf(FUnit, i) == Imm20a && Decode('F', i) == FChkF
  {}
  lemma FormM(i: bv64)
    ensures match FormOf(MUnit, i)
            case NotRelative => Decode('M', i) == Other
            case Imm13and7 => Decode('M', i) == ChkSpeculativeM
            case Imm20b => Decode('M', i) == ChkAdvanced
            case Imm20a => false
  {}
  lemma FormOther(u: ExecutionUnit, letter: char, i: bv64)
    requires u != BUnit && u != IUnit && u != FUnit && u != MUnit && letter !in "BIFM"
    ensures FormOf(u, i) == NotRelative && Decode(letter, i) == Other
  {}

  // And their distances are those of their formats.
  function Signed21(low: bv64, negative: bool): bv64 { (if negative then 0x10_0000 else 0) | low }

  lemma Scaled0(low: bv64) requires low <= 0xf_ffff ensures Displacement(Signed21(low, false)) == Scaled(low, false) {}
  lemma Scaled1(low: bv64) requires low <= 0xf_ffff ensures Displacement(Signed21(low, true)) == Scaled(low, true) {}
  lemma Small20b(i: bv64) ensures Imm20bOf(i) <= 0xf_ffff && Field(Imm20b, i) == Signed21(Imm20bOf(i), Negative(i)) {}
  lemma Small20a(i: bv64) ensures Imm20aOf(i) <= 0xf_ffff && Field(Imm20a, i) == Signed21(Imm20aOf(i), Negative(i)) {}
  lemma Small13and7(i: bv64) ensures Imm13and7Of(i) <= 0xf_ffff && Field(Imm13and7, i) == Signed21(Imm13and7Of(i), Negative(i)) {}

  lemma Distances(i: bv64)
    ensures Displacement(Field(Imm20b, i)) == Scaled(Imm20bOf(i), Negative(i))
    ensures Displacement(Field(Imm20a, i)) == Scaled(Imm20aOf(i), Negative(i))
    ensures Displacement(Field(Imm13and7, i)) == Scaled(Imm13and7Of(i), Negative(i))
  {
    Small20b(i);
    Small20a(i);
    Small13and7(i);
    hide Displacement, Signed21, Scaled, Field, Imm20bOf, Imm20aOf, Imm13and7Of, Negative;
    if Negative(i) {
      Scaled1(Imm20bOf(i));
      Scaled1(Imm20aOf(i));
      Scaled1(Imm13and7Of(i));
    } else {
      Scaled0(Imm20bOf(i));
      Scaled0(Imm20aOf(i));
      Scaled0(Imm13and7Of(i));
    }
  }

  predicate Named(u: ExecutionUnit, letter: char) {
    && (u == FUnit <==> letter == 'F') && (u == MUnit <==> letter == 'M')
    && (u == IUnit <==> letter == 'I') && (u == BUnit <==> letter == 'B')
  }

  /** The form of an instruction says what it does with its address. */
  predicate Means(u: ExecutionUnit, letter: char, i: bv64, ip: bv64) {
    && (FormOf(u, i) != NotRelative <==> EffectOf(letter, i, ip).Branches?)
    && (FormOf(u, i) != NotRelative ==> EffectOf(letter, i, ip) == Branches(Plus(ip, Displacement(Field(FormOf(u, i), i)))))
  }

  lemma MeansB(i: bv64, ip: bv64)
    ensures Means(BUnit, 'B', i, ip)
  {
    hide FormOf, Decode, Field, Displacement, Scaled, Negative, Plus, Imm20bOf, Imm20aOf, Imm13and7Of;
    Distances(i);
    FormB(i);
  }

  lemma MeansI(i: bv64, ip: bv64)
    ensures Means(IUnit, 'I', i, ip)
  {
    hide FormOf, Decode, Field, Displacement, Scaled, Negative, Plus, Imm20bOf, Imm20aOf, Imm13and7Of;
    Distances(i);
    FormI(i);
  }

  lemma MeansF(i: bv64, ip: bv64)
    ensures Means(FUnit, 'F', i, ip)
  {
    hide FormOf, Decode, Field, Displacement, Scaled, Negative, Plus, Imm20bOf, Imm20aOf, Imm13and7Of;
    Distances(i);
    FormF(i);
  }

  lemma MeansM(i: bv64, ip: bv64)
    ensures Means(MUnit, 'M', i, ip)
  {
    hide FormOf, Decode, Field, Displacement, Scaled, Negative, Plus, Imm20bOf, Imm20aOf, Imm13and7Of;
    Distances(i);
    FormM(i);
  }

  lemma MeansOther(u: ExecutionUnit, letter: char, i: bv64, ip: bv64)
    requires u != BUnit && u != IUnit && u != FUnit && u != MUnit && letter !in "BIFM"
    ensures Means(u, letter, i, ip)
  {
    hide FormOf, Decode, Field, Displacement, Plus;
    FormOther(u, letter, i);
  }

  lemma FormMeans(u: ExecutionUnit, letter: char, i: bv64, ip: bv64)
    requires Named(u, letter)
    ensures Means(u, letter, i, ip)
  {
    hide Means;
    match u
    case BUnit => MeansB(i, ip);
    case IUnit => MeansI(i, ip);
    case FUnit => MeansF(i, ip);
    case MUnit => MeansM(i, ip);
    case _ => MeansOther(u, letter, i, ip);
  }

  /** A slot is recognised exactly when its instruction branches relative to its address, and its target is
      where that goes. */
  lemma RecognisedExactly(b: Bundle, slot: Slot, ip: bv64)
    ensures IsRelative(b, slot) <==> EffectAt(b, slot, ip).Branches?
    ensures IsRelative(b, slot) ==> EffectAt(b, slot, ip) == Branches(TargetOf(ip, b, slot))
  {
    hide UnitOf, UnitLetter, FormOf, EffectOf, Field, Displacement, Get, Plus;
    UnitsByName(b, slot);
    FormMeans(UnitOf(b, slot), UnitLetter(b, slot), Get(b, slot), ip);
  }

  /** Redirecting one slot of a copied bundle moves that slot and leaves the others as they are. */
  lemma RedirectMoves(b: Bundle, src: bv64, d: Bundle, dest: bv64, slot: Slot, extra: bv64)
    requires Aligned16(src) && Aligned16(extra) && InReach(dest, extra)
    requires IsRelative(b, slot) && UnitOf(d, slot) == UnitOf(b, slot)
    ensures var e := Redirect(d, dest, slot, FormAt(b, slot), Get(b, slot), extra);
            SlotMoved(b, src, e, dest, slot, extra, Island(extra, TargetOf(src, b, slot)))
  {
    hide Aligned16, Reachable, Get, Set, Template, Field, SetField, Displacement, Plus, Minus, Kept, OnlyBranches, LongTarget, Island, FormOf, IsInstruction, Units;
    var form, i := FormAt(b, slot), Get(b, slot);
    var distance, back := Minus(extra, dest), extra < dest;
    var j := SetField(form, i, distance, back);
    GetIsInstruction(b, slot);
    FieldRoundTrip(form, i, distance, back);
    SetFieldKeeps(form, i, distance, back);
    SetFieldSize(form, i, distance, back);
    FormOfKept(UnitOf(b, slot), i, j);
    GetSet(d, slot, j, slot);
    AddBack(extra, dest);
    AlignedTarget(src, Field(form, i));
    IslandReaches(extra, TargetOf(src, b, slot));
  }

  lemma RedirectKeeps(d: Bundle, dest: bv64, slot: Slot, form: Form, i: bv64, extra: bv64, other: Slot)
    requires form != NotRelative && other != slot
    ensures var e := Redirect(d, dest, slot, form, i, extra);
            Get(e, other) == Get(d, other) && Template(e) == Template(d)
  {
    hide Get, Set, Template, SetField, Minus;
    SetFieldSize(form, i, Minus(extra, dest), extra < dest);
    GetSet(d, slot, SetField(form, i, Minus(extra, dest), extra < dest), other);
  }

  lemma UnitsByTemplate(b: Bundle, d: Bundle, slot: Slot)
    requires Template(b) == Template(d)
    ensures UnitOf(b, slot) == UnitOf(d, slot)
  {
    hide Template;
  }

  /** What holds of a slot depends on the slot's instruction and the template alone. */
  lemma SlotMovedKept(b: Bundle, src: bv64, d: Bundle, e: Bundle, dest: bv64, slot: Slot, extra: bv64, island: Bundle)
    requires SlotMoved(b, src, d, dest, slot, extra, island)
    requires Get(e, slot) == Get(d, slot) && Template(e) == Template(d)
    ensures SlotMoved(b, src, e, dest, slot, extra, island)
  {
    hide Template, Get, FormOf, Kept, Field, Displacement, Plus, LongTarget, OnlyBranches, Units;
    UnitsByTemplate(d, e, slot);
  }

  // ------------------------------------------------------------------ long branches in the bundle itself

  lemma BrlKeepsSlot0(b: Bundle, imm: bv64)
    ensures Get0(SetBrlImm(b, imm)) == Get0(b) && Template(SetBrlImm(b, imm)) == Template(b)
  {
    Read0Brl(b.wide0, imm);
    TemplateBrl(b.wide0, imm);
  }

  lemma Read0Brl(w0: bv64, imm: bv64) ensures Read0(BrlLow(w0, imm)) == Read0(w0) {}
  lemma TemplateBrl(w0: bv64, imm: bv64) ensures (BrlLow(w0, imm) & 0x1f) as bv5 == (w0 & 0x1f) as bv5 {}

  /** The bits of the two words outside the long-branch displacement. */
  function RestHigh(w1: bv64): bv64 { w1 & 0xf700_000f_ff80_0000 }
  /** The two bits of slot 1 that lie below the displacement in the first word. */
  function Slot1Low(w0: bv64): bv64 { w0 & 0x0000_c000_0000_0000 }


  /** A long-branch bundle has no IP-relative instruction outside slot 0. */
  lemma LongIsShortInSlot0(b: Bundle)
    requires UnitOf(b, S1) == LUnit
    ensures !IsRelative(b, S1) && !IsRelative(b, S2)
  {
    hide Get, Opcode, X, X3, X6, Template;
  }

  predicate IsLongBranch(b: Bundle) { UnitOf(b, S1) == LUnit && IsBrl(b) }

  /** What moving promises about a long branch: the same target from the new address, and every bit
      of it outside the displacement as it was. */
  predicate LongBranchMoved(b: Bundle, src: bv64, d: Bundle, dest: bv64) {
    && IsBrl(d) && BrlTarget(dest, d) == BrlTarget(src, b)
    && RestHigh(d.wide1) == RestHigh(b.wide1) && Slot1Low(d.wide0) == Slot1Low(b.wide0)
  }

  lemma HighPieces(a0: bv64, a1: bv64, b0: bv64, b1: bv64)
    requires Read1(a0, a1) == Read1(b0, b1) && Read2(a1) == Read2(b1)
    ensures a1 == b1
  {}

  lemma LowPieces(a0: bv64, a1: bv64, b0: bv64)
    requires Read1(a0, a1) == Read1(b0, a1)
    ensures Slot1Low(a0) == Slot1Low(b0)
  {}

  lemma MarkFromParts(a0: bv64, b0: bv64, w1: bv64)
    requires (a0 & 0x1f) as bv5 == (b0 & 0x1f) as bv5
    ensures BrlMark(a0, w1) == BrlMark(b0, w1)
  {}

  lemma BrlTargetAligned(address: bv64, b: Bundle)
    requires Aligned16(address)
    ensures Aligned16(BrlTarget(address, b))
  {
    hide Aligned16, BrlImm, Plus;
    BrlImmAligned(b.wide0, b.wide1);
    AlignedSums(address, GetBrlImm(b));
  }

  lemma BrlField20(imm: bv64) ensures RestHigh((imm & 0xff_fff0) << 32) == 0 {}
  lemma BrlField23(imm: bv64) ensures RestHigh((imm & 0x7fff_ff00_0000_0000) >> 40) == 0 {}
  lemma BrlFieldSign(imm: bv64) ensures RestHigh((imm & 0x8000_0000_0000_0000) >> 4) == 0 {}
  lemma RestOfOr(w1: bv64, a: bv64, b: bv64, c: bv64)
    requires RestHigh(a) == 0 && RestHigh(b) == 0 && RestHigh(c) == 0
    ensures RestHigh((w1 & 0xf700_000f_ff80_0000) | a | b | c) == RestHigh(w1)
  {}

  lemma BrlHighRest(w1: bv64, imm: bv64)
    ensures RestHigh(BrlHigh(w1, imm)) == RestHigh(w1)
  {
    hide RestHigh;
    BrlField20(imm);
    BrlField23(imm);
    BrlFieldSign(imm);
    RestOfOr(w1, (imm & 0xff_fff0) << 32, (imm & 0x7fff_ff00_0000_0000) >> 40, (imm & 0x8000_0000_0000_0000) >> 4);
  }
  lemma BrlSlot1Low(w0: bv64, imm: bv64) ensures Slot1Low(BrlLow(w0, imm)) == Slot1Low(w0) {}

  /** Setting the target after moving slot 0 keeps slot 0 as moved and everything else of the branch. */
  lemma LongBranchKeeps(b: Bundle, src: bv64, moved: Bundle, dest: bv64)
    requires Aligned16(src) && Aligned16(dest) && IsBrl(b)
    requires Get(moved, S1) == Get(b, S1) && Get(moved, S2) == Get(b, S2) && Template(moved) == Template(b)
    ensures var d := SetBrlTarget(dest, moved, BrlTarget(src, b));
            LongBranchMoved(b, src, d, dest) && Get(d, S0) == Get(moved, S0) && Template(d) == Template(moved)
  {
    hide Aligned16, Read0, Read1, Read2, BrlMark, BrlLow, BrlHigh, BrlImm, Plus, Minus, Slot1Low, RestHigh;
    HighPieces(moved.wide0, moved.wide1, b.wide0, b.wide1);
    LowPieces(moved.wide0, moved.wide1, b.wide0);
    MarkFromParts(moved.wide0, b.wide0, b.wide1);
    BrlTargetAligned(src, b);
    BrlRoundTrip(dest, moved, BrlTarget(src, b));
    var imm := Minus(BrlTarget(src, b), dest);
    BrlHighRest(b.wide1, imm);
    BrlSlot1Low(moved.wide0, imm);
    BrlKeepsSlot0(moved, imm);
  }

  // ------------------------------------------------------------------ moving a whole bundle

  /** The loop visits the slots from 0 to 2. */
  function SlotAt(n: nat): Slot
    requires n < 3
  {
    if n == 0 then S0 else if n == 1 then S1 else S2
  }

  /** The number of IP-relative instructions before slot `n`. */
  function Rank(b: Bundle, n: nat): (r: nat)
    requires n <= 3
    ensures r <= n
  {
    if n == 0 then 0 else Rank(b, n - 1) + (if IsRelative(b, SlotAt(n - 1)) then 1 else 0)
  }

  lemma RankNext(b: Bundle, n: nat)
    requires n < 3
    ensures Rank(b, n + 1) == Rank(b, n) + (if IsRelative(b, SlotAt(n)) then 1 else 0)
  {
    hide IsRelative;
  }

  lemma SlotsDiffer(m: nat, n: nat)
    requires m < 3 && n < 3 && m != n
    ensures SlotAt(m) != SlotAt(n)
  {}

  lemma {:induction false} RankMonotone(b: Bundle, m: nat, n: nat)
    requires m <= n <= 3
    ensures Rank(b, m) <= Rank(b, n)
    decreases n
  {
    hide IsRelative;
    if m < n {
      RankMonotone(b, m, n - 1);
    }
  }

  /** What one round of the loop does to the slot it is at, and to the others. */
  lemma RoundMoves(b: Bundle, src: bv64, before: Bundle, after: Bundle, dest: bv64, slot: Slot, extra: bv64, island: Bundle)
    requires Aligned16(src) && Aligned16(extra) && InReach(dest, extra)
    requires Get(before, slot) == Get(b, slot) && Template(before) == Template(b)
    requires if IsRelative(b, slot) then after == Redirect(before, dest, slot, FormAt(b, slot), Get(b, slot), extra) && island == Island(extra, TargetOf(src, b, slot))
             else after == before
    ensures SlotMoved(b, src, after, dest, slot, extra, island)
    ensures Template(after) == Template(b)
    ensures forall other :: other != slot ==> Get(after, other) == Get(before, other)
  {
    hide Get, Template, Redirect, Island, InReach, Aligned16, TargetOf, FormOf, UnitOf, LongTarget, OnlyBranches, Kept;
    UnitsByTemplate(b, before, slot);
    if IsRelative(b, slot) {
      RedirectMoves(b, src, before, dest, slot, extra);
      forall other | other != slot
        ensures Get(after, other) == Get(before, other)
      {
        RedirectKeeps(before, dest, slot, FormAt(b, slot), Get(b, slot), extra, other);
      }
      RedirectKeeps(before, dest, slot, FormAt(b, slot), Get(b, slot), extra, if slot == S0 then S1 else S0);
    }
  }

  lemma IslandIgnored(b: Bundle, src: bv64, d: Bundle, dest: bv64, slot: Slot, extra: bv64, island: Bundle, other: Bundle)
    requires !IsRelative(b, slot) && SlotMoved(b, src, d, dest, slot, extra, island)
    ensures SlotMoved(b, src, d, dest, slot, extra, other)
  {
    hide Get, FormAt, UnitOf, Kept, TargetOf, LongTarget, OnlyBranches;
  }

  // ------------------------------------------------------------------ what moving does to what a bundle does

  /** The moved slot does what the original does: the same instruction unless that depends on its address; a
      branch goes to the island, and the island to where the original goes. An instruction that reads its
      address reads the new one. */
  predicate Arrives(b: Bundle, src: bv64, d: Bundle, dest: bv64, slot: Slot, extra: bv64, island: Bundle) {
    match EffectAt(b, slot, src)
    case Plain => Get(d, slot) == Get(b, slot) && EffectAt(d, slot, dest) == Plain
    case Reads(_) => Get(d, slot) == Get(b, slot) && EffectAt(d, slot, dest) == Reads(dest)
    case Branches(target) => EffectAt(d, slot, dest) == Branches(extra) && OnlyBranches(island) && LongTarget(island, extra) == target
  }

  lemma SameEffect(letter: char, i: bv64, ip: bv64, other: bv64)
    ensures EffectOf(letter, i, ip) == Plain ==> EffectOf(letter, i, other) == Plain
    ensures EffectOf(letter, i, ip).Reads? ==> EffectOf(letter, i, other) == Reads(other)
  {
    hide Decode, Offset, Plus;
  }

  lemma LetterByTemplate(b: Bundle, d: Bundle, slot: Slot)
    requires Template(b) == Template(d)
    ensures UnitLetter(b, slot) == UnitLetter(d, slot)
  {
    hide Template;
  }

  lemma MovedArrives(b: Bundle, src: bv64, d: Bundle, dest: bv64, slot: Slot, extra: bv64, island: Bundle)
    requires SlotMoved(b, src, d, dest, slot, extra, island) && Template(d) == Template(b)
    ensures Arrives(b, src, d, dest, slot, extra, island)
  {
    hide Template, Get, FormOf, TargetOf, EffectOf, Kept, UnitOf, UnitLetter, OnlyBranches, LongTarget;
    RecognisedExactly(b, slot, src);
    RecognisedExactly(d, slot, dest);
    LetterByTemplate(b, d, slot);
    if !IsRelative(b, slot) {
      SameEffect(UnitLetter(b, slot), Get(b, slot), src, dest);
    }
  }

  /** How many of the first `n` slots branch relative to their address. */
  function Branching(b: Bundle, n: nat): (r: nat)
    requires n <= 3
    ensures r <= n
  {
    if n == 0 then 0 else Branching(b, n - 1) + (if EffectAt(b, SlotAt(n - 1), 0).Branches? then 1 else 0)
  }

  lemma {:induction false} RankIsBranching(b: Bundle, n: nat)
    requires n <= 3
    ensures Rank(b, n) == Branching(b, n)
  {
    hide IsRelative, EffectAt;
    if n > 0 {
      RankIsBranching(b, n - 1);
      RecognisedExactly(b, SlotAt(n - 1), 0);
    }
  }

  /** A bundle in memory. */
  class BundleCell {
    const address: bv64
    var bundle: Bundle

    constructor (address: bv64, bundle: Bundle)
      ensures this.address == address && this.bundle == bundle
    {
      this.address, this.bundle := address, bundle;
    }

    /** Points slot `slot` of the copy at the extra bundle and makes that a branch to the original
        target; without an extra bundle it only reports whether the instruction is IP-relative. */
    method RelocateInstruction(dst: BundleCell, slot: Slot, extra: BundleCell?) returns (relative: bool)
      requires dst != this && dst != extra && extra != this
      modifies dst`bundle, if extra == null then {} else {extra}
      ensures relative == IsRelative(bundle, slot)
      ensures relative && extra != null ==>
                dst.bundle == Redirect(old(dst.bundle), dst.address, slot, FormAt(bundle, slot), Get(bundle, slot), extra.address)
                && extra.bundle == Island(extra.address, TargetOf(address, bundle, slot))
      ensures !relative || extra == null ==> dst.bundle == old(dst.bundle) && (extra != null ==> extra.bundle == old(extra.bundle))
    {
      hide FormAt, Get, Set, SetField, Minus, SetBrlTarget, TargetOf;
      var form, instruction := FormAt(bundle, slot), Get(bundle, slot);
      relative := form != NotRelative;
      if relative && extra != null {
        var moved := SetField(form, instruction, Minus(extra.address, dst.address), extra.address < dst.address);
        dst.bundle := Set(dst.bundle, slot, moved);
        extra.bundle := SetBrlTarget(extra.address, BRL, TargetOf(address, bundle, slot));
      }
    }

    /** The extra bundles, in the order they are used: three of them, or none at hand. */
    predicate IsPool(dst: BundleCell, pool: seq<BundleCell>) {
      && (pool == [] || |pool| == 3)
      && dst != this && dst !in pool && this !in pool
      && (forall i, j :: 0 <= i < j < |pool| ==> pool[i] != pool[j])
      && (forall i :: 0 <= i < |pool| ==> Aligned16(pool[i].address) && InReach(dst.address, pool[i].address))
    }

    lemma EarlierSlot(dst: BundleCell, pool: seq<BundleCell>, n: nat, k: nat, before: Bundle, islands: seq<Bundle>)
      requires k < n < 3 && |pool| == |islands| == 3
      requires SlotMoved(bundle, address, before, dst.address, SlotAt(k), pool[Rank(bundle, k)].address, islands[Rank(bundle, k)])
      requires Get(dst.bundle, SlotAt(k)) == Get(before, SlotAt(k)) && Template(dst.bundle) == Template(before)
      requires forall i :: 0 <= i < Rank(bundle, n) ==> pool[i].bundle == islands[i]
      ensures SlotMoved(bundle, address, dst.bundle, dst.address, SlotAt(k), pool[Rank(bundle, k)].address, pool[Rank(bundle, k)].bundle)
    {
      hide Get, Template, SlotMoved, IsRelative;
      var r := Rank(bundle, k);
      RankMonotone(bundle, k + 1, n);
      SlotMovedKept(bundle, address, before, dst.bundle, dst.address, SlotAt(k), pool[r].address, islands[r]);
      if !IsRelative(bundle, SlotAt(k)) {
        IslandIgnored(bundle, address, dst.bundle, dst.address, SlotAt(k), pool[r].address, islands[r], pool[r].bundle);
      }
    }

    /** The copy already holds the bundle unchanged; afterwards every slot is moved to its own island. */
    method RelocateBundle(dst: BundleCell, pool: seq<BundleCell>) returns (extraBytes: nat)
      requires IsPool(dst, pool) && Aligned16(address) && dst.bundle == bundle
      modifies dst`bundle, pool
      ensures extraBytes == 16 * Rank(bundle, 3)
      ensures Template(dst.bundle) == Template(bundle)
      ensures pool != [] ==>
        forall n :: 0 <= n < 3 ==>
          SlotMoved(bundle, address, dst.bundle, dst.address, SlotAt(n), pool[Rank(bundle, n)].address, pool[Rank(bundle, n)].bundle)
      ensures forall i :: Rank(bundle, 3) <= i < |pool| ==> pool[i].bundle == old(pool[i].bundle)
      ensures pool == [] ==> dst.bundle == bundle
      ensures forall n :: 0 <= n < 3 && !IsRelative(bundle, SlotAt(n)) ==> Get(dst.bundle, SlotAt(n)) == Get(bundle, SlotAt(n))
    {
      hide SlotMoved, IsRelative, Redirect, Island, InReach, Aligned16, Template, Get, TargetOf, FormAt, Rank, SlotAt;
      extraBytes := 0;
      var n := 0;
      RankZero(bundle);
      while n < 3
        invariant n <= 3 && extraBytes == 16 * Rank(bundle, n) && bundle == old(bundle)
        invariant Template(dst.bundle) == Template(bundle)
        invariant forall k :: n <= k < 3 ==> Get(dst.bundle, SlotAt(k)) == Get(bundle, SlotAt(k))
        invariant forall k :: 0 <= k < n && !IsRelative(bundle, SlotAt(k)) ==> Get(dst.bundle, SlotAt(k)) == Get(bundle, SlotAt(k))
        invariant pool != [] ==>
          forall k :: 0 <= k < n ==>
            SlotMoved(bundle, address, dst.bundle, dst.address, SlotAt(k), pool[Rank(bundle, k)].address, pool[Rank(bundle, k)].bundle)
        invariant forall i :: Rank(bundle, n) <= i < |pool| ==> pool[i].bundle == old(pool[i].bundle)
        invariant pool == [] ==> dst.bundle == bundle
      {
        RankNext(bundle, n);
        var relative := RelocateRound(dst, pool, n);
        extraBytes := if relative then extraBytes + 16 else extraBytes;
        n := n + 1;
      }
    }

    /** One round of the loop: slot `n` is moved and nothing else changes. */
    method RelocateRound(dst: BundleCell, pool: seq<BundleCell>, n: nat) returns (relative: bool)
      requires n < 3 && IsPool(dst, pool) && Aligned16(address)
      requires Template(dst.bundle) == Template(bundle) && Get(dst.bundle, SlotAt(n)) == Get(bundle, SlotAt(n))
      requires pool != [] ==> forall k :: 0 <= k < n ==>
        SlotMoved(bundle, address, dst.bundle, dst.address, SlotAt(k), pool[Rank(bundle, k)].address, pool[Rank(bundle, k)].bundle)
      modifies dst`bundle, pool
      ensures relative == IsRelative(bundle, SlotAt(n)) && bundle == old(bundle)
      ensures Template(dst.bundle) == Template(bundle)
      ensures forall k :: 0 <= k < 3 && k != n ==> Get(dst.bundle, SlotAt(k)) == old(Get(dst.bundle, SlotAt(k)))
      ensures !relative ==> Get(dst.bundle, SlotAt(n)) == Get(bundle, SlotAt(n))
      ensures pool != [] ==> forall k :: 0 <= k <= n ==>
        SlotMoved(bundle, address, dst.bundle, dst.address, SlotAt(k), pool[Rank(bundle, k)].address, pool[Rank(bundle, k)].bundle)
      ensures forall i :: 0 <= i < |pool| && i != Rank(bundle, n) ==> pool[i].bundle == old(pool[i].bundle)
      ensures pool != [] && !relative ==> pool[Rank(bundle, n)].bundle == old(pool[Rank(bundle, n)].bundle)
      ensures pool == [] ==> dst.bundle == old(dst.bundle)
    {
      hide SlotMoved, IsRelative, Redirect, Island, InReach, Aligned16, Template, Get, TargetOf, FormAt, Rank, SlotAt;
      if pool == [] {
        relative := RelocateInstruction(dst, SlotAt(n), null);
        return;
      }
      var r := Rank(bundle, n);
      ghost var before, islands := dst.bundle, seq(|pool|, i requires 0 <= i < |pool| reads pool => pool[i].bundle);
      relative := RelocateInstruction(dst, SlotAt(n), pool[r]);
      RoundMoves(bundle, address, before, dst.bundle, dst.address, SlotAt(n), pool[r].address, pool[r].bundle);
      forall k | 0 <= k < 3 && k != n
        ensures Get(dst.bundle, SlotAt(k)) == Get(before, SlotAt(k))
      {
        SlotsDiffer(k, n);
      }
      forall k | 0 <= k < n
        ensures SlotMoved(bundle, address, dst.bundle, dst.address, SlotAt(k), pool[Rank(bundle, k)].address, pool[Rank(bundle, k)].bundle)
      {
        EarlierSlot(dst, pool, n, k, before, islands);
      }
    }

    /** Copies the bundle: every slot does what it did, by way of an island of its own where it branches
        relative to its address, and a long branch goes where it went. */
    method Copy(dst: BundleCell, pool: seq<BundleCell>) returns (extraBytes: nat)
      requires IsPool(dst, pool) && Aligned16(address) && Aligned16(dst.address)
      modifies dst`bundle, pool
      ensures extraBytes == 16 * Branching(bundle, 3)
      ensures Template(dst.bundle) == Template(bundle)
      ensures pool != [] ==>
        forall n :: 0 <= n < 3 && (n == 0 || !IsLong(bundle)) ==>
          var r := Branching(bundle, n);
          Arrives(bundle, address, dst.bundle, dst.address, SlotAt(n), pool[r].address, pool[r].bundle)
      ensures IsLong(bundle) ==> IsLong(dst.bundle) && LongTarget(dst.bundle, dst.address) == LongTarget(bundle, address)
                                 && LongBranchMoved(bundle, address, dst.bundle, dst.address)
      ensures pool == [] && !IsLong(bundle) ==> dst.bundle == bundle
      ensures forall i :: Branching(bundle, 3) <= i < |pool| ==> pool[i].bundle == old(pool[i].bundle)
    {
      hide SlotMoved, IsRelative, InReach, Aligned16, Template, Get, Rank, IsBrl, BrlTarget, SetBrlTarget, LongBranchMoved, UnitOf, Arrives, IsLong, LongTarget, Branching;
      dst.bundle := bundle;
      extraBytes := RelocateBundle(dst, pool);
      MarkIsLong(bundle);
      RankIsBranching(bundle, 3);
      if UnitOf(bundle, S1) == LUnit && IsBrl(bundle) {
        CopyLong(dst, pool);
      } else {
        forall n | 0 <= n < 3 && pool != []
          ensures var r := Branching(bundle, n); Arrives(bundle, address, dst.bundle, dst.address, SlotAt(n), pool[r].address, pool[r].bundle)
        {
          RankIsBranching(bundle, n);
          var r := Rank(bundle, n);
          MovedArrives(bundle, address, dst.bundle, dst.address, SlotAt(n), pool[r].address, pool[r].bundle);
        }
      }
    }

    /** Gives the copy of a long branch its target. */
    method CopyLong(dst: BundleCell, pool: seq<BundleCell>)
      requires IsPool(dst, pool) && Aligned16(address) && Aligned16(dst.address) && UnitOf(bundle, S1) == LUnit && IsBrl(bundle)
      requires Template(dst.bundle) == Template(bundle)
      requires forall n :: 0 <= n < 3 && !IsRelative(bundle, SlotAt(n)) ==> Get(dst.bundle, SlotAt(n)) == Get(bundle, SlotAt(n))
      requires pool != [] ==>
        SlotMoved(bundle, address, dst.bundle, dst.address, S0, pool[Rank(bundle, 0)].address, pool[Rank(bundle, 0)].bundle)
      modifies dst`bundle
      ensures Template(dst.bundle) == Template(bundle)
      ensures IsLong(dst.bundle) && LongTarget(dst.bundle, dst.address) == LongTarget(bundle, address)
      ensures LongBranchMoved(bundle, address, dst.bundle, dst.address)
      ensures pool != [] ==>
        var r := Branching(bundle, 0);
        Arrives(bundle, address, dst.bundle, dst.address, S0, pool[r].address, pool[r].bundle)
    {
      hide SlotMoved, IsRelative, InReach, Aligned16, Template, Get, Rank, IsBrl, BrlTarget, SetBrlTarget, UnitOf, Arrives, IsLong, LongTarget, Branching, RestHigh, Slot1Low;
      ghost var moved := dst.bundle;
      dst.bundle := SetBrlTarget(dst.address, dst.bundle, BrlTarget(address, bundle));
      LongIsShortInSlot0(bundle);
      assert SlotAt(0) == S0 && SlotAt(1) == S1 && SlotAt(2) == S2;
      LongBranchKeeps(bundle, address, moved, dst.address);
      LongTargetIs(bundle, address);
      LongTargetIs(dst.bundle, dst.address);
      UnitsByTemplate(bundle, dst.bundle, S1);
      MarkIsLong(dst.bundle);
      RankIsBranching(bundle, 0);
      if pool != [] {
        var r := Rank(bundle, 0);
        SlotMovedKept(bundle, address, moved, dst.bundle, dst.address, S0, pool[r].address, pool[r].bundle);
        MovedArrives(bundle, address, dst.bundle, dst.address, S0, pool[r].address, pool[r].bundle);
      }
    }
  }

  lemma RankZero(b: Bundle)
    ensures Rank(b, 0) == 0
  {}
}
