/** Where a trampoline may lie so that the jumps into it, and a leading jump moved into it, reach. */
module JumpReach {
  import opened MachineWords
  import opened X64Jumps

  const REACH := 0x7ff8_0000
  const LOWEST := 0x8_0000
  const HIGHEST := 0xffff_ffff_fff8_0000

  function Below(a: address): address { if a > REACH then a - REACH else LOWEST }

  function Above(a: address): address { if a < 0xffff_ffff_8000_0000 then a + REACH else HIGHEST }

  /** What code begins with: a jump with a 32-bit displacement to or through `to`, or anything else. */
  datatype Leading = Direct(offset: int) | Indirect(offset: int) | Other

  function Size(j: Leading): nat { match j case Direct(_) => 5 case Indirect(_) => 6 case Other => 0 }

  predicate WellFormed(j: Leading) { j != Other ==> FitsInt32(j.offset) }

  /** The jumps that are looked for at the start of the code. */
  function LeadingOf(code: seq<byte>): (j: Leading)
    requires |code| >= 6
    ensures WellFormed(j)
  {
    if code[0] == 0xff && code[1] == 0x25 then Indirect(FromLe32(code[2..6]))
    else if code[0] == 0xe9 then Direct(FromLe32(code[1..5]))
    else Other
  }

  function Referred(code: address, j: Leading): address
    requires j != Other
  {
    Wrap64(code + Size(j) + j.offset)
  }

  /** The bounds between which the trampoline for `code` may lie. */
  function Bounds(code: address, j: Leading): (address, address) {
    if j == Other then (Below(code), Above(code))
    else
      var to := Referred(code, j);
      if to < code then (Below(code), Above(to)) else (Below(to), Above(code))
  }

  predicate Within(t: address, bounds: (address, address)) { bounds.0 <= t <= bounds.1 }

  lemma BoundsNear(code: address, j: Leading, t: address)
    requires Within(t, Bounds(code, j))
    ensures -REACH <= t - code <= REACH
    ensures j != Other ==> -REACH <= t - Referred(code, j) <= REACH
  {}

  predicate Close(t: address, a: address) { -REACH <= t - a <= REACH }

  /** The bounds shut out nothing else: between them is every address that is close to the code, and to what
      a leading jump refers to, and that is clear of the very ends of the address space where those come
      near them. */
  lemma BoundsExact(code: address, j: Leading, t: address)
    ensures var to := if j == Other then code else Referred(code, j);
            var low, high := if to < code then to else code, if to < code then code else to;
            Within(t, Bounds(code, j)) <==>
              && Close(t, code) && Close(t, to)
              && (high <= 0x7ff8_0000 ==> t >= 0x8_0000)
              && (low >= 0xffff_ffff_8000_0000 ==> t <= 0xffff_ffff_fff8_0000)
  {}

  /** What code begins with, by what it does: a jump with a 32-bit displacement goes to what it refers to, or
      where the pointer there says, and anything else is no such jump. */
  lemma LeadingMeans(code: address, bytes: seq<byte>, cells: address -> address)
    requires |bytes| >= 6
    ensures var j := LeadingOf(bytes);
            match j
            case Direct(_) => bytes[0] == 0xe9 && JumpGoes(code, bytes, cells) == Referred(code, j)
            case Indirect(_) => bytes[0] == 0xff && bytes[1] == 0x25 && JumpGoes(code, bytes, cells) == cells(Referred(code, j))
            case Other => bytes[0] != 0xe9 && (bytes[0] != 0xff || bytes[1] != 0x25)
  {
    hide FromLe32, Wrap64;
  }

  lemma LeadingFits(code: address, j: Leading, t: address)
    requires j != Other && -REACH <= t - code <= REACH && -REACH <= t - Referred(code, j) <= REACH
    ensures Wrap64(code + Size(j) + j.offset) == Referred(code, j) && FitsInt32(Adjusted(j.offset, code, t))
  {
    var k := WrapSplit(code + Size(j) + j.offset);
    SignedUnique(t - code, t - code, 0);
    SignedUnique(j.offset - (t - code), Referred(code, j) - t - Size(j), k);
  }

  /** A trampoline that is near enough for the patch to jump into it. */
  predicate Near(code: int, t: int) { -REACH <= t - code <= REACH && t <= HIGHEST }

  lemma WithinNear(code: address, j: Leading, t: address)
    requires Within(t, Bounds(code, j))
    ensures Near(code, t)
  {}

  lemma PatchReaches(code: address, t: address, cells: address -> address)
    requires Near(code, t)
    ensures JumpGoes(code, JmpImmediate(code, t + RB_CODE_IN), cells) == t + RB_CODE_IN
  {
    hide JumpGoes, JmpImmediate;
    SignedUnique(t + RB_CODE_IN - (code + 5), t + RB_CODE_IN - (code + 5), 0);
    JmpImmediateLands(code, t + RB_CODE_IN, cells);
  }

  /** From any code, near either end of the address space too: for every trampoline within the bounds
      the patch jumps into it, and a leading jump moved to its start keeps its target. */
  lemma TrampolineReaches(code: address, j: Leading, t: address, cells: address -> address)
    requires WellFormed(j) && Within(t, Bounds(code, j))
    ensures JumpGoes(code, JmpImmediate(code, t + RB_CODE_IN), cells) == t + RB_CODE_IN
    ensures j != Other ==> Wrap64(t + Size(j) + FromLe32(Le32(Adjusted(j.offset, code, t)))) == Referred(code, j)
  {
    WithinNear(code, j, t);
    BoundsNear(code, j, t);
    hide JumpGoes, JmpImmediate, FromLe32, Le32, Bounds, Referred, Wrap64;
    PatchReaches(code, t, cells);
    if j != Other {
      LeadingFits(code, j, t);
      AdjustTargetExact(code, t, Size(j), j.offset);
    }
  }

  /** Once the detour is in place, control that reaches the patched code arrives at the detour: over the
      patch and over the indirect jump in the trampoline. */
  lemma PatchReachesDetour(code: address, t: address, cells: address -> address)
    requires Near(code, t)
    ensures var entry := JumpGoes(code, JmpImmediate(code, t + RB_CODE_IN), cells);
            JumpGoes(entry, JmpIndirect(entry, t + PB_DETOUR), cells) == cells(t + PB_DETOUR)
  {
    hide JumpGoes, JmpImmediate, JmpIndirect;
    PatchReaches(code, t, cells);
    CellReached(t + RB_CODE_IN, t + PB_DETOUR, cells);
  }

  lemma CellReached(at: address, cell: address, cells: address -> address)
    requires -TWO31 <= cell - (at + 6) < TWO31
    ensures JumpGoes(at, JmpIndirect(at, cell), cells) == cells(cell)
  {
    hide JumpGoes, JmpIndirect;
    SignedUnique(cell - (at + 6), cell - (at + 6), 0);
    JmpIndirectLands(at, cell, cells);
  }

  /** From behind the moved code, wherever that ends, control goes on at what the trampoline records. */
  lemma TailReachesRemain(t: address, cbCode: nat, cells: address -> address)
    requires cbCode <= SIZE_OF_CODE && t + RB_CODE_IN < TWO64
    ensures JumpGoes(t + cbCode, JmpIndirect(t + cbCode, t + PB_REMAIN), cells) == cells(t + PB_REMAIN)
  {
    CellReached(t + cbCode, t + PB_REMAIN, cells);
  }

  /** A leading call with displacement `offset`, moved to a trampoline at `t`, keeps its target. */
  predicate CallKept(code: address, offset: int, t: address) {
    Wrap64(t + 5 + FromLe32(Le32(Adjusted(offset, code, t)))) == Wrap64(code + 5 + offset)
  }

  /** The bounds take no account of a leading call: it keeps its target at every trampoline within them
      exactly when it does at the lowest and at the highest, for code away from the ends of the address
      space when its target is no further away than half a megabyte. */
  lemma LeadingCallExact(code: address, offset: int)
    requires FitsInt32(offset)
    ensures (forall t: address :: Within(t, Bounds(code, Other)) ==> CallKept(code, offset, t))
       <==> Above(code) - code - TWO31 <= offset < Below(code) - code + TWO31
  {
    hide CallKept;
    forall t: address | Within(t, Bounds(code, Other))
      ensures CallKept(code, offset, t) <==> FitsInt32(offset - (t - code))
    {
      CallKeptExact(code, offset, t);
    }
    assert Within(Below(code), Bounds(code, Other)) && Within(Above(code), Bounds(code, Other));
  }

  lemma CallKeptExact(code: address, offset: int, t: address)
    requires FitsInt32(offset) && Within(t, Bounds(code, Other))
    ensures CallKept(code, offset, t) <==> FitsInt32(offset - (t - code))
  {
    BoundsNear(code, Other, t);
    SignedUnique(t - code, t - code, 0);
    SignedUnique(offset - (t - code), offset - (t - code), 0);
    hide FromLe32, Le32, Wrap64;
    AdjustTargetExact(code, t, 5, offset);
  }

  /** One such call. */
  lemma LeadingCallMayNotReach()
    ensures var code, offset, t := 0x1_0000_0000, 0x7fff_fff0, 0x8008_0000;
            Within(t, Bounds(code, Other)) && !CallKept(code, offset, t)
  {
    CallKeptExact(0x1_0000_0000, 0x7fff_fff0, 0x8008_0000);
  }
}
