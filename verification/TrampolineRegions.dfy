/** Trampoline memory: regions of 64 KB cut into slots, each region with a free list that is threaded
    through the slots themselves, and the list of all regions. */
module TrampolineRegions {

  const REGION_SIZE := 0x10000
  const REGION_SIGNATURE := 0x52727464
  const TRAMPOLINE_SIZE := 96
  const SLOTS_PER_REGION := 681
  /** Slots 0 and 1 of a region are never put on the free list. */
  const FIRST_SLOT := 2
  /** What a `memset` to 0xcc leaves in a pointer. */
  const FILL := 0xcccc_cccc_cccc_cccc

  function SlotAddress(base: nat, i: nat): nat { base + TRAMPOLINE_SIZE * (i + 1) }

  predicate InRegion(base: nat, p: nat) { base <= p < base + REGION_SIZE }

  /** Regions are aligned to their size, so the region of an address is found by masking. */
  function RegionOf(p: nat): nat { p - p % REGION_SIZE }

  predicate IsRegionBase(base: nat) { 0 < base && base % REGION_SIZE == 0 }

  lemma SlotInRegion(base: nat, i: nat)
    requires base % REGION_SIZE == 0 && i < SLOTS_PER_REGION
    ensures InRegion(base, SlotAddress(base, i)) && RegionOf(SlotAddress(base, i)) == base
  {}

  /** Slots lie inside of their region, behind its header, and do not overlap. */
  lemma SlotsApart(base: nat, i: nat, j: nat)
    requires i < j < SLOTS_PER_REGION
    ensures base + 96 <= SlotAddress(base, i) && SlotAddress(base, i) + 96 <= SlotAddress(base, j)
    ensures SlotAddress(base, j) + 96 <= base + 0x1_0000
  {}

  predicate Distinct(s: seq<nat>) { forall i, j :: 0 <= i < j < |s| ==> s[i] != s[j] }

  function Elements(s: seq<nat>): set<nat> { set x | x in s }

  lemma {:induction false} DistinctCount(s: seq<nat>)
    requires Distinct(s)
    ensures |Elements(s)| == |s|
  {
    if s != [] {
      DistinctCount(s[1..]);
      assert s == [s[0]] + s[1..];
      assert Elements(s) == {s[0]} + Elements(s[1..]);
    }
  }

  predicate IsSlotFrom(lo: nat, i: nat) { lo <= i < SLOTS_PER_REGION }

  function SlotsFrom(lo: nat): set<nat> { set i | lo <= i < SLOTS_PER_REGION && IsSlotFrom(lo, i) }

  lemma {:induction false} SlotsFromCount(lo: nat)
    requires lo <= SLOTS_PER_REGION
    ensures |SlotsFrom(lo)| == SLOTS_PER_REGION - lo
    decreases SLOTS_PER_REGION - lo
  {
    if lo < SLOTS_PER_REGION {
      SlotsFromCount(lo + 1);
      assert SlotsFrom(lo) == {lo} + SlotsFrom(lo + 1);
    } else {
      assert SlotsFrom(lo) == {};
    }
  }

  // ------------------------------------------------------------------ the list in the slots

  /** The pointer to the free slot number `k`, null at the end of the list. */
  function Link(base: nat, free: seq<nat>, k: nat): nat
    requires k <= |free|
  {
    if k < |free| then SlotAddress(base, free[k]) else 0
  }

  /** The slots in use. */
  function LiveSlots(free: seq<nat>): set<nat> {
    set i | FIRST_SLOT <= i < SLOTS_PER_REGION && i !in free
  }

  /** `pFree` and the fields of free slots link the slots `free`, distinct and within bounds, to a null end. */
  predicate Linked(base: nat, pFree: nat, remain: seq<nat>, free: seq<nat>) {
    && |remain| == SLOTS_PER_REGION && pFree == Link(base, free, 0)
    && Distinct(free) && (forall k :: 0 <= k < |free| ==> FIRST_SLOT <= free[k] < SLOTS_PER_REGION)
    && (forall k :: 0 <= k < |free| ==> remain[free[k]] == Link(base, free, k + 1))
  }

  predicate PointsOut(base: nat, p: nat) { p != 0 && !InRegion(base, p) }

  /** The slots that are never put on the list stay as they were. */
  predicate Threads(base: nat, pFree: nat, remain: seq<nat>, free: seq<nat>) {
    Linked(base, pFree, remain, free) && forall i :: 0 <= i < FIRST_SLOT ==> remain[i] == 0
  }

  function AllSlots(): (s: seq<nat>) {
    seq(SLOTS_PER_REGION - FIRST_SLOT, k requires 0 <= k => k + FIRST_SLOT)
  }

  lemma AllSlotsAt()
    ensures |AllSlots()| == SLOTS_PER_REGION - FIRST_SLOT
    ensures forall k :: 0 <= k < |AllSlots()| ==> AllSlots()[k] == k + FIRST_SLOT
    ensures LiveSlots(AllSlots()) == {}
  {
    forall i | FIRST_SLOT <= i < SLOTS_PER_REGION ensures i in AllSlots() {
      assert AllSlots()[i - FIRST_SLOT] == i;
    }
  }

  lemma FirstList(base: nat, remain: seq<nat>)
    requires |remain| == SLOTS_PER_REGION && remain[0] == remain[1] == 0
    requires forall j :: FIRST_SLOT <= j < SLOTS_PER_REGION ==> remain[j] == if j + 1 < SLOTS_PER_REGION then SlotAddress(base, j + 1) else 0
    ensures Threads(base, SlotAddress(base, FIRST_SLOT), remain, AllSlots()) && LiveSlots(AllSlots()) == {}
  {
    AllSlotsAt();
    hide AllSlots, LiveSlots, SlotAddress;
  }

  lemma PopLinked(base: nat, pFree: nat, remain: seq<nat>, free: seq<nat>, v: nat)
    requires Linked(base, pFree, remain, free) && free != []
    ensures Linked(base, remain[free[0]], remain[free[0] := v], free[1..])
  {
    hide SlotAddress;
    var rest := free[1..];
    forall k | 0 <= k < |rest|
      ensures FIRST_SLOT <= rest[k] < SLOTS_PER_REGION && remain[free[0] := v][rest[k]] == Link(base, rest, k + 1)
    {
      assert rest[k] == free[k + 1] && remain[free[k + 1]] == Link(base, free, k + 2);
    }
  }

  lemma PopLive(free: seq<nat>)
    requires Distinct(free) && free != [] && FIRST_SLOT <= free[0] < SLOTS_PER_REGION
    ensures LiveSlots(free[1..]) == LiveSlots(free) + {free[0]} && free[0] !in LiveSlots(free)
  {
    assert free == [free[0]] + free[1..];
  }

  lemma PopKeeps(base: nat, pFree: nat, remain: seq<nat>, free: seq<nat>)
    requires Threads(base, pFree, remain, free) && free != []
    ensures pFree == SlotAddress(base, free[0])
    ensures Threads(base, remain[free[0]], remain[free[0] := FILL], free[1..])
    ensures LiveSlots(free[1..]) == LiveSlots(free) + {free[0]} && free[0] !in LiveSlots(free)
  {
    hide SlotAddress, LiveSlots;
    PopLinked(base, pFree, remain, free, FILL);
    PopLive(free);
  }

  lemma PushLinked(base: nat, pFree: nat, remain: seq<nat>, free: seq<nat>, slot: nat)
    requires Linked(base, pFree, remain, free) && FIRST_SLOT <= slot < SLOTS_PER_REGION && slot !in free
    ensures Linked(base, SlotAddress(base, slot), remain[slot := pFree], [slot] + free)
  {
    hide SlotAddress;
    var more := [slot] + free;
    forall k | 0 <= k < |more|
      ensures FIRST_SLOT <= more[k] < SLOTS_PER_REGION && remain[slot := pFree][more[k]] == Link(base, more, k + 1)
    {
      if k > 0 {
        assert more[k] == free[k - 1] && remain[free[k - 1]] == Link(base, free, k);
      }
    }
  }

  lemma PushKeeps(base: nat, pFree: nat, remain: seq<nat>, free: seq<nat>, slot: nat)
    requires Threads(base, pFree, remain, free) && slot in LiveSlots(free)
    ensures Threads(base, SlotAddress(base, slot), remain[slot := pFree], [slot] + free)
    ensures LiveSlots([slot] + free) == LiveSlots(free) - {slot}
  {
    PushLinked(base, pFree, remain, free, slot);
    hide Linked, SlotAddress;
  }

  /** Only the field of a slot in use can be a pointer out of the region. */
  lemma FieldTells(base: nat, pFree: nat, remain: seq<nat>, free: seq<nat>, i: nat)
    requires IsRegionBase(base) && Threads(base, pFree, remain, free) && i < SLOTS_PER_REGION
    ensures PointsOut(base, remain[i]) ==> i in LiveSlots(free)
  {
    if i in free {
      var k :| 0 <= k < |free| && free[k] == i;
      if k + 1 < |free| {
        SlotInRegion(base, free[k + 1]);
      }
    }
  }

  /** The list that the pointers make is determined by the pointers: there is only one to follow. */
  lemma {:induction false} OneList(base: nat, remain: seq<nat>, free: seq<nat>, other: seq<nat>, k: nat)
    requires |remain| == SLOTS_PER_REGION && k <= |free| && k <= |other|
    requires Link(base, free, k) == Link(base, other, k)
    requires forall j :: k <= j < |free| ==> free[j] < SLOTS_PER_REGION && remain[free[j]] == Link(base, free, j + 1)
    requires forall j :: k <= j < |other| ==> other[j] < SLOTS_PER_REGION && remain[other[j]] == Link(base, other, j + 1)
    ensures free[k..] == other[k..]
    decreases |free| - k
  {
    if k < |free| {
      assert k < |other| && free[k] == other[k];
      OneList(base, remain, free, other, k + 1);
      assert free[k..] == [free[k]] + free[k + 1..] && other[k..] == [other[k]] + other[k + 1..];
    }
  }

  lemma {:induction false} CycleFollows(base: nat, remain: seq<nat>, free: seq<nat>, pFree: nat, other: seq<nat>, slot: nat, k: nat, j: nat)
    requires Linked(base, pFree, remain, free) && k < |free| && free[k] == slot && j <= k
    requires Linked(base, SlotAddress(base, slot), remain[slot := pFree], other)
    ensures j + 1 < |other| && other[j + 1] == free[j]
    decreases j
  {
    assert other != [] && other[0] == slot;
    if j > 0 {
      CycleFollows(base, remain, free, pFree, other, slot, k, j - 1);
      assert free[j - 1] != slot;
      assert remain[slot := pFree][other[j]] == Link(base, other, j + 1);
    } else {
      assert remain[slot := pFree][other[0]] == Link(base, other, 1);
    }
  }

  lemma NoList(base: nat, pFree: nat, remain: seq<nat>, free: seq<nat>, slot: nat, other: seq<nat>)
    requires Linked(base, pFree, remain, free) && slot in free
    ensures !Linked(base, SlotAddress(base, slot), remain[slot := pFree], other)
  {
    if Linked(base, SlotAddress(base, slot), remain[slot := pFree], other) {
      var k :| 0 <= k < |free| && free[k] == slot;
      CycleFollows(base, remain, free, pFree, other, slot, k, k);
      assert false;
    }
  }

  ghost predicate IsList(base: nat, pFree: nat, remain: seq<nat>) { exists free :: Linked(base, pFree, remain, free) }

  /** Putting a slot on the list leaves a list exactly when the slot was not on it: freeing twice makes a
      cycle, which no list threads. */
  lemma PushExact(base: nat, pFree: nat, remain: seq<nat>, free: seq<nat>, slot: nat)
    requires Linked(base, pFree, remain, free) && FIRST_SLOT <= slot < SLOTS_PER_REGION
    ensures IsList(base, SlotAddress(base, slot), remain[slot := pFree]) <==> slot !in free
  {
    assert |remain| == SLOTS_PER_REGION;
    hide Linked, SlotAddress;
    var head, after := SlotAddress(base, slot), remain[slot := pFree];
    if slot in free {
      forall other ensures !Linked(base, head, after, other) {
        NoList(base, pFree, remain, free, slot, other);
      }
    } else {
      PushLinked(base, pFree, remain, free, slot);
    }
  }

  /** Freed twice, a slot in use leaves its region without a free list. */
  lemma FreedTwice(base: nat, pFree: nat, remain: seq<nat>, free: seq<nat>, slot: nat)
    requires Threads(base, pFree, remain, free) && slot in LiveSlots(free)
    ensures var head, once := SlotAddress(base, slot), remain[slot := pFree];
            Linked(base, head, once, [slot] + free) && !IsList(base, head, once[slot := head])
  {
    PushLinked(base, pFree, remain, free, slot);
    PushExact(base, SlotAddress(base, slot), remain[slot := pFree], [slot] + free, slot);
  }

  // ------------------------------------------------------------------ one region

  /** A region: its header and the `pbRemain` field of each of its slots. */
  class Region {
    const base: nat
    var signature: nat
    var pFree: nat
    const remain: array<nat>
    /** The slots on the free list, first to last. */
    ghost var free: seq<nat>

    ghost predicate Valid()
      reads this, remain
    {
      IsRegionBase(base) && signature == REGION_SIGNATURE && Threads(base, pFree, remain[..], free)
    }

    /** The slots in use. */
    ghost function Live(): set<nat>
      reads this
    {
      LiveSlots(free)
    }

    /** Free and live slots together are the slots first put on the list. */
    lemma FreePlusLive()
      requires Valid()
      ensures |free| + |Live()| == SLOTS_PER_REGION - FIRST_SLOT
    {
      DistinctCount(free);
      SlotsFromCount(FIRST_SLOT);
      assert SlotsFrom(FIRST_SLOT) == Elements(free) + Live();
      assert Elements(free) * Live() == {};
    }

    /** A new region: all of its memory zero, then every slot but the first two on the free list. */
    constructor (base: nat)
      requires IsRegionBase(base)
      ensures Valid() && this.base == base && Live() == {} && pFree == SlotAddress(base, FIRST_SLOT) && fresh(remain)
    {
      hide IsRegionBase, Threads, LiveSlots, AllSlots, SlotAddress, InRegion;
      this.base, signature, pFree := base, REGION_SIGNATURE, 0;
      remain := new nat[SLOTS_PER_REGION](_ => 0);
      new;
      free := AllSlots();
      ThreadSlots();
      FirstList(base, remain[..]);
    }

    /** The creation loop, from the last slot down. */
    method ThreadSlots()
      requires remain.Length == SLOTS_PER_REGION && pFree == 0 && forall j :: 0 <= j < SLOTS_PER_REGION ==> remain[j] == 0
      modifies this`pFree, remain
      ensures pFree == SlotAddress(base, FIRST_SLOT) && forall j :: 0 <= j < FIRST_SLOT ==> remain[j] == 0
      ensures forall j :: FIRST_SLOT <= j < SLOTS_PER_REGION ==> remain[j] == if j + 1 < SLOTS_PER_REGION then SlotAddress(base, j + 1) else 0
    {
      hide SlotAddress;
      var i := SLOTS_PER_REGION - 1;
      while i > 1
        invariant 1 <= i < SLOTS_PER_REGION
        invariant pFree == if i + 1 < SLOTS_PER_REGION then SlotAddress(base, i + 1) else 0
        invariant forall j :: i < j < SLOTS_PER_REGION ==> remain[j] == if j + 1 < SLOTS_PER_REGION then SlotAddress(base, j + 1) else 0
        invariant forall j :: 0 <= j <= i ==> remain[j] == 0
      {
        remain[i] := pFree;
        pFree := SlotAddress(base, i);
        i := i - 1;
      }
    }

    /** Takes the first slot off the free list. */
    method Pop() returns (slot: nat)
      requires Valid() && pFree != 0
      modifies this, remain
      ensures Valid()
      ensures old(free) == [slot] + free && slot < SLOTS_PER_REGION && old(pFree) == SlotAddress(base, slot)
      ensures Live() == old(Live()) + {slot} && slot !in old(Live())
      ensures remain[..] == old(remain[..])[slot := FILL]
    {
      hide LiveSlots, Distinct;
      PopKeeps(base, pFree, remain[..], free);
      slot := (pFree - base) / TRAMPOLINE_SIZE - 1;
      pFree := remain[slot];
      remain[slot] := FILL;
      free := free[1..];
    }

    /** Puts a slot in use back at the head of the free list. */
    method Push(slot: nat)
      requires Valid() && slot in Live()
      modifies this, remain
      ensures Valid()
      ensures free == [slot] + old(free) && Live() == old(Live()) - {slot} && pFree == SlotAddress(base, slot)
      ensures remain[..] == old(remain[..])[slot := old(pFree)]
    {
      PushKeeps(base, pFree, remain[..], free, slot);
      hide Threads, Distinct;
      remain[slot] := pFree;
      pFree := SlotAddress(base, slot);
      free := [slot] + free;
    }

    /** Records where the function of a slot in use goes on. */
    method SetRemain(slot: nat, p: nat)
      requires Valid() && slot in Live()
      modifies remain
      ensures Valid() && remain[..] == old(remain[..])[slot := p]
    {
      RecordKeeps(base, pFree, remain[..], free, slot, p);
      remain[slot] := p;
    }

    /** The field of a slot. */
    ghost function Field(slot: nat): nat
      reads this, remain
    {
      if slot < remain.Length then remain[slot] else 0
    }

    /** Some slot in use is for a function that goes on outside of the region. */
    ghost predicate Marked()
      reads this, remain
    {
      exists i :: i in Live() && PointsOut(base, Field(i))
    }

    /** Judging by the fields of all the slots, no slot is in use: true also when the functions of all that
        are go on inside the region. */
    method IsEmpty() returns (empty: bool)
      requires Valid()
      ensures empty <==> !Marked()
      ensures Live() == {} ==> empty
    {
      hide LiveSlots, Threads, IsRegionBase;
      if signature != REGION_SIGNATURE {
        return false;
      }
      RegionSize();
      LiveBelow(free);
      var i := 0;
      while i < SLOTS_PER_REGION
        invariant i <= SLOTS_PER_REGION
        invariant forall s :: 0 <= s < i ==> !PointsOut(base, remain[s])
      {
        if remain[i] != 0 && (remain[i] < base || remain[i] >= base + REGION_SIZE) {
          FieldTells(base, pFree, remain[..], free, i);
          assert PointsOut(base, Field(i));
          return false;
        }
        i := i + 1;
      }
      return true;
    }

    lemma RegionSize()
      requires Valid()
      ensures remain.Length == SLOTS_PER_REGION
    {}
  }

  lemma RecordKeeps(base: nat, pFree: nat, remain: seq<nat>, free: seq<nat>, slot: nat, p: nat)
    requires Threads(base, pFree, remain, free) && slot in LiveSlots(free)
    ensures Threads(base, pFree, remain[slot := p], free)
  {}

  lemma LiveBelow(free: seq<nat>)
    ensures forall i :: i in LiveSlots(free) ==> i < SLOTS_PER_REGION
  {}
}
