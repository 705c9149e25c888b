/** The list of all trampoline regions and the region that is tried first. */
module TrampolineHeap {
  import opened TrampolineRegions

  /** The regions that are told to be in use by their fields, in order. */
  ghost function Kept(regions: seq<Region>): (kept: seq<Region>)
    reads regions, set r | r in regions :: r.remain
  {
    if regions == [] then []
    else (if regions[0].Marked() then [regions[0]] else []) + Kept(regions[1..])
  }

  /** The regions with a slot in use, in order. */
  ghost function InUse(regions: seq<Region>): (kept: seq<Region>)
    reads regions
  {
    if regions == [] then []
    else (if regions[0].Live() != {} then [regions[0]] else []) + InUse(regions[1..])
  }

  lemma KeptEmpty(regions: seq<Region>)
    requires regions == []
    ensures Kept(regions) == []
  {}

  lemma KeptUnfold(regions: seq<Region>)
    requires regions != []
    ensures Kept(regions) == (if regions[0].Marked() then [regions[0]] else []) + Kept(regions[1..])
  {}

  /** What is kept, region number `i` released or passed. */
  lemma KeptAt(regions: seq<Region>, i: nat)
    requires i < |regions|
    ensures var rest := regions[..i] + regions[i + 1..];
            regions[..i] + Kept(regions[i..]) ==
              if regions[i].Marked() then regions[..i + 1] + Kept(regions[i + 1..]) else rest[..i] + Kept(rest[i..])
    ensures forall r :: r in regions[..i + 1] ==> r in regions[..i] || r == regions[i]
    ensures (regions[..i] + regions[i + 1..])[..i] == regions[..i]
  {
    hide Region.Marked;
    var rest := regions[..i] + regions[i + 1..];
    KeptUnfold(regions[i..]);
    assert regions[i..][1..] == regions[i + 1..] == rest[i..];
    assert regions[..i + 1] == regions[..i] + [regions[i]];
  }

  lemma {:induction false} KeptExactly(regions: seq<Region>, r: Region)
    ensures r in Kept(regions) <==> r in regions && r.Marked()
  {
    if regions != [] {
      KeptExactly(regions[1..], r);
      assert regions == [regions[0]] + regions[1..];
    }
  }

  lemma {:induction false} InUseExactly(regions: seq<Region>, r: Region)
    ensures r in InUse(regions) <==> r in regions && r.Live() != {}
  {
    if regions != [] {
      InUseExactly(regions[1..], r);
      assert regions == [regions[0]] + regions[1..];
    }
  }

  lemma {:induction false} KeptAll(regions: seq<Region>)
    requires forall r :: r in regions ==> (r.Marked() <==> r.Live() != {})
    ensures Kept(regions) == InUse(regions)
  {
    if regions != [] {
      KeptAll(regions[1..]);
      assert regions == [regions[0]] + regions[1..];
    }
  }

  // ------------------------------------------------------------------ trampolines and what they record

  /** Some trampoline in the region at `base` is for a function that goes on outside of it; the map gives
      where the function of each trampoline goes on. */
  predicate Keeps(fields: map<nat, nat>, base: nat) {
    exists p :: p in fields && RegionOf(p) == base && PointsOut(base, fields[p])
  }

  /** The trampolines in use whose region does not look used. */
  function Lost(fields: map<nat, nat>): set<nat> {
    set p | p in fields && !Keeps(fields, RegionOf(p))
  }

  /** No trampoline is lost as long as every detoured function goes on outside of the region that its
      trampoline is in. */
  lemma NoneLost(fields: map<nat, nat>)
    requires forall p :: p in fields ==> PointsOut(RegionOf(p), fields[p])
    ensures Lost(fields) == {}
  {
    hide RegionOf, PointsOut;
  }

  function OfRegion(fields: map<nat, nat>, base: nat): set<nat> { set p | p in fields && RegionOf(p) == base }

  lemma LostStep(fields: map<nat, nat>, base: nat)
    requires !Keeps(fields, base)
    ensures var rest := fields - OfRegion(fields, base); rest - Lost(rest) == fields - Lost(fields)
  {
    hide RegionOf, PointsOut;
    var rest := fields - OfRegion(fields, base);
    forall p | p in rest
      ensures p in Lost(rest) <==> p in Lost(fields)
    {
      assert forall q :: q in fields && RegionOf(q) == RegionOf(p) ==> q in rest && rest[q] == fields[q];
    }
  }

  /** A slot: the base of its region and its number. */
  datatype Slot = Slot(base: nat, number: nat)

  predicate IsSlot(s: Slot) { s.base % REGION_SIZE == 0 && s.number < SLOTS_PER_REGION }

  function AddressOf(s: Slot): nat { SlotAddress(s.base, s.number) }

  /** Different slots have different addresses. */
  lemma OneSlot(s: Slot, t: Slot)
    requires IsSlot(s) && IsSlot(t) && AddressOf(s) == AddressOf(t)
    ensures s == t
  {
    SlotInRegion(s.base, s.number);
    SlotInRegion(t.base, t.number);
  }

  /** The slots in use. */
  ghost function LiveIn(regions: seq<Region>): set<Slot>
    reads regions
  {
    set r: Region, i | r in regions && i in r.Live() :: Slot(r.base, i)
  }

  function Addresses(live: set<Slot>): set<nat> { set s | s in live :: AddressOf(s) }

  lemma AddressesAdd(live: set<Slot>, s: Slot)
    requires (forall t :: t in live ==> IsSlot(t)) && IsSlot(s) && s !in live
    ensures Addresses(live + {s}) == Addresses(live) + {AddressOf(s)} && AddressOf(s) !in Addresses(live)
  {
    hide AddressOf, IsSlot;
    forall t | t in live ensures AddressOf(t) != AddressOf(s) {
      if AddressOf(t) == AddressOf(s) {
        OneSlot(t, s);
      }
    }
  }

  ghost predicate Separate(regions: seq<Region>) {
    forall i, j :: 0 <= i < j < |regions| ==> regions[i].base != regions[j].base && regions[i].remain != regions[j].remain
  }

  /** The map has the field of slot `i` of region `r`. */
  ghost predicate Shows(fields: map<nat, nat>, r: Region, i: nat)
    reads r, r.remain
  {
    SlotAddress(r.base, i) in fields && fields[SlotAddress(r.base, i)] == r.Field(i)
  }

  /** The map has the fields of the slots in use. */
  ghost predicate Fielded(regions: seq<Region>, fields: map<nat, nat>)
    reads regions, set r | r in regions :: r.remain
  {
    fields.Keys == Addresses(LiveIn(regions)) && forall r, i :: r in regions && i in r.Live() ==> Shows(fields, r, i)
  }

  class Trampolines {
    var regions: seq<Region>
    var preferred: Region?
    /** The trampolines in use, and where the function of each goes on. */
    ghost var fields: map<nat, nat>
    /** The regions and their slots. */
    ghost var Repr: set<object>

    constructor ()
      ensures Valid() && regions == [] && preferred == null && Repr == {} && fields == map[]
    {
      regions, preferred, Repr, fields := [], null, {}, map[];
    }

    ghost predicate Shape()
      reads `regions, `preferred, `Repr, Repr
    {
      && this !in Repr
      && (forall r :: r in regions ==> r in Repr && r.remain in Repr && r.Valid())
      && Separate(regions)
      && (preferred != null ==> preferred in regions)
    }

    ghost predicate Valid()
      reads this, Repr
    {
      Shape() && Fielded(regions, fields)
    }

    /** The region has a free slot, and the first one is between the bounds. */
    static predicate Suits(r: Region, lo: nat, hi: nat)
      reads r
    {
      r.pFree != 0 && lo <= r.pFree <= hi
    }

    /** The region a trampoline is taken from: the preferred one, the first of the list when there is
        none, if it suits; otherwise the first one of the list that does. */
    ghost function Choice(lo: nat, hi: nat): (choice: Region?)
      reads this, regions, preferred
      ensures choice != null ==> Suits(choice, lo, hi) && (choice in regions || choice == preferred)
      ensures choice == null ==> forall r :: r in regions ==> !Suits(r, lo, hi)
    {
      if preferred != null && Suits(preferred, lo, hi) then preferred else FirstSuiting(regions, lo, hi)
    }

    static ghost function FirstSuiting(regions: seq<Region>, lo: nat, hi: nat): (choice: Region?)
      reads regions
      ensures choice != null ==> choice in regions && Suits(choice, lo, hi)
      ensures choice == null ==> forall r :: r in regions ==> !Suits(r, lo, hi)
    {
      if regions == [] then null
      else if Suits(regions[0], lo, hi) then regions[0]
      else FirstSuiting(regions[1..], lo, hi)
    }

    /** Takes the first free slot of region `r`. */
    method TakeSlot(r: Region) returns (slot: nat)
      requires Shape() && r in regions && r.pFree != 0
      modifies r, r.remain
      ensures Shape() && old(r.pFree) == SlotAddress(r.base, slot) && IsSlot(Slot(r.base, slot))
      ensures LiveIn(regions) == old(LiveIn(regions)) + {Slot(r.base, slot)} && Slot(r.base, slot) !in old(LiveIn(regions))
      ensures r.Live() == old(r.Live()) + {slot} && r.Field(slot) == FILL
      ensures forall i :: i != slot ==> r.Field(i) == old(r.Field(i))
    {
      hide LiveSlots, Threads, SlotAddress;
      r.RegionSize();
      slot := r.Pop();
    }

    /** Takes the first free slot of region `r`, if it is between the bounds. */
    method Take(r: Region, lo: nat, hi: nat) returns (p: nat)
      requires Valid() && r in regions && r.pFree != 0
      modifies this`preferred, this`fields, r, r.remain
      ensures Valid() && regions == old(regions) && preferred == r
      ensures old(Suits(r, lo, hi)) ==> p == old(r.pFree) && p !in old(fields) && fields == old(fields)[p := FILL]
      ensures !old(Suits(r, lo, hi)) ==> p == 0 && fields == old(fields) && r.pFree == old(r.pFree)
    {
      hide LiveSlots, Addresses, Threads, IsSlot, LiveIn, Region.Valid, Region.Live, Region.Field, SlotAddress, FILL;
      preferred := r;
      p := r.pFree;
      if p < lo || p > hi {
        return 0;
      }
      LiveAreSlots(regions);
      ghost var before := LiveIn(regions);
      var slot := TakeSlot(r);
      AddressesAdd(before, Slot(r.base, slot));
      fields := fields[p := FILL];
      forall q, i | q in regions && i in q.Live()
        ensures Shows(fields, q, i)
      {
        OtherField(q, i, r, slot);
        assert q != r || i != slot ==> i in old(q.Live()) && old(Shows(fields, q, i));
      }
    }

    lemma OwnFields(r: Region)
      requires Shape() && r in regions
      ensures forall q :: q in regions && q != r ==> q.remain != r.remain
    {
      hide Region.Valid;
    }

    /** Slots in use have different addresses. */
    lemma OtherField(q: Region, i: nat, r: Region, slot: nat)
      requires Shape() && q in regions && r in regions && i in q.Live() && slot in r.Live()
      ensures SlotAddress(q.base, i) == SlotAddress(r.base, slot) ==> q == r && i == slot
    {
      hide Threads, SlotAddress, Addresses;
      LiveAreSlots(regions);
      assert Slot(q.base, i) in LiveIn(regions) && Slot(r.base, slot) in LiveIn(regions);
      if SlotAddress(q.base, i) == SlotAddress(r.base, slot) {
        OneSlot(Slot(q.base, i), Slot(r.base, slot));
      }
    }

    /** Makes the first suitable region of the list the preferred one, none if there is none. */
    method Search(lo: nat, hi: nat)
      requires Valid()
      modifies this`preferred
      ensures Valid() && preferred == FirstSuiting(regions, lo, hi)
    {
      hide Fielded, Region.Valid, Separate;
      var i := 0;
      while i < |regions| && !Suits(regions[i], lo, hi)
        invariant i <= |regions| && FirstSuiting(regions[i..], lo, hi) == FirstSuiting(regions, lo, hi)
      {
        assert regions[i..] == [regions[i]] + regions[i + 1..];
        i := i + 1;
      }
      preferred := if i < |regions| then regions[i] else null;
    }

    /** A new region at the head of the list. */
    method AddRegion(base: nat)
      requires Valid() && IsRegionBase(base) && forall r :: r in regions ==> r.base != base
      modifies this
      ensures Valid() && fields == old(fields) && fresh(Repr - old(Repr))
      ensures |regions| == |old(regions)| + 1 && regions[1..] == old(regions) && fresh(regions[0]) && fresh(regions[0].remain)
      ensures preferred == regions[0] && preferred.base == base && preferred.pFree == SlotAddress(base, FIRST_SLOT) != 0
    {
      hide Threads, LiveSlots, IsRegionBase, Addresses, Shows;
      preferred := new Region(base);
      regions := [preferred] + regions;
      Repr := Repr + {preferred, preferred.remain};
      assert LiveIn(regions) == LiveIn(regions[1..]);
    }

    /** The first region whose first free slot is between the bounds. */
    static lemma FirstIs(regions: seq<Region>, lo: nat, hi: nat, i: nat)
      requires i < |regions| && regions[i].pFree != 0 && lo <= regions[i].pFree <= hi
      requires forall k :: 0 <= k < i ==> !(regions[k].pFree != 0 && lo <= regions[k].pFree <= hi)
      ensures FirstSuiting(regions, lo, hi) == regions[i]
    {
      if i > 0 {
        assert regions[0] == regions[..1][0];
        FirstIs(regions[1..], lo, hi, i - 1);
      }
    }

    /** A trampoline is taken from the preferred region as long as its first free slot is between the bounds,
        and then from the first region of the list of which that is true. */
    lemma ChoiceIs(lo: nat, hi: nat)
      ensures preferred != null && preferred.pFree != 0 && lo <= preferred.pFree <= hi ==> Choice(lo, hi) == preferred
      ensures !(preferred != null && preferred.pFree != 0 && lo <= preferred.pFree <= hi) ==>
        forall i :: 0 <= i < |regions| && regions[i].pFree != 0 && lo <= regions[i].pFree <= hi
          && (forall k :: 0 <= k < i ==> !(regions[k].pFree != 0 && lo <= regions[k].pFree <= hi))
          ==> Choice(lo, hi) == regions[i]
    {
      forall i | 0 <= i < |regions| && regions[i].pFree != 0 && lo <= regions[i].pFree <= hi
        && (forall k :: 0 <= k < i ==> !(regions[k].pFree != 0 && lo <= regions[k].pFree <= hi))
        ensures FirstSuiting(regions, lo, hi) == regions[i]
      {
        FirstIs(regions, lo, hi, i);
      }
    }

    /** A trampoline between `lo` and `hi`: from a region that has one, and otherwise from a new region
        at `newBase`, which is 0 when the system gives none. */
    method Alloc(lo: nat, hi: nat, newBase: nat) returns (p: nat)
      requires Valid() && (newBase == 0 || (IsRegionBase(newBase) && forall r :: r in regions ==> r.base != newBase))
      modifies this, Repr
      ensures Valid() && fresh(Repr - old(Repr))
      ensures p != 0 ==> lo <= p <= hi && p !in old(fields) && fields == old(fields)[p := FILL]
      ensures p == 0 ==> fields == old(fields)
      ensures old(Choice(lo, hi)) != null ==>
                p == old(Choice(lo, hi).pFree) && regions == old(regions) && preferred == old(Choice(lo, hi))
      ensures old(Choice(lo, hi)) == null && newBase == 0 ==> p == 0 && regions == old(regions) && preferred == null
      ensures old(Choice(lo, hi)) == null && newBase != 0 ==>
                && |regions| == |old(regions)| + 1 && regions[1..] == old(regions) && regions[0].base == newBase
                && fresh(regions[0])
                && p == if lo <= SlotAddress(newBase, FIRST_SLOT) <= hi then SlotAddress(newBase, FIRST_SLOT) else 0
    {
      hide Threads, LiveSlots, IsRegionBase, Addresses, LiveIn, SlotAddress, Separate, Fielded;
      if preferred == null && regions != [] {
        preferred := regions[0];
      }
      if !(preferred != null && Suits(preferred, lo, hi)) {
        Search(lo, hi);
        if preferred == null {
          if newBase == 0 {
            return 0;
          }
          AddRegion(newBase);
        }
      }
      p := Take(preferred, lo, hi);
    }

    /** Puts slot `slot` of region `r` back. */
    method FreeSlot(r: Region, slot: nat)
      requires Shape() && r in regions && slot in r.Live()
      modifies r, r.remain
      ensures Shape() && r.pFree == SlotAddress(r.base, slot)
      ensures LiveIn(regions) == old(LiveIn(regions)) - {Slot(r.base, slot)}
      ensures r.Live() == old(r.Live()) - {slot} && forall i :: i != slot ==> r.Field(i) == old(r.Field(i))
      ensures forall q :: q in regions && q.base == r.base ==> q == r
    {
      hide LiveSlots, Threads, SlotAddress, IsRegionBase;
      r.Push(slot);
    }

    /** Records where the function of a slot goes on. */
    method RecordSlot(r: Region, slot: nat, v: nat)
      requires Shape() && r in regions && slot in r.Live()
      modifies r.remain
      ensures Shape() && LiveIn(regions) == old(LiveIn(regions))
      ensures r.Field(slot) == v && forall i :: i != slot ==> r.Field(i) == old(r.Field(i))
    {
      hide LiveSlots, Threads, SlotAddress, IsRegionBase;
      r.RegionSize();
      SlotBelow(r, slot);
      r.SetRemain(slot, v);
    }

    lemma SlotBelow(r: Region, slot: nat)
      requires Shape() && r in regions && slot in r.Live()
      ensures slot < SLOTS_PER_REGION
    {}

    /** The region and the slot of a trampoline, found from its address. */
    lemma Locate(p: nat) returns (s: Slot)
      requires Valid() && p in fields
      ensures s in LiveIn(regions) && p == AddressOf(s) && forall t :: t in LiveIn(regions) ==> IsSlot(t)
      ensures s.base == RegionOf(p) && s.number == (p - s.base) / TRAMPOLINE_SIZE - 1
      ensures exists r :: r in regions && r.base == s.base
      ensures forall r :: r in regions && r.base == s.base ==> s.number in r.Live()
      ensures this !in Repr && Shape() && forall r :: r in regions ==> r in Repr && r.remain in Repr
    {
      hide Threads, LiveSlots, SlotAddress, IsRegionBase, RegionOf, InRegion, Shows;
      s :| s in LiveIn(regions) && p == AddressOf(s);
      LiveAreSlots(regions);
      IndexOf(s.base, s.number);
      SlotInRegion(s.base, s.number);
    }

    static lemma IndexOf(base: nat, i: nat)
      ensures SlotAddress(base, i) >= base && (SlotAddress(base, i) - base) / TRAMPOLINE_SIZE - 1 == i
    {}

    /** Puts a trampoline back at the head of the free list of its region. */
    method Free(p: nat)
      requires Valid() && p in fields
      modifies this`fields, Repr
      ensures Valid() && fields == old(fields) - {p} && unchanged(`regions, `preferred, `Repr)
      ensures forall r :: r in regions && r.base == RegionOf(p) ==> r.pFree == p
      ensures forall r :: r in regions && r.base != RegionOf(p) ==> r.pFree == old(r.pFree)
    {
      hide LiveSlots, Threads, Addresses, IsSlot, RegionOf, IsRegionBase, Separate, LiveIn, InRegion, SlotAddress, Region.Valid, Region.Live, Region.Field, Shape;
      ghost var s := Locate(p);
      AddressesRemove(LiveIn(regions), s);
      var r :| r in regions && r.base == RegionOf(p);
      var slot := (p - r.base) / TRAMPOLINE_SIZE - 1;
      forall q, i | q in regions && i in q.Live()
        ensures SlotAddress(q.base, i) == p ==> q == r && i == slot
      {
        OtherField(q, i, r, slot);
      }
      OwnFields(r);
      FreeSlot(r, slot);
      fields := fields - {p};
      forall q, i | q in regions && i in q.Live()
        ensures Shows(fields, q, i)
      {
        assert old(i in q.Live()) && old(Shows(fields, q, i));
      }
    }

    /** Records in a trampoline where its function goes on. */
    method SetRemain(p: nat, v: nat)
      requires Valid() && p in fields
      modifies this`fields, Repr
      ensures Valid() && fields == old(fields)[p := v] && unchanged(`regions, `preferred, `Repr)
    {
      hide LiveSlots, Threads, Addresses, IsSlot, RegionOf, IsRegionBase, Separate, LiveIn, InRegion, SlotAddress, Region.Valid, Region.Live, Region.Field, Shape;
      ghost var s := Locate(p);
      var r :| r in regions && r.base == RegionOf(p);
      var slot := (p - r.base) / TRAMPOLINE_SIZE - 1;
      forall q, i | q in regions && i in q.Live()
        ensures SlotAddress(q.base, i) == p ==> q == r && i == slot
      {
        OtherField(q, i, r, slot);
      }
      OwnFields(r);
      RecordSlot(r, slot, v);
      fields := fields[p := v];
      forall q, i | q in regions && i in q.Live()
        ensures Shows(fields, q, i)
      {
        assert old(i in q.Live()) && old(Shows(fields, q, i));
      }
    }

    // ---------------------------------------------------------------- regions that are not used

    /** A region looks used exactly when it keeps a trampoline. */
    lemma MarkedExactly(r: Region)
      requires Valid() && r in regions
      ensures r.Marked() <==> Keeps(fields, r.base)
    {
      hide LiveSlots, Threads, Addresses, IsSlot, RegionOf, IsRegionBase, InRegion, SlotAddress, Region.Valid, Region.Live, Region.Field, Shape, PointsOut, AddressOf;
      if r.Marked() {
        var i :| i in r.Live() && PointsOut(r.base, r.Field(i));
        assert Shows(fields, r, i);
        SlotHome(r, i);
      }
      if Keeps(fields, r.base) {
        var p :| p in fields && RegionOf(p) == r.base && PointsOut(r.base, fields[p]);
        var s := Locate(p);
        assert Shows(fields, r, s.number);
        AddressOfSlot(s);
      }
    }

    static lemma AddressOfSlot(s: Slot)
      ensures AddressOf(s) == SlotAddress(s.base, s.number)
    {}

    lemma SlotHome(r: Region, i: nat)
      requires Valid() && r in regions && i in r.Live()
      ensures SlotAddress(r.base, i) in fields && RegionOf(SlotAddress(r.base, i)) == r.base
    {
      hide Threads, SlotAddress, Addresses;
      LiveAreSlots(regions);
      assert Slot(r.base, i) in LiveIn(regions) && Shows(fields, r, i);
      SlotInRegion(r.base, i);
    }

    /** The regions that look used are the regions in use exactly when no trampoline is lost. */
    lemma KeptExact()
      requires Valid()
      ensures Kept(regions) == InUse(regions) <==> Lost(fields) == {}
    {
      hide LiveSlots, Threads, Addresses, IsSlot, RegionOf, IsRegionBase, InRegion, SlotAddress, Region.Valid, Region.Live, Region.Field, Region.Marked, Shape, PointsOut, Keeps, LiveIn;
      if Lost(fields) == {} {
        forall r | r in regions
          ensures r.Marked() <==> r.Live() != {}
        {
          MarkedExactly(r);
          RegionSlots(r);
          if r.Live() != {} {
            var i :| i in r.Live();
            SlotHome(r, i);
            assert SlotAddress(r.base, i) !in Lost(fields);
          }
        }
        KeptAll(regions);
      } else {
        var p :| p in Lost(fields);
        var s := Locate(p);
        var r :| r in regions && r.base == s.base;
        MarkedExactly(r);
        KeptExactly(regions, r);
        InUseExactly(regions, r);
      }
    }

    lemma RegionSlots(r: Region)
      ensures r.Marked() ==> r.Live() != {}
    {}

    /** Unlinks and releases region number `i`, with the trampolines in it. */
    method Release(i: nat)
      requires Valid() && i < |regions| && !regions[i].Marked()
      modifies this
      ensures Valid() && Repr == old(Repr) && preferred == null
      ensures regions == old(regions)[..i] + old(regions)[i + 1..]
      ensures fields - Lost(fields) == old(fields - Lost(fields))
    {
      hide LiveSlots, Separate, Region.Valid, Region.Marked, Keeps, Lost, RegionOf, SlotAddress, IsRegionBase, Addresses, LiveIn, Region.Live, Region.Field;
      var r := regions[i];
      MarkedExactly(r);
      LostStep(fields, r.base);
      RegionTaken(regions, fields, i);
      regions := regions[..i] + regions[i + 1..];
      fields := fields - OfRegion(fields, r.base);
      preferred := null;
    }

    /** Releases region number `i` if it does not look used, and passes it otherwise. */
    method Visit(i: nat) returns (next: nat)
      requires Valid() && i < |regions|
      modifies this
      ensures Valid() && Repr == old(Repr) && fields - Lost(fields) == old(fields - Lost(fields))
      ensures if old(regions[i].Marked()) then next == i + 1 && unchanged(this)
              else next == i && regions == old(regions)[..i] + old(regions)[i + 1..] && preferred == null
    {
      hide *;
      next := i;
      RegionValid(regions[i]);
      var empty := regions[i].IsEmpty();
      if empty {
        Release(i);
      } else {
        next := i + 1;
      }
    }

    /** Releases the regions that do not look used, and the trampolines that are in them all the same; the
        other regions keep their order. */
    method FreeUnused()
      requires Valid()
      modifies this
      ensures Valid() && fields == old(fields) - Lost(old(fields))
      ensures regions == Kept(old(regions)) && Repr == old(Repr)
      ensures preferred == if regions == old(regions) then old(preferred) else null
    {
      hide *;
      var i: nat := 0;
      ghost var before := regions;
      while i < |regions|
        invariant i <= |regions| && Valid() && Repr == old(Repr)
        invariant fields - Lost(fields) == old(fields - Lost(fields))
        invariant Kept(before) == regions[..i] + Kept(regions[i..])
        invariant forall r :: r in regions[..i] ==> r.Marked()
        invariant |regions| <= |before| && preferred == if |regions| == |before| then old(preferred) else null
        invariant |regions| == |before| ==> regions == before
        decreases |regions| - i
      {
        KeptAt(regions, i);
        i := Visit(i);
      }
      KeptEmpty(regions[i..]);
      assert regions[..i] == regions;
      AllMarked();
    }

    lemma AllMarked()
      requires Valid() && forall r :: r in regions ==> r.Marked()
      ensures Lost(fields) == {}
    {
      hide Region.Marked, Keeps, Shape, Fielded, LiveIn, RegionOf;
      if p :| p in Lost(fields) {
        var s := Locate(p);
        var r :| r in regions && r.base == s.base;
        MarkedExactly(r);
      }
    }

    lemma RegionValid(r: Region)
      requires Valid() && r in regions
      ensures r.Valid()
    {}
  }

  /** Taking a region out of the list takes its slots away and no others. */
  lemma RegionTaken(regions: seq<Region>, fields: map<nat, nat>, i: nat)
    requires i < |regions| && Separate(regions) && Fielded(regions, fields) && forall r :: r in regions ==> r.Valid()
    ensures var rest := regions[..i] + regions[i + 1..];
            Fielded(rest, fields - OfRegion(fields, regions[i].base)) && Separate(rest) && (forall r :: r in rest ==> r in regions)
  {
    var rest := regions[..i] + regions[i + 1..];
    HomeRegions(regions);
    hide LiveSlots, Threads, RegionOf, SlotAddress, Region.Valid, Addresses, LiveIn, Region.Live, Region.Field, AddressOf;
    forall r | r in rest ensures r in regions && r.base != regions[i].base {}
    assert forall r :: r in regions && r != regions[i] ==> r in rest;
    SlotsTaken(regions, rest, fields, regions[i]);
  }

  lemma SlotsTaken(regions: seq<Region>, rest: seq<Region>, fields: map<nat, nat>, gone: Region)
    requires Fielded(regions, fields) && (forall r :: r in rest ==> r in regions && r.base != gone.base)
    requires gone in regions && forall r :: r in regions && r != gone ==> r in rest
    requires forall r, j :: r in regions && j in r.Live() ==> RegionOf(SlotAddress(r.base, j)) == r.base
    ensures Fielded(rest, fields - OfRegion(fields, gone.base))
  {
    hide LiveSlots, RegionOf, SlotAddress, Region.Live, Region.Field;
    forall p
      ensures p in fields && p !in OfRegion(fields, gone.base) <==> p in Addresses(LiveIn(rest))
    {
      if p in fields && p !in OfRegion(fields, gone.base) {
        var s :| s in LiveIn(regions) && p == AddressOf(s);
        assert s in LiveIn(rest);
      }
      if s :| s in LiveIn(rest) && p == AddressOf(s) {
        assert s in LiveIn(regions);
      }
    }
    assert forall r, j :: r in rest && j in r.Live() ==> Shows(fields, r, j);
  }

  lemma HomeRegions(regions: seq<Region>)
    requires forall r :: r in regions ==> r.Valid()
    ensures forall r, j :: r in regions && j in r.Live() ==> RegionOf(SlotAddress(r.base, j)) == r.base
  {
    hide LiveSlots, Threads, RegionOf, SlotAddress;
    forall r, j | r in regions && j in r.Live()
      ensures RegionOf(SlotAddress(r.base, j)) == r.base
    {
      LiveBelow(r.free);
      SlotInRegion(r.base, j);
    }
  }

  lemma AddressesRemove(live: set<Slot>, s: Slot)
    requires (forall t :: t in live ==> IsSlot(t)) && s in live
    ensures Addresses(live - {s}) == Addresses(live) - {AddressOf(s)}
  {
    assert live == (live - {s}) + {s};
    AddressesAdd(live - {s}, s);
  }

  lemma LiveAreSlots(regions: seq<Region>)
    requires forall r :: r in regions ==> r.Valid()
    ensures forall s :: s in LiveIn(regions) ==> IsSlot(s)
  {}

  lemma NoNullTrampoline(regions: seq<Region>)
    requires forall r :: r in regions ==> r.Valid()
    ensures 0 !in Addresses(LiveIn(regions))
  {}
}
