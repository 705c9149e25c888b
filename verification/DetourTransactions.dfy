/** The transaction as it works in place: the list of pending operations, the code and pointers that a
    commit patches, and the trampoline regions. Each call is proved to do what the state machine says. */
module DetourTransactions {
  import opened MachineWords
  import opened X64Jumps
  import opened TrampolineRegions
  import opened TrampolineHeap
  import opened JumpReach
  import opened TransactionModel
  import opened TransactionSafety
  import opened TransactionUndo

  /** What attaching meets outside of the transaction, except for the trampoline, which is taken from a
      region or from a new one at `newBase`. */
  datatype Surroundings = Surroundings(target: nat, detour: nat, memory: bool, newBase: nat, size: nat, protect: nat)

  function Met(m: Surroundings, trampoline: nat): Attachment {
    Attachment(m.target, m.detour, m.memory, trampoline, m.size, m.protect)
  }

  const BLANK := Trampoline([], FILL, FILL)
  const CLEARED := Trampoline([], 0, 0)

  /** Where the function of each trampoline goes on. */
  function Remains(contents: map<nat, Trampoline>): map<nat, nat> { map t | t in contents :: contents[t].remain }

  /** The trampolines in use that are released with their regions when thread `thread` commits. */
  function LostBy(s: State, retain: bool, thread: nat): set<nat>
    requires Consistent(s)
  {
    if s.owner == thread && s.error == NO_ERROR && !retain && Held(s.operations, true) != {}
    then Lost(Remains(Next(s, Call.Commit(thread)).trampolines))
    else {}
  }

  function Without(s: State, lost: set<nat>): State { s.(trampolines := s.trampolines - lost) }

  /** Every detoured function goes on outside of the region that its trampoline is in. */
  predicate AllOutside(s: State) {
    forall t :: t in s.trampolines ==> PointsOut(RegionOf(t), s.trampolines[t].remain)
  }

  /** Then nothing is lost. */
  lemma NothingLost(s: State, retain: bool, thread: nat)
    requires Consistent(s) && AllOutside(s)
    ensures LostBy(s, retain, thread) == {}
  {
    hide Consistent, RegionOf, PointsOut;
    ConsistentReady(s);
    NoneLost(Remains(Next(s, Call.Commit(thread)).trampolines));
  }

  /** It stays so as long as no function is detoured that goes on inside the region its trampoline is in. */
  lemma OutsideNext(s: State, c: Call)
    requires Consistent(s) && Allowed(s, c) && AllOutside(s)
    requires c.Attach? && c.thread == s.owner ==> PointsOut(RegionOf(c.met.trampoline), c.met.target + c.met.size)
    ensures AllOutside(Next(s, c))
  {
    hide RegionOf, PointsOut, Consistent, Read, Reachable;
    ConsistentReady(s);
  }

  lemma AttachAllowed(s: State, thread: nat, pointer: nat, detour: nat, m: Surroundings, trampoline: nat)
    requires Consistent(s) && thread != 0 && trampoline !in s.trampolines
    requires Mapped(s.code, m.target, m.size) && m.target + m.size < TWO64 && m.detour < TWO64
    requires trampoline != 0 ==> Reachable(s.code, m.target, trampoline)
    ensures Consistent(Next(s, Call.Attach(thread, pointer, detour, Met(m, trampoline))))
  {
    NextKeeps(s, Call.Attach(thread, pointer, detour, Met(m, trampoline)));
  }

  class Transactions {
    var threadId: nat
    var error: nat
    var failed: nat
    var operations: seq<Operation>
    var ignoreTooSmall: bool
    var retainRegions: bool
    var code: map<nat, byte>
    var pointers: map<nat, nat>
    /** What the trampolines in use hold. */
    var contents: map<nat, Trampoline>
    const heap: Trampolines

    ghost function Model(): State
      reads this
    {
      State(threadId, error, failed, operations, ignoreTooSmall, code, pointers, contents)
    }

    /** The slots in use are the trampolines that are known, and record where their functions go on. */
    ghost predicate SlotsMatch()
      reads this`contents, heap, heap.Repr
    {
      this !in heap.Repr && heap.Valid() && heap.fields == Remains(contents)
    }

    lemma Distinct()
      requires SlotsMatch()
      ensures this !in heap.Repr && heap !in heap.Repr && (heap as object) != this
    {}

    lemma NoNull()
      requires SlotsMatch()
      ensures 0 !in contents
    {
      NoNullTrampoline(heap.regions);
    }

    ghost predicate Valid()
      reads this, heap, heap.Repr
    {
      SlotsMatch() && Consistent(Model())
    }

    constructor (code: map<nat, byte>, pointers: map<nat, nat>)
      ensures Valid() && fresh(heap)
      ensures Model() == State(0, NO_ERROR, 0, [], false, code, pointers, map[]) && !retainRegions
    {
      threadId, error, failed, operations, ignoreTooSmall, retainRegions := 0, NO_ERROR, 0, [], false, false;
      this.code, this.pointers, contents := code, pointers, map[];
      heap := new Trampolines();
    }

    method Begin(thread: nat, protect: nat) returns (result: nat)
      requires Valid() && thread != 0
      modifies `threadId, `operations, `failed, `error
      ensures Valid() && Does(old(Model()), Call.Begin(thread, protect), Model(), result)
    {
      hide SlotsMatch, Consistent;
      Distinct();
      NextKeeps(Model(), Call.Begin(thread, protect));
      if threadId != 0 {
        return ERROR_INVALID_OPERATION;
      }
      threadId := thread;
      operations, failed, error := [], 0, protect;
      return error;
    }

    /** Gives up the trampolines of pending attachments, and all pending operations. */
    method Abort(thread: nat) returns (result: nat)
      requires Valid() && thread != 0
      modifies this, heap`fields, heap.Repr
      ensures Valid() && Does(old(Model()), Call.Abort(thread), Model(), result) && unchanged(heap`regions)
      ensures unchanged(`error)
    {
      hide SlotsMatch, Consistent, Held;
      Distinct();
      NextKeeps(Model(), Call.Abort(thread));
      ConsistentReleasable(Model());
      if threadId != thread {
        return ERROR_INVALID_OPERATION;
      }
      var _ := FreeHeld(false);
      threadId := 0;
      return NO_ERROR;
    }

    /** Writes breakpoints up to the limit. */
    method GenBreak(at: nat, limit: nat)
      requires at <= limit
      modifies `code
      ensures code == Write(old(code), at, Breaks(limit - at))
    {
      hide *;
      WriteNothing(code, at);
      var pb := at;
      while pb < limit
        invariant at <= pb <= limit && code == Write(old(code), at, Breaks(pb - at))
      {
        WriteBreak(old(code), at, pb - at);
        code := code[pb := BREAK];
        pb := pb + 1;
      }
    }

    /** Patches the target: the jump, then breakpoints up to the code that goes on. */
    method PatchTarget(o: Operation, remain: nat)
      requires o.target + SIZE_OF_JMP <= remain
      modifies `code
      ensures code == Write(old(code), o.target, Patch(o.target, remain - o.target, o.trampoline))
    {
      hide Write, Breaks, Le32;
      var jump := [0xe9] + Le32(o.trampoline + RB_CODE_IN - (o.target + SIZE_OF_JMP));
      code := Write(code, o.target, jump);
      GenBreak(o.target + SIZE_OF_JMP, remain);
      WriteTwice(old(code), o.target, jump, Breaks(remain - o.target - SIZE_OF_JMP));
    }

    /** Carries out one operation: the recorded bytes are copied back, or the target is patched. */
    method ApplyOne(o: Operation)
      requires Located(contents, o)
      modifies `code, `pointers
      ensures Model() == Apply(old(Model()), o)
    {
      hide Write, Patch;
      if o.isRemove {
        code := Write(code, o.target, contents[o.trampoline].restore);
        pointers := pointers[o.pointer := o.target];
      } else {
        PatchTarget(o, contents[o.trampoline].remain);
        pointers := pointers[o.pointer := o.trampoline];
      }
    }

    /** The loop that inserts and removes the pending detours. */
    method ApplyPending()
      requires forall o :: o in operations ==> Located(contents, o)
      modifies `code, `pointers
      ensures AllReady(contents, operations) && Model() == ApplyAll(old(Model()), operations)
    {
      AllLocated(contents, operations);
      hide Located, Ready, Apply, ApplyAll;
      var i := 0;
      while i < |operations|
        invariant i <= |operations| && AllReady(contents, operations[i..])
        invariant ApplyAll(Model(), operations[i..]) == ApplyAll(old(Model()), operations)
      {
        ApplyFirst(Model(), operations[i..]);
        ApplyOne(operations[i]);
        i := i + 1;
      }
    }

    /** Carries out the pending operations; after an error it aborts. That is what the state machine does,
        exactly as long as no trampoline is lost. */
    method Commit(thread: nat) returns (result: nat)
      requires Valid() && thread != 0
      modifies this, heap, heap.Repr
      ensures Valid() && result == Answer(old(Model()), Call.Commit(thread))
      ensures Model() == Without(Next(old(Model()), Call.Commit(thread)), LostBy(old(Model()), old(retainRegions), thread))
      ensures Does(old(Model()), Call.Commit(thread), Model(), result) <==> LostBy(old(Model()), old(retainRegions), thread) == {}
    {
      hide SlotsMatch, Consistent, Held, ApplyAll, Lost;
      Distinct();
      NextKeeps(Model(), Call.Commit(thread));
      WithoutExact(Model(), retainRegions, thread);
      if threadId != thread {
        return ERROR_INVALID_OPERATION;
      }
      if error != NO_ERROR {
        result := Abort(thread);
        return error;
      }
      CarryOut();
      return error;
    }

    /** Inserts and removes the detours, and gives back the trampolines of those removed. */
    method CarryOut()
      requires Valid()
      modifies this, heap, heap.Repr
      ensures SlotsMatch() && AllReady(old(contents), old(operations))
      ensures var done := Committed(old(Model()));
              Model() == Without(done, if !old(retainRegions) && Held(old(operations), true) != {} then Lost(Remains(done.trampolines)) else {})
    {
      hide SlotsMatch, Consistent, Held, ApplyAll, Releasable, Located, AllReady, Lost;
      Distinct();
      ConsistentReleasable(Model());
      ConsistentLocated(Model());
      ApplyPending();
      ReleaseRemoved();
      Distinct();
      threadId := 0;
    }

    /** Gives back the trampolines of the removed detours, and with them the regions that do not look used
        any more, unless they are to be retained. */
    method ReleaseRemoved()
      requires SlotsMatch() && Releasable(operations, contents)
      modifies this`operations, this`contents, heap, heap.Repr
      ensures SlotsMatch() && operations == []
      ensures var left := old(contents) - Held(old(operations), true);
              contents == left - (if !old(retainRegions) && Held(old(operations), true) != {} then Lost(Remains(left)) else {})
      ensures old(retainRegions) || Held(old(operations), true) == {} ==> heap.regions == old(heap.regions)
      ensures !old(retainRegions) && Held(old(operations), true) != {} ==> forall r :: r in heap.regions ==> r.Live() != {}
    {
      hide *;
      Distinct();
      var freed := FreeHeld(true);
      if freed && !retainRegions {
        FreeUnused();
      }
    }

    method FreeUnused()
      requires SlotsMatch()
      modifies this`contents, heap
      ensures SlotsMatch() && contents == old(contents) - Lost(Remains(old(contents)))
      ensures heap.regions == Kept(old(heap.regions)) && forall r :: r in heap.regions ==> r.Live() != {}
    {
      hide Trampolines.Valid, Lost;
      heap.FreeUnused();
      forall r | r in heap.regions ensures r.Live() != {} {
        KeptExactly(old(heap.regions), r);
        heap.RegionSlots(r);
      }
      contents := contents - Lost(Remains(contents));
    }

    /** Looks for a trampoline, fills it in and queues the operation; what goes wrong is remembered. The
        trampoline that was found is returned too, also when it is given back again. */
    method Attach(thread: nat, pointer: nat, detour: nat, m: Surroundings) returns (result: nat, trampoline: nat)
      requires Valid() && thread != 0 && Mapped(code, m.target, m.size) && m.target + m.size < TWO64 && m.detour < TWO64
      requires m.newBase == 0 || (IsRegionBase(m.newBase) && forall r :: r in heap.regions ==> r.base != m.newBase)
      modifies this, heap, heap.Repr
      ensures Valid() && Does(old(Model()), Call.Attach(thread, pointer, detour, Met(m, trampoline)), Model(), result)
      ensures trampoline != 0 ==> Reachable(old(code), m.target, trampoline) && trampoline !in old(contents)
    {
      hide SlotsMatch, Consistent, Read, Mapped, Reachable;
      Distinct();
      NoNull();
      trampoline := 0;
      AttachAllowed(Model(), thread, pointer, detour, m, 0);
      if detour == 0 {
        return ERROR_INVALID_PARAMETER, 0;
      }
      if threadId != thread {
        return ERROR_INVALID_OPERATION, 0;
      }
      if error != NO_ERROR {
        return error, 0;
      }
      if pointer == 0 {
        return ERROR_INVALID_HANDLE, 0;
      }
      if pointer !in pointers || pointers[pointer] == 0 {
        error, failed := ERROR_INVALID_HANDLE, pointer;
        return error, 0;
      }
      result, trampoline := AttachTo(pointer, m);
      AttachAllowed(old(Model()), thread, pointer, detour, m, trampoline);
    }

    method AttachTo(pointer: nat, m: Surroundings) returns (result: nat, trampoline: nat)
      requires SlotsMatch() && error == NO_ERROR && m.target < TWO64
      requires m.newBase == 0 || (IsRegionBase(m.newBase) && forall r :: r in heap.regions ==> r.base != m.newBase)
      modifies this, heap, heap.Repr
      ensures SlotsMatch() && (Model(), result) == AttachResolved(old(Model()), pointer, Met(m, trampoline))
      ensures trampoline != 0 ==> Reachable(old(code), m.target, trampoline) && trampoline !in old(contents)
    {
      hide SlotsMatch, Read, IsRegionBase, Bounds, LeadingOf;
      Distinct();
      trampoline := 0;
      if m.detour == m.target {
        failed := pointer;
        return NO_ERROR, 0;
      }
      if !m.memory {
        error, failed := ERROR_NOT_ENOUGH_MEMORY, pointer;
        return error, 0;
      }
      var bounds := Bounds(m.target, LeadingOf(Read(code, m.target, 6)));
      trampoline := AllocTrampoline(bounds.0, bounds.1, m.newBase);
      Distinct();
      if trampoline == 0 {
        error, failed := ERROR_NOT_ENOUGH_MEMORY, pointer;
        return error, 0;
      }
      assert contents - {trampoline} == old(contents);
      result := FillTrampoline(trampoline, pointer, m);
    }

    /** A trampoline of its own for the operation, blank. */
    method AllocTrampoline(lo: nat, hi: nat, newBase: nat) returns (trampoline: nat)
      requires SlotsMatch() && (newBase == 0 || (IsRegionBase(newBase) && forall r :: r in heap.regions ==> r.base != newBase))
      modifies `contents, heap, heap.Repr
      ensures SlotsMatch()
      ensures fresh(heap.Repr - old(heap.Repr))
      ensures trampoline == 0 ==> contents == old(contents)
      ensures trampoline != 0 ==> lo <= trampoline <= hi && trampoline !in old(contents) && contents == old(contents)[trampoline := BLANK]
    {
      hide Trampolines.Valid, IsRegionBase;
      trampoline := heap.Alloc(lo, hi, newBase);
      if trampoline != 0 {
        contents := contents[trampoline := BLANK];
      }
    }

    /** Copies and saves the target's code, and queues the operation; or gives the trampoline back. */
    method FillTrampoline(trampoline: nat, pointer: nat, m: Surroundings) returns (result: nat)
      requires SlotsMatch() && trampoline in contents && contents[trampoline] == BLANK
      modifies this, heap`fields, heap.Repr
      ensures SlotsMatch() && unchanged(heap`regions)
      ensures (Model(), result) == FillResolved(old(Model()).(trampolines := old(contents) - {trampoline}), pointer, Met(m, trampoline))
    {
      hide SlotsMatch, Read;
      Distinct();
      result := NO_ERROR;
      if m.size < SIZE_OF_JMP {
        result := ERROR_INVALID_BLOCK;
      } else if m.size > SIZE_OF_CODE - SIZE_OF_JMP {
        result := ERROR_INVALID_HANDLE;
      } else {
        Record(trampoline, Trampoline(Read(code, m.target, m.size), m.target + m.size, m.detour));
        Distinct();
        result := m.protect;
      }
      if result != NO_ERROR {
        if !(m.size < SIZE_OF_JMP && ignoreTooSmall) {
          error := result;
        }
        failed := pointer;
        Release(trampoline);
        assert contents == old(contents) - {trampoline};
        return;
      }
      assert contents == (old(contents) - {trampoline})[trampoline := contents[trampoline]];
      operations := [Operation(false, pointer, m.target, trampoline)] + operations;
    }

    /** Fills in a trampoline. */
    method Record(trampoline: nat, t: Trampoline)
      requires SlotsMatch() && trampoline in contents
      modifies `contents, heap`fields, heap.Repr
      ensures SlotsMatch() && contents == old(contents)[trampoline := t] && unchanged(heap`regions, heap`Repr)
    {
      hide Trampolines.Valid;
      Distinct();
      heap.SetRemain(trampoline, t.remain);
      contents := contents[trampoline := t];
    }

    /** Queues the removal of the detour that the pointer leads to, if it is the caller's. */
    method Detach(thread: nat, pointer: nat, detour: nat, found: Detachment) returns (result: nat)
      requires Valid() && Allowed(Model(), Call.Detach(thread, pointer, detour, found))
      modifies `error, `failed, `operations
      ensures Valid() && Does(old(Model()), Call.Detach(thread, pointer, detour, found), Model(), result)
    {
      hide SlotsMatch, Consistent, Allowed;
      Distinct();
      NextKeeps(Model(), Call.Detach(thread, pointer, detour, found));
      if threadId != thread {
        return ERROR_INVALID_OPERATION;
      }
      if error != NO_ERROR {
        return error;
      }
      if detour == 0 {
        return ERROR_INVALID_PARAMETER;
      }
      if pointer == 0 {
        return ERROR_INVALID_HANDLE;
      }
      if pointer !in pointers || pointers[pointer] == 0 {
        error, failed := ERROR_INVALID_HANDLE, pointer;
        return error;
      }
      result := DetachFrom(pointer, found);
    }

    method DetachFrom(pointer: nat, found: Detachment) returns (result: nat)
      requires error == NO_ERROR
      modifies `error, `failed, `operations
      ensures (Model(), result) == DetachResolved(old(Model()), pointer, found)
    {
      var t := if found.trampoline in contents then contents[found.trampoline] else CLEARED;
      if !found.memory {
        error, failed := ERROR_NOT_ENOUGH_MEMORY, pointer;
        return error;
      }
      if |t.restore| == 0 || |t.restore| > SIZE_OF_CODE || t.detour != found.detour {
        if !ignoreTooSmall {
          error := ERROR_INVALID_BLOCK;
        }
        failed := pointer;
        return ERROR_INVALID_BLOCK;
      }
      if found.protect != NO_ERROR {
        error, failed := found.protect, pointer;
        return error;
      }
      operations := [Operation(true, pointer, Wrap64(t.remain - |t.restore|), found.trampoline)] + operations;
      return NO_ERROR;
    }

    /** The loop over the pending operations that ends a transaction: the trampolines of attachments, or
        those of removals, go back to their regions. */
    method FreeHeld(isRemove: bool) returns (freed: bool)
      requires SlotsMatch() && Releasable(operations, contents)
      modifies this`operations, this`contents, heap`fields, heap.Repr
      ensures SlotsMatch() && unchanged(heap`regions, heap`Repr)
      ensures operations == [] && contents == old(contents) - Held(old(operations), isRemove)
      ensures freed <==> Held(old(operations), isRemove) != {}
    {
      hide *;
      Distinct();
      HeldNone(isRemove);
      freed := false;
      ghost var kept, held := contents - Held(operations, isRemove), Held(operations, isRemove);
      while operations != []
        invariant SlotsMatch() && unchanged(heap`regions, heap`Repr) && Releasable(operations, contents)
        invariant contents - Held(operations, isRemove) == kept
        invariant freed || Held(operations, isRemove) != {} <==> held != {}
        decreases |operations|
      {
        ReleaseOne(operations, contents, isRemove);
        if operations[0].isRemove == isRemove {
          Release(operations[0].trampoline);
          freed := true;
        }
        operations := operations[1..];
      }
    }

    method Release(trampoline: nat)
      requires SlotsMatch() && trampoline in contents
      modifies this`contents, heap`fields, heap.Repr
      ensures SlotsMatch() && contents == old(contents) - {trampoline} && unchanged(heap`regions, heap`Repr)
    {
      hide Trampolines.Valid, Releasable, Consistent;
      Distinct();
      heap.Free(trampoline);
      contents := contents - {trampoline};
    }
  }

  /** Taking trampolines away leaves the state as it was exactly when there are none to take. */
  lemma WithoutExact(s: State, retain: bool, thread: nat)
    requires Consistent(s)
    ensures var r, lost := Next(s, Call.Commit(thread)), LostBy(s, retain, thread);
            (Without(r, lost) == r <==> lost == {}) && (Consistent(r) ==> r.owner == 0 ==> Consistent(Without(r, lost)))
  {
    hide Keeps, Next;
    var r, lost := Next(s, Call.Commit(thread)), LostBy(s, retain, thread);
    if lost == {} {
      assert r.trampolines - lost == r.trampolines;
    } else {
      var t :| t in lost;
      assert t in r.trampolines && t !in Without(r, lost).trampolines;
    }
  }

  /** Every operation holds a trampoline of its own. */
  predicate Releasable(operations: seq<Operation>, contents: map<nat, Trampoline>) {
    && (forall i :: 0 <= i < |operations| ==> operations[i].trampoline in contents)
    && (forall i, j :: 0 <= i < j < |operations| ==> operations[i].trampoline != operations[j].trampoline)
  }

  lemma ConsistentReleasable(s: State)
    requires Consistent(s)
    ensures Releasable(s.operations, s.trampolines)
  {
    forall i | 0 <= i < |s.operations| ensures s.operations[i].trampoline in s.trampolines {
      assert Faithful(s, s.operations[i]);
    }
  }

  lemma HeldNone(isRemove: bool)
    ensures Held([], isRemove) == {}
  {}

  lemma ReleaseOne(operations: seq<Operation>, contents: map<nat, Trampoline>, isRemove: bool)
    requires operations != [] && Releasable(operations, contents)
    ensures var t, rest := operations[0].trampoline, operations[1..];
            && t in contents && Releasable(rest, contents) && Releasable(rest, contents - {t})
            && if operations[0].isRemove == isRemove
               then contents - {t} - Held(rest, isRemove) == contents - Held(operations, isRemove) && t in Held(operations, isRemove)
               else Held(rest, isRemove) == Held(operations, isRemove)
  {
    HeldPush(operations[0], operations[1..], isRemove);
    assert operations == [operations[0]] + operations[1..];
  }

  lemma WriteTwice(code: map<nat, byte>, a: nat, s: seq<byte>, t: seq<byte>)
    ensures Write(Write(code, a, s), a + |s|, t) == Write(code, a, s + t)
  {}

  lemma WriteNothing(code: map<nat, byte>, a: nat)
    ensures code == Write(code, a, Breaks(0))
  {}

  lemma WriteBreak(code: map<nat, byte>, a: nat, n: nat)
    ensures Write(code, a, Breaks(n))[a + n := BREAK] == Write(code, a, Breaks(n + 1))
  {}

  /** The operation is about the bytes right before the code that goes on. */
  predicate Located(contents: map<nat, Trampoline>, o: Operation) {
    Ready(contents, o) && o.target + |contents[o.trampoline].restore| == contents[o.trampoline].remain
  }

  lemma ConsistentLocated(s: State)
    requires Consistent(s)
    ensures forall o :: o in s.operations ==> Located(s.trampolines, o)
  {
    forall o | o in s.operations ensures Located(s.trampolines, o) {
      assert Faithful(s, o);
    }
  }

  lemma AllLocated(contents: map<nat, Trampoline>, operations: seq<Operation>)
    requires forall o :: o in operations ==> Located(contents, o)
    ensures AllReady(contents, operations)
  {
    forall i | 0 <= i < |operations| ensures Ready(contents, operations[i]) {
      assert Located(contents, operations[i]);
    }
  }

  lemma ApplyFirst(s: State, operations: seq<Operation>)
    requires operations != [] && AllReady(s.trampolines, operations)
    ensures AllReady(s.trampolines, operations[1..])
    ensures ApplyAll(s, operations) == ApplyAll(Apply(s, operations[0]), operations[1..])
  {}

  // ------------------------------------------------------------------ a detour of a trampoline

  /** Two slots of one region, and code outside of it. */
  const FIRST := 0x7000_0120
  const SECOND := 0x7000_0180
  const FUNCTION := 0x7100_0000
  /** The second detour is of the code that the first one moved: a caller attached to a copy of the pointer. */
  const OF_FIRST := Detour(0x5008, FIRST, Breaks(5), SECOND, 0x7200_0000)

  /** Both detours are in place, and the removal of the first is pending. */
  function TwoDetours(): State {
    State(1, NO_ERROR, 0, [Operation(true, 0x5000, FUNCTION, FIRST)], false,
          Write(map[], FIRST, Patch(FIRST, 5, SECOND)), map[0x5000 := FIRST, 0x5008 := SECOND],
          map[FIRST := Trampoline(Breaks(5), FUNCTION + 5, 0x7200_0000), SECOND := Trampoline(Breaks(5), FIRST + 5, 0x7200_0000)])
  }

  lemma TwoDetoursInPlace()
    ensures Consistent(TwoDetours()) && Installed(TwoDetours(), OF_FIRST)
  {
    hide Patch;
    var s := TwoDetours();
    forall k | FIRST <= k < FIRST + 5 ensures k in s.code && s.code[k] == Patch(FIRST, 5, SECOND)[k - FIRST] {
      assert Covers(FIRST, 5, k);
    }
  }

  lemma RegionOfBoth()
    ensures RegionOf(FIRST) == RegionOf(SECOND) == 0x7000_0000 && !PointsOut(0x7000_0000, FIRST + 5)
    ensures FIRST == SlotAddress(0x7000_0000, 2) && SECOND == SlotAddress(0x7000_0000, 3)
  {}

  lemma LostAlone()
    ensures Lost(map[SECOND := FIRST + 5]) == {SECOND}
  {
    RegionOfBoth();
    hide RegionOf, PointsOut;
  }

  lemma CommitLeaves(s: State, thread: nat)
    requires Consistent(s) && s.owner == thread && s.error == NO_ERROR
    ensures Next(s, Call.Commit(thread)).trampolines == s.trampolines - Held(s.operations, true)
  {
    hide Consistent, Held, Next, Effected, Untouched;
    CommitDoesAll(s, thread);
  }

  lemma OneLeft()
    ensures Remains(TwoDetours().trampolines - {FIRST}) == map[SECOND := FIRST + 5]
  {
    hide Patch, Write, Breaks;
  }

  lemma RemovedFirst()
    requires Consistent(TwoDetours())
    ensures Held(TwoDetours().operations, true) == {FIRST}
    ensures Remains(Next(TwoDetours(), Call.Commit(1)).trampolines) == map[SECOND := FIRST + 5]
  {
    hide Consistent, Held, Next, Remains, Patch, Write, Breaks;
    HeldOne(TwoDetours());
    CommitLeaves(TwoDetours(), 1);
    OneLeft();
  }

  lemma HeldOne(s: State)
    requires s.operations == [Operation(true, 0x5000, FUNCTION, FIRST)]
    ensures Held(s.operations, true) == {FIRST}
  {
    HeldPush(s.operations[0], [], true);
    HeldNone(true);
  }

  /** Once the first is gone, no trampoline of the region is for a function outside of it, and the region is
      released while the second detour is in place. */
  lemma SecondDetourIsLost()
    ensures Consistent(TwoDetours()) && Installed(TwoDetours(), OF_FIRST)
    ensures OF_FIRST.trampoline in Next(TwoDetours(), Call.Commit(1)).trampolines
    ensures LostBy(TwoDetours(), false, 1) == {OF_FIRST.trampoline}
  {
    TwoDetoursInPlace();
    RemovedFirst();
    LostAlone();
    hide Consistent, Installed, Lost, Next;
    assert SECOND in Remains(Next(TwoDetours(), Call.Commit(1)).trampolines);
  }
}
