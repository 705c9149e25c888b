/** Where a suspended thread goes on when the code it stands in is moved: the table of instruction offsets
    that attaching records has three bits for an offset in the target and five for one in the trampoline. */
module ThreadFixup {
  import opened X64Jumps

  const ENTRIES := 8

  /** An instruction: its size, its size once moved, and whether it ends the function. */
  datatype Instruction = Instruction(size: nat, moved: nat, ends: bool)

  /** An entry of the table. */
  datatype Align = Align(obTarget: nat, obTrampoline: nat)

  const BLANK := Align(0, 0)

  /** What is stored of a pair of offsets. */
  function Stored(target: nat, trampoline: nat): Align { Align(target % 8, trampoline % 32) }

  /** Moving makes an instruction of two bytes or more longer by at most four bytes. */
  predicate IsInstruction(i: Instruction) {
    1 <= i.size && i.size <= i.moved <= i.size + 4 && (i.size == 1 ==> i.moved == 1)
  }

  predicate AreInstructions(code: seq<Instruction>) { forall i :: 0 <= i < |code| ==> IsInstruction(code[i]) }

  /** The offset of instruction number `k` in the target. */
  function From(code: seq<Instruction>, k: nat): nat
    requires k <= |code|
  {
    if k == 0 then 0 else From(code, k - 1) + code[k - 1].size
  }

  /** The offset of instruction number `k` in the trampoline. */
  function To(code: seq<Instruction>, k: nat): nat
    requires k <= |code|
  {
    if k == 0 then 0 else To(code, k - 1) + code[k - 1].moved
  }

  lemma {:induction false} Increasing(code: seq<Instruction>, j: nat, k: nat)
    requires AreInstructions(code) && j <= k <= |code|
    ensures From(code, j) + (k - j) <= From(code, k) && To(code, j) <= To(code, k)
    decreases k
  {
    if j < k {
      Increasing(code, j, k - 1);
      assert IsInstruction(code[k - 1]);
    }
  }

  /** Moved code is at most three times as long. */
  lemma {:induction false} Growth(code: seq<Instruction>, k: nat)
    requires AreInstructions(code) && k <= |code|
    ensures From(code, k) <= To(code, k) <= 3 * From(code, k)
  {
    if k > 0 {
      Growth(code, k - 1);
      assert IsInstruction(code[k - 1]);
    }
  }

  /** Copying goes on at instruction `k`. */
  predicate GoesOn(code: seq<Instruction>, k: nat)
    requires k <= |code|
  {
    From(code, k) < SIZE_OF_JMP && k < ENTRIES && (k > 0 ==> !code[k - 1].ends)
  }

  /** `n` instructions are copied. */
  predicate Copied(code: seq<Instruction>, n: nat) {
    n <= |code| && n <= ENTRIES && !GoesOn(code, n) && forall k :: 0 <= k < n ==> GoesOn(code, k)
  }

  /** The table after `n` instructions. */
  function Table(code: seq<Instruction>, n: nat): (t: seq<Align>)
    requires n <= |code| && n <= ENTRIES
    ensures |t| == ENTRIES
  {
    seq(ENTRIES, i requires 0 <= i < ENTRIES => if i < n then Stored(From(code, i + 1), To(code, i + 1)) else BLANK)
  }

  /** The copying loop: it moves instructions until there is room for the jump, and records where each ends. */
  method RecordAlign(code: seq<Instruction>, rAlign: array<Align>) returns (n: nat, cbTarget: nat, cbCode: nat)
    requires AreInstructions(code) && |code| >= SIZE_OF_JMP && rAlign.Length == ENTRIES
    modifies rAlign
    ensures Copied(code, n) && n <= SIZE_OF_JMP && cbTarget == From(code, n) && cbCode == To(code, n)
    ensures rAlign[..] == Table(code, n)
  {
    var i := 0;
    while i < ENTRIES
      invariant i <= ENTRIES && forall j :: 0 <= j < i ==> rAlign[j] == BLANK
    {
      rAlign[i] := BLANK;
      i := i + 1;
    }
    n, cbTarget, cbCode := 0, 0, 0;
    while cbTarget < SIZE_OF_JMP
      invariant n <= SIZE_OF_JMP && cbTarget == From(code, n) && cbCode == To(code, n) && n <= cbTarget
      invariant forall k :: 0 <= k < n ==> GoesOn(code, k)
      invariant n > 0 ==> !code[n - 1].ends
      invariant forall j :: 0 <= j < ENTRIES ==> rAlign[j] == if j < n then Stored(From(code, j + 1), To(code, j + 1)) else BLANK
      decreases SIZE_OF_JMP - cbTarget
    {
      assert IsInstruction(code[n]);
      cbTarget, cbCode := cbTarget + code[n].size, cbCode + code[n].moved;
      rAlign[n] := Stored(cbTarget, cbCode);
      n := n + 1;
      if n >= ENTRIES || code[n - 1].ends {
        break;
      }
    }
  }

  /** The number of the first entry for an offset in the target, the number of entries when there is none. */
  function FirstEntry(t: seq<Align>, ob: nat): (i: nat)
    ensures i <= |t| && (i < |t| ==> t[i].obTarget == ob) && forall j :: 0 <= j < i ==> t[j].obTarget != ob
  {
    if t == [] || t[0].obTarget == ob then 0 else 1 + FirstEntry(t[1..], ob)
  }

  /** The offset in the trampoline for one in the target. */
  function AlignFromTarget(t: seq<Align>, ob: nat): nat {
    var i := FirstEntry(t, ob);
    if i < |t| then t[i].obTrampoline else 0
  }

  method DetourAlignFromTarget(rAlign: array<Align>, ob: nat) returns (r: nat)
    ensures r == AlignFromTarget(rAlign[..], ob)
  {
    var n := 0;
    while n < rAlign.Length
      invariant n <= rAlign.Length && FirstEntry(rAlign[..], ob) == n + FirstEntry(rAlign[n..], ob)
    {
      assert rAlign[n..][1..] == rAlign[n + 1..];
      if rAlign[n].obTarget == ob {
        return rAlign[n].obTrampoline;
      }
      n := n + 1;
    }
    return 0;
  }

  // ------------------------------------------------------------------ a thread at an instruction

  lemma EntryIs(t: seq<Align>, ob: nat, i: nat)
    requires i < |t| && t[i].obTarget == ob && forall j :: 0 <= j < i ==> t[j].obTarget != ob
    ensures FirstEntry(t, ob) == i
  {}

  lemma FewCopied(code: seq<Instruction>, n: nat)
    requires AreInstructions(code) && Copied(code, n)
    ensures n <= SIZE_OF_JMP && forall k :: 0 <= k < n ==> From(code, k) < SIZE_OF_JMP
  {
    forall k | 0 <= k < n ensures From(code, k) < SIZE_OF_JMP {
      assert GoesOn(code, k);
    }
    if n > 0 {
      Increasing(code, 0, n - 1);
    }
  }

  /** A thread at the start of a copied instruction other than the first, or in the filler right behind the
      last, goes on at the start of the moved one: no bits are lost. */
  lemma LaterInstruction(code: seq<Instruction>, n: nat, k: nat)
    requires AreInstructions(code) && Copied(code, n) && 0 < k <= n && From(code, k) < SIZE_OF_JMP
    ensures AlignFromTarget(Table(code, n), From(code, k)) == To(code, k)
  {
    FewCopied(code, n);
    EntryKept(code, n, k - 1);
    forall j | 0 <= j < k - 1 ensures Table(code, n)[j].obTarget != From(code, k) {
      Increasing(code, j + 1, k);
      EntryKept(code, n, j);
    }
    hide Table;
    EntryIs(Table(code, n), From(code, k), k - 1);
  }

  /** An entry for an offset below the size of the jump keeps all bits. */
  lemma EntryKept(code: seq<Instruction>, n: nat, j: nat)
    requires AreInstructions(code) && n <= |code| && n <= ENTRIES && j < n && From(code, j + 1) < SIZE_OF_JMP
    ensures Table(code, n)[j] == Align(From(code, j + 1), To(code, j + 1))
  {
    Growth(code, j + 1);
  }

  /** A thread at the very start goes on at the start of the trampoline exactly when the offset of the end
      of the copied instructions is not taken for zero, or its entry says zero too. */
  lemma FirstInstruction(code: seq<Instruction>, n: nat)
    requires AreInstructions(code) && Copied(code, n)
    ensures AlignFromTarget(Table(code, n), 0) == 0 <==> From(code, n) % 8 != 0 || To(code, n) % 32 == 0
  {
    hide GoesOn;
    FewCopied(code, n);
    var t := Table(code, n);
    NotEmpty(code, n);
    forall j | 0 <= j < n - 1 ensures t[j].obTarget != 0 {
      Increasing(code, 0, j + 1);
      assert From(code, j + 1) < SIZE_OF_JMP;
    }
    EntryIs(t, 0, if From(code, n) % 8 == 0 then n - 1 else n);
  }

  lemma NotEmpty(code: seq<Instruction>, n: nat)
    requires Copied(code, n)
    ensures n > 0
  {
    assert From(code, 0) == 0;
  }

  /** The other case occurs: for an instruction of one byte and one of seven, a thread at the start would
      go on behind the moved instructions. */
  lemma FirstInstructionMayBeLost()
    ensures var code := [Instruction(1, 1, false), Instruction(7, 7, false)];
            AreInstructions(code) && Copied(code, 2) && AlignFromTarget(Table(code, 2), 0) == 8
  {
    var code := [Instruction(1, 1, false), Instruction(7, 7, false)];
    assert From(code, 0) == 0 && From(code, 1) == 1 && From(code, 2) == 8 && To(code, 1) == 1 && To(code, 2) == 8;
    assert GoesOn(code, 0) && GoesOn(code, 1);
    EntryIs(Table(code, 2), 0, 1);
  }

  // ------------------------------------------------------------------ moving the thread

  /** The fix-up of one attachment on one thread. */
  function Moved(eip: nat, target: nat, trampoline: nat, cbRestore: nat, t: seq<Align>): nat {
    if target <= eip < target + cbRestore then trampoline + AlignFromTarget(t, eip - target) else eip
  }

  lemma BelowJump(code: seq<Instruction>, n: nat, k: nat)
    requires AreInstructions(code) && Copied(code, n) && k < n
    ensures From(code, k) < SIZE_OF_JMP && From(code, k) < From(code, n)
  {
    assert GoesOn(code, k);
    Increasing(code, k, n);
  }

  /** A thread at an instruction inside of the bytes that are overwritten goes on at the same instruction in
      the trampoline; any other thread stays where it is. */
  lemma ThreadGoesOn(code: seq<Instruction>, n: nat, k: nat, target: nat, trampoline: nat, cbRestore: nat)
    requires AreInstructions(code) && Copied(code, n) && k <= n && cbRestore >= From(code, n)
    requires k == n ==> From(code, n) < SIZE_OF_JMP && From(code, n) < cbRestore
    requires k == 0 ==> From(code, n) % 8 != 0 || To(code, n) % 32 == 0
    ensures Moved(target + From(code, k), target, trampoline, cbRestore, Table(code, n)) == trampoline + To(code, k)
    ensures forall eip: nat :: eip < target || target + cbRestore <= eip ==> Moved(eip, target, trampoline, cbRestore, Table(code, n)) == eip
  {
    hide Table, AlignFromTarget, GoesOn, AreInstructions;
    Increasing(code, k, n);
    if k < n {
      BelowJump(code, n, k);
    }
    NotEmpty(code, n);
    if k == 0 {
      FirstInstruction(code, n);
    } else {
      LaterInstruction(code, n, k);
    }
  }

  // ------------------------------------------------------------------ all pending operations

  /** A pending operation as the fix-up sees it, with the table of its trampoline. */
  datatype Pending = Pending(isRemove: bool, target: nat, trampoline: nat, cbRestore: nat, table: seq<Align>)

  /** A removal looks at the first bytes of the trampoline only, as many as a pointer has. */
  const POINTER_SIZE := 8

  /** The number of the first entry for an offset in the trampoline, the number of entries when there is none. */
  function FirstBack(t: seq<Align>, ob: nat): (i: nat)
    ensures i <= |t| && (i < |t| ==> t[i].obTrampoline == ob) && forall j :: 0 <= j < i ==> t[j].obTrampoline != ob
  {
    if t == [] || t[0].obTrampoline == ob then 0 else 1 + FirstBack(t[1..], ob)
  }

  function AlignFromTrampoline(t: seq<Align>, ob: nat): nat {
    var i := FirstBack(t, ob);
    if i < |t| then t[i].obTarget else 0
  }

  /** The address is in none of the bytes that the operation sends threads away from. */
  predicate Misses(p: Pending, eip: nat) {
    if p.isRemove then !(p.trampoline <= eip < p.trampoline + POINTER_SIZE) else !(p.target <= eip < p.target + p.cbRestore)
  }

  function MovedBy(eip: nat, p: Pending): nat {
    if Misses(p, eip) then eip
    else if p.isRemove then p.target + AlignFromTrampoline(p.table, eip - p.trampoline)
    else Moved(eip, p.target, p.trampoline, p.cbRestore, p.table)
  }

  lemma EntryBack(t: seq<Align>, ob: nat, i: nat)
    requires i < |t| && t[i].obTrampoline == ob && forall j :: 0 <= j < i ==> t[j].obTrampoline != ob
    ensures FirstBack(t, ob) == i
  {}

  /** When a detour is removed, a thread at a moved instruction other than the first comes back to the
      original one, provided that it is within the bytes that are looked at; from there on it is left in the
      trampoline that is given up. */
  lemma ThreadComesBack(p: Pending, code: seq<Instruction>, n: nat, k: nat)
    requires p.isRemove && AreInstructions(code) && Copied(code, n) && 0 < k <= n && p.table == Table(code, n)
    ensures MovedBy(p.trampoline + To(code, k), p) == if To(code, k) < 8 then p.target + From(code, k) else p.trampoline + To(code, k)
  {
    if To(code, k) < 8 {
      EntryOfMoved(code, n, k);
      assert !Misses(p, p.trampoline + To(code, k));
    }
    hide Table, Copied, AreInstructions, To, From, FirstBack;
  }

  lemma EntryOfMoved(code: seq<Instruction>, n: nat, k: nat)
    requires AreInstructions(code) && Copied(code, n) && 0 < k <= n && To(code, k) < 8
    ensures AlignFromTrampoline(Table(code, n), To(code, k)) == From(code, k)
  {
    hide Table, GoesOn, AreInstructions, To, From, FirstBack;
    LowEntry(code, n, k - 1);
    forall j | 0 <= j < k - 1
      ensures Table(code, n)[j].obTrampoline != To(code, k)
    {
      MovedGrows(code, j + 1, k);
      LowEntry(code, n, j);
    }
    EntryBack(Table(code, n), To(code, k), k - 1);
  }

  lemma LowEntry(code: seq<Instruction>, n: nat, j: nat)
    requires AreInstructions(code) && n <= |code| && n <= ENTRIES && j < n && To(code, j + 1) < 8
    ensures Table(code, n)[j] == Align(From(code, j + 1), To(code, j + 1))
  {
    Growth(code, j + 1);
  }

  lemma {:induction false} MovedGrows(code: seq<Instruction>, j: nat, k: nat)
    requires AreInstructions(code) && j < k <= |code|
    ensures To(code, j) < To(code, k)
    decreases k
  {
    assert IsInstruction(code[k - 1]);
    if j < k - 1 {
      MovedGrows(code, j, k - 1);
    }
  }

  /** The operations one after the other, each on what the one before has made of the address. */
  function MovedByAll(eip: nat, ops: seq<Pending>): nat
    decreases |ops|
  {
    if ops == [] then eip else MovedByAll(MovedBy(eip, ops[0]), ops[1..])
  }

  lemma {:induction false} AllMiss(eip: nat, ops: seq<Pending>)
    requires forall i :: 0 <= i < |ops| ==> Misses(ops[i], eip)
    ensures MovedByAll(eip, ops) == eip
    decreases |ops|
  {
    hide Misses;
    if ops != [] {
      assert Misses(ops[0], eip);
      AllMiss(eip, ops[1..]);
    }
  }

  lemma {:induction false} MovedByParts(eip: nat, a: seq<Pending>, b: seq<Pending>)
    ensures MovedByAll(eip, a + b) == MovedByAll(MovedByAll(eip, a), b)
    decreases |a|
  {
    hide MovedBy;
    if a == [] {
      assert a + b == b;
    } else {
      assert (a + b)[1..] == a[1..] + b;
      MovedByParts(MovedBy(eip, a[0]), a[1..], b);
    }
  }

  /** With any operations pending, a thread at an instruction inside of the bytes that one of them overwrites
      goes on at the same instruction in its trampoline, as long as none before it has to do with where the
      thread is, and none behind it with where it goes. */
  lemma ThreadGoesOnPending(ops: seq<Pending>, i: nat, code: seq<Instruction>, n: nat, k: nat)
    requires i < |ops| && !ops[i].isRemove && AreInstructions(code) && Copied(code, n) && k < n
    requires ops[i].table == Table(code, n) && ops[i].cbRestore >= From(code, n)
    requires k == 0 ==> From(code, n) % 8 != 0 || To(code, n) % 32 == 0
    requires forall j :: 0 <= j < i ==> Misses(ops[j], ops[i].target + From(code, k))
    requires forall j :: i < j < |ops| ==> Misses(ops[j], ops[i].trampoline + To(code, k))
    ensures MovedByAll(ops[i].target + From(code, k), ops) == ops[i].trampoline + To(code, k)
  {
    hide Table, AlignFromTarget, AlignFromTrampoline, GoesOn, AreInstructions, From, To, MovedByAll;
    var p, eip := ops[i], ops[i].target + From(code, k);
    ThreadGoesOn(code, n, k, p.target, p.trampoline, p.cbRestore);
    BelowJump(code, n, k);
    assert MovedBy(eip, p) == p.trampoline + To(code, k);
    hide MovedBy, Moved, Misses;
    OneMoves(ops, i, eip, p.trampoline + To(code, k));
  }

  /** One operation moves the thread, and the others let it be. */
  lemma OneMoves(ops: seq<Pending>, i: nat, eip: nat, to: nat)
    requires i < |ops| && MovedBy(eip, ops[i]) == to
    requires (forall j :: 0 <= j < i ==> Misses(ops[j], eip)) && (forall j :: i < j < |ops| ==> Misses(ops[j], to))
    ensures MovedByAll(eip, ops) == to
  {
    hide MovedBy, Misses;
    AllMiss(eip, ops[..i]);
    AllMiss(to, ops[i + 1..]);
    assert ops[i..][1..] == ops[i + 1..];
    MovedByParts(eip, ops[..i], ops[i..]);
    assert ops[..i] + ops[i..] == ops;
  }

  method DetourAlignFromTrampoline(rAlign: seq<Align>, ob: nat) returns (r: nat)
    ensures r == AlignFromTrampoline(rAlign, ob)
  {
    var n := 0;
    while n < |rAlign|
      invariant n <= |rAlign| && FirstBack(rAlign, ob) == n + FirstBack(rAlign[n..], ob)
    {
      assert rAlign[n..][1..] == rAlign[n + 1..];
      if rAlign[n].obTrampoline == ob {
        return rAlign[n].obTarget;
      }
      n := n + 1;
    }
    return 0;
  }

  /** The loop over the pending operations for one suspended thread. */
  method UpdateThread(eip: nat, ops: seq<Pending>) returns (r: nat)
    ensures r == MovedByAll(eip, ops)
  {
    hide AlignFromTarget, AlignFromTrampoline;
    r := eip;
    var i := 0;
    while i < |ops|
      invariant i <= |ops| && MovedByAll(r, ops[i..]) == MovedByAll(eip, ops)
    {
      assert ops[i..][1..] == ops[i + 1..];
      var o := ops[i];
      if o.isRemove {
        if o.trampoline <= r < o.trampoline + POINTER_SIZE {
          var ob := DetourAlignFromTrampoline(o.table, r - o.trampoline);
          r := o.target + ob;
        }
      } else if o.target <= r < o.target + o.cbRestore {
        r := o.trampoline + AlignFromTarget(o.table, r - o.target);
      }
      i := i + 1;
    }
  }
}
