/** What committing does to code and pointers, and that detaching undoes attaching whatever happens in
    between. */
module TransactionUndo {
  import opened MachineWords
  import opened X64Jumps
  import opened JumpReach
  import opened TransactionModel
  import opened TransactionSafety

  predicate Apart(a: int, n: nat, b: int, m: nat) { a + n <= b || b + m <= a }

  function Length(s: State, o: Operation): nat
    requires Ready(s.trampolines, o)
  {
    |s.trampolines[o.trampoline].restore|
  }

  /** Where an operation makes the caller's pointer point. */
  function Pointed(o: Operation): nat { if o.isRemove then o.target else o.trampoline }

  // ------------------------------------------------------------------ carrying out operations one by one

  lemma WriteAt(code: map<nat, byte>, a: nat, bytes: seq<byte>, k: nat)
    ensures Covers(a, |bytes|, k) ==> k in Write(code, a, bytes) && Write(code, a, bytes)[k] == bytes[k - a]
    ensures !Covers(a, |bytes|, k) ==> (k in Write(code, a, bytes) <==> k in code) && (k in code ==> Write(code, a, bytes)[k] == code[k])
  {}

  lemma {:induction false} ApplyAllMissesCode(s: State, operations: seq<Operation>, k: nat)
    requires AllReady(s.trampolines, operations)
    requires forall o :: o in operations && Ready(s.trampolines, o) ==> !Covers(o.target, Length(s, o), k)
    ensures k in ApplyAll(s, operations).code <==> k in s.code
    ensures k in s.code ==> ApplyAll(s, operations).code[k] == s.code[k]
    decreases |operations|
  {
    hide Write, Bytes;
    if operations != [] {
      var o := operations[0];
      assert o in operations;
      WriteAt(s.code, o.target, Bytes(s.trampolines, o), k);
      ApplyAllMissesCode(Apply(s, o), operations[1..], k);
    }
  }

  lemma {:induction false} ApplyAllMissesPointer(s: State, operations: seq<Operation>, p: nat)
    requires AllReady(s.trampolines, operations)
    requires forall o :: o in operations ==> o.pointer != p
    ensures p in ApplyAll(s, operations).pointers <==> p in s.pointers
    ensures p in s.pointers ==> ApplyAll(s, operations).pointers[p] == s.pointers[p]
    decreases |operations|
  {
    hide Write, Bytes, Ready;
    if operations != [] {
      assert operations[0] in operations;
      ApplyAllMissesPointer(Apply(s, operations[0]), operations[1..], p);
    }
  }

  /** The last operation of the list that is about a byte decides about it. */
  lemma {:induction false} ApplyAllHitsCode(s: State, operations: seq<Operation>, i: nat, k: nat)
    requires AllReady(s.trampolines, operations) && i < |operations|
    requires Covers(operations[i].target, Length(s, operations[i]), k)
    requires forall j :: i < j < |operations| ==> !Covers(operations[j].target, Length(s, operations[j]), k)
    ensures k in ApplyAll(s, operations).code
    ensures ApplyAll(s, operations).code[k] == Bytes(s.trampolines, operations[i])[k - operations[i].target]
    decreases |operations|
  {
    hide Write, Bytes;
    var o := operations[0];
    WriteAt(s.code, o.target, Bytes(s.trampolines, o), k);
    if i == 0 {
      ApplyAllMissesCode(Apply(s, o), operations[1..], k);
    } else {
      ApplyAllHitsCode(Apply(s, o), operations[1..], i - 1, k);
    }
  }

  lemma {:induction false} ApplyAllHitsPointer(s: State, operations: seq<Operation>, i: nat)
    requires AllReady(s.trampolines, operations) && i < |operations|
    requires forall j :: i < j < |operations| ==> operations[j].pointer != operations[i].pointer
    ensures var p := operations[i].pointer;
            p in ApplyAll(s, operations).pointers && ApplyAll(s, operations).pointers[p] == Pointed(operations[i])
    decreases |operations|
  {
    hide Write, Bytes, Ready;
    if i == 0 {
      ApplyAllMissesPointer(Apply(s, operations[0]), operations[1..], operations[0].pointer);
    } else {
      ApplyAllHitsPointer(Apply(s, operations[0]), operations[1..], i - 1);
    }
  }

  // ------------------------------------------------------------------ committing

  predicate OpsApart(s: State, o: Operation, p: Operation) {
    && Ready(s.trampolines, o) && Ready(s.trampolines, p)
    && o.pointer != p.pointer && Apart(o.target, Length(s, o), p.target, Length(s, p))
  }

  /** Operation number `i` is the last one about byte `k`. */
  predicate LastAbout(s: State, i: nat, k: nat)
    requires AllReady(s.trampolines, s.operations) && i < |s.operations|
  {
    && Covers(s.operations[i].target, Length(s, s.operations[i]), k)
    && forall j :: i < j < |s.operations| ==> !Covers(s.operations[j].target, Length(s, s.operations[j]), k)
  }

  /** The byte and the pointers after a commit: what the last operation about them makes of them. */
  ghost predicate Effected(s: State, r: State, i: nat)
    requires AllReady(s.trampolines, s.operations) && i < |s.operations|
  {
    var o := s.operations[i];
    && (forall k: nat :: LastAbout(s, i, k) ==> k in r.code && r.code[k] == Bytes(s.trampolines, o)[k - o.target])
    && ((forall j :: i < j < |s.operations| ==> s.operations[j].pointer != o.pointer) ==>
          o.pointer in r.pointers && r.pointers[o.pointer] == Pointed(o))
  }

  predicate Untouched(s: State, k: nat) {
    forall o :: o in s.operations && Ready(s.trampolines, o) ==> !Covers(o.target, Length(s, o), k)
  }

  /** A commit without error carries out every pending operation, where they overlap in the order of the
      list, the latest queued first; it gives up the trampolines of the removed detours, and touches no
      other code and no other pointer. */
  lemma CommitDoesAll(s: State, thread: nat)
    requires Consistent(s) && s.owner == thread && s.error == NO_ERROR
    ensures var r := Next(s, Commit(thread));
            && AllReady(s.trampolines, s.operations)
            && (forall i :: 0 <= i < |s.operations| ==> Effected(s, r, i))
            && (forall k :: Untouched(s, k) ==> (k in r.code <==> k in s.code) && (k in s.code ==> r.code[k] == s.code[k]))
            && (forall p :: (forall o :: o in s.operations ==> o.pointer != p) ==>
                  (p in r.pointers <==> p in s.pointers) && (p in s.pointers ==> r.pointers[p] == s.pointers[p]))
            && r.trampolines == s.trampolines - Held(s.operations, true) && r.operations == [] && r.owner == 0
  {
    ConsistentReady(s);
    var r := Next(s, Commit(thread));
    hide Bytes, Held, Ready, Consistent, Effected;
    forall i | 0 <= i < |s.operations|
      ensures Effected(s, r, i)
    {
      EffectedBy(s, i);
    }
    forall k | Untouched(s, k)
      ensures (k in r.code <==> k in s.code) && (k in s.code ==> r.code[k] == s.code[k])
    {
      ApplyAllMissesCode(s, s.operations, k);
    }
    forall p | forall o :: o in s.operations ==> o.pointer != p
      ensures (p in r.pointers <==> p in s.pointers) && (p in s.pointers ==> r.pointers[p] == s.pointers[p])
    {
      ApplyAllMissesPointer(s, s.operations, p);
    }
  }

  lemma EffectedBy(s: State, i: nat)
    requires AllReady(s.trampolines, s.operations) && i < |s.operations|
    ensures Effected(s, Committed(s), i)
  {
    hide Bytes, Held, Ready;
    var o := s.operations[i];
    forall k: nat | LastAbout(s, i, k)
      ensures k in Committed(s).code && Committed(s).code[k] == Bytes(s.trampolines, o)[k - o.target]
    {
      ApplyAllHitsCode(s, s.operations, i, k);
    }
    if forall j :: i < j < |s.operations| ==> s.operations[j].pointer != o.pointer {
      ApplyAllHitsPointer(s, s.operations, i);
    }
  }

  /** An operation apart from the others takes full effect. */
  lemma EffectedAlone(s: State, i: nat)
    requires AllReady(s.trampolines, s.operations) && i < |s.operations|
    requires forall j :: 0 <= j < |s.operations| && j != i ==> OpsApart(s, s.operations[i], s.operations[j])
    ensures var o, r := s.operations[i], Committed(s);
            && (forall k :: o.target <= k < o.target + Length(s, o) ==> k in r.code && r.code[k] == Bytes(s.trampolines, o)[k - o.target])
            && o.pointer in r.pointers && r.pointers[o.pointer] == Pointed(o)
  {
    hide Bytes, Held, Ready;
    var o := s.operations[i];
    EffectedBy(s, i);
    forall k | o.target <= k < o.target + Length(s, o)
      ensures LastAbout(s, i, k)
    {}
  }

  // ------------------------------------------------------------------ undoing

  /** A detour as its caller knows it: the pointer, the code it was resolved to, its bytes, the trampoline,
      and the code of the detour. */
  datatype Detour = Detour(pointer: nat, target: nat, saved: seq<byte>, trampoline: nat, detour: nat)

  /** The detour's trampoline still records what it was made with, and the pointer points to it. */
  predicate Recorded(s: State, d: Detour) {
    d.trampoline in s.trampolines && s.trampolines[d.trampoline] == Trampoline(d.saved, d.target + |d.saved|, d.detour)
  }

  /** The detour is in place. */
  predicate Installed(s: State, d: Detour) {
    && Recorded(s, d) && SIZE_OF_JMP <= |d.saved|
    && d.pointer in s.pointers && s.pointers[d.pointer] == d.trampoline
    && forall k :: d.target <= k < d.target + |d.saved| ==>
         k in s.code && s.code[k] == Patch(d.target, |d.saved|, d.trampoline)[k - d.target]
  }

  /** No other detour, in place or pending, shares bytes with this one, and no pending operation on
      another trampoline shares its pointer; an operation on its own trampoline is its removal. */
  predicate Alone(s: State, d: Detour) {
    && (forall a :: a in s.trampolines && a != d.trampoline ==>
          Apart(s.trampolines[a].remain - |s.trampolines[a].restore|, |s.trampolines[a].restore|, d.target, |d.saved|))
    && (forall o :: o in s.operations ==>
          if o.trampoline == d.trampoline then o == Removal(d) else o.pointer != d.pointer)
  }

  function Removal(d: Detour): Operation { Operation(true, d.pointer, d.target, d.trampoline) }

  /** What is asked of the calls between attaching and detaching: others attach to other code and other
      pointers; following this pointer leads to the trampoline, and following others does not; and the
      pending removal of this detour, if there is one, is not committed yet. */
  predicate Respects(s: State, c: Call, d: Detour) {
    c.thread == s.owner ==>
      && (c.Attach? ==> c.pointer != d.pointer && Apart(c.met.target, c.met.size, d.target, |d.saved|))
      && (c.Detach? ==> (c.pointer == d.pointer <==> c.found.trampoline == d.trampoline))
      && (c.Commit? && s.error == NO_ERROR ==> Removal(d) !in s.operations)
  }

  lemma AloneOperation(s: State, d: Detour, o: Operation)
    requires Consistent(s) && Alone(s, d) && o in s.operations && o.trampoline != d.trampoline
    ensures Ready(s.trampolines, o) && o.pointer != d.pointer && Apart(o.target, Length(s, o), d.target, |d.saved|)
  {
    assert Faithful(s, o);
  }

  /** Being in place depends on code, pointers, trampolines and pending operations alone. */
  lemma SameInstalled(s: State, r: State, d: Detour)
    requires Installed(s, d) && Alone(s, d)
    requires r.code == s.code && r.pointers == s.pointers && r.trampolines == s.trampolines && r.operations == s.operations
    ensures Installed(r, d) && Alone(r, d)
  {}

  lemma PushInstalled(s: State, r: State, o: Operation, d: Detour)
    requires Installed(s, d) && Alone(s, d)
    requires r.code == s.code && r.pointers == s.pointers && r.operations == [o] + s.operations
    requires forall a :: a in r.trampolines && a != d.trampoline ==>
               Apart(r.trampolines[a].remain - |r.trampolines[a].restore|, |r.trampolines[a].restore|, d.target, |d.saved|)
    requires d.trampoline in r.trampolines && r.trampolines[d.trampoline] == s.trampolines[d.trampoline]
    requires if o.trampoline == d.trampoline then o == Removal(d) else o.pointer != d.pointer
    ensures Installed(r, d) && Alone(r, d)
  {
    hide Patch, Apart;
  }

  lemma AttachInstalled(s: State, c: Call, d: Detour)
    requires Consistent(s) && Allowed(s, c) && Installed(s, d) && Alone(s, d) && Respects(s, c, d) && c.Attach?
    ensures Installed(Next(s, c), d) && Alone(Next(s, c), d)
  {
    hide Reachable, InPlace;
    var r := Next(s, c);
    if |r.operations| > |s.operations| {
      hide Consistent, Read, Patch, Mapped;
      PushInstalled(s, r, r.operations[0], d);
    } else {
      hide Consistent, Read, Patch, Mapped, Installed, Alone;
      SameInstalled(s, r, d);
    }
  }

  /** The target is found again from what the trampoline records. */
  lemma RecordedTarget(s: State, d: Detour)
    requires Consistent(s) && Recorded(s, d)
    ensures var t := s.trampolines[d.trampoline]; Wrap64(t.remain - |t.restore|) == d.target
  {
    assert InPlace(d.trampoline, s.trampolines[d.trampoline]);
  }

  lemma DetachInstalled(s: State, c: Call, d: Detour)
    requires Consistent(s) && Allowed(s, c) && Installed(s, d) && Alone(s, d) && Respects(s, c, d) && c.Detach?
    ensures Installed(Next(s, c), d) && Alone(Next(s, c), d)
  {
    RecordedTarget(s, d);
    hide Consistent, Allowed, Wrap64, Patch;
    var r := Next(s, c);
    if |r.operations| > |s.operations| {
      hide Apart;
      PushInstalled(s, r, r.operations[0], d);
    } else {
      hide Installed, Alone;
      SameInstalled(s, r, d);
    }
  }

  lemma OthersMiss(s: State, d: Detour)
    requires Consistent(s) && Alone(s, d) && Removal(d) !in s.operations
    ensures AllReady(s.trampolines, s.operations)
    ensures forall o :: o in s.operations ==>
      o.trampoline != d.trampoline && Ready(s.trampolines, o) && o.pointer != d.pointer && Apart(o.target, Length(s, o), d.target, |d.saved|)
  {
    ConsistentReady(s);
    forall o | o in s.operations
      ensures o.trampoline != d.trampoline && Ready(s.trampolines, o) && o.pointer != d.pointer && Apart(o.target, Length(s, o), d.target, |d.saved|)
    {
      AloneOperation(s, d, o);
    }
  }

  lemma CommitKeepsBytes(s: State, d: Detour)
    requires AllReady(s.trampolines, s.operations)
    requires forall o :: o in s.operations ==>
      Ready(s.trampolines, o) && o.pointer != d.pointer && Apart(o.target, Length(s, o), d.target, |d.saved|)
    ensures forall k :: d.target <= k < d.target + |d.saved| && k in s.code ==> k in Committed(s).code && Committed(s).code[k] == s.code[k]
    ensures d.pointer in s.pointers ==> d.pointer in Committed(s).pointers && Committed(s).pointers[d.pointer] == s.pointers[d.pointer]
  {
    hide Ready, ApplyAll;
    forall k | d.target <= k < d.target + |d.saved| && k in s.code
      ensures k in Committed(s).code && Committed(s).code[k] == s.code[k]
    {
      ApplyAllMissesCode(s, s.operations, k);
    }
    ApplyAllMissesPointer(s, s.operations, d.pointer);
  }

  lemma CommitInstalled(s: State, thread: nat, d: Detour)
    requires Consistent(s) && Installed(s, d) && Alone(s, d) && s.owner == thread && s.error == NO_ERROR && Removal(d) !in s.operations
    ensures Installed(Next(s, Commit(thread)), d) && Alone(Next(s, Commit(thread)), d)
  {
    OthersMiss(s, d);
    CommitKeepsBytes(s, d);
    hide Consistent, Ready, Patch, ApplyAll, Apart;
  }

  lemma AbortInstalled(s: State, d: Detour)
    requires Consistent(s) && Installed(s, d) && Alone(s, d)
    ensures Installed(Aborted(s), d) && Alone(Aborted(s), d)
  {
    hide Consistent, Patch;
  }

  /** A detour in place stays so through any call that respects it, whoever makes it. */
  lemma InstalledNext(s: State, c: Call, d: Detour)
    requires Consistent(s) && Allowed(s, c) && Installed(s, d) && Alone(s, d) && Respects(s, c, d)
    ensures Installed(Next(s, c), d) && Alone(Next(s, c), d)
  {
    match c
    case Attach(_, _, _, _) => AttachInstalled(s, c, d);
    case Detach(_, _, _, _) => DetachInstalled(s, c, d);
    case Begin(_, _) =>
      hide Consistent, Installed, Alone, Respects, Allowed;
      SameInstalled(s, Next(s, c), d);
    case Abort(_) =>
      AbortInstalled(s, d);
      hide Consistent, Installed, Alone, Respects, Allowed, Aborted;
    case Commit(thread) =>
      AbortInstalled(s, d);
      if s.owner == thread && s.error == NO_ERROR {
        CommitInstalled(s, thread, d);
      }
      hide Consistent, Installed, Alone, Allowed, Aborted, Committed;
  }

  predicate RespectedBy(s: State, calls: seq<Call>, d: Detour)
    requires Consistent(s) && Runs(s, calls)
    decreases |calls|
  {
    calls == [] || (NextKeeps(s, calls[0]); Respects(s, calls[0], d) && RespectedBy(Next(s, calls[0]), calls[1..], d))
  }

  lemma {:induction false} InstalledRun(s: State, calls: seq<Call>, d: Detour)
    requires Consistent(s) && Runs(s, calls) && Installed(s, d) && Alone(s, d) && RespectedBy(s, calls, d)
    ensures Installed(After(s, calls), d) && Alone(After(s, calls), d)
    decreases |calls|
  {
    hide Consistent, Next, Installed, Alone, Respects, Allowed;
    if calls != [] {
      NextKeeps(s, calls[0]);
      InstalledNext(s, calls[0], d);
      InstalledRun(Next(s, calls[0]), calls[1..], d);
    }
  }

  /** The state just before the detour is committed: its attachment is pending, apart from all others. */
  predicate AboutToAttach(s: State, d: Detour) {
    && Consistent(s) && s.owner != 0 && s.error == NO_ERROR
    && Operation(false, d.pointer, d.target, d.trampoline) in s.operations && Recorded(s, d)
    && (forall a :: a in s.trampolines && a != d.trampoline ==>
          Apart(s.trampolines[a].remain - |s.trampolines[a].restore|, |s.trampolines[a].restore|, d.target, |d.saved|))
    && (forall o :: o in s.operations && o.trampoline != d.trampoline ==> o.pointer != d.pointer)
  }

  lemma OneApart(s: State, d: Detour, o: Operation) returns (i: nat)
    requires Consistent(s) && Recorded(s, d) && o in s.operations && o.trampoline == d.trampoline && o.pointer == d.pointer
    requires forall a :: a in s.trampolines && a != d.trampoline ==>
               Apart(s.trampolines[a].remain - |s.trampolines[a].restore|, |s.trampolines[a].restore|, d.target, |d.saved|)
    requires forall p :: p in s.operations && p.trampoline != d.trampoline ==> p.pointer != d.pointer
    ensures AllReady(s.trampolines, s.operations) && i < |s.operations| && s.operations[i] == o && o.target == d.target
    ensures forall j :: 0 <= j < |s.operations| && j != i ==> OpsApart(s, o, s.operations[j])
  {
    ConsistentReady(s);
    i :| 0 <= i < |s.operations| && s.operations[i] == o;
    assert Faithful(s, o);
    forall j | 0 <= j < |s.operations| && j != i
      ensures OpsApart(s, o, s.operations[j])
    {
      assert Faithful(s, s.operations[j]);
      assert s.operations[j].trampoline != o.trampoline;
    }
  }

  /** The owner commits. */
  function CommitNow(s: State): (r: State)
    requires Consistent(s) && s.operations != []
    ensures Consistent(r)
  {
    NextKeeps(s, Commit(s.owner));
    Next(s, Commit(s.owner))
  }

  lemma AttachCommitted(s: State, d: Detour)
    requires AboutToAttach(s, d)
    ensures Installed(CommitNow(s), d) && Alone(CommitNow(s), d)
  {
    var o := Operation(false, d.pointer, d.target, d.trampoline);
    var i := OneApart(s, d, o);
    EffectedAlone(s, i);
    assert CommitNow(s) == Committed(s);
    HeldApart(s, i);
    hide Consistent, Patch, ApplyAll, Apart;
  }

  /** The trampoline of a pending attachment is not given up by the commit. */
  lemma HeldApart(s: State, i: nat)
    requires Consistent(s) && i < |s.operations| && !s.operations[i].isRemove
    ensures s.operations[i].trampoline !in Held(s.operations, true)
  {}

  lemma RemovalCommitted(s: State, d: Detour)
    requires Consistent(s) && Installed(s, d) && Alone(s, d) && s.error == NO_ERROR && Removal(d) in s.operations
    ensures var r := CommitNow(s);
            && (forall k :: d.target <= k < d.target + |d.saved| ==> k in r.code && r.code[k] == d.saved[k - d.target])
            && d.pointer in r.pointers && r.pointers[d.pointer] == d.target
            && d.trampoline !in r.trampolines
  {
    var i := OneApart(s, d, Removal(d));
    EffectedAlone(s, i);
    HeldIn(s.operations, Removal(d));
    assert CommitNow(s) == Committed(s);
    hide Consistent, Patch, ApplyAll, Apart;
  }

  lemma SavedBefore(s: State, d: Detour)
    requires AboutToAttach(s, d)
    ensures forall k :: d.target <= k < d.target + |d.saved| ==> k in s.code && s.code[k] == d.saved[k - d.target]
  {
    assert Faithful(s, Operation(false, d.pointer, d.target, d.trampoline));
  }

  /** Undo. A detour is committed; then any calls of any threads happen that respect it; then its pending
      removal is committed. Its code is what it was before, its pointer points to that code, and its
      trampoline is given back. */
  lemma Undo(s0: State, d: Detour, calls: seq<Call>)
    requires AboutToAttach(s0, d) && Runs(CommitNow(s0), calls) && RespectedBy(CommitNow(s0), calls, d)
    requires var s := After(CommitNow(s0), calls); s.error == NO_ERROR && Removal(d) in s.operations
    ensures var s := CommitNow(After(CommitNow(s0), calls));
            && (forall k :: d.target <= k < d.target + |d.saved| ==> k in s0.code && k in s.code && s.code[k] == s0.code[k])
            && d.pointer in s.pointers && s.pointers[d.pointer] == d.target
            && d.trampoline !in s.trampolines
  {
    hide Consistent, CommitNow, Installed, Alone, Runs, RespectedBy, After;
    SavedBefore(s0, d);
    AttachCommitted(s0, d);
    InstalledRun(CommitNow(s0), calls, d);
    RemovalCommitted(After(CommitNow(s0), calls), d);
  }

  // ------------------------------------------------------------------ what an answer means

  /** The detour that a call attaches. */
  function DetourOf(s: State, c: Call): Detour
    requires c.Attach?
  {
    Detour(c.pointer, c.met.target, Read(s.code, c.met.target, c.met.size), c.met.trampoline, c.met.detour)
  }

  /** Attaching queues an operation exactly when the function can be detoured; the answer is the same for
      a detour that is the target itself, which queues nothing. */
  lemma AttachQueues(s: State, c: Call)
    requires Consistent(s) && Allowed(s, c) && c.Attach? && c.thread == s.owner && s.error == NO_ERROR
    requires c.detour != 0 && c.pointer != 0 && Value(s, c.pointer) != 0
    ensures |Next(s, c).operations| == |s.operations| + 1 <==>
              && c.met.detour != c.met.target && c.met.memory && c.met.trampoline != 0
              && SIZE_OF_JMP <= c.met.size <= SIZE_OF_CODE - SIZE_OF_JMP && c.met.protect == NO_ERROR
    ensures Answer(s, c) == NO_ERROR <==> |Next(s, c).operations| == |s.operations| + 1 || c.met.detour == c.met.target
    ensures |Next(s, c).operations| == |s.operations| + 1 ==>
              && Next(s, c).operations[0] == Operation(false, c.pointer, c.met.target, c.met.trampoline)
              && Recorded(Next(s, c), DetourOf(s, c))
  {
    hide Consistent, Read, Mapped;
  }

  /** Otherwise nothing changes but what is remembered of the failure: the pointer, and the error, unless the
      caller puts up with functions that are too small and with detours that are their own targets. */
  lemma AttachFails(s: State, c: Call)
    requires Consistent(s) && c.Attach? && c.thread == s.owner && s.error == NO_ERROR
    requires c.detour != 0 && c.pointer != 0 && Value(s, c.pointer) != 0 && |Next(s, c).operations| == |s.operations|
    ensures var own, room := c.met.detour == c.met.target, c.met.memory && c.met.trampoline != 0;
            && Next(s, c) == s.(failed := c.pointer, error := if s.ignoreTooSmall && (own || (room && c.met.size < 5)) then 0 else Answer(s, c))
            && Answer(s, c) == if own then 0 else if !room then 8 else if c.met.size < 5 then 9 else if c.met.size > 25 then 6 else c.met.protect
  {
    hide Consistent, Read, Mapped;
  }

  /** Detaching a detour that is in place, by its pointer and its detour, queues its removal, also when its
      removal is pending already. */
  lemma DetachQueues(s: State, c: Call, d: Detour)
    requires Consistent(s) && c.Detach? && c.thread == s.owner && s.error == NO_ERROR
    requires Installed(s, d) && |d.saved| <= SIZE_OF_CODE && d.trampoline != 0
    requires c.detour != 0 && c.pointer == d.pointer != 0 && c.found.trampoline == d.trampoline
    ensures if c.found.memory && c.found.detour == d.detour && c.found.protect == NO_ERROR
            then Answer(s, c) == NO_ERROR && Next(s, c).operations == [Removal(d)] + s.operations
            else Next(s, c) == s.(failed := c.pointer,
                                  error := if s.ignoreTooSmall && c.found.memory && c.found.detour != d.detour then 0 else Answer(s, c))
                 && Answer(s, c) == if !c.found.memory then 8 else if c.found.detour != d.detour then 9 else c.found.protect
  {
    assert InPlace(d.trampoline, s.trampolines[d.trampoline]);
    hide Consistent, Patch;
  }

  /** Detaching twice in one transaction is accepted, and the trampoline will be freed twice: each of the two
      operations holds it. */
  lemma DetachTwice(s: State, c: Call, d: Detour)
    requires Consistent(s) && c.Detach? && c.thread == s.owner && s.error == NO_ERROR
    requires Installed(s, d) && |d.saved| <= SIZE_OF_CODE && d.trampoline != 0 && Removal(d) in s.operations
    requires c.detour != 0 && c.pointer == d.pointer != 0 && c.found == Detachment(d.trampoline, d.detour, true, NO_ERROR)
    ensures Answer(s, c) == NO_ERROR && !Allowed(s, c)
    ensures exists i, j :: 0 <= i < j < |Next(s, c).operations| && Next(s, c).operations[i] == Next(s, c).operations[j] == Removal(d)
  {
    DetachQueues(s, c, d);
    hide Consistent, Installed, Allowed;
    var k :| 0 <= k < |s.operations| && s.operations[k] == Removal(d);
    assert Next(s, c).operations[0] == Next(s, c).operations[k + 1] == Removal(d);
    assert Removal(d).trampoline == c.found.trampoline;
  }

  /** What the detour pointers in the trampolines hold. */
  function Cells(s: State): address -> address {
    (a: address) => CellAt(s, a)
  }

  function CellAt(s: State, a: address): address {
    if a >= PB_DETOUR && a - PB_DETOUR in s.trampolines then Wrap64(s.trampolines[a - PB_DETOUR].detour) else 0
  }

  /** In every state that calls can lead to, control that reaches code with a detour in place arrives at that
      detour, by way of the trampoline; behind the jump there are breakpoints. */
  lemma InstalledEnters(s: State, d: Detour)
    requires Consistent(s) && Installed(s, d)
    ensures d.target < TWO64 && d.trampoline + RB_CODE_IN < TWO64
    ensures var entry := JumpGoes(d.target, Read(s.code, d.target, SIZE_OF_JMP), Cells(s));
            && entry == d.trampoline + RB_CODE_IN
            && JumpGoes(entry, JmpIndirect(entry, d.trampoline + PB_DETOUR), Cells(s)) == d.detour
    ensures forall k :: d.target + SIZE_OF_JMP <= k < d.target + |d.saved| ==> k in s.code && s.code[k] == 0xcc
  {
    assert InPlace(d.trampoline, s.trampolines[d.trampoline]);
    PatchReaches(d.target, d.trampoline, Cells(s));
    PatchReachesDetour(d.target, d.trampoline, Cells(s));
    CellIs(s, d);
    PatchIs(s, d);
    hide JumpGoes, JmpImmediate, JmpIndirect, Consistent, Installed, Cells, Read;
  }

  /** The bytes of a detour in place. */
  lemma PatchIs(s: State, d: Detour)
    requires Installed(s, d) && d.target < TWO64 && d.trampoline + RB_CODE_IN < TWO64
    ensures Read(s.code, d.target, SIZE_OF_JMP) == JmpImmediate(d.target, d.trampoline + RB_CODE_IN)
    ensures forall k :: d.target + SIZE_OF_JMP <= k < d.target + |d.saved| ==> k in s.code && s.code[k] == 0xcc
  {
    hide Le32;
    var jump := JmpImmediate(d.target, d.trampoline + RB_CODE_IN);
    forall i | 0 <= i < SIZE_OF_JMP ensures Read(s.code, d.target, SIZE_OF_JMP)[i] == jump[i] {
      assert d.target + i in s.code && s.code[d.target + i] == Patch(d.target, |d.saved|, d.trampoline)[i];
    }
    assert Read(s.code, d.target, SIZE_OF_JMP) == jump;
  }

  lemma CellIs(s: State, d: Detour)
    requires Consistent(s) && Recorded(s, d)
    ensures d.trampoline + PB_DETOUR < TWO64 && Cells(s)(d.trampoline + PB_DETOUR) == d.detour
  {
    assert InPlace(d.trampoline, s.trampolines[d.trampoline]);
  }

  // ------------------------------------------------------------------ from attaching to detaching

  /** Nothing else that is detoured or pending has to do with the detour. */
  predicate Unshared(s: State, d: Detour) {
    && (forall a :: a in s.trampolines && a != d.trampoline ==>
          Apart(s.trampolines[a].remain - |s.trampolines[a].restore|, |s.trampolines[a].restore|, d.target, |d.saved|))
    && (forall o :: o in s.operations ==> o.pointer != d.pointer)
  }

  /** An attachment that is queued, of code and by a pointer of its own, is pending. */
  lemma AttachPends(s: State, c: Call)
    requires Consistent(s) && Allowed(s, c) && c.Attach? && c.thread == s.owner && s.error == NO_ERROR
    requires |Next(s, c).operations| == |s.operations| + 1 && Unshared(s, DetourOf(s, c))
    ensures AboutToAttach(Next(s, c), DetourOf(s, c))
  {
    NextKeeps(s, c);
    hide Consistent, Read, Mapped, Reachable, Apart;
    assert Next(s, c).operations[0] == Operation(false, c.pointer, c.met.target, c.met.trampoline);
  }

  /** What is asked of the calls between attaching and committing: others attach to other code and other
      pointers, this pointer is let be, and the transaction goes on without failing. */
  predicate LeavesPending(s: State, c: Call, d: Detour)
    requires Consistent(s)
  {
    && Next(s, c).error == NO_ERROR
    && (c.thread == s.owner ==>
          && !c.Abort? && !c.Commit?
          && (c.Attach? ==> c.pointer != d.pointer && Apart(c.met.target, c.met.size, d.target, |d.saved|))
          && (c.Detach? ==> c.pointer != d.pointer))
  }

  lemma PendingNext(s: State, c: Call, d: Detour)
    requires AboutToAttach(s, d) && Allowed(s, c) && LeavesPending(s, c, d)
    ensures AboutToAttach(Next(s, c), d)
  {
    NextKeeps(s, c);
    hide Consistent, Read, Mapped, Reachable;
    var r := Next(s, c);
    if |r.operations| > |s.operations| {
      assert r.operations == [r.operations[0]] + s.operations;
      hide Apart;
    }
  }

  predicate LeftPending(s: State, calls: seq<Call>, d: Detour)
    requires Consistent(s) && Runs(s, calls)
    decreases |calls|
  {
    calls == [] || (NextKeeps(s, calls[0]); LeavesPending(s, calls[0], d) && LeftPending(Next(s, calls[0]), calls[1..], d))
  }

  lemma {:induction false} PendingRun(s: State, calls: seq<Call>, d: Detour)
    requires AboutToAttach(s, d) && Runs(s, calls) && LeftPending(s, calls, d)
    ensures AboutToAttach(After(s, calls), d)
    decreases |calls|
  {
    hide Consistent, Next, LeavesPending, Allowed, Recorded;
    if calls != [] {
      NextKeeps(s, calls[0]);
      PendingNext(s, calls[0], d);
      PendingRun(Next(s, calls[0]), calls[1..], d);
    }
  }

  /** A whole life of a detour: it is attached, committed after any calls that leave it pending, and after
      any calls that respect it detached by the same pointer and detour. Unless memory or protection is
      refused, detaching succeeds and queues the removal; until then control at the target arrives at the
      detour. */
  lemma AttachedDetaches(s0: State, attach: Call, before: seq<Call>, between: seq<Call>, detach: Call)
    requires Consistent(s0) && Allowed(s0, attach) && attach.Attach? && attach.thread == s0.owner && s0.error == NO_ERROR
    requires |Next(s0, attach).operations| == |s0.operations| + 1 && Unshared(s0, DetourOf(s0, attach))
    requires Consistent(Next(s0, attach)) && Runs(Next(s0, attach), before) && LeftPending(Next(s0, attach), before, DetourOf(s0, attach))
    requires After(Next(s0, attach), before).operations != []
    requires var s := CommitNow(After(Next(s0, attach), before)); Runs(s, between) && RespectedBy(s, between, DetourOf(s0, attach))
    requires var s := After(CommitNow(After(Next(s0, attach), before)), between);
             detach.Detach? && detach.thread == s.owner && s.error == NO_ERROR
    requires detach.detour != 0 && detach.pointer == attach.pointer
    requires detach.found == Detachment(attach.met.trampoline, attach.met.detour, true, NO_ERROR)
    ensures var s, d := After(CommitNow(After(Next(s0, attach), before)), between), DetourOf(s0, attach);
            && Installed(s, d)
            && Answer(s, detach) == NO_ERROR && Next(s, detach).operations == [Removal(d)] + s.operations
  {
    var d := DetourOf(s0, attach);
    AttachPends(s0, attach);
    AttachSizes(s0, attach);
    hide Consistent, Next, Answer, Installed, Alone, Runs, RespectedBy, LeftPending, After, Allowed, AboutToAttach, Unshared, CommitNow, DetourOf;
    PendingRun(Next(s0, attach), before, d);
    AttachCommitted(After(Next(s0, attach), before), d);
    InstalledRun(CommitNow(After(Next(s0, attach), before)), between, d);
    DetachQueues(After(CommitNow(After(Next(s0, attach), before)), between), detach, d);
  }

  lemma AttachSizes(s: State, c: Call)
    requires Consistent(s) && c.Attach? && c.thread == s.owner && |Next(s, c).operations| == |s.operations| + 1
    ensures |DetourOf(s, c).saved| <= SIZE_OF_CODE && DetourOf(s, c).trampoline != 0 && c.pointer != 0
    ensures DetourOf(s, c).pointer == c.pointer && DetourOf(s, c).trampoline == c.met.trampoline && DetourOf(s, c).detour == c.met.detour
  {
    hide Consistent, Read;
  }
}
