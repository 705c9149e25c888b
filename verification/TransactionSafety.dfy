/** What holds of every run of transactions, calls of several threads interleaved: one owner, and all of
    a transaction's operations or none of them. */
module TransactionSafety {
  import opened MachineWords
  import opened JumpReach
  import opened TransactionModel

  /** Addresses from `a` on hold code. */
  predicate Mapped(code: map<nat, byte>, a: nat, n: nat) { forall k :: a <= k < a + n ==> k in code }

  /** The operation is about the bytes that its trampoline records, and they are there still. */
  predicate Faithful(s: State, o: Operation) {
    && Ready(s.trampolines, o)
    && var t := s.trampolines[o.trampoline];
       && o.target + |t.restore| == t.remain
       && (!o.isRemove ==> t.restore == Read(s.code, o.target, |t.restore|) && Mapped(s.code, o.target, |t.restore|))
  }

  /** What a trampoline records are addresses, and it is near enough to be jumped to from its function. */
  predicate InPlace(a: nat, t: Trampoline) {
    |t.restore| <= t.remain < TWO64 && t.detour < TWO64 && Near(t.remain - |t.restore|, a)
  }

  /** What every call keeps. */
  predicate Consistent(s: State) {
    && (s.owner == 0 ==> s.operations == [])
    && (forall o :: o in s.operations ==> Faithful(s, o))
    && (forall i, j :: 0 <= i < j < |s.operations| ==> s.operations[i].trampoline != s.operations[j].trampoline)
    && (forall a :: a in s.trampolines ==> InPlace(a, s.trampolines[a]))
  }

  /** The trampoline is between the bounds for the code at `target`. */
  predicate Reachable(code: map<nat, byte>, target: nat, trampoline: nat)
    requires target < TWO64
  {
    trampoline < TWO64 && Within(trampoline, Bounds(target, LeadingOf(Read(code, target, 6))))
  }

  /** What the allocator and the memory promise when attaching gets that far, and what is asked of a
      caller that detaches: not to detach what it is detaching already in the same transaction, nor
      what it is only about to attach. */
  predicate Allowed(s: State, c: Call) {
    && c.thread != 0
    && (c.Attach? && c.thread == s.owner ==>
          && c.met.trampoline !in s.trampolines && Mapped(s.code, c.met.target, c.met.size) && c.met.target + c.met.size < TWO64 && c.met.detour < TWO64
          && (c.met.trampoline != 0 ==> Reachable(s.code, c.met.target, c.met.trampoline)))
    && (c.Detach? && c.thread == s.owner ==> forall o :: o in s.operations ==> o.trampoline != c.found.trampoline)
  }

  lemma ConsistentReady(s: State)
    requires Consistent(s)
    ensures AllReady(s.trampolines, s.operations)
  {
    forall i | 0 <= i < |s.operations| ensures Ready(s.trampolines, s.operations[i]) {
      assert Faithful(s, s.operations[i]);
    }
  }

  function Next(s: State, c: Call): State
    requires Consistent(s)
  {
    ConsistentReady(s);
    Step(s, c).0
  }

  function Answer(s: State, c: Call): nat
    requires Consistent(s)
  {
    ConsistentReady(s);
    Step(s, c).1
  }

  /** The call `c` in state `s` leads to state `r` and answers `result`. */
  predicate Does(s: State, c: Call, r: State, result: nat)
    requires Consistent(s)
  {
    r == Next(s, c) && result == Answer(s, c)
  }

  // ------------------------------------------------------------------ every call keeps consistency

  lemma HeldIn(operations: seq<Operation>, o: Operation)
    requires o in operations
    ensures o.trampoline in Held(operations, o.isRemove)
  {}

  lemma EndKeeps(s: State, r: State)
    requires Consistent(s)
    requires r.operations == [] && r.owner == 0 && forall a :: a in r.trampolines ==> a in s.trampolines && r.trampolines[a] == s.trampolines[a]
    ensures Consistent(r)
  {}

  lemma PushKeeps(s: State, r: State, o: Operation)
    requires Consistent(s) && r == Push(s.(trampolines := r.trampolines), o) && s.owner != 0
    requires forall a :: a in s.trampolines ==> a in r.trampolines && r.trampolines[a] == s.trampolines[a]
    requires forall a :: a in r.trampolines && a !in s.trampolines ==> InPlace(a, r.trampolines[a])
    requires Faithful(r, o) && forall p :: p in s.operations ==> p.trampoline != o.trampoline
    ensures Consistent(r)
  {
    hide Read, Mapped;
    forall p | p in s.operations ensures Faithful(r, p) {
      assert Faithful(s, p);
      ReadyMore(s.trampolines, r.trampolines, p);
    }
  }

  lemma ReadyMore(a: map<nat, Trampoline>, b: map<nat, Trampoline>, o: Operation)
    requires Ready(a, o) && o.trampoline in b && b[o.trampoline] == a[o.trampoline]
    ensures Ready(b, o)
  {}

  lemma AttachKeeps(s: State, thread: nat, pointer: nat, detour: nat, met: Attachment)
    requires Consistent(s) && Allowed(s, Attach(thread, pointer, detour, met))
    ensures Consistent(DoAttach(s, thread, pointer, detour, met).0)
  {
    hide Read, Mapped, Near, Bounds, LeadingOf;
    var r := DoAttach(s, thread, pointer, detour, met).0;
    if |r.operations| > |s.operations| {
      WithinNear(met.target, LeadingOf(Read(s.code, met.target, 6)), met.trampoline);
      PushKeeps(s, r, r.operations[0]);
    }
  }

  lemma DetachKeeps(s: State, thread: nat, pointer: nat, detour: nat, found: Detachment)
    requires Consistent(s) && Allowed(s, Detach(thread, pointer, detour, found))
    ensures Consistent(DoDetach(s, thread, pointer, detour, found).0)
  {
    hide Read, Mapped;
    var r := DoDetach(s, thread, pointer, detour, found).0;
    if |r.operations| > |s.operations| {
      PushKeeps(s, r, r.operations[0]);
    }
  }

  lemma NextKeeps(s: State, c: Call)
    requires Consistent(s) && Allowed(s, c)
    ensures Consistent(Next(s, c))
  {
    hide Faithful, Held, DoAttach, DoDetach;
    match c
    case Begin(_, _) =>
    case Abort(_) => if Next(s, c) != s { EndKeeps(s, Next(s, c)); }
    case Commit(_) => if Next(s, c) != s { EndKeeps(s, Next(s, c)); }
    case Attach(thread, pointer, detour, met) => AttachKeeps(s, thread, pointer, detour, met);
    case Detach(thread, pointer, detour, found) => DetachKeeps(s, thread, pointer, detour, found);
  }

  // ------------------------------------------------------------------ one owner

  /** The owner by the history of calls alone: the thread that began when there was no owner, until it
      commits or aborts. */
  function OwnerAfter(owner: nat, calls: seq<Call>): nat
    decreases |calls|
  {
    if calls == [] then owner
    else OwnerAfter(match calls[0]
                    case Begin(thread, _) => if owner == 0 then thread else owner
                    case Abort(thread) => if thread == owner then 0 else owner
                    case Commit(thread) => if thread == owner then 0 else owner
                    case _ => owner,
                    calls[1..])
  }

  /** Every call of the run is allowed where it happens. */
  predicate Runs(s: State, calls: seq<Call>)
    decreases |calls|
  {
    calls == [] || (Consistent(s) && Allowed(s, calls[0]) && Runs(Next(s, calls[0]), calls[1..]))
  }

  function After(s: State, calls: seq<Call>): (r: State)
    requires Consistent(s) && Runs(s, calls)
    ensures Consistent(r)
    decreases |calls|
  {
    if calls == [] then s
    else
      NextKeeps(s, calls[0]);
      After(Next(s, calls[0]), calls[1..])
  }

  lemma NextOwner(s: State, c: Call)
    requires Consistent(s) && Allowed(s, c)
    ensures Next(s, c).owner == OwnerAfter(s.owner, [c])
  {
    hide Consistent;
    assert [c][1..] == [];
  }

  lemma OwnerAfterCons(owner: nat, c: Call, rest: seq<Call>)
    ensures OwnerAfter(owner, [c] + rest) == OwnerAfter(OwnerAfter(owner, [c]), rest)
  {
    assert ([c] + rest)[1..] == rest && [c][1..] == [];
  }

  /** At every moment of every run there is at most one owner: the one its history says. */
  lemma {:induction false} OneOwner(s: State, calls: seq<Call>)
    requires Consistent(s) && Runs(s, calls)
    ensures After(s, calls).owner == OwnerAfter(s.owner, calls)
    decreases |calls|
  {
    hide Consistent, Next;
    if calls != [] {
      NextKeeps(s, calls[0]);
      NextOwner(s, calls[0]);
      OneOwner(Next(s, calls[0]), calls[1..]);
      OwnerAfterCons(s.owner, calls[0], calls[1..]);
      assert calls == [calls[0]] + calls[1..];
    }
  }

  /** A thread that does not own the transaction changes nothing, except by beginning one when there is
      none; nor does beginning when there is one, even for the owner. The answer is the error about
      ownership unless no detour was passed to attach. */
  lemma NonOwnerKeeps(s: State, c: Call)
    requires Consistent(s) && Allowed(s, c) && if c.Begin? then s.owner != 0 else c.thread != s.owner
    ensures Next(s, c) == s && Answer(s, c) == if c.Attach? && c.detour == 0 then ERROR_INVALID_PARAMETER else ERROR_INVALID_OPERATION
  {
    ConsistentReady(s);
    hide Consistent;
  }

  /** Once an operation has failed, further ones return that error and change nothing. */
  lemma StickyError(s: State, c: Call)
    requires Consistent(s) && Allowed(s, c) && s.error != NO_ERROR && (c.Attach? || c.Detach?)
    ensures Next(s, c) == s
    ensures c.thread == s.owner && c.detour != 0 ==> Answer(s, c) == s.error
  {
    ConsistentReady(s);
    hide Consistent;
  }

  /** Whatever other threads call while a thread owns the transaction, and in whatever order: it stays as it
      is. */
  lemma {:induction false} OthersChangeNothing(s: State, calls: seq<Call>)
    requires Consistent(s) && Runs(s, calls) && s.owner != 0 && forall c :: c in calls ==> c.thread != s.owner
    ensures After(s, calls) == s
    decreases |calls|
  {
    hide Consistent, Next, Answer, Allowed;
    if calls != [] {
      assert calls[0] in calls;
      NonOwnerKeeps(s, calls[0]);
      OthersChangeNothing(s, calls[1..]);
    }
  }

  /** Once an operation has failed, nothing that its thread or others call changes the transaction, until its
      thread commits or aborts. */
  lemma {:induction false} FailedStays(s: State, calls: seq<Call>)
    requires Consistent(s) && Runs(s, calls) && s.owner != 0 && s.error != NO_ERROR
    requires forall c :: c in calls ==> GoesOn(c, s.owner)
    ensures After(s, calls) == s
    decreases |calls|
  {
    hide Consistent, Next, Answer, Allowed;
    if calls != [] {
      var c := calls[0];
      assert c in calls;
      if c.Attach? || c.Detach? {
        StickyError(s, c);
      } else {
        NonOwnerKeeps(s, c);
      }
      FailedStays(s, calls[1..]);
    }
  }

  // ------------------------------------------------------------------ all or nothing

  /** `s` is inside a transaction of `thread` that began in `s0`: only trampolines have been added, those
      of pending attachments. */
  predicate Inside(s0: State, s: State, thread: nat) {
    && thread != 0 && s.owner == thread && s.code == s0.code && s.pointers == s0.pointers
    && s.trampolines - Held(s.operations, false) == s0.trampolines
  }

  /** The call does not end the transaction of `thread`. */
  predicate GoesOn(c: Call, thread: nat) { !((c.Abort? || c.Commit?) && c.thread == thread) }

  function Begun(s: State, thread: nat, protect: nat): (r: State)
    requires Consistent(s) && s.owner == 0 && thread != 0
    ensures Consistent(r)
  {
    DoBegin(s, thread, protect).0
  }

  lemma BeginInside(s: State, thread: nat, protect: nat)
    requires Consistent(s) && s.owner == 0 && thread != 0
    ensures Inside(s, Begun(s, thread, protect), thread)
  {}

  lemma HeldPush(o: Operation, operations: seq<Operation>, isRemove: bool)
    ensures Held([o] + operations, isRemove) == Held(operations, isRemove) + if o.isRemove == isRemove then {o.trampoline} else {}
  {
    forall p | p in [o] + operations ensures p == o || p in operations {}
  }

  lemma InsideAttach(s0: State, s: State, c: Call, thread: nat)
    requires Consistent(s) && Allowed(s, c) && Inside(s0, s, thread) && c.Attach?
    ensures Inside(s0, Next(s, c), thread)
  {
    hide Consistent, Held, Read;
    var r := Next(s, c);
    if |r.operations| > |s.operations| {
      HeldPush(r.operations[0], s.operations, false);
    }
  }

  lemma InsideDetach(s0: State, s: State, c: Call, thread: nat)
    requires Consistent(s) && Allowed(s, c) && Inside(s0, s, thread) && c.Detach?
    ensures Inside(s0, Next(s, c), thread)
  {
    hide Consistent, Held, Allowed;
    var r := Next(s, c);
    if |r.operations| > |s.operations| {
      HeldPush(r.operations[0], s.operations, false);
    }
  }

  lemma InsideNext(s0: State, s: State, c: Call, thread: nat)
    requires Consistent(s) && Allowed(s, c) && Inside(s0, s, thread) && GoesOn(c, thread)
    ensures Inside(s0, Next(s, c), thread)
  {
    if c.Attach? {
      InsideAttach(s0, s, c, thread);
    } else if c.Detach? {
      InsideDetach(s0, s, c, thread);
    } else {
      hide Consistent, Held, Allowed;
    }
  }

  lemma {:induction false} InsideRun(s0: State, s: State, calls: seq<Call>, thread: nat)
    requires Consistent(s) && Runs(s, calls) && Inside(s0, s, thread) && forall c :: c in calls ==> GoesOn(c, thread)
    ensures Inside(s0, After(s, calls), thread)
    decreases |calls|
  {
    hide Consistent, Next, Inside, GoesOn;
    if calls != [] {
      NextKeeps(s, calls[0]);
      InsideNext(s0, s, calls[0], thread);
      InsideRun(s0, Next(s, calls[0]), calls[1..], thread);
    }
  }

  /** What a transaction leaves when it is given up: code, pointers and trampolines as they were when it
      began, nothing pending and no owner. */
  predicate Undone(s0: State, s: State) {
    s.code == s0.code && s.pointers == s0.pointers && s.trampolines == s0.trampolines && s.operations == [] && s.owner == 0
  }

  /** Whatever happens between, by this thread and by others: a transaction that is aborted, or committed
      after one of its operations has failed, leaves no trace. */
  lemma GivenUp(s0: State, protect: nat, thread: nat, calls: seq<Call>, last: Call)
    requires Consistent(s0) && s0.owner == 0 && thread != 0
    requires Runs(Begun(s0, thread, protect), calls) && forall c :: c in calls ==> GoesOn(c, thread)
    requires last == Abort(thread) || (last == Commit(thread) && After(Begun(s0, thread, protect), calls).error != NO_ERROR)
    ensures Undone(s0, Next(After(Begun(s0, thread, protect), calls), last))
  {
    hide Consistent;
    BeginInside(s0, thread, protect);
    InsideRun(s0, Begun(s0, thread, protect), calls, thread);
  }
}
