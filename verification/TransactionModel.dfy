/** Detour transactions as a state machine: what each call does to the transaction, to the code of the
    process, to the pointers of the callers and to the trampolines. */
module TransactionModel {
  import opened MachineWords
  import opened X64Jumps

  const NO_ERROR := 0
  const ERROR_INVALID_HANDLE := 6
  const ERROR_NOT_ENOUGH_MEMORY := 8
  const ERROR_INVALID_BLOCK := 9
  const ERROR_INVALID_PARAMETER := 87
  const ERROR_INVALID_OPERATION := 4317

  const BREAK: byte := 0xcc

  /** What a trampoline in use records: the original bytes of the target, where the code behind them
      goes on, and the detour. */
  datatype Trampoline = Trampoline(restore: seq<byte>, remain: nat, detour: nat)

  datatype Operation = Operation(isRemove: bool, pointer: nat, target: nat, trampoline: nat)

  datatype State = State(
    owner: nat, error: nat, failed: nat, operations: seq<Operation>, ignoreTooSmall: bool,
    code: map<nat, byte>, pointers: map<nat, nat>, trampolines: map<nat, Trampoline>)

  // ------------------------------------------------------------------ code

  function Read(code: map<nat, byte>, a: nat, n: nat): (s: seq<byte>)
    ensures |s| == n
  {
    seq(n, i requires 0 <= i < n => if a + i in code then code[a + i] else 0)
  }

  predicate Covers(a: nat, n: nat, k: nat) { a <= k < a + n }

  function Write(code: map<nat, byte>, a: nat, bytes: seq<byte>): map<nat, byte> {
    code + map k | a <= k < a + |bytes| && Covers(a, |bytes|, k) :: bytes[k - a]
  }

  function Breaks(n: nat): (s: seq<byte>)
    ensures |s| == n
  {
    seq(n, i => BREAK)
  }

  /** The patch: a jump to the trampoline, and breakpoints up to the code that follows. */
  function Patch(target: nat, n: nat, trampoline: nat): (s: seq<byte>)
    requires SIZE_OF_JMP <= n
    ensures |s| == n
  {
    [0xe9] + Le32(trampoline + RB_CODE_IN - (target + SIZE_OF_JMP)) + Breaks(n - SIZE_OF_JMP)
  }

  // ------------------------------------------------------------------ the calls

  /** What attaching meets outside of the transaction: the code behind the pointer and the detour, whether
      memory for the operation is there, the trampoline allocated (0 for none), how many bytes of whole
      instructions and filler were found, and the error of changing the page protection. */
  datatype Attachment = Attachment(target: nat, detour: nat, memory: bool, trampoline: nat, size: nat, protect: nat)

  datatype Detachment = Detachment(trampoline: nat, detour: nat, memory: bool, protect: nat)

  datatype Call =
    | Begin(thread: nat, protect: nat)
    | Abort(thread: nat)
    | Commit(thread: nat)
    | Attach(thread: nat, pointer: nat, detour: nat, met: Attachment)
    | Detach(thread: nat, pointer: nat, detour: nat, found: Detachment)

  function Value(s: State, pointer: nat): nat { if pointer in s.pointers then s.pointers[pointer] else 0 }

  function Fail(s: State, error: nat, pointer: nat): (State, nat) { (s.(error := error, failed := pointer), error) }

  /** An error that is put up with when the caller asked to ignore functions that are too small. */
  function Stop(s: State, error: nat, pointer: nat): (State, nat) {
    if s.ignoreTooSmall then (s.(failed := pointer), error) else Fail(s, error, pointer)
  }

  function DoBegin(s: State, thread: nat, protect: nat): (State, nat) {
    if s.owner != 0 then (s, ERROR_INVALID_OPERATION)
    else (s.(owner := thread, operations := [], failed := 0, error := protect), protect)
  }

  /** The trampolines that pending attachments, or pending removals, hold. */
  function Held(operations: seq<Operation>, isRemove: bool): set<nat> {
    set o | o in operations && o.isRemove == isRemove :: o.trampoline
  }

  function Aborted(s: State): State {
    s.(operations := [], owner := 0, trampolines := s.trampolines - Held(s.operations, false))
  }

  function DoAbort(s: State, thread: nat): (State, nat) {
    if s.owner != thread then (s, ERROR_INVALID_OPERATION) else (Aborted(s), NO_ERROR)
  }

  /** The operation's trampoline is in use and records enough bytes to patch. */
  predicate Ready(trampolines: map<nat, Trampoline>, o: Operation) {
    o.trampoline in trampolines && (!o.isRemove ==> SIZE_OF_JMP <= |trampolines[o.trampoline].restore|)
  }

  predicate AllReady(trampolines: map<nat, Trampoline>, operations: seq<Operation>) {
    forall i :: 0 <= i < |operations| ==> Ready(trampolines, operations[i])
  }

  /** The bytes an operation puts at its target. */
  function Bytes(trampolines: map<nat, Trampoline>, o: Operation): (b: seq<byte>)
    requires Ready(trampolines, o)
    ensures |b| == |trampolines[o.trampoline].restore|
  {
    var restore := trampolines[o.trampoline].restore;
    if o.isRemove then restore else Patch(o.target, |restore|, o.trampoline)
  }

  /** One pending operation carried out. */
  function Apply(s: State, o: Operation): State
    requires Ready(s.trampolines, o)
  {
    s.(code := Write(s.code, o.target, Bytes(s.trampolines, o)),
       pointers := s.pointers[o.pointer := if o.isRemove then o.target else o.trampoline])
  }

  function ApplyAll(s: State, operations: seq<Operation>): (r: State)
    requires AllReady(s.trampolines, operations)
    ensures r == s.(code := r.code, pointers := r.pointers)
    decreases |operations|
  {
    if operations == [] then s else ApplyAll(Apply(s, operations[0]), operations[1..])
  }

  function Committed(s: State): State
    requires AllReady(s.trampolines, s.operations)
  {
    ApplyAll(s, s.operations).(operations := [], owner := 0, trampolines := s.trampolines - Held(s.operations, true))
  }

  function DoCommit(s: State, thread: nat): (State, nat)
    requires AllReady(s.trampolines, s.operations)
  {
    if s.owner != thread then (s, ERROR_INVALID_OPERATION)
    else if s.error != NO_ERROR then (Aborted(s), s.error)
    else (Committed(s), NO_ERROR)
  }

  function Push(s: State, o: Operation): State { s.(operations := [o] + s.operations) }

  /** Attaching once both pointers have been followed to code. */
  function AttachResolved(s: State, pointer: nat, met: Attachment): (State, nat) {
    if met.detour == met.target then Stop(s, NO_ERROR, pointer)
    else if !met.memory || met.trampoline == 0 then Fail(s, ERROR_NOT_ENOUGH_MEMORY, pointer)
    else FillResolved(s, pointer, met)
  }

  /** Attaching with a trampoline at hand. */
  function FillResolved(s: State, pointer: nat, met: Attachment): (State, nat) {
    if met.size < SIZE_OF_JMP then Stop(s, ERROR_INVALID_BLOCK, pointer)
    else if met.size > SIZE_OF_CODE - SIZE_OF_JMP then Fail(s, ERROR_INVALID_HANDLE, pointer)
    else if met.protect != NO_ERROR then Fail(s, met.protect, pointer)
    else
      var t := Trampoline(Read(s.code, met.target, met.size), met.target + met.size, met.detour);
      (Push(s.(trampolines := s.trampolines[met.trampoline := t]), Operation(false, pointer, met.target, met.trampoline)), NO_ERROR)
  }

  function DoAttach(s: State, thread: nat, pointer: nat, detour: nat, met: Attachment): (State, nat) {
    if detour == 0 then (s, ERROR_INVALID_PARAMETER)
    else if s.owner != thread then (s, ERROR_INVALID_OPERATION)
    else if s.error != NO_ERROR then (s, s.error)
    else if pointer == 0 then (s, ERROR_INVALID_HANDLE)
    else if Value(s, pointer) == 0 then Fail(s, ERROR_INVALID_HANDLE, pointer)
    else AttachResolved(s, pointer, met)
  }

  /** What is read at the address of a trampoline: a slot that is free has been cleared. */
  function Found(s: State, a: nat): Trampoline {
    if a in s.trampolines then s.trampolines[a] else Trampoline([], 0, 0)
  }

  function DetachResolved(s: State, pointer: nat, found: Detachment): (State, nat) {
    var t := Found(s, found.trampoline);
    if !found.memory then Fail(s, ERROR_NOT_ENOUGH_MEMORY, pointer)
    else if |t.restore| == 0 || |t.restore| > SIZE_OF_CODE then Stop(s, ERROR_INVALID_BLOCK, pointer)
    else if t.detour != found.detour then Stop(s, ERROR_INVALID_BLOCK, pointer)
    else if found.protect != NO_ERROR then Fail(s, found.protect, pointer)
    else (Push(s, Operation(true, pointer, Wrap64(t.remain - |t.restore|), found.trampoline)), NO_ERROR)
  }

  function DoDetach(s: State, thread: nat, pointer: nat, detour: nat, found: Detachment): (State, nat) {
    if s.owner != thread then (s, ERROR_INVALID_OPERATION)
    else if s.error != NO_ERROR then (s, s.error)
    else if detour == 0 then (s, ERROR_INVALID_PARAMETER)
    else if pointer == 0 then (s, ERROR_INVALID_HANDLE)
    else if Value(s, pointer) == 0 then Fail(s, ERROR_INVALID_HANDLE, pointer)
    else DetachResolved(s, pointer, found)
  }

  /** One call, with the new state and what the caller gets back. */
  function Step(s: State, c: Call): (State, nat)
    requires AllReady(s.trampolines, s.operations)
  {
    match c
    case Begin(thread, protect) => DoBegin(s, thread, protect)
    case Abort(thread) => DoAbort(s, thread)
    case Commit(thread) => DoCommit(s, thread)
    case Attach(thread, pointer, detour, met) => DoAttach(s, thread, pointer, detour, met)
    case Detach(thread, pointer, detour, found) => DoDetach(s, thread, pointer, detour, found)
  }
}
