/** The code part of a trampoline: copied instructions, the tail jump, break instructions as filler
    and the literal of the tail jump, 128 bytes in all. */
module Arm64Trampoline {
  import opened Arm64Isa
  import opened Arm64Assembler
  import opened Arm64Copier
  import opened Arm64Relocation
  import opened Arm64Exactness
  import opened Arm64MovedBlock
  import opened Arm64BlockExit

  /** The 32-bit words of `rbCode`. */
  const CODE_WORDS: nat := 32
  /** Three instructions make room for the patch of 12 bytes. */
  const JUMP_WORDS: nat := 3
  const BREAK: bv32 := 0xd410_0000 | (0xf000 << 5)

  /** The instructions that the attach loop moves: as many as the patch needs, fewer if the function ends. */
  function Prologue(mem: Memory, src: bv64, count: nat): (block: seq<bv32>)
    ensures |block| <= count
    decreases count
  {
    if count == 0 then []
    else if EndsFunction(mem(src)) then [mem(src)]
    else [mem(src)] + Prologue(mem, Plus(src, 4), count - 1)
  }

  function Repeat(word: bv32, n: nat): (words: seq<bv32>)
    ensures |words| == n
  {
    if n == 0 then [] else [word] + Repeat(word, n - 1)
  }

  lemma {:induction false} CopyBlockLength(mem: Memory, src: bv64, dest: bv64, block: seq<bv32>)
    ensures |CopyBlock(mem, src, dest, block)| <= 6 * |block|
    decreases |block|
  {
    hide CopyWords, EndOf, Plus;
    if block != [] {
      CopyBlockLength(mem, Plus(src, 4), EndOf(dest, CopyWords(mem, src, dest, block[0])), block[1..]);
    }
  }

  /** The literal's address: the last eight bytes. */
  function LiteralAt(lo: bv64): bv64 { Plus(lo, 120) }

  function High32(a: bv64): bv32 { ((a >> 32) & 0xffff_ffff) as bv32 }

  /** The whole of `rbCode` after an attach. */
  function TrampolineCode(mem: Memory, src: bv64, lo: bv64, block: seq<bv32>, remain: bv64): (words: seq<bv32>)
    requires |block| <= JUMP_WORDS
    ensures |words| == CODE_WORDS
  {
    hide CopyBlock, EndOf, Low32, High32;
    CopyBlockLength(mem, src, lo, block);
    var code := CopyBlock(mem, src, lo, block);
    code + TailJump(EndOf(lo, code), LiteralAt(lo)) + Repeat(BREAK, CODE_WORDS - 4 - |code|) + [Low32(remain), High32(remain)]
  }

  // ------------------------------------------------------------------ sizes in bytes

  function Quad(n: nat): bv64 {
    if n == 0 then 0 else Plus(4, Quad(n - 1))
  }

  lemma {:induction false} BytesIsQuad(words: seq<bv32>)
    ensures Bytes(words) == Quad(|words|)
    decreases |words|
  {
    hide Plus;
    if words != [] {
      BytesIsQuad(words[1..]);
    }
  }

  lemma QuadThirty()
    ensures Quad(30) == 120
  {
    assert Quad(10) == 40;
    assert Quad(20) == 80;
  }

  lemma {:induction false} BytesConcat(a: seq<bv32>, b: seq<bv32>)
    ensures Bytes(a + b) == Plus(Bytes(a), Bytes(b))
    decreases |a|
  {
    if a == [] {
      assert a + b == b;
      PlusZeroLeft(Bytes(b));
    } else {
      hide Plus;
      assert (a + b)[1..] == a[1..] + b;
      BytesConcat(a[1..], b);
      PlusAssoc(4, Bytes(a[1..]), Bytes(b));
    }
  }

  lemma PlusZeroLeft(a: bv64)
    ensures Plus(0, a) == a
  {}

  lemma PlusBound(a: bv64, b: bv64, bound: bv64)
    requires a <= 24 && b <= bound && bound <= 72
    ensures Plus(a, b) <= bound + 24
  {}

  /** The code of a block of at most four instructions takes at most 24 bytes an instruction. */
  lemma {:induction false} BlockBytes(mem: Memory, src: bv64, dest: bv64, block: seq<bv32>)
    requires |block| <= 4
    ensures |block| == 0 ==> Bytes(CopyBlock(mem, src, dest, block)) == 0
    ensures |block| <= 1 ==> Bytes(CopyBlock(mem, src, dest, block)) <= 24
    ensures |block| <= 2 ==> Bytes(CopyBlock(mem, src, dest, block)) <= 48
    ensures |block| <= 3 ==> Bytes(CopyBlock(mem, src, dest, block)) <= 72
    ensures Bytes(CopyBlock(mem, src, dest, block)) <= 96
    decreases |block|
  {
    if block != [] {
      hide CopyWords, EndOf, Plus, Bytes, CopyBlock;
      var words := CopyWords(mem, src, dest, block[0]);
      var rest := CopyBlock(mem, Plus(src, 4), EndOf(dest, words), block[1..]);
      CopyBlockCons(mem, src, dest, block);
      BytesConcat(words, rest);
      BytesOfCopy(words);
      BlockBytes(mem, Plus(src, 4), EndOf(dest, words), block[1..]);
      var bound: bv64 := if |block| == 1 then 0 else if |block| == 2 then 24 else if |block| == 3 then 48 else 72;
      PlusBound(Bytes(words), Bytes(rest), bound);
    }
  }

  // ------------------------------------------------------------------ the layout

  lemma MinusCommon(a: bv64, b: bv64, c: bv64)
    ensures Minus(Plus(a, b), Plus(a, c)) == Minus(b, c)
  {
    assert Minus(a + b, a + c) == Minus(b, c);
  }

  lemma WithinLiteral(bytes: bv64)
    requires bytes <= 96
    ensures Minus(120, bytes) <= 120
  {}

  lemma LiteralDistance(lo: bv64, bytes: bv64)
    requires bytes <= 96
    ensures Minus(LiteralAt(lo), Plus(lo, bytes)) <= 120
  {
    hide Plus, Minus;
    MinusCommon(lo, 120, bytes);
    WithinLiteral(bytes);
  }

  lemma AlignedLiteral(lo: bv64)
    requires Aligned4(lo)
    ensures Aligned4(LiteralAt(lo))
  {}

  lemma JoinHalves(a: bv64)
    ensures Wide(Low32(a), High32(a)) == a
  {}

  lemma LiteralWords(mem: Memory, lo: bv64, hi: bv64, base: bv64, low: bv32, high: bv32)
    requires Placed(mem, lo, hi, base, [low, high])
    ensures Word64(mem, base) == Wide(low, high)
  {
    hide Plus, Inside, Wide;
    assert [low, high] == [low] + [high] && [high] == [high] + [];
    PlacedCons(mem, lo, hi, base, low, [high]);
    PlacedCons(mem, lo, hi, Plus(base, 4), high, []);
  }

  /** The parts of a placed trampoline: its code, its tail jump right behind the code, and the literal. */
  lemma TrampolineParts(mem: Memory, after: Memory, src: bv64, lo: bv64, block: seq<bv32>, remain: bv64)
    requires |block| <= JUMP_WORDS && Aligned4(lo)
    requires Placed(after, lo, Plus(lo, 128), lo, TrampolineCode(mem, src, lo, block, remain))
    ensures var code := CopyBlock(mem, src, lo, block); var tail := EndOf(lo, code);
            && Placed(after, lo, Plus(lo, 128), lo, code)
            && Placed(after, lo, Plus(lo, 128), tail, TailJump(tail, LiteralAt(lo)))
            && Word64(after, LiteralAt(lo)) == remain
            && Minus(LiteralAt(lo), tail) <= 120 && Aligned4(Minus(LiteralAt(lo), tail))
  {
    hide Placed, CopyBlock, EndOf, Plus, Minus, Aligned4, Word64, Low32, High32, LiteralAt, Bytes, Wide;
    var hi, code := Plus(lo, 128), CopyBlock(mem, src, lo, block);
    var tail := EndOf(lo, code);
    var jump, last := TailJump(tail, LiteralAt(lo)), [Low32(remain), High32(remain)];
    CopyBlockLength(mem, src, lo, block);
    var filler := Repeat(BREAK, CODE_WORDS - 4 - |code|);
    var front := code + jump + filler;
    PlacedConcat(after, lo, hi, lo, front, last);
    PlacedConcat(after, lo, hi, lo, code + jump, filler);
    PlacedConcat(after, lo, hi, lo, code, jump);
    LiteralPosition(lo, front);
    LiteralWords(after, lo, hi, LiteralAt(lo), Low32(remain), High32(remain));
    JoinHalves(remain);
    BlockBytes(mem, src, lo, block);
    EndOfBytes(lo, code);
    LiteralDistance(lo, Bytes(code));
    AlignedLiteral(lo);
    EndOfAligned(lo, code);
    AlignedDifference(LiteralAt(lo), tail);
  }

  lemma LiteralPosition(lo: bv64, front: seq<bv32>)
    requires |front| == 30
    ensures EndOf(lo, front) == LiteralAt(lo)
  {
    hide Plus, EndOf, Bytes, Quad;
    EndOfBytes(lo, front);
    BytesIsQuad(front);
    QuadThirty();
  }

  // ------------------------------------------------------------------ the overwritten code

  /** NOP, or padding with zeros. */
  predicate IsFiller(i: bv32) { i == 0xd503_201f || i == 0 }

  /** How many of the `count` words from `src` on can be overwritten because they are padding. */
  function Fillers(mem: Memory, src: bv64, count: nat): (n: nat)
    ensures n <= count
    decreases count
  {
    if count == 0 || !IsFiller(mem(src)) then 0 else 1 + Fillers(mem, Plus(src, 4), count - 1)
  }

  /** The instructions of the function, with the padding behind its end, make room for the patch. */
  predicate HasRoom(mem: Memory, src: bv64) {
    var block := Prologue(mem, src, JUMP_WORDS);
    |block| + Fillers(mem, EndOf(src, block), JUMP_WORDS - |block|) == JUMP_WORDS
  }

  /** Nothing but padding is overwritten behind an instruction that leaves the function for good. */
  predicate OnlyPaddingBehind(mem: Memory, src: bv64) {
    var b, c := mem(Plus(src, 4)), mem(Plus(src, 8));
    && (LeavesForGood(Decode(mem(src))) ==> (b == 0xd503_201f || b == 0) && (c == 0xd503_201f || c == 0))
    && (LeavesForGood(Decode(b)) ==> c == 0xd503_201f || c == 0)
  }

  lemma PaddingGoesOn(i: bv32)
    ensures i == 0xd503_201f || i == 0 ==> !LeavesForGood(Decode(i))
  {}

  /** There is room exactly when the twelve bytes hold no code of what follows the function. */
  lemma RoomExact(mem: Memory, src: bv64)
    ensures HasRoom(mem, src) <==> OnlyPaddingBehind(mem, src)
  {
    var a, b, c := src, Plus(src, 4), Plus(Plus(src, 4), 4);
    EndsFunctionExact(mem(a));
    EndsFunctionExact(mem(b));
    EndsFunctionExact(mem(c));
    PaddingGoesOn(mem(b));
    PlusFour();
    PlusAssoc(src, 4, 4);
    hide Plus, Decode, EndsFunction, LeavesForGood, Remain;
    var block := Prologue(mem, src, 3);
    assert Prologue(mem, c, 0) == [] && Prologue(mem, Plus(c, 4), 0) == [];
    assert Prologue(mem, c, 1) == [mem(c)];
    assert Prologue(mem, b, 2) == if EndsFunction(mem(b)) then [mem(b)] else [mem(b)] + [mem(c)];
    assert block == if EndsFunction(mem(a)) then [mem(a)] else [mem(a)] + Prologue(mem, b, 2);
    if EndsFunction(mem(a)) {
      EndOfOne(src, mem(a));
      FillersUpToTwo(mem, b);
    } else if EndsFunction(mem(b)) {
      EndOfTwo(src, mem(a), mem(b));
      FillersUpToTwo(mem, c);
    }
  }

  lemma EndOfOne(base: bv64, a: bv32)
    ensures EndOf(base, [a]) == Plus(base, 4)
  {
    hide Plus;
    assert [a][1..] == [];
  }

  lemma EndOfTwo(base: bv64, a: bv32, b: bv32)
    ensures EndOf(base, [a] + [b]) == Plus(Plus(base, 4), 4)
  {
    hide Plus;
    assert ([a] + [b])[1..] == [b];
    EndOfOne(Plus(base, 4), b);
  }

  lemma FillersUpToTwo(mem: Memory, src: bv64)
    ensures Fillers(mem, src, 1) == 1 <==> IsFiller(mem(src))
    ensures Fillers(mem, src, 2) == 2 <==> IsFiller(mem(src)) && IsFiller(mem(Plus(src, 4)))
  {
    hide Plus, IsFiller;
    assert Fillers(mem, Plus(src, 4), 0) == 0 && Fillers(mem, Plus(Plus(src, 4), 4), 0) == 0;
    assert Fillers(mem, Plus(src, 4), 1) == if IsFiller(mem(Plus(src, 4))) then 1 else 0;
  }

  /** Behind the overwritten bytes, where the function goes on. */
  function Remain(src: bv64): bv64 { Plus(src, 12) }

  lemma InsideRemain(src: bv64)
    ensures Inside(src, Remain(src), src) && Inside(src, Remain(src), Plus(src, 4)) && Inside(src, Remain(src), Plus(Plus(src, 4), 4))
    ensures Plus(Plus(Plus(src, 4), 4), 4) == Remain(src)
  {
    hide Plus, Minus;
    PlusFour();
    PlusZero(src);
    PlusAssoc(src, 4, 4);
    PlusAssoc(src, 8, 4);
    MinusPlus(src, 0);
    MinusPlus(src, 4);
    MinusPlus(src, 8);
    MinusPlus(src, 12);
  }

  lemma PlusFour()
    ensures Plus(4, 4) == 8 && Plus(8, 4) == 12
  {}

  /** The moved instructions are the beginning of the overwritten bytes, and are never left at the end
      but for what follows those. */
  lemma PrologueOverwritten(mem: Memory, src: bv64)
    ensures var block := Prologue(mem, src, JUMP_WORDS);
            block != [] && Placed(mem, src, Remain(src), src, block) && FallsTo(block, src, Remain(src))
  {
    hide Plus, Inside, Remain, EndsFunction, Placed, FallsTo;
    var a, b, c := mem(src), mem(Plus(src, 4)), mem(Plus(Plus(src, 4), 4));
    InsideRemain(src);
    OverwrittenCons(mem, src, Plus(Plus(Plus(src, 4), 4), 4), 0);
    OverwrittenCons(mem, src, Plus(Plus(src, 4), 4), 1);
    OverwrittenCons(mem, src, Plus(src, 4), 2);
    OverwrittenCons(mem, src, src, 3);
  }

  lemma OverwrittenCons(mem: Memory, src: bv64, pc: bv64, count: nat)
    requires count == 0 ==> pc == Remain(src)
    requires count > 0 ==> Inside(src, Remain(src), pc)
    requires count > 0 ==> var rest := Prologue(mem, Plus(pc, 4), count - 1);
      Placed(mem, src, Remain(src), Plus(pc, 4), rest) && FallsTo(rest, Plus(pc, 4), Remain(src))
    ensures var block := Prologue(mem, pc, count);
            Placed(mem, src, Remain(src), pc, block) && FallsTo(block, pc, Remain(src)) && (count > 0 ==> block != [])
  {
    hide Plus, Inside, Remain, EndsFunction;
    var block := Prologue(mem, pc, count);
    if count > 0 && !EndsFunction(mem(pc)) {
      assert block[1..] == Prologue(mem, Plus(pc, 4), count - 1);
    }
  }

  // ------------------------------------------------------------------ the theorems

  /** The move of the instructions at `src` into the trampoline at `lo`. */
  function MoveOf(before: Memory, after: Memory, f: Semantics, src: bv64, lo: bv64): Move {
    Move(before, after, f, src, Remain(src), lo, Plus(lo, 128),
         EndOf(lo, CopyBlock(before, src, lo, Prologue(before, src, JUMP_WORDS))), LiteralAt(lo))
  }

  lemma TrampolineReady(before: Memory, after: Memory, f: Semantics, src: bv64, lo: bv64)
    requires Aligned4(src) && Aligned4(lo)
    requires AllMovable(before, after, f, src, lo, Prologue(before, src, JUMP_WORDS))
    requires Placed(after, lo, Plus(lo, 128), lo, TrampolineCode(before, src, lo, Prologue(before, src, JUMP_WORDS), Remain(src)))
    ensures Ready(MoveOf(before, after, f, src, lo), src, lo, Prologue(before, src, JUMP_WORDS))
    ensures Prologue(before, src, JUMP_WORDS) != []
  {
    hide Aligned4, Placed, CopyBlock, EndOf, Plus, Minus, Word64, TrampolineCode, TailJump, AllMovable, LiteralAt, Prologue, FallsTo, Remain;
    TrampolineParts(before, after, src, lo, Prologue(before, src, JUMP_WORDS), Remain(src));
    PrologueOverwritten(before, src);
  }

  /** For every function, all addresses, states and meanings of the other instructions: the trampoline,
      entered at its first byte, and the original instructions are left at the same address, with the
      same flags, stack pointer, vector registers and general registers up to x17, and with corresponding
      return addresses, exactly when the branch by which the original instructions are left, if any,
      leads neither back to the bytes that the patch overwrites nor into the trampoline. */
  lemma TrampolineRefinesBlock(before: Memory, after: Memory, f: Semantics, src: bv64, lo: bv64, c: Core)
    requires Aligned4(src) && Aligned4(lo) && Apart(MoveOf(before, after, f, src, lo))
    requires AllMovable(before, after, f, src, lo, Prologue(before, src, JUMP_WORDS))
    requires Placed(after, lo, Plus(lo, 128), lo, TrampolineCode(before, src, lo, Prologue(before, src, JUMP_WORDS), Remain(src)))
    ensures var block := Prologue(before, src, JUMP_WORDS);
            var pc := RunBlock(Machine(before, f), block, src, Remain(src), c).pc;
            SameExit(MoveOf(before, after, f, src, lo), src, lo, block, c)
            <==> !Inside(src, Remain(src), pc) && !Inside(lo, Plus(lo, 128), pc)
  {
    hide Aligned4, Placed, CopyBlock, EndOf, Plus, TrampolineCode, AllMovable, LiteralAt, Prologue, Remain, RunBlock, Ready, SameExit, Inside, Apart;
    TrampolineReady(before, after, f, src, lo);
    ExitExact(MoveOf(before, after, f, src, lo), src, lo, Prologue(before, src, JUMP_WORDS), c);
  }

  /** In every state, and from each of the moved instructions on, they are left in the same way exactly
      when none of them can branch to the overwritten bytes or into the trampoline; for direct branches
      that shows in the instruction (`CanEnterExact`). */
  lemma TrampolineExact(before: Memory, after: Memory, f: Semantics, src: bv64, lo: bv64)
    requires Aligned4(src) && Aligned4(lo) && Apart(MoveOf(before, after, f, src, lo))
    requires AllMovable(before, after, f, src, lo, Prologue(before, src, JUMP_WORDS))
    requires Placed(after, lo, Plus(lo, 128), lo, TrampolineCode(before, src, lo, Prologue(before, src, JUMP_WORDS), Remain(src)))
    requires !Inside(lo, Plus(lo, 128), Remain(src))
    ensures var m, block := Machine(before, f), Prologue(before, src, JUMP_WORDS);
            SameExits(MoveOf(before, after, f, src, lo), src, lo, block)
            <==> !SomeEnters(m, block, src, src, Remain(src)) && !SomeEnters(m, block, src, lo, Plus(lo, 128))
  {
    hide Aligned4, Placed, CopyBlock, EndOf, Plus, TrampolineCode, AllMovable, LiteralAt, Prologue, Remain, Ready, SameExits, Inside, SomeEnters, Apart;
    TrampolineReady(before, after, f, src, lo);
    ExitsExact(MoveOf(before, after, f, src, lo), src, lo, Prologue(before, src, JUMP_WORDS));
  }
}
