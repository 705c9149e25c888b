/** The copier as it works in place: it writes instruction words through an advancing position in the
    destination and records the target of a branch. Each method is proved to write exactly the words
    that the relocation theorems are about. */
module Arm64CDetourDis {
  import opened Arm64Isa
  import opened Arm64Assembler
  import opened Arm64MovImmediate
  import opened Arm64Copier
  import opened Arm64Relocation
  import opened Arm64Trampoline
  import opened Arm64MovedBlock

  /** `after` is `before` with `words` written from position `at` on. */
  predicate Wrote(before: seq<bv32>, after: seq<bv32>, at: nat, words: seq<bv32>) {
    at + |words| <= |before| && after == before[..at] + words + before[at + |words|..]
  }

  lemma WroteMore(a: seq<bv32>, b: seq<bv32>, c: seq<bv32>, at: nat, first: seq<bv32>, second: seq<bv32>)
    requires Wrote(a, b, at, first) && Wrote(b, c, at + |first|, second)
    ensures Wrote(a, c, at, first + second)
  {
    assert c == a[..at] + (first + second) + a[at + |first + second|..];
  }

  lemma MovPiecesNone(rd: bv5, imm: bv64, default: bv16, first: bool)
    ensures MovPieces(rd, imm, default, 0, first) == []
  {}

  lemma WroteNone(a: seq<bv32>, at: nat)
    requires at <= |a|
    ensures Wrote(a, a, at, [])
  {}

  lemma MovedOver(written: seq<bv32>, word: bv32, rest: seq<bv32>)
    ensures written + ([word] + rest) == (written + [word]) + rest && |written + [word]| == |written| + 1
  {}

  class CDetourDis {
    var target: bv64

    constructor ()
      ensures target == 0
    {
      target := 0;
    }

    method EmitInstruction(dst: array<bv32>, at: nat, instruction: bv32) returns (next: nat)
      requires at < dst.Length
      modifies dst
      ensures next == at + 1 && Wrote(old(dst[..]), dst[..], at, [instruction])
    {
      dst[at] := instruction;
      next := at + 1;
    }

    /** MOVN or MOVZ for the first piece that is emitted, MOVK for the others. */
    method EmitPiece(dst: array<bv32>, at: nat, rd: bv5, piece: bv16, hw: bv2, default: bv16, first: bool) returns (next: nat)
      requires at < dst.Length
      modifies dst
      ensures next == at + 1 && Wrote(old(dst[..]), dst[..], at, [MovWord(rd, piece, hw, default, first)])
    {
      hide Wrote, AssembleMovn64, AssembleMovz64, AssembleMovk64;
      if first {
        if default == 0xffff {
          next := EmitInstruction(dst, at, AssembleMovn64(rd, piece ^ 0xffff, hw));
        } else {
          next := EmitInstruction(dst, at, AssembleMovz64(rd, piece, hw));
        }
      } else {
        next := EmitInstruction(dst, at, AssembleMovk64(rd, piece, hw));
      }
    }

    /** The synthesis loop, from the highest piece down. */
    method EmitMovImmediate(dst: array<bv32>, at: nat, rd: bv5, immediate: bv64) returns (next: nat)
      requires at + 4 <= dst.Length
      modifies dst
      ensures next == at + |MovImmediate(rd, immediate)|
      ensures Wrote(old(dst[..]), dst[..], at, MovImmediate(rd, immediate))
    {
      hide Wrote, Piece, Shift, AssembleMovn32, MovWord, MovPieces, DefaultPiece;
      if Piece(immediate, 3) == 0 && Piece(immediate, 2) == 0 && Piece(immediate, 1) == 0xffff {
        next := EmitInstruction(dst, at, AssembleMovn32(rd, Piece(immediate, 0) ^ 0xffff, 0));
      } else {
        var default := DefaultPiece(immediate);
        var first := true;
        next := at;
        ghost var written: seq<bv32> := [];
        var n := 4;
        WroteNone(dst[..], at);
        assert [] + MovPieces(rd, immediate, default, 4, true) == MovImmediate(rd, immediate);
        while n > 0
          invariant n <= 4
          invariant written + MovPieces(rd, immediate, default, n, first) == MovImmediate(rd, immediate)
          invariant next == at + |written| && Wrote(old(dst[..]), dst[..], at, written)
        {
          ghost var before := dst[..];
          var current := Piece(immediate, n - 1);
          MovPiecesUnfold(rd, immediate, default, n, first);
          if current != default || (n == 1 && first) {
            next := EmitPiece(dst, next, rd, current, Shift(n - 1), default, first);
            ghost var word := MovWord(rd, current, Shift(n - 1), default, first);
            WroteMore(old(dst[..]), before, dst[..], at, written, [word]);
            MovedOver(written, word, MovPieces(rd, immediate, default, n - 1, false));
            first := false;
            written := written + [word];
          }
          n := n - 1;
        }
        MovPiecesNone(rd, immediate, default, first);
        assert written + [] == written;
      }
    }

    method CopyAdr(src: bv64, dst: array<bv32>, at: nat, dest: bv64, instruction: bv32) returns (next: nat)
      requires at + 4 <= dst.Length
      modifies dst
      ensures next == at + |Arm64Copier.CopyAdr(src, dest, instruction)|
      ensures Wrote(old(dst[..]), dst[..], at, Arm64Copier.CopyAdr(src, dest, instruction))
    {
      hide Wrote, Fits, AssembleAdr19, AssembleAdd32, AdrTarget, AdrpTarget, PageDelta, PageOffset, Minus, Low32, MovImmediate, Reg0;
      var rd := Reg0(instruction);
      if instruction >> 31 == 0 {
        var t := AdrTarget(src, instruction);
        if Fits(Minus(t, dest), HALF_ADR) {
          next := EmitInstruction(dst, at, AssembleAdr19(0, rd, Low32(Minus(t, dest))));
        } else if Fits(PageDelta(t, dest), HALF_ADR) {
          next := EmitPair(dst, at, AssembleAdr19(1, rd, Low32(PageDelta(t, dest))), AssembleAdd32(rd, rd, PageOffset(t), 0));
        } else {
          next := EmitMovImmediate(dst, at, rd, t);
        }
      } else {
        var t := AdrpTarget(src, instruction);
        if Fits(PageDelta(t, dest), HALF_ADR) {
          next := EmitInstruction(dst, at, AssembleAdr19(1, rd, Low32(PageDelta(t, dest))));
        } else {
          next := EmitMovImmediate(dst, at, rd, t);
        }
      }
    }

    /** The three forms that the copiers of B.cond, CBZ/CBNZ and TBZ/TBNZ choose from. */
    method EmitConditional(dst: array<bv32>, at: nat, dest: bv64, t: bv64, half: bv64, near: bv32, inverted: bv32) returns (next: nat)
      requires at + 6 <= dst.Length
      modifies dst
      ensures next == at + |Conditional(t, dest, half, near, inverted)|
      ensures Wrote(old(dst[..]), dst[..], at, Conditional(t, dest, half, near, inverted))
    {
      hide Wrote, Fits, AssembleBranch, AssembleBr, Minus, Plus, Low32, MovImmediate;
      if Fits(Minus(t, dest), half) {
        next := EmitInstruction(dst, at, near);
      } else if Fits(Minus(t, Plus(dest, 4)), HALF_BRANCH) {
        var jump := AssembleBranch(false, Low32(Minus(t, Plus(dest, 4))));
        next := EmitPair(dst, at, inverted, jump);
      } else {
        var mid := EmitMovImmediate(dst, at, SCRATCH, t);
        ghost var before := dst[..];
        next := EmitPair(dst, mid, inverted, AssembleBr(SCRATCH, false));
        WroteMore(old(dst[..]), before, dst[..], at, MovImmediate(SCRATCH, t), [inverted, AssembleBr(SCRATCH, false)]);
      }
    }

    method EmitPair(dst: array<bv32>, at: nat, first: bv32, second: bv32) returns (next: nat)
      requires at + 2 <= dst.Length
      modifies dst
      ensures next == at + 2 && Wrote(old(dst[..]), dst[..], at, [first, second])
    {
      var mid := EmitInstruction(dst, at, first);
      ghost var before := dst[..];
      next := EmitInstruction(dst, mid, second);
      WroteMore(old(dst[..]), before, dst[..], at, [first], [second]);
    }

    method CopyBcc(src: bv64, dst: array<bv32>, at: nat, dest: bv64, instruction: bv32) returns (next: nat)
      requires at + 6 <= dst.Length
      modifies dst, `target
      ensures next == at + |Arm64Copier.CopyBcc(src, dest, instruction)|
      ensures Wrote(old(dst[..]), dst[..], at, Arm64Copier.CopyBcc(src, dest, instruction))
      ensures target == Target19(src, instruction)
    {
      hide Wrote, Target19, AssembleBcc, Conditional, Minus, Low32, Cond;
      target := Target19(src, instruction);
      next := EmitConditional(dst, at, dest, target, HALF_ADR,
                              AssembleBcc(Cond(instruction), Low32(Minus(target, dest))), AssembleBcc(Cond(instruction) ^ 1, 8));
    }

    method CopyBranch(src: bv64, dst: array<bv32>, at: nat, dest: bv64, instruction: bv32, link: bool) returns (next: nat)
      requires at + 5 <= dst.Length
      modifies dst, `target
      ensures next == at + |Arm64Copier.CopyBranch(src, dest, instruction, link)|
      ensures Wrote(old(dst[..]), dst[..], at, Arm64Copier.CopyBranch(src, dest, instruction, link))
      ensures target == Target26(src, instruction)
    {
      hide Wrote, Target26, AssembleBranch, AssembleBr, Minus, Low32, Fits, MovImmediate;
      target := Target26(src, instruction);
      if Fits(Minus(target, dest), HALF_BRANCH) {
        next := EmitInstruction(dst, at, AssembleBranch(link, Low32(Minus(target, dest))));
      } else {
        var mid := EmitMovImmediate(dst, at, SCRATCH, target);
        ghost var before := dst[..];
        next := EmitInstruction(dst, mid, AssembleBr(SCRATCH, link));
        WroteMore(old(dst[..]), before, dst[..], at, MovImmediate(SCRATCH, target), [AssembleBr(SCRATCH, link)]);
      }
    }

    method CopyCbz(src: bv64, dst: array<bv32>, at: nat, dest: bv64, instruction: bv32) returns (next: nat)
      requires at + 6 <= dst.Length
      modifies dst, `target
      ensures next == at + |Arm64Copier.CopyCbz(src, dest, instruction)|
      ensures Wrote(old(dst[..]), dst[..], at, Arm64Copier.CopyCbz(src, dest, instruction))
      ensures target == Target19(src, instruction)
    {
      hide Wrote, Target19, AssembleCbz, Conditional, Minus, Low32, Size, Nz, Reg0;
      target := Target19(src, instruction);
      var size, nz, rt := Size(instruction), Nz(instruction), Reg0(instruction);
      next := EmitConditional(dst, at, dest, target, HALF_ADR,
                              AssembleCbz(size, nz, rt, Low32(Minus(target, dest))), AssembleCbz(size, nz ^ 1, rt, 8));
    }

    method CopyTbz(src: bv64, dst: array<bv32>, at: nat, dest: bv64, instruction: bv32) returns (next: nat)
      requires at + 6 <= dst.Length
      modifies dst, `target
      ensures next == at + |Arm64Copier.CopyTbz(src, dest, instruction)|
      ensures Wrote(old(dst[..]), dst[..], at, Arm64Copier.CopyTbz(src, dest, instruction))
      ensures target == Target14(src, instruction)
    {
      hide Wrote, Target14, AssembleTbz, Conditional, Minus, Low32, Size, Nz, Reg0, Bit;
      target := Target14(src, instruction);
      var size, nz, rt, bit := Size(instruction), Nz(instruction), Reg0(instruction), Bit(instruction);
      next := EmitConditional(dst, at, dest, target, HALF_TBZ,
                              AssembleTbz(size, nz, rt, bit, Low32(Minus(target, dest))), AssembleTbz(size, nz ^ 1, rt, bit, 8));
    }

    method CopyLdrLiteral(mem: Memory, src: bv64, dst: array<bv32>, at: nat, dest: bv64, instruction: bv32) returns (next: nat)
      requires at + 5 <= dst.Length
      modifies dst
      ensures next == at + |Arm64Copier.CopyLdrLiteral(mem, src, dest, instruction)|
      ensures Wrote(old(dst[..]), dst[..], at, Arm64Copier.CopyLdrLiteral(mem, src, dest, instruction))
    {
      hide Wrote, Target19, AssembleLdrLit, ScratchLoad, Minus, Low32, Fits, MovImmediate, LiteralValue, LiteralSize, FpNeon, Reg0;
      var t := Target19(src, instruction);
      var size, rt := LiteralSize(instruction), Reg0(instruction);
      if Fits(Minus(t, dest), HALF_LITERAL) {
        next := EmitInstruction(dst, at, AssembleLdrLit(size, FpNeon(instruction), rt, Low32(Minus(t, dest))));
      } else if FpNeon(instruction) == 0 {
        next := EmitMovImmediate(dst, at, rt, LiteralValue(mem, size, t));
      } else {
        var mid := EmitMovImmediate(dst, at, SCRATCH, t);
        ghost var before := dst[..];
        next := EmitInstruction(dst, mid, ScratchLoad(size, rt));
        WroteMore(old(dst[..]), before, dst[..], at, MovImmediate(SCRATCH, t), [ScratchLoad(size, rt)]);
      }
    }

    /** Copies the instruction at `src` to position `at`; `extra` is the growth in bytes. */
    method CopyInstruction(mem: Memory, src: bv64, dst: array<bv32>, at: nat, dest: bv64) returns (next: nat, extra: int)
      requires at + 6 <= dst.Length
      modifies dst, `target
      ensures next == at + |CopyWords(mem, src, dest, mem(src))| && extra == 4 * (next - at) - 4
      ensures Wrote(old(dst[..]), dst[..], at, CopyWords(mem, src, dest, mem(src)))
      ensures old(target) == 0 ==> target == ReportedTarget(src, mem(src))
    {
      hide Wrote, Arm64Copier.CopyAdr, Arm64Copier.CopyBcc, Arm64Copier.CopyBranch, Arm64Copier.CopyCbz, Arm64Copier.CopyTbz, Arm64Copier.CopyLdrLiteral,
        Target14, Target19, Target26;
      var i := mem(src);
      if i & 0x1f00_0000 == 0x1000_0000 {
        next := CopyAdr(src, dst, at, dest, i);
      } else if i & 0xff00_0010 == 0x5400_0000 {
        next := CopyBcc(src, dst, at, dest, i);
      } else if i & 0x7c00_0000 == 0x1400_0000 {
        next := CopyBranch(src, dst, at, dest, i, i & 0x8000_0000 != 0);
      } else if i & 0x7e00_0000 == 0x3400_0000 {
        next := CopyCbz(src, dst, at, dest, i);
      } else if i & 0x7e00_0000 == 0x3600_0000 {
        next := CopyTbz(src, dst, at, dest, i);
      } else if i & 0x3b00_0000 == 0x1800_0000 {
        next := CopyLdrLiteral(mem, src, dst, at, dest, i);
      } else {
        next := EmitInstruction(dst, at, i);
      }
      extra := 4 * (next - at) - 4;
    }
  }

  lemma PrologueCons(mem: Memory, pc: bv64, count: nat)
    requires count > 0
    ensures Prologue(mem, pc, count) == [mem(pc)] + (if EndsFunction(mem(pc)) then [] else Prologue(mem, Plus(pc, 4), count - 1))
  {
    hide EndsFunction, Plus;
  }

  lemma CopyBlockNone(mem: Memory, src: bv64, dest: bv64)
    ensures CopyBlock(mem, src, dest, []) == []
  {}

  lemma PrologueNone(mem: Memory, pc: bv64)
    ensures Prologue(mem, pc, 0) == []
  {}

  /** What is still to be copied, from `pbSrc` to `dest`, completes what has been copied. */
  ghost predicate Underway(mem: Memory, src: bv64, lo: bv64, block: seq<bv32>, pbSrc: bv64, dest: bv64, code: seq<bv32>, left: seq<bv32>) {
    && code + CopyBlock(mem, pbSrc, dest, left) == CopyBlock(mem, src, lo, block)
    && EndOf(dest, CopyBlock(mem, pbSrc, dest, left)) == EndOf(lo, CopyBlock(mem, src, lo, block))
    && EndOf(pbSrc, left) == EndOf(src, block)
  }

  lemma UnderwayFirst(mem: Memory, src: bv64, lo: bv64, block: seq<bv32>)
    ensures Underway(mem, src, lo, block, src, lo, [], block)
  {
    hide CopyBlock, EndOf;
    assert [] + CopyBlock(mem, src, lo, block) == CopyBlock(mem, src, lo, block);
  }

  lemma UnderwayNext(mem: Memory, src: bv64, lo: bv64, block: seq<bv32>, pbSrc: bv64, dest: bv64, code: seq<bv32>, left: seq<bv32>)
    requires left != [] && left[0] == mem(pbSrc) && Underway(mem, src, lo, block, pbSrc, dest, code, left)
    ensures var words := CopyWords(mem, pbSrc, dest, mem(pbSrc));
            Underway(mem, src, lo, block, Plus(pbSrc, 4), EndOf(dest, words), code + words, left[1..])
  {
    hide CopyWords, CopyBlock, EndOf, Plus;
    var words := CopyWords(mem, pbSrc, dest, mem(pbSrc));
    var rest := CopyBlock(mem, Plus(pbSrc, 4), EndOf(dest, words), left[1..]);
    assert left == [mem(pbSrc)] + left[1..];
    EndOfCons(pbSrc, mem(pbSrc), left[1..]);
    CopyBlockCons(mem, pbSrc, dest, left);
    EndOfConcat(dest, words, rest);
    assert code + (words + rest) == (code + words) + rest;
  }

  lemma UnderwayLast(mem: Memory, src: bv64, lo: bv64, block: seq<bv32>, pbSrc: bv64, dest: bv64, code: seq<bv32>)
    requires Underway(mem, src, lo, block, pbSrc, dest, code, [])
    ensures code == CopyBlock(mem, src, lo, block) && dest == EndOf(lo, code) && pbSrc == EndOf(src, block)
  {
    hide CopyBlock, EndOf;
    CopyBlockNone(mem, pbSrc, dest);
    EndOfNone(dest);
    EndOfNone(pbSrc);
    assert code + [] == code;
  }

  /** The attach loop: copies instructions into `rbCode` until the patch has room or the function ends. */
  method MovePrologue(mem: Memory, src: bv64, lo: bv64, rbCode: array<bv32>) returns (count: nat, pbSrc: bv64, at: nat, dest: bv64)
    requires rbCode.Length == CODE_WORDS
    modifies rbCode
    ensures count == |Prologue(mem, src, JUMP_WORDS)| <= JUMP_WORDS && pbSrc == Forward(src, count) && at <= 6 * count
    ensures rbCode[..at] == CopyBlock(mem, src, lo, Prologue(mem, src, JUMP_WORDS))
    ensures dest == EndOf(lo, rbCode[..at]) && pbSrc == EndOf(src, Prologue(mem, src, JUMP_WORDS))
  {
    hide Prologue, CopyBlock, CopyWords, Plus, EndsFunction, EndOf, Underway, ReportedTarget, Wrote;
    ghost var block := Prologue(mem, src, JUMP_WORDS);
    ghost var left, code := block, [];
    pbSrc, at, dest := src, 0, lo;
    var ended := false;
    count := 0;
    UnderwayFirst(mem, src, lo, block);
    while count < JUMP_WORDS && !ended
      invariant count <= JUMP_WORDS && at == |code| <= 6 * count
      invariant left == if ended then [] else Prologue(mem, pbSrc, JUMP_WORDS - count)
      invariant count + |left| == |block|
      invariant rbCode[..at] == code
      invariant pbSrc == Forward(src, count)
      invariant Underway(mem, src, lo, block, pbSrc, dest, code, left)
      decreases JUMP_WORDS - count, !ended
    {
      ghost var words := CopyWords(mem, pbSrc, dest, mem(pbSrc));
      PrologueCons(mem, pbSrc, JUMP_WORDS - count);
      UnderwayNext(mem, src, lo, block, pbSrc, dest, code, left);
      ghost var before := rbCode[..];
      var dis := new CDetourDis();
      var next, extra := dis.CopyInstruction(mem, pbSrc, rbCode, at, dest);
      WrotePart(before, rbCode[..], at, words);
      dest := EndOf(dest, rbCode[at..next]);
      code := code + words;
      ended := EndsFunction(mem(pbSrc));
      left := left[1..];
      pbSrc := Plus(pbSrc, 4);
      at := next;
      count := count + 1;
    }
    PrologueNone(mem, pbSrc);
    UnderwayLast(mem, src, lo, block, pbSrc, dest, code);
  }

  /** Moves the beginning of a function, skips padding for the rest of the room, then writes the tail jump,
      the filler and the literal. It fails exactly when the patch would overwrite more of what follows the
      function than padding; otherwise the array ends up holding the words that `TrampolineRefinesBlock` is
      about. */
  method MoveBlock(mem: Memory, src: bv64, lo: bv64, rbCode: array<bv32>) returns (ok: bool, remain: bv64)
    requires rbCode.Length == CODE_WORDS
    modifies rbCode
    ensures ok <==> OnlyPaddingBehind(mem, src)
    ensures ok ==> remain == Remain(src)
    ensures ok ==> rbCode[..] == TrampolineCode(mem, src, lo, Prologue(mem, src, JUMP_WORDS), Remain(src))
  {
    hide Prologue, CopyBlock, Plus, TailJump, Low32, High32, EndOf, Repeat, LiteralAt, BREAK, Remain, Fillers, OnlyPaddingBehind;
    RoomExact(mem, src);
    var count, pbSrc, at, dest := MovePrologue(mem, src, lo, rbCode);
    ghost var code := rbCode[..at];
    var room;
    room, remain := SkipFiller(mem, src, count, pbSrc);
    ok := room == JUMP_WORDS;
    if ok {
      ForwardRemain(src);
      FinishTrampoline(rbCode, at, dest, lo, remain, code);
    }
  }

  /** `count` instructions further on. */
  function Forward(src: bv64, count: nat): bv64 {
    if count == 0 then src else Plus(Forward(src, count - 1), 4)
  }

  lemma ForwardRemain(src: bv64)
    ensures Forward(src, JUMP_WORDS) == Remain(src)
  {
    assert Forward(src, 3) == Plus(Forward(src, 2), 4) && Forward(src, 2) == Plus(Forward(src, 1), 4) && Forward(src, 1) == Plus(Forward(src, 0), 4);
    hide Forward, Plus, Remain;
    InsideRemain(src);
  }

  lemma FillersStep(mem: Memory, src: bv64, count: nat)
    ensures count == 0 ==> Fillers(mem, src, count) == 0
    ensures count > 0 ==> Fillers(mem, src, count) == if IsFiller(mem(src)) then 1 + Fillers(mem, Plus(src, 4), count - 1) else 0
  {
    hide IsFiller, Plus;
  }

  /** Consumes padding while the patch needs more room. */
  method SkipFiller(mem: Memory, src: bv64, count: nat, from: bv64) returns (room: nat, pbSrc: bv64)
    requires count <= JUMP_WORDS && from == Forward(src, count)
    ensures room == count + Fillers(mem, from, JUMP_WORDS - count)
    ensures pbSrc == Forward(src, room)
  {
    hide Fillers, IsFiller, Plus;
    room, pbSrc := count, from;
    while room < JUMP_WORDS && IsFiller(mem(pbSrc))
      invariant count <= room <= JUMP_WORDS && pbSrc == Forward(src, room)
      invariant room + Fillers(mem, pbSrc, JUMP_WORDS - room) == count + Fillers(mem, from, JUMP_WORDS - count)
    {
      FillersStep(mem, pbSrc, JUMP_WORDS - room);
      pbSrc := Plus(pbSrc, 4);
      room := room + 1;
    }
    FillersStep(mem, pbSrc, JUMP_WORDS - room);
  }

  lemma WrotePart(before: seq<bv32>, after: seq<bv32>, at: nat, words: seq<bv32>)
    requires Wrote(before, after, at, words)
    ensures at + |words| <= |after| && after[at..at + |words|] == words && after[..at + |words|] == before[..at] + words
  {}

  method FinishTrampoline(rbCode: array<bv32>, at: nat, tail: bv64, lo: bv64, remain: bv64, ghost code: seq<bv32>)
    requires rbCode.Length == CODE_WORDS && at == |code| <= 18 && rbCode[..at] == code
    modifies rbCode
    ensures rbCode[..] == code + TailJump(tail, LiteralAt(lo)) + Repeat(BREAK, CODE_WORDS - 4 - |code|) + [Low32(remain), High32(remain)]
  {
    hide TailJump, Low32, High32, LiteralAt, Repeat, BREAK;
    var jump := TailJump(tail, LiteralAt(lo));
    TailJumpLength(tail, LiteralAt(lo));
    rbCode[at], rbCode[at + 1] := jump[0], jump[1];
    rbCode[30], rbCode[31] := Low32(remain), High32(remain);
    assert rbCode[at..at + 2] == jump;
    ghost var front, back := rbCode[..at + 2], rbCode[30..];
    assert front == code + jump && back == [Low32(remain), High32(remain)];
    GenBreak(rbCode, at + 2, 30);
    assert rbCode[..] == rbCode[..at + 2] + rbCode[at + 2..30] + rbCode[30..];
  }

  /** Break instructions from position `from` up to `limit`. */
  method GenBreak(rbCode: array<bv32>, from: nat, limit: nat)
    requires from <= limit <= rbCode.Length
    modifies rbCode
    ensures rbCode[..from] == old(rbCode[..from]) && rbCode[limit..] == old(rbCode[limit..])
    ensures rbCode[from..limit] == Repeat(BREAK, limit - from)
  {
    hide BREAK;
    var n := from;
    while n < limit
      invariant from <= n <= limit
      invariant rbCode[..from] == old(rbCode[..from]) && rbCode[limit..] == old(rbCode[limit..])
      invariant rbCode[from..n] == Repeat(BREAK, n - from)
    {
      rbCode[n] := BREAK;
      RepeatSnoc(BREAK, n - from);
      assert rbCode[from..n + 1] == rbCode[from..n] + [BREAK];
      n := n + 1;
    }
  }

  lemma TailJumpLength(pc: bv64, literal: bv64)
    ensures |TailJump(pc, literal)| == 2
  {
    hide Low32, Minus;
  }

  lemma {:induction false} RepeatSnoc(word: bv32, n: nat)
    ensures Repeat(word, n + 1) == Repeat(word, n) + [word]
  {
    if n > 0 {
      RepeatSnoc(word, n - 1);
    }
  }
}
