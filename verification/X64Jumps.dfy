/** The x64 jumps that patch a function and leave a trampoline, how far they reach, and how a jump is
    moved with the code that holds it. */
module X64Jumps {

  import opened MachineWords

  // Where the parts of a trampoline lie in it.
  const SIZE_OF_CODE := 30
  const PB_REMAIN := 72
  const PB_DETOUR := 80
  const RB_CODE_IN := 88

  // ------------------------------------------------------------------ the generated jumps

  const SIZE_OF_JMP := 5

  /** `jmp rel32` at `at` to `to`. */
  function JmpImmediate(at: address, to: address): (s: seq<byte>)
    ensures |s| == SIZE_OF_JMP
  {
    [0xe9] + Le32(to - (at + 5))
  }

  /** `jmp [rip + rel32]` at `at` through the pointer at `cell`. */
  function JmpIndirect(at: address, cell: address): (s: seq<byte>)
    ensures |s| == 6
  {
    [0xff, 0x25] + Le32(cell - (at + 6))
  }

  /** Where the jump in `code` at `at` goes; the pointers that an indirect jump reads are `cells`. */
  function JumpGoes(at: address, code: seq<byte>, cells: address -> address): (to: address)
    requires |code| >= 6 || (|code| == 5 && code[0] == 0xe9)
  {
    if code[0] == 0xe9 then Wrap64(at + 5 + FromLe32(code[1..5]))
    else if code[0] == 0xff && code[1] == 0x25 then cells(Wrap64(at + 6 + FromLe32(code[2..6])))
    else at
  }

  lemma SignedSplit(e: int) returns (k: int)
    ensures e == Signed64(e) + TWO64 * k && -TWO63 <= Signed64(e) < TWO63
  {
    k := (e - Signed64(e)) / TWO64;
  }

  lemma SignedUnique(e: int, n: int, k: int)
    requires e == n + TWO64 * k && -TWO63 <= n < TWO63
    ensures Signed64(e) == n
  {
    assert e % TWO64 == n % TWO64;
  }

  lemma WrapSplit(n: int) returns (k: int)
    ensures n == Wrap64(n) + TWO64 * k
  {
    k := n / TWO64;
  }

  /** Addresses `base + d` and `to` agree modulo 2^64, for a displacement `d` that agrees with the true
      distance in its low 32 bits, exactly when the true distance fits. */
  lemma DisplacementLands(base: int, d: int, to: address)
    requires d % TWO32 == (to - base) % TWO32 && FitsInt32(d)
    ensures Wrap64(base + d) == to <==> FitsInt32(Signed64(to - base))
  {
    var k := SignedSplit(to - base);
    var j := WrapSplit(base + d);
    if Wrap64(base + d) == to {
      SignedUnique(to - base, d, -j);
    }
    if FitsInt32(Signed64(to - base)) {
      assert d == Signed64(to - base);
    }
  }

  /** A generated direct jump goes where it should exactly when the distance fits 32 bits. */
  lemma JmpImmediateLands(at: address, to: address, cells: address -> address)
    ensures JumpGoes(at, JmpImmediate(at, to), cells) == to <==> FitsInt32(Signed64(to - (at + 5)))
  {
    Le32Exact(to - (at + 5));
    var code := JmpImmediate(at, to);
    assert code[1..5] == Le32(to - (at + 5));
    DisplacementLands(at + 5, FromLe32(Le32(to - (at + 5))), to);
  }

  /** A generated indirect jump reads the right pointer whenever the distance fits 32 bits. */
  lemma JmpIndirectLands(at: address, cell: address, cells: address -> address)
    requires FitsInt32(Signed64(cell - (at + 6)))
    ensures JumpGoes(at, JmpIndirect(at, cell), cells) == cells(cell)
  {
    Le32Exact(cell - (at + 6));
    var code := JmpIndirect(at, cell);
    assert code[2..6] == Le32(cell - (at + 6));
    DisplacementLands(at + 6, FromLe32(Le32(cell - (at + 6))), cell);
  }

  // ------------------------------------------------------------------ moved jumps

  /** The displacement of an instruction moved from `src` to `dst`, before it is stored in 32 bits. */
  function Adjusted(offset: int, src: address, dst: address): int { Signed64(offset - Signed64(dst - src)) }

  lemma LowWord(n: int, k: int)
    ensures (n + TWO64 * k) % TWO32 == n % TWO32
  {
    LowWordPlus(n, TWO32 * k);
  }

  lemma LowWordPlus(n: int, m: int)
    ensures (n + TWO32 * m) % TWO32 == n % TWO32
  {}

  lemma StoredLands(dst: address, size: nat, n: int, to: address, k: int)
    requires to - (dst + size) == n + TWO64 * k && -TWO63 <= n < TWO63
    ensures Wrap64(dst + size + FromLe32(Le32(n))) == to <==> FitsInt32(n)
  {
    hide FromLe32, Le32, FitsInt32, Wrap64, Signed64;
    Le32Exact(n);
    LowWord(n, k);
    SignedUnique(to - (dst + size), n, k);
    DisplacementLands(dst + size, FromLe32(Le32(n)), to);
  }

  /** An instruction of `size` bytes whose displacement ends it, moved: it refers to the same address
      exactly when the adjusted displacement fits. */
  lemma AdjustTargetExact(src: address, dst: address, size: nat, offset: int)
    ensures Wrap64(dst + size + FromLe32(Le32(Adjusted(offset, src, dst)))) == Wrap64(src + size + offset)
       <==> FitsInt32(Adjusted(offset, src, dst))
  {
    hide FromLe32, Le32, FitsInt32, Wrap64, Signed64;
    var to, n := Wrap64(src + size + offset), Adjusted(offset, src, dst);
    var j := WrapSplit(src + size + offset);
    var k := SignedSplit(dst - src);
    var i := SignedSplit(offset - Signed64(dst - src));
    StoredLands(dst, size, n, to, i - k - j);
  }

  /** A short jump of two bytes becomes one of `size` bytes with a 32-bit displacement. */
  function Enlarged(offset: int, src: address, dst: address, size: nat): int {
    Signed64(offset - (Signed64(dst - src) + size - 2))
  }

  lemma CopyBytesJumpExact(src: address, dst: address, size: nat, offset: int)
    requires 2 <= size
    ensures Wrap64(dst + size + FromLe32(Le32(Enlarged(offset, src, dst, size)))) == Wrap64(src + 2 + offset)
       <==> FitsInt32(Enlarged(offset, src, dst, size))
  {
    hide FromLe32, Le32, FitsInt32, Wrap64, Signed64;
    var to, n := Wrap64(src + 2 + offset), Enlarged(offset, src, dst, size);
    var j := WrapSplit(src + 2 + offset);
    var k := SignedSplit(dst - src);
    var i := SignedSplit(offset - (Signed64(dst - src) + size - 2));
    StoredLands(dst, size, n, to, i - k - j);
  }
}
