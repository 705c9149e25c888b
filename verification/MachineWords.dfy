/** Bytes, 64-bit addresses written as numbers below 2^64, and 32-bit words in memory. */
module MachineWords {

  const TWO31 := 0x8000_0000
  const TWO32 := 0x1_0000_0000
  const TWO63 := 0x8000_0000_0000_0000
  const TWO64 := 0x1_0000_0000_0000_0000

  type byte = b: int | 0 <= b < 256
  type address = a: int | 0 <= a < TWO64

  function Wrap64(n: int): address { n % TWO64 }

  /** The difference of two pointers. */
  function Signed64(n: int): int { if n % TWO64 < TWO63 then n % TWO64 else n % TWO64 - TWO64 }

  predicate FitsInt32(n: int) { -TWO31 <= n < TWO31 }

  // ------------------------------------------------------------------ 32-bit displacements

  function Le32(n: int): (s: seq<byte>)
    ensures |s| == 4
  {
    WordBytes(n % TWO32)
  }

  function WordBytes(w: nat): (s: seq<byte>)
    requires w < TWO32
    ensures |s| == 4
  {
    [w % 0x100, w / 0x100 % 0x100, w / 0x1_0000 % 0x100, w / 0x100_0000]
  }

  /** The value of four bytes, the least significant first. */
  function U32(s: seq<byte>): (n: nat)
    requires |s| == 4
    ensures n < TWO32
  {
    s[0] as int + 0x100 * s[1] as int + 0x1_0000 * s[2] as int + 0x100_0000 * s[3] as int
  }

  /** The signed value of four bytes. */
  function FromLe32(s: seq<byte>): int
    requires |s| == 4
  {
    if U32(s) < TWO31 then U32(s) else U32(s) - TWO32
  }

  lemma U32Word(w: nat)
    requires w < TWO32
    ensures U32(WordBytes(w)) == w
  {
    BytesOf(w);
  }

  lemma BytesOf(w: int)
    requires 0 <= w < TWO32
    ensures w == w % 0x100 + 0x100 * (w / 0x100 % 0x100) + 0x1_0000 * (w / 0x1_0000 % 0x100) + 0x100_0000 * (w / 0x100_0000)
  {}

  lemma U32Le32(n: nat)
    requires n < TWO32
    ensures U32(Le32(n)) == n
  {
    hide WordBytes, U32;
    U32Word(n);
  }

  /** Storing a displacement truncates it to 32 bits: it is read back exactly when it fits. */
  lemma Le32Exact(n: int)
    ensures FromLe32(Le32(n)) % TWO32 == n % TWO32 && FitsInt32(FromLe32(Le32(n)))
    ensures FromLe32(Le32(n)) == n <==> FitsInt32(n)
  {
    hide WordBytes, U32;
    U32Word(n % TWO32);
  }

  /** Eight bytes, the least significant first. */
  function Le64(n: nat): (s: seq<byte>)
    ensures |s| == 8
  {
    Le32(n) + Le32(n / TWO32)
  }

  lemma Le32Low(n: int)
    ensures Le32(n) == Le32(n % TWO32)
  {
    hide WordBytes;
  }

  lemma U64Le64(n: nat)
    requires n < TWO64
    ensures U32(Le64(n)[..4]) + TWO32 * U32(Le64(n)[4..]) == n
  {
    hide U32, Le32;
    assert Le64(n)[..4] == Le32(n) && Le64(n)[4..] == Le32(n / TWO32);
    Le32Low(n);
    U32Le32(n % TWO32);
    U32Le32(n / TWO32);
  }

  function Zeros(n: nat): (s: seq<byte>)
    ensures |s| == n
  {
    seq(n, _ => 0)
  }
}
