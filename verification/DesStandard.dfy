/** The data encryption standard as FIPS PUB 46-3 states it: over sequences of bits, numbered from one at the
    left. */
module DesStandard {

  type Bits = seq<bool>

  // ------------------------------------------------------------------ its tables

  const IP: seq<nat> :=
    [58, 50, 42, 34, 26, 18, 10,  2] +
    [60, 52, 44, 36, 28, 20, 12,  4] +
    [62, 54, 46, 38, 30, 22, 14,  6] +
    [64, 56, 48, 40, 32, 24, 16,  8] +
    [57, 49, 41, 33, 25, 17,  9,  1] +
    [59, 51, 43, 35, 27, 19, 11,  3] +
    [61, 53, 45, 37, 29, 21, 13,  5] +
    [63, 55, 47, 39, 31, 23, 15,  7]

  const IP_INVERSE: seq<nat> :=
    [40,  8, 48, 16, 56, 24, 64, 32] +
    [39,  7, 47, 15, 55, 23, 63, 31] +
    [38,  6, 46, 14, 54, 22, 62, 30] +
    [37,  5, 45, 13, 53, 21, 61, 29] +
    [36,  4, 44, 12, 52, 20, 60, 28] +
    [35,  3, 43, 11, 51, 19, 59, 27] +
    [34,  2, 42, 10, 50, 18, 58, 26] +
    [33,  1, 41,  9, 49, 17, 57, 25]

  const E: seq<nat> :=
    [32,  1,  2,  3,  4,  5] +
    [ 4,  5,  6,  7,  8,  9] +
    [ 8,  9, 10, 11, 12, 13] +
    [12, 13, 14, 15, 16, 17] +
    [16, 17, 18, 19, 20, 21] +
    [20, 21, 22, 23, 24, 25] +
    [24, 25, 26, 27, 28, 29] +
    [28, 29, 30, 31, 32,  1]

  const P: seq<nat> :=
    [16,  7, 20, 21] +
    [29, 12, 28, 17] +
    [ 1, 15, 23, 26] +
    [ 5, 18, 31, 10] +
    [ 2,  8, 24, 14] +
    [32, 27,  3,  9] +
    [19, 13, 30,  6] +
    [22, 11,  4, 25]

  const PC1: seq<nat> :=
    [57, 49, 41, 33, 25, 17,  9] +
    [ 1, 58, 50, 42, 34, 26, 18] +
    [10,  2, 59, 51, 43, 35, 27] +
    [19, 11,  3, 60, 52, 44, 36] +
    [63, 55, 47, 39, 31, 23, 15] +
    [ 7, 62, 54, 46, 38, 30, 22] +
    [14,  6, 61, 53, 45, 37, 29] +
    [21, 13,  5, 28, 20, 12,  4]

  const PC2: seq<nat> :=
    [14, 17, 11, 24,  1,  5] +
    [ 3, 28, 15,  6, 21, 10] +
    [23, 19, 12,  4, 26,  8] +
    [16,  7, 27, 20, 13,  2] +
    [41, 52, 31, 37, 47, 55] +
    [30, 40, 51, 45, 33, 48] +
    [44, 49, 39, 56, 34, 53] +
    [46, 42, 50, 36, 29, 32]

  /** How many places the halves of the key are rotated before each round key. */
  const LEFT_SHIFTS: seq<nat> := [1, 1, 2, 2, 2, 2, 2, 2, 1, 2, 2, 2, 2, 2, 2, 1]

  // The selection functions, four rows of sixteen each.
  const SELECTION1: seq<seq<bv4>> := [
    [14,  4, 13,  1,  2, 15, 11,  8,  3, 10,  6, 12,  5,  9,  0,  7],
    [ 0, 15,  7,  4, 14,  2, 13,  1, 10,  6, 12, 11,  9,  5,  3,  8],
    [ 4,  1, 14,  8, 13,  6,  2, 11, 15, 12,  9,  7,  3, 10,  5,  0],
    [15, 12,  8,  2,  4,  9,  1,  7,  5, 11,  3, 14, 10,  0,  6, 13]
  ]

  const SELECTION2: seq<seq<bv4>> := [
    [15,  1,  8, 14,  6, 11,  3,  4,  9,  7,  2, 13, 12,  0,  5, 10],
    [ 3, 13,  4,  7, 15,  2,  8, 14, 12,  0,  1, 10,  6,  9, 11,  5],
    [ 0, 14,  7, 11, 10,  4, 13,  1,  5,  8, 12,  6,  9,  3,  2, 15],
    [13,  8, 10,  1,  3, 15,  4,  2, 11,  6,  7, 12,  0,  5, 14,  9]
  ]

  const SELECTION3: seq<seq<bv4>> := [
    [10,  0,  9, 14,  6,  3, 15,  5,  1, 13, 12,  7, 11,  4,  2,  8],
    [13,  7,  0,  9,  3,  4,  6, 10,  2,  8,  5, 14, 12, 11, 15,  1],
    [13,  6,  4,  9,  8, 15,  3,  0, 11,  1,  2, 12,  5, 10, 14,  7],
    [ 1, 10, 13,  0,  6,  9,  8,  7,  4, 15, 14,  3, 11,  5,  2, 12]
  ]

  const SELECTION4: seq<seq<bv4>> := [
    [ 7, 13, 14,  3,  0,  6,  9, 10,  1,  2,  8,  5, 11, 12,  4, 15],
    [13,  8, 11,  5,  6, 15,  0,  3,  4,  7,  2, 12,  1, 10, 14,  9],
    [10,  6,  9,  0, 12, 11,  7, 13, 15,  1,  3, 14,  5,  2,  8,  4],
    [ 3, 15,  0,  6, 10,  1, 13,  8,  9,  4,  5, 11, 12,  7,  2, 14]
  ]

  const SELECTION5: seq<seq<bv4>> := [
    [ 2, 12,  4,  1,  7, 10, 11,  6,  8,  5,  3, 15, 13,  0, 14,  9],
    [14, 11,  2, 12,  4,  7, 13,  1,  5,  0, 15, 10,  3,  9,  8,  6],
    [ 4,  2,  1, 11, 10, 13,  7,  8, 15,  9, 12,  5,  6,  3,  0, 14],
    [11,  8, 12,  7,  1, 14,  2, 13,  6, 15,  0,  9, 10,  4,  5,  3]
  ]

  const SELECTION6: seq<seq<bv4>> := [
    [12,  1, 10, 15,  9,  2,  6,  8,  0, 13,  3,  4, 14,  7,  5, 11],
    [10, 15,  4,  2,  7, 12,  9,  5,  6,  1, 13, 14,  0, 11,  3,  8],
    [ 9, 14, 15,  5,  2,  8, 12,  3,  7,  0,  4, 10,  1, 13, 11,  6],
    [ 4,  3,  2, 12,  9,  5, 15, 10, 11, 14,  1,  7,  6,  0,  8, 13]
  ]

  const SELECTION7: seq<seq<bv4>> := [
    [ 4, 11,  2, 14, 15,  0,  8, 13,  3, 12,  9,  7,  5, 10,  6,  1],
    [13,  0, 11,  7,  4,  9,  1, 10, 14,  3,  5, 12,  2, 15,  8,  6],
    [ 1,  4, 11, 13, 12,  3,  7, 14, 10, 15,  6,  8,  0,  5,  9,  2],
    [ 6, 11, 13,  8,  1,  4, 10,  7,  9,  5,  0, 15, 14,  2,  3, 12]
  ]

  const SELECTION8: seq<seq<bv4>> := [
    [13,  2,  8,  4,  6, 15, 11,  1, 10,  9,  3, 14,  5,  0, 12,  7],
    [ 1, 15, 13,  8, 10,  3,  7,  4, 12,  5,  6, 11,  0, 14,  9,  2],
    [ 7, 11,  4,  1,  9, 12, 14,  2,  0,  6, 10, 13, 15,  3,  5,  8],
    [ 2,  1, 14,  7,  4, 10,  8, 13, 15, 12,  9,  0,  3,  5,  6, 11]
  ]

  function Box(n: nat): seq<seq<bv4>>
    requires 1 <= n <= 8
  {
    match n
    case 1 => SELECTION1
    case 2 => SELECTION2
    case 3 => SELECTION3
    case 4 => SELECTION4
    case 5 => SELECTION5
    case 6 => SELECTION6
    case 7 => SELECTION7
    case 8 => SELECTION8
  }

  predicate Selects(t: seq<nat>, n: nat) { forall i :: 0 <= i < |t| ==> 1 <= t[i] <= n }

  lemma IpSelects()
    ensures |IP| == 64 && Selects(IP, 64)
  {}

  lemma InverseSelects()
    ensures |IP_INVERSE| == 64 && Selects(IP_INVERSE, 64)
  {}

  lemma RoundSelects()
    ensures |E| == 48 && |P| == 32 && Selects(E, 32) && Selects(P, 32)
  {}

  lemma KeySelects()
    ensures |PC1| == 56 && |PC2| == 48 && Selects(PC1, 64) && Selects(PC2, 56)
  {}

  lemma BoxShape(n: nat, row: nat)
    requires 1 <= n <= 8 && row < 4
    ensures |Box(n)| == 4 && |Box(n)[row]| == 16
  {}

  // ------------------------------------------------------------------ its operations

  /** The bits that the table lists, in its order. */
  function Permuted(b: Bits, t: seq<nat>): (r: Bits)
    requires Selects(t, |b|)
    ensures |r| == |t|
  {
    seq(|t|, i requires 0 <= i < |t| => b[t[i] - 1])
  }

  /** Addition modulo two, bit by bit. */
  function Sum(a: Bits, b: Bits): (r: Bits)
    requires |a| == |b|
    ensures |r| == |a|
  {
    seq(|a|, i requires 0 <= i < |a| => a[i] != b[i])
  }

  function LeftShift(b: Bits): (r: Bits)
    requires b != []
    ensures |r| == |b|
  {
    b[1..] + [b[0]]
  }

  function FourBits(v: bv4): (r: Bits)
    ensures |r| == 4
  {
    [v & 8 == 8, v & 4 == 4, v & 2 == 2, v & 1 == 1]
  }

  /** The outer two of six bits give the row. */
  function Row(b: Bits): (r: nat)
    requires |b| == 6
    ensures r < 4
  {
    (if b[0] then 2 else 0) + (if b[5] then 1 else 0)
  }

  /** The inner four give the column. */
  function Column(b: Bits): (r: nat)
    requires |b| == 6
    ensures r < 16
  {
    (if b[1] then 8 else 0) + (if b[2] then 4 else 0) + (if b[3] then 2 else 0) + (if b[4] then 1 else 0)
  }

  function Select(n: nat, b: Bits): (r: Bits)
    requires 1 <= n <= 8 && |b| == 6
    ensures |r| == 4
  {
    BoxShape(n, Row(b));
    FourBits(Box(n)[Row(b)][Column(b)])
  }

  /** The first `n` blocks of six bits, each through its selection function. */
  function Selected(b: Bits, n: nat): (r: Bits)
    requires n <= 8 && 6 * n <= |b|
    ensures |r| == 4 * n
  {
    if n == 0 then [] else Selected(b, n - 1) + Select(n, b[6 * (n - 1)..6 * n])
  }

  /** The cipher function f. */
  function CipherFunction(r: Bits, k: Bits): (f: Bits)
    requires |r| == 32 && |k| == 48
    ensures |f| == 32
  {
    RoundSelects();
    Permuted(Selected(Sum(Permuted(r, E), k), 8), P)
  }

  function LeftShifts(b: Bits, n: nat): (r: Bits)
    requires b != []
    ensures |r| == |b|
    decreases n
  {
    if n == 0 then b else LeftShifts(LeftShift(b), n - 1)
  }

  /** The halves C and D of the key bits before round `n`. */
  function HalvesOf(key: Bits, n: nat): (r: (Bits, Bits))
    requires |key| == 64 && n <= 16
    ensures |r.0| == |r.1| == 28
  {
    if n == 0 then
      KeySelects();
      var b := Permuted(key, PC1);
      (b[..28], b[28..])
    else
      var (c, d) := HalvesOf(key, n - 1);
      (LeftShifts(c, LEFT_SHIFTS[n - 1]), LeftShifts(d, LEFT_SHIFTS[n - 1]))
  }

  /** The key of round `n`. */
  function KeyOf(key: Bits, n: nat): (k: Bits)
    requires |key| == 64 && 1 <= n <= 16
    ensures |k| == 48
  {
    KeySelects();
    Permuted(HalvesOf(key, n).0 + HalvesOf(key, n).1, PC2)
  }

  /** The halves L and R after `n` rounds. */
  function RoundsOf(block: Bits, key: Bits, decrypt: bool, n: nat): (r: (Bits, Bits))
    requires |block| == |key| == 64 && n <= 16
    ensures |r.0| == |r.1| == 32
  {
    if n == 0 then
      IpSelects();
      var b := Permuted(block, IP);
      (b[..32], b[32..])
    else
      var (l, r) := RoundsOf(block, key, decrypt, n - 1);
      (r, Sum(l, CipherFunction(r, KeyOf(key, if decrypt then 17 - n else n))))
  }

  /** Enciphering, and deciphering with the keys in reverse order. */
  function Des(block: Bits, key: Bits, decrypt: bool): (r: Bits)
    requires |block| == |key| == 64
    ensures |r| == 64
  {
    InverseSelects();
    var (l, r) := RoundsOf(block, key, decrypt, 16);
    Permuted(r + l, IP_INVERSE)
  }
}
