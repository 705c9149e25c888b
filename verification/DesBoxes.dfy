/** The round function of DES in its two forms: with the S-boxes followed by a permutation, and with one
    table that combines the two. */
module DesBoxes {
  import opened DesShuffle
  import opened DesTables

  // The S-boxes in rows of four bytes, two entries to a byte: the one for an even input in the low half.
  const S0: seq<seq<bv8>> := [
    [0x0e, 0xf4, 0x7d, 0x41], [0xe2, 0x2f, 0xdb, 0x18],
    [0xa3, 0x6a, 0xc6, 0xbc], [0x95, 0x59, 0x30, 0x87],
    [0xf4, 0xc1, 0x8e, 0x28], [0x4d, 0x96, 0x12, 0x7b],
    [0x5f, 0xbc, 0x39, 0xe7], [0xa3, 0x0a, 0x65, 0xd0]
  ]

  const S1: seq<seq<bv8>> := [
    [0x3f, 0xd1, 0x48, 0x7e], [0xf6, 0x2b, 0x83, 0xe4],
    [0xc9, 0x07, 0x12, 0xad], [0x6c, 0x90, 0xb5, 0x5a],
    [0xd0, 0x8e, 0xa7, 0x1b], [0x3a, 0xf4, 0x4d, 0x21],
    [0xb5, 0x68, 0x7c, 0xc6], [0x09, 0x53, 0xe2, 0x9f]
  ]

  const S2: seq<seq<bv8>> := [
    [0xda, 0x70, 0x09, 0x9e], [0x36, 0x43, 0x6f, 0xa5],
    [0x21, 0x8d, 0x5c, 0xe7], [0xcb, 0xb4, 0xf2, 0x18],
    [0x1d, 0xa6, 0xd4, 0x09], [0x68, 0x9f, 0x83, 0x70],
    [0x4b, 0xf1, 0xe2, 0x3c], [0xb5, 0x5a, 0x2e, 0xc7]
  ]

  const S3: seq<seq<bv8>> := [
    [0xd7, 0x8d, 0xbe, 0x53], [0x60, 0xf6, 0x09, 0x3a],
    [0x41, 0x72, 0x28, 0xc5], [0x1b, 0xac, 0xe4, 0x9f],
    [0x3a, 0xf6, 0x09, 0x60], [0xac, 0x1b, 0xd7, 0x8d],
    [0x9f, 0x41, 0x53, 0xbe], [0xc5, 0x72, 0x28, 0xe4]
  ]

  const S4: seq<seq<bv8>> := [
    [0xe2, 0xbc, 0x24, 0xc1], [0x47, 0x7a, 0xdb, 0x16],
    [0x58, 0x05, 0xf3, 0xaf], [0x3d, 0x90, 0x8e, 0x69],
    [0xb4, 0x82, 0xc1, 0x7b], [0x1a, 0xed, 0x27, 0xd8],
    [0x6f, 0xf9, 0x0c, 0x95], [0xa6, 0x43, 0x50, 0x3e]
  ]

  const S5: seq<seq<bv8>> := [
    [0xac, 0xf1, 0x4a, 0x2f], [0x79, 0xc2, 0x96, 0x58],
    [0x60, 0x1d, 0xd3, 0xe4], [0x0e, 0xb7, 0x35, 0x8b],
    [0x49, 0x3e, 0x2f, 0xc5], [0x92, 0x58, 0xfc, 0xa3],
    [0xb7, 0xe0, 0x14, 0x7a], [0x61, 0x0d, 0x8b, 0xd6]
  ]

  const S6: seq<seq<bv8>> := [
    [0xd4, 0x0b, 0xb2, 0x7e], [0x4f, 0x90, 0x18, 0xad],
    [0xe3, 0x3c, 0x59, 0xc7], [0x25, 0xfa, 0x86, 0x61],
    [0x61, 0xb4, 0xdb, 0x8d], [0x1c, 0x43, 0xa7, 0x7e],
    [0x9a, 0x5f, 0x06, 0xf8], [0xe0, 0x25, 0x39, 0xc2]
  ]

  const S7: seq<seq<bv8>> := [
    [0x1d, 0xf2, 0xd8, 0x84], [0xa6, 0x3f, 0x7b, 0x41],
    [0xca, 0x59, 0x63, 0xbe], [0x05, 0xe0, 0x9c, 0x27],
    [0x27, 0x1b, 0xe4, 0x71], [0x49, 0xac, 0x8e, 0xd2],
    [0xf0, 0xc6, 0x9a, 0x0d], [0x3f, 0x53, 0x65, 0xb8]
  ]

  // The S-boxes with the permutation applied to their results, in rows of eight.
  const SP0: seq<seq<bv32>> := [
    [0x00808200, 0x00000000, 0x00008000, 0x00808202, 0x00808002, 0x00008202, 0x00000002, 0x00008000],
    [0x00000200, 0x00808200, 0x00808202, 0x00000200, 0x00800202, 0x00808002, 0x00800000, 0x00000002],
    [0x00000202, 0x00800200, 0x00800200, 0x00008200, 0x00008200, 0x00808000, 0x00808000, 0x00800202],
    [0x00008002, 0x00800002, 0x00800002, 0x00008002, 0x00000000, 0x00000202, 0x00008202, 0x00800000],
    [0x00008000, 0x00808202, 0x00000002, 0x00808000, 0x00808200, 0x00800000, 0x00800000, 0x00000200],
    [0x00808002, 0x00008000, 0x00008200, 0x00800002, 0x00000200, 0x00000002, 0x00800202, 0x00008202],
    [0x00808202, 0x00008002, 0x00808000, 0x00800202, 0x00800002, 0x00000202, 0x00008202, 0x00808200],
    [0x00000202, 0x00800200, 0x00800200, 0x00000000, 0x00008002, 0x00008200, 0x00000000, 0x00808002]
  ]

  const SP1: seq<seq<bv32>> := [
    [0x40084010, 0x40004000, 0x00004000, 0x00084010, 0x00080000, 0x00000010, 0x40080010, 0x40004010],
    [0x40000010, 0x40084010, 0x40084000, 0x40000000, 0x40004000, 0x00080000, 0x00000010, 0x40080010],
    [0x00084000, 0x00080010, 0x40004010, 0x00000000, 0x40000000, 0x00004000, 0x00084010, 0x40080000],
    [0x00080010, 0x40000010, 0x00000000, 0x00084000, 0x00004010, 0x40084000, 0x40080000, 0x00004010],
    [0x00000000, 0x00084010, 0x40080010, 0x00080000, 0x40004010, 0x40080000, 0x40084000, 0x00004000],
    [0x40080000, 0x40004000, 0x00000010, 0x40084010, 0x00084010, 0x00000010, 0x00004000, 0x40000000],
    [0x00004010, 0x40084000, 0x00080000, 0x40000010, 0x00080010, 0x40004010, 0x40000010, 0x00080010],
    [0x00084000, 0x00000000, 0x40004000, 0x00004010, 0x40000000, 0x40080010, 0x40084010, 0x00084000]
  ]

  const SP2: seq<seq<bv32>> := [
    [0x00000104, 0x04010100, 0x00000000, 0x04010004, 0x04000100, 0x00000000, 0x00010104, 0x04000100],
    [0x00010004, 0x04000004, 0x04000004, 0x00010000, 0x04010104, 0x00010004, 0x04010000, 0x00000104],
    [0x04000000, 0x00000004, 0x04010100, 0x00000100, 0x00010100, 0x04010000, 0x04010004, 0x00010104],
    [0x04000104, 0x00010100, 0x00010000, 0x04000104, 0x00000004, 0x04010104, 0x00000100, 0x04000000],
    [0x04010100, 0x04000000, 0x00010004, 0x00000104, 0x00010000, 0x04010100, 0x04000100, 0x00000000],
    [0x00000100, 0x00010004, 0x04010104, 0x04000100, 0x04000004, 0x00000100, 0x00000000, 0x04010004],
    [0x04000104, 0x00010000, 0x04000000, 0x04010104, 0x00000004, 0x00010104, 0x00010100, 0x04000004],
    [0x04010000, 0x04000104, 0x00000104, 0x04010000, 0x00010104, 0x00000004, 0x04010004, 0x00010100]
  ]

  const SP3: seq<seq<bv32>> := [
    [0x80401000, 0x80001040, 0x80001040, 0x00000040, 0x00401040, 0x80400040, 0x80400000, 0x80001000],
    [0x00000000, 0x00401000, 0x00401000, 0x80401040, 0x80000040, 0x00000000, 0x00400040, 0x80400000],
    [0x80000000, 0x00001000, 0x00400000, 0x80401000, 0x00000040, 0x00400000, 0x80001000, 0x00001040],
    [0x80400040, 0x80000000, 0x00001040, 0x00400040, 0x00001000, 0x00401040, 0x80401040, 0x80000040],
    [0x00400040, 0x80400000, 0x00401000, 0x80401040, 0x80000040, 0x00000000, 0x00000000, 0x00401000],
    [0x00001040, 0x00400040, 0x80400040, 0x80000000, 0x80401000, 0x80001040, 0x80001040, 0x00000040],
    [0x80401040, 0x80000040, 0x80000000, 0x00001000, 0x80400000, 0x80001000, 0x00401040, 0x80400040],
    [0x80001000, 0x00001040, 0x00400000, 0x80401000, 0x00000040, 0x00400000, 0x00001000, 0x00401040]
  ]

  const SP4: seq<seq<bv32>> := [
    [0x00000080, 0x01040080, 0x01040000, 0x21000080, 0x00040000, 0x00000080, 0x20000000, 0x01040000],
    [0x20040080, 0x00040000, 0x01000080, 0x20040080, 0x21000080, 0x21040000, 0x00040080, 0x20000000],
    [0x01000000, 0x20040000, 0x20040000, 0x00000000, 0x20000080, 0x21040080, 0x21040080, 0x01000080],
    [0x21040000, 0x20000080, 0x00000000, 0x21000000, 0x01040080, 0x01000000, 0x21000000, 0x00040080],
    [0x00040000, 0x21000080, 0x00000080, 0x01000000, 0x20000000, 0x01040000, 0x21000080, 0x20040080],
    [0x01000080, 0x20000000, 0x21040000, 0x01040080, 0x20040080, 0x00000080, 0x01000000, 0x21040000],
    [0x21040080, 0x00040080, 0x21000000, 0x21040080, 0x01040000, 0x00000000, 0x20040000, 0x21000000],
    [0x00040080, 0x01000080, 0x20000080, 0x00040000, 0x00000000, 0x20040000, 0x01040080, 0x20000080]
  ]

  const SP5: seq<seq<bv32>> := [
    [0x10000008, 0x10200000, 0x00002000, 0x10202008, 0x10200000, 0x00000008, 0x10202008, 0x00200000],
    [0x10002000, 0x00202008, 0x00200000, 0x10000008, 0x00200008, 0x10002000, 0x10000000, 0x00002008],
    [0x00000000, 0x00200008, 0x10002008, 0x00002000, 0x00202000, 0x10002008, 0x00000008, 0x10200008],
    [0x10200008, 0x00000000, 0x00202008, 0x10202000, 0x00002008, 0x00202000, 0x10202000, 0x10000000],
    [0x10002000, 0x00000008, 0x10200008, 0x00202000, 0x10202008, 0x00200000, 0x00002008, 0x10000008],
    [0x00200000, 0x10002000, 0x10000000, 0x00002008, 0x10000008, 0x10202008, 0x00202000, 0x10200000],
    [0x00202008, 0x10202000, 0x00000000, 0x10200008, 0x00000008, 0x00002000, 0x10200000, 0x00202008],
    [0x00002000, 0x00200008, 0x10002008, 0x00000000, 0x10202000, 0x10000000, 0x00200008, 0x10002008]
  ]

  const SP6: seq<seq<bv32>> := [
    [0x00100000, 0x02100001, 0x02000401, 0x00000000, 0x00000400, 0x02000401, 0x00100401, 0x02100400],
    [0x02100401, 0x00100000, 0x00000000, 0x02000001, 0x00000001, 0x02000000, 0x02100001, 0x00000401],
    [0x02000400, 0x00100401, 0x00100001, 0x02000400, 0x02000001, 0x02100000, 0x02100400, 0x00100001],
    [0x02100000, 0x00000400, 0x00000401, 0x02100401, 0x00100400, 0x00000001, 0x02000000, 0x00100400],
    [0x02000000, 0x00100400, 0x00100000, 0x02000401, 0x02000401, 0x02100001, 0x02100001, 0x00000001],
    [0x00100001, 0x02000000, 0x02000400, 0x00100000, 0x02100400, 0x00000401, 0x00100401, 0x02100400],
    [0x00000401, 0x02000001, 0x02100401, 0x02100000, 0x00100400, 0x00000000, 0x00000001, 0x02100401],
    [0x00000000, 0x00100401, 0x02100000, 0x00000400, 0x02000001, 0x02000400, 0x00000400, 0x00100001]
  ]

  const SP7: seq<seq<bv32>> := [
    [0x08000820, 0x00000800, 0x00020000, 0x08020820, 0x08000000, 0x08000820, 0x00000020, 0x08000000],
    [0x00020020, 0x08020000, 0x08020820, 0x00020800, 0x08020800, 0x00020820, 0x00000800, 0x00000020],
    [0x08020000, 0x08000020, 0x08000800, 0x00000820, 0x00020800, 0x00020020, 0x08020020, 0x08020800],
    [0x00000820, 0x00000000, 0x00000000, 0x08020020, 0x08000020, 0x08000800, 0x00020820, 0x00020000],
    [0x00020820, 0x00020000, 0x08020800, 0x00000800, 0x00000020, 0x08020020, 0x00000800, 0x00020820],
    [0x08000800, 0x00000020, 0x08000020, 0x08020000, 0x08020020, 0x08000000, 0x00020000, 0x08000820],
    [0x00000000, 0x08020820, 0x00020020, 0x08000020, 0x08020000, 0x08000800, 0x08000820, 0x00000000],
    [0x08020820, 0x00020800, 0x00020800, 0x00000820, 0x00000820, 0x00020020, 0x08000000, 0x08020800]
  ]

  function SBox(i: nat): seq<seq<bv8>>
    requires i < 8
  {
    match i
    case 0 => S0
    case 1 => S1
    case 2 => S2
    case 3 => S3
    case 4 => S4
    case 5 => S5
    case 6 => S6
    case 7 => S7
  }

  function SBoxP(i: nat): seq<seq<bv32>>
    requires i < 8
  {
    match i
    case 0 => SP0
    case 1 => SP1
    case 2 => SP2
    case 3 => SP3
    case 4 => SP4
    case 5 => SP5
    case 6 => SP6
    case 7 => SP7
  }

  /** Row by row, the entries of the tables: 64 of the combined one, 32 bytes of the other. */
  lemma Shapes(i: nat, r: nat)
    requires i < 8 && r < 8
    ensures |SBox(i)| == |SBoxP(i)| == 8 && |SBox(i)[r]| == 4 && |SBoxP(i)[r]| == 8
  {}

  function ByteAt(i: nat, m: nat): bv8
    requires i < 8 && m < 32
  {
    Shapes(i, m / 4);
    SBox(i)[m / 4][m % 4]
  }

  function WordAt(i: nat, n: nat): bv32
    requires i < 8 && n < 64
  {
    Shapes(i, n / 8);
    SBoxP(i)[n / 8][n % 8]
  }

  function Rol1(r: bv32): bv32 { (r << 1) | (r >> 31) }
  function Ror4(r: bv32): bv32 { (r >> 4) | (r << 28) }
  function Shr6(k: bv64): bv64 { k >> 6 }

  /** The six bits of the expanded half and of the round key that the next S-box takes. */
  function Chunk(r: bv32, k: bv64): bv6 { ((r as bv64 ^ k) & 0x3f) as bv6 }

  function Combined(i: nat, tmp: bv6): bv32
    requires i < 8
  {
    WordAt(i, tmp as nat)
  }

  function Or32(x: bv32, y: bv32): bv32 { x | y }

  function FastBoxes(r: bv32, k: bv64, n: nat, res: bv32): bv32
    requires n <= 8
    decreases n
  {
    if n == 0 then res else FastBoxes(Ror4(r), Shr6(k), n - 1, Or32(res, Combined(n - 1, Chunk(r, k))))
  }

  /** The round function with the combined table. */
  function F(r: bv32, k: bv64): bv32 { FastBoxes(Rol1(r), k, 8, 0) }

  function Value(i: nat, tmp: bv6): bv8
    requires i < 8
  {
    var v := ByteAt(i, (tmp >> 1) as nat);
    if tmp & 1 == 1 then v >> 4 else v
  }

  function PushNibble(res: bv32, v: bv8): bv32 { (res >> 4) | ((v as bv32) << 28) }

  function SmallBoxes(r: bv32, k: bv64, n: nat, res: bv32): bv32
    requires n <= 8
    decreases n
  {
    if n == 0 then res else SmallBoxes(Ror4(r), Shr6(k), n - 1, PushNibble(res, Value(n - 1, Chunk(r, k))))
  }

  function Wide(x: bv32): bv64 { x as bv64 }
  function Narrow(x: bv64): bv32 { (x & 0xffff_ffff) as bv32 }

  function Permute(x: bv32): bv32 { Narrow(Shuffle(Wide(x), P_SHUFFLE)) }

  /** The round function with the S-boxes followed by the permutation. */
  function FSmall(r: bv32, k: bv64): bv32 { Permute(SmallBoxes(Rol1(r), k, 8, 0)) }

  // ------------------------------------------------------------------ the permutation of one nibble

  lemma ShufflePush(x: bv64, t: Table, k: bv6)
    ensures Shuffle(x, t + [k]) == Append(Shuffle(x, t), Bit(x, k))
  {
    hide Append, Bit;
    assert Init(t + [k]) == t && Last(t + [k]) == k;
  }

  /** Four more bits. */
  function Append4(res: bv64, x: bv64, a: bv6, b: bv6, c: bv6, d: bv6): bv64 {
    Append(Append(Append(Append(res, Bit(x, a)), Bit(x, b)), Bit(x, c)), Bit(x, d))
  }

  lemma ShufflePush4(x: bv64, t: Table, a: bv6, b: bv6, c: bv6, d: bv6)
    ensures Shuffle(x, t + [a, b, c, d]) == Append4(Shuffle(x, t), x, a, b, c, d)
  {
    hide Append, Bit, Shuffle;
    ShufflePush(x, t, a);
    ShufflePush(x, t + [a], b);
    ShufflePush(x, t + [a] + [b], c);
    ShufflePush(x, t + [a] + [b] + [c], d);
    assert t + [a, b, c, d] == t + [a] + [b] + [c] + [d];
  }

  /** The permutation, bit by bit. */
  function PermuteBits(x: bv64): bv64 {
    Append4(Append4(Append4(Append4(Append4(Append4(Append4(Append4(0, x, 16, 25, 12, 11), x, 3, 20, 4, 15), x, 31, 17, 9, 6), x, 27, 14, 1, 22), x, 30, 24, 8, 18), x, 0, 5, 29, 23), x, 13, 19, 2, 26), x, 10, 21, 28, 7)
  }

  lemma PermuteIsBits(x: bv64)
    ensures Shuffle(x, P_SHUFFLE) == PermuteBits(x)
  {
    hide Append4, Shuffle;
    ShuffleNone(x);
    var r0, r1, r2, r3 := [16, 25, 12, 11], [ 3, 20,  4, 15], [31, 17,  9,  6], [27, 14,  1, 22];
    var r4, r5, r6, r7 := [30, 24,  8, 18], [ 0,  5, 29, 23], [13, 19,  2, 26], [10, 21, 28,  7];
    ShufflePush4(x, [], 16, 25, 12, 11);
    ShufflePush4(x, r0, 3, 20, 4, 15);
    ShufflePush4(x, r0 + r1, 31, 17, 9, 6);
    ShufflePush4(x, r0 + r1 + r2, 27, 14, 1, 22);
    ShufflePush4(x, r0 + r1 + r2 + r3, 30, 24, 8, 18);
    ShufflePush4(x, r0 + r1 + r2 + r3 + r4, 0, 5, 29, 23);
    ShufflePush4(x, r0 + r1 + r2 + r3 + r4 + r5, 13, 19, 2, 26);
    ShufflePush4(x, r0 + r1 + r2 + r3 + r4 + r5 + r6, 10, 21, 28, 7);
    assert [] + r0 == r0;
  }

  function Spread0(v: bv64): bv64 { (((v >> 3) & 1) << 23) | (((v >> 2) & 1) << 15) | (((v >> 1) & 1) << 9) | ((v & 1) << 1) }
  function Spread1(v: bv64): bv64 { (((v >> 3) & 1) << 19) | (((v >> 2) & 1) << 4) | (((v >> 1) & 1) << 30) | ((v & 1) << 14) }
  function Spread2(v: bv64): bv64 { (((v >> 3) & 1) << 8) | (((v >> 2) & 1) << 16) | (((v >> 1) & 1) << 2) | ((v & 1) << 26) }
  function Spread3(v: bv64): bv64 { (((v >> 3) & 1) << 6) | (((v >> 2) & 1) << 12) | (((v >> 1) & 1) << 22) | ((v & 1) << 31) }
  function Spread4(v: bv64): bv64 { (((v >> 3) & 1) << 24) | (((v >> 2) & 1) << 18) | (((v >> 1) & 1) << 7) | ((v & 1) << 29) }
  function Spread5(v: bv64): bv64 { (((v >> 3) & 1) << 28) | (((v >> 2) & 1) << 3) | (((v >> 1) & 1) << 21) | ((v & 1) << 13) }
  function Spread6(v: bv64): bv64 { (((v >> 3) & 1) << 0) | (((v >> 2) & 1) << 20) | (((v >> 1) & 1) << 10) | ((v & 1) << 25) }
  function Spread7(v: bv64): bv64 { (((v >> 3) & 1) << 27) | (((v >> 2) & 1) << 5) | (((v >> 1) & 1) << 17) | ((v & 1) << 11) }

  lemma SpreadBits0(v: bv64) requires v <= 15 ensures PermuteBits(v << 28) == Spread0(v) {}
  lemma SpreadBits1(v: bv64) requires v <= 15 ensures PermuteBits(v << 24) == Spread1(v) {}
  lemma SpreadBits2(v: bv64) requires v <= 15 ensures PermuteBits(v << 20) == Spread2(v) {}
  lemma SpreadBits3(v: bv64) requires v <= 15 ensures PermuteBits(v << 16) == Spread3(v) {}
  lemma SpreadBits4(v: bv64) requires v <= 15 ensures PermuteBits(v << 12) == Spread4(v) {}
  lemma SpreadBits5(v: bv64) requires v <= 15 ensures PermuteBits(v << 8) == Spread5(v) {}
  lemma SpreadBits6(v: bv64) requires v <= 15 ensures PermuteBits(v << 4) == Spread6(v) {}
  lemma SpreadBits7(v: bv64) requires v <= 15 ensures PermuteBits(v << 0) == Spread7(v) {}

  // ------------------------------------------------------------------ the combined table

  function Spread(i: nat, v: bv64): bv64
    requires i < 8
  {
    match i
    case 0 => Spread0(v)
    case 1 => Spread1(v)
    case 2 => Spread2(v)
    case 3 => Spread3(v)
    case 4 => Spread4(v)
    case 5 => Spread5(v)
    case 6 => Spread6(v)
    case 7 => Spread7(v)
  }

  predicate PairAgrees(i: nat, p: bv32, q: bv32, s: bv8)
    requires i < 8
  {
    p as bv64 == Spread(i, (s & 0xf) as bv64) && q as bv64 == Spread(i, (s >> 4) as bv64)
  }

  predicate RowAgrees(i: nat, p: seq<bv32>, s: seq<bv8>)
    requires i < 8 && |p| == 8 && |s| == 4
  {
    && PairAgrees(i, p[0], p[1], s[0]) && PairAgrees(i, p[2], p[3], s[1])
    && PairAgrees(i, p[4], p[5], s[2]) && PairAgrees(i, p[6], p[7], s[3])
  }

  lemma Rows0(r: nat) requires r < 8 ensures RowAgrees(0, SP0[r], S0[r]) {}
  lemma Rows1(r: nat) requires r < 8 ensures RowAgrees(1, SP1[r], S1[r]) {}
  lemma Rows2(r: nat) requires r < 8 ensures RowAgrees(2, SP2[r], S2[r]) {}
  lemma Rows3(r: nat) requires r < 8 ensures RowAgrees(3, SP3[r], S3[r]) {}
  lemma Rows4(r: nat) requires r < 8 ensures RowAgrees(4, SP4[r], S4[r]) {}
  lemma Rows5(r: nat) requires r < 8 ensures RowAgrees(5, SP5[r], S5[r]) {}
  lemma Rows6(r: nat) requires r < 8 ensures RowAgrees(6, SP6[r], S6[r]) {}
  lemma Rows7(r: nat) requires r < 8 ensures RowAgrees(7, SP7[r], S7[r]) {}


  lemma RowsAgree(i: nat, r: nat)
    requires i < 8 && r < 8 && |SBox(i)| == |SBoxP(i)| == 8 && |SBox(i)[r]| == 4 && |SBoxP(i)[r]| == 8
    ensures RowAgrees(i, SBoxP(i)[r], SBox(i)[r])
  {
    hide RowAgrees, S0, S1, S2, S3, S4, S5, S6, S7, SP0, SP1, SP2, SP3, SP4, SP5, SP6, SP7;
    match i
    case 0 => Rows0(r);
    case 1 => Rows1(r);
    case 2 => Rows2(r);
    case 3 => Rows3(r);
    case 4 => Rows4(r);
    case 5 => Rows5(r);
    case 6 => Rows6(r);
    case 7 => Rows7(r);
  }

  /** The four bits of the entry for input `n` in its byte. */
  function NibbleOf(s: bv8, odd: bool): bv64 { if odd then (s >> 4) as bv64 else (s & 0xf) as bv64 }

  lemma RowEntry(i: nat, p: seq<bv32>, s: seq<bv8>, c: nat)
    requires i < 8 && |p| == 8 && |s| == 4 && c < 8 && RowAgrees(i, p, s)
    ensures p[c] as bv64 == Spread(i, NibbleOf(s[c / 2], c % 2 == 1))
  {
    hide Spread;
    match c case 0 => case 1 => case 2 => case 3 => case 4 => case 5 => case 6 => case 7 =>
  }

  lemma WordIsSpread(i: nat, n: nat)
    requires i < 8 && n < 64
    ensures WordAt(i, n) as bv64 == Spread(i, NibbleOf(ByteAt(i, n / 2), n % 2 == 1))
  {
    hide SBox, SBoxP, Spread, NibbleOf, RowAgrees;
    Shapes(i, n / 8);
    RowsAgree(i, n / 8);
    RowEntry(i, SBoxP(i)[n / 8], SBox(i)[n / 8], n % 8);
    assert (n / 2) / 4 == n / 8 && (n / 2) % 4 == (n % 8) / 2 && (n % 8) % 2 == n % 2;
  }

  lemma HalfIndex(t: bv6)
    ensures (t >> 1) as nat == (t as nat) / 2 && (t & 1 == 1 <==> (t as nat) % 2 == 1)
  {}

  function LowNibble(v: bv8): bv64 { (v & 0xf) as bv64 }

  lemma ShiftedNibble(v: bv8) ensures LowNibble(v >> 4) == (v >> 4) as bv64 {}

  lemma CombinedIsSpread(i: nat, t: bv6)
    requires i < 8
    ensures Wide(Combined(i, t)) == Spread(i, LowNibble(Value(i, t)))
  {
    hide WordAt, ByteAt, Spread;
    WordIsSpread(i, t as nat);
    HalfIndex(t);
    ShiftedNibble(ByteAt(i, (t >> 1) as nat));
  }

  // ------------------------------------------------------------------ both forms agree

  function Shr4(x: bv32): bv32 { x >> 4 }
  function Top(v: bv8): bv32 { (v as bv32) << 28 }

  /** Shifted right by four bits, `n` times. */
  function Drop(x: bv32, n: nat): bv32
    decreases n
  {
    if n == 0 then x else Drop(Shr4(x), n - 1)
  }

  lemma PushIsOr(x: bv32, v: bv8) ensures PushNibble(x, v) == Or32(Shr4(x), Top(v)) {}

  lemma Shr4Or(x: bv32, y: bv32) ensures Shr4(Or32(x, y)) == Or32(Shr4(x), Shr4(y)) {}

  lemma {:induction false} DropOr(x: bv32, y: bv32, n: nat)
    ensures Drop(Or32(x, y), n) == Or32(Drop(x, n), Drop(y, n))
    decreases n
  {
    hide Shr4, Or32;
    if n > 0 {
      Shr4Or(x, y);
      DropOr(Shr4(x), Shr4(y), n - 1);
    }
  }

  lemma AppendOr(a: bv64, b: bv64, x: bv64, y: bv64, k: bv6)
    ensures Append(Or(a, b), Bit(Or(x, y), k)) == Or(Append(a, Bit(x, k)), Append(b, Bit(y, k)))
  {
    hide Append, Or, Bit, IsBit, Twice;
    BitOr(x, y, k);
    BitIsBit(x, k);
    BitIsBit(y, k);
    BitIsBit(Or(x, y), k);
    AppendIsOr(Or(a, b), Bit(Or(x, y), k));
    AppendIsOr(a, Bit(x, k));
    AppendIsOr(b, Bit(y, k));
    TwiceOr(a, b);
    OrPairs(Twice(a), Twice(b), Bit(x, k), Bit(y, k));
  }

  lemma TwiceOr(a: bv64, b: bv64)
    ensures Twice(Or(a, b)) == Or(Twice(a), Twice(b))
  {
    hide *;
    OrIs(a, b); TwiceIs(a | b); TwiceIs(a); TwiceIs(b); OrIs(a << 1, b << 1);
    TwiceOrRaw(a, b);
  }

  lemma TwiceOrRaw(a: bv64, b: bv64) ensures (a | b) << 1 == (a << 1) | (b << 1) {}

  lemma OrPairs(a: bv64, b: bv64, p: bv64, q: bv64)
    ensures Or(Or(a, b), Or(p, q)) == Or(Or(a, p), Or(b, q))
  {
    hide Or;
    OrAssociates(a, b, Or(p, q));
    OrAssociates(b, p, q);
    OrCommutes(b, p);
    OrAssociates(p, b, q);
    OrAssociates(a, p, Or(b, q));
  }

  lemma {:induction false} ShuffleOr(x: bv64, y: bv64, t: Table)
    ensures Shuffle(Or(x, y), t) == Or(Shuffle(x, t), Shuffle(y, t))
    decreases |t|
  {
    hide Append, Bit, Or;
    if t != [] {
      ShuffleOr(x, y, Init(t));
      AppendOr(Shuffle(x, Init(t)), Shuffle(y, Init(t)), x, y, Last(t));
    } else {
      OrZero(0);
    }
  }

  lemma WideOr(x: bv32, y: bv32) ensures Wide(Or32(x, y)) == Or(Wide(x), Wide(y)) {}
  lemma NarrowOr(x: bv64, y: bv64) ensures Narrow(Or(x, y)) == Or32(Narrow(x), Narrow(y)) {}

  lemma PermuteOr(x: bv32, y: bv32)
    ensures Permute(Or32(x, y)) == Or32(Permute(x), Permute(y))
  {
    hide Shuffle, Wide, Narrow, Or, Or32, P_SHUFFLE;
    WideOr(x, y);
    ShuffleOr(Wide(x), Wide(y), P_SHUFFLE);
    NarrowOr(Shuffle(Wide(x), P_SHUFFLE), Shuffle(Wide(y), P_SHUFFLE));
  }

  /** Box `i` lands `i` nibbles below the top. */
  function Placed(i: nat, v: bv64): bv64
    requires i < 8
  {
    match i
    case 0 => v << 28
    case 1 => v << 24
    case 2 => v << 20
    case 3 => v << 16
    case 4 => v << 12
    case 5 => v << 8
    case 6 => v << 4
    case 7 => v << 0
  }

  lemma Shr4Placed(i: nat, v: bv32, w: bv64)
    requires i < 7 && Wide(v) == Placed(i, w) && w <= 15
    ensures Wide(Shr4(v)) == Placed(i + 1, w)
  {}

  lemma TopPlaced(v: bv8) ensures Wide(Top(v)) == Placed(0, LowNibble(v)) && LowNibble(v) <= 15 {}

  lemma {:induction false} DropPlaced(x: bv32, j: nat, n: nat, w: bv64)
    requires j + n < 8 && Wide(x) == Placed(j, w) && w <= 15
    ensures Wide(Drop(x, n)) == Placed(j + n, w)
    decreases n
  {
    hide Wide, Shr4, Placed;
    if n > 0 {
      Shr4Placed(j, x, w);
      DropPlaced(Shr4(x), j + 1, n - 1, w);
    }
  }

  lemma SpreadOfPlaced(i: nat, w: bv64)
    requires i < 8 && w <= 15
    ensures PermuteBits(Placed(i, w)) == Spread(i, w)
  {
    hide PermuteBits, Spread0, Spread1, Spread2, Spread3, Spread4, Spread5, Spread6, Spread7;
    match i
    case 0 => SpreadBits0(w);
    case 1 => SpreadBits1(w);
    case 2 => SpreadBits2(w);
    case 3 => SpreadBits3(w);
    case 4 => SpreadBits4(w);
    case 5 => SpreadBits5(w);
    case 6 => SpreadBits6(w);
    case 7 => SpreadBits7(w);
  }

  lemma NarrowWide(x: bv32) ensures Narrow(Wide(x)) == x {}

  /** The permuted nibble of a box is its entry in the combined table. */
  lemma BoxAgrees(i: nat, t: bv6)
    requires i < 8
    ensures Permute(Drop(Top(Value(i, t)), i)) == Combined(i, t)
  {
    hide PermuteBits, Shuffle, P_SHUFFLE, Spread, Value, Combined, Top, Drop, Wide, Narrow, LowNibble, Placed;
    var v := Value(i, t);
    TopPlaced(v);
    DropPlaced(Top(v), 0, i, LowNibble(v));
    PermuteIsBits(Placed(i, LowNibble(v)));
    SpreadOfPlaced(i, LowNibble(v));
    CombinedIsSpread(i, t);
    NarrowWide(Combined(i, t));
  }

  lemma PermuteZero() ensures Permute(0) == 0 {
    hide Shuffle, Append4, P_SHUFFLE;
    PermuteIsBits(0);
    PermuteBitsZero();
  }

  lemma PermuteBitsZero() ensures PermuteBits(0) == 0 {}

  lemma {:induction false} BoxesAgree(r: bv32, k: bv64, n: nat, fast: bv32, small: bv32)
    requires n <= 8 && fast == Permute(Drop(small, n))
    ensures FastBoxes(r, k, n, fast) == Permute(SmallBoxes(r, k, n, small))
    decreases n
  {
    hide Permute, PushNibble, Value, Combined, Or32, Shr4, Shr6, Ror4, Chunk, Top;
    if n > 0 {
      var t := Chunk(r, k);
      var v := Value(n - 1, t);
      PushIsOr(small, v);
      DropOr(Shr4(small), Top(v), n - 1);
      PermuteOr(Drop(Shr4(small), n - 1), Drop(Top(v), n - 1));
      BoxAgrees(n - 1, t);
      BoxesAgree(Ror4(r), Shr6(k), n - 1, Or32(fast, Combined(n - 1, t)), PushNibble(small, v));
    }
  }

  lemma {:induction false} DropZero(n: nat)
    ensures Drop(0, n) == 0
  {
    if n > 0 {
      assert Shr4(0) == 0;
      DropZero(n - 1);
    }
  }

  /** The fast form and the small form are the same function, for every half and every round key. */
  lemma FastIsSmall(r: bv32, k: bv64)
    ensures F(r, k) == FSmall(r, k)
  {
    hide Permute, Rol1, FastBoxes, SmallBoxes;
    DropZero(8);
    PermuteZero();
    BoxesAgree(Rol1(r), k, 8, 0, 0);
  }
}
