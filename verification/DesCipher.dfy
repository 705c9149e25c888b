/** DES itself: sixteen rounds between the initial permutation and its reverse, and the key schedule. */
module DesCipher {
  import opened DesShuffle
  import opened DesTables
  import opened DesBoxes

  const ROUNDS := 16

  function Swap(x: bv64): bv64 { (x << 32) | (x >> 32) }

  /** One round: the halves change places and the new low one is mixed. */
  function Round(x: bv64, k: bv64): bv64 { Xor(Swap(x), Wide(F(Narrow(x), k))) }

  function Rounds(x: bv64, keys: seq<bv64>): bv64
    decreases |keys|
  {
    if keys == [] then x else Rounds(Round(x, keys[0]), keys[1..])
  }

  function Reversed(keys: seq<bv64>): (r: seq<bv64>)
    ensures |r| == |keys|
  {
    seq(|keys|, i requires 0 <= i < |keys| => keys[|keys| - 1 - i])
  }

  function Cipher(x: bv64, keys: seq<bv64>): bv64 {
    ShuffleInv(Swap(Rounds(Shuffle(x, IP_SHUFFLE), keys)), IP_SHUFFLE)
  }

  /** Encryption, or decryption with the round keys in reverse order. */
  function EncDec(x: bv64, keys: seq<bv64>, decrypt: bool): bv64 {
    Cipher(x, if decrypt then Reversed(keys) else keys)
  }

  // ------------------------------------------------------------------ decryption undoes encryption

  lemma SwapTwice(x: bv64) ensures Swap(Swap(x)) == x {}
  lemma XorTwice(x: bv64, y: bv64) ensures Xor(Xor(x, y), y) == x {}
  lemma SwappedHalf(x: bv64, w: bv32) ensures Narrow(Swap(Xor(Swap(x), Wide(w)))) == Narrow(x) {}

  /** A round undoes itself between swaps. */
  lemma RoundUndone(x: bv64, k: bv64)
    ensures Round(Swap(Round(x, k)), k) == Swap(x)
  {
    hide Xor, Swap, F, Narrow, Wide;
    var w := F(Narrow(x), k);
    SwapTwice(Round(x, k));
    SwappedHalf(x, w);
    XorTwice(Swap(x), Wide(w));
  }

  lemma RoundsAppend(x: bv64, a: seq<bv64>, k: bv64)
    ensures Rounds(x, a + [k]) == Round(Rounds(x, a), k)
    decreases |a|
  {
    hide Round;
    if a == [] {
      assert [] + [k] == [k] && [k][1..] == [];
    } else {
      assert (a + [k])[1..] == a[1..] + [k];
      RoundsAppend(Round(x, a[0]), a[1..], k);
    }
  }

  lemma ReversedCons(keys: seq<bv64>)
    requires keys != []
    ensures Reversed(keys) == Reversed(keys[1..]) + [keys[0]]
  {}

  lemma {:induction false} RoundsUndone(x: bv64, keys: seq<bv64>)
    ensures Rounds(Swap(Rounds(x, keys)), Reversed(keys)) == Swap(x)
    decreases |keys|
  {
    hide Round, Swap, Reversed;
    if keys == [] {
      assert Reversed(keys) == [];
    } else {
      var y := Round(x, keys[0]);
      RoundsUndone(y, keys[1..]);
      ReversedCons(keys);
      RoundsAppend(Swap(Rounds(x, keys)), Reversed(keys[1..]), keys[0]);
      RoundUndone(x, keys[0]);
    }
  }

  lemma AndOnes(x: bv64) ensures And(x, ONES) == x {}

  lemma IpInverse(x: bv64)
    ensures ShuffleInv(Shuffle(x, IP_SHUFFLE), IP_SHUFFLE) == x && Shuffle(ShuffleInv(x, IP_SHUFFLE), IP_SHUFFLE) == x
  {
    hide Shuffle, ShuffleInv, Mask, Separate, Fits, And, IP_SHUFFLE;
    Lengths();
    IpListsAll();
    InverseOfShuffle(x, IP_SHUFFLE);
    AndOnes(x);
    Fits64(x);
    ShuffleOfInverse(x, IP_SHUFFLE);
  }

  lemma CipherUndone(x: bv64, keys: seq<bv64>)
    ensures Cipher(Cipher(x, keys), Reversed(keys)) == x
  {
    hide Shuffle, ShuffleInv, IP_SHUFFLE, Rounds, Swap;
    var y := Shuffle(x, IP_SHUFFLE);
    IpInverse(Swap(Rounds(y, keys)));
    RoundsUndone(y, keys);
    SwapTwice(y);
    IpInverse(x);
  }

  lemma ReversedTwice(keys: seq<bv64>)
    ensures Reversed(Reversed(keys)) == keys
  {}

  /** Either direction undoes the other, whatever the round keys. */
  lemma EncDecInverse(x: bv64, keys: seq<bv64>, decrypt: bool)
    ensures EncDec(EncDec(x, keys, decrypt), keys, !decrypt) == x
  {
    hide Cipher, Reversed;
    ReversedTwice(keys);
    CipherUndone(x, if decrypt then Reversed(keys) else keys);
  }

  // ------------------------------------------------------------------ as a loop

  lemma RoundsNext(x: bv64, order: seq<bv64>, i: nat)
    requires i < |order|
    ensures Rounds(x, order[i..]) == Rounds(Round(x, order[i]), order[i + 1..])
  {
    hide Round;
    assert order[i..][1..] == order[i + 1..];
  }

  lemma RoundsEnd(x: bv64, order: seq<bv64>)
    ensures Rounds(x, order[|order|..]) == x && order[0..] == order
  {}

  lemma OrderAt(keys: seq<bv64>, i: nat, decrypt: bool)
    requires |keys| == ROUNDS && i < ROUNDS
    ensures (if decrypt then Reversed(keys) else keys)[i] == keys[if decrypt then 15 - i else i]
  {}

  method DesEncDec(x: bv64, keys: array<bv64>, decrypt: bool) returns (r: bv64)
    requires keys.Length == ROUNDS
    ensures r == EncDec(x, keys[..], decrypt)
  {
    hide Shuffle, ShuffleInv, IP_SHUFFLE, Round, Swap, Reversed, Rounds;
    r := ShuffleLoop(x, IP_SHUFFLE);
    ghost var order, start := if decrypt then Reversed(keys[..]) else keys[..], r;
    var i := 0;
    RoundsEnd(r, order);
    while i < ROUNDS
      invariant i <= ROUNDS && Rounds(r, order[i..]) == Rounds(start, order)
    {
      var k := keys[if decrypt then 15 - i else i];
      OrderAt(keys[..], i, decrypt);
      RoundsNext(r, order, i);
      r := Round(r, k);
      i := i + 1;
    }
    RoundsEnd(r, order);
    r := Swap(r);
    r := ShuffleInvLoop(r, IP_SHUFFLE);
  }

  // ------------------------------------------------------------------ the key schedule

  /** Both halves of the 56 key bits rotated by one; what leaves the upper half at the top stays behind
      above bit 55. */
  function KeyShiftLeft(c: bv64): bv64 {
    ((c << 1) & !0x1000_0001) | ((c >> 27) & 0x1000_0001)
  }

  predicate ShiftsTwice(i: nat) { i > 1 && i != 8 && i != 15 }

  function KeyShift(c: bv64, i: nat): bv64 {
    if ShiftsTwice(i) then KeyShiftLeft(KeyShiftLeft(c)) else KeyShiftLeft(c)
  }

  /** The key bits after the rotations of `n` rounds. */
  function KeyBits(key: bv64, n: nat): bv64 {
    if n == 0 then Shuffle(key, PC1_SHUFFLE) else KeyShift(KeyBits(key, n - 1), n - 1)
  }

  function RoundKey(key: bv64, i: nat): bv64 { Shuffle(KeyBits(key, i + 1), PC2_SHUFFLE) }

  function RoundKeys(key: bv64): (keys: seq<bv64>)
    ensures |keys| == ROUNDS
  {
    seq(ROUNDS, i requires 0 <= i => RoundKey(key, i))
  }

  method GenRoundKeys(keys: array<bv64>, key: bv64)
    requires keys.Length == ROUNDS
    modifies keys
    ensures keys[..] == RoundKeys(key)
  {
    hide Shuffle, PC1_SHUFFLE, PC2_SHUFFLE, KeyShiftLeft;
    var c := ShuffleLoop(key, PC1_SHUFFLE);
    var i := 0;
    while i < ROUNDS
      invariant i <= ROUNDS && c == KeyBits(key, i)
      invariant forall j :: 0 <= j < i ==> keys[j] == RoundKey(key, j)
    {
      c := KeyShiftLeft(c);
      if i > 1 && i != 8 && i != 15 {
        c := KeyShiftLeft(c);
      }
      keys[i] := ShuffleLoop(c, PC2_SHUFFLE);
      i := i + 1;
    }
  }
}
