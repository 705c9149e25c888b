/** The words of the program as the bits of the standard. */
module DesBits {
  import opened DesShuffle
  import opened DesStandard

  predicate On(x: bv64, k: bv6) { Bit(x, k) == 1 }
  predicate Odd(x: bv64) { Lsb(x) == 1 }

  /** The low `n` bits of a word, the most significant first. */
  function BitsOf(x: bv64, n: nat): (r: Bits)
    ensures |r| == n
  {
    if n == 0 then [] else BitsOf(Half(x), n - 1) + [Odd(x)]
  }

  /** The bit with number `n` from the right. */
  function Num(n: nat): bv6 { if n == 0 then 0 else Num(n - 1) + 1 }

  lemma NextNumber(k: bv6)
    requires k != 63
    ensures (k + 1) as nat == k as nat + 1
  {}

  lemma {:induction false} NumIs(n: nat)
    requires n < 64
    ensures Num(n) as nat == n
  {
    if n > 0 {
      NumIs(n - 1);
      NextNumber(Num(n - 1));
    }
  }

  lemma SameNumber(j: bv6, k: bv6)
    requires j as nat == k as nat
    ensures j == k
  {}

  lemma LowBit(x: bv64) ensures On(x, 0) == Odd(x) {}

  lemma HalfBit(x: bv64, k: bv6)
    requires k != 63
    ensures On(Half(x), k) == On(x, k + 1)
  {}

  lemma {:induction false} BitsAt(x: bv64, n: nat, i: nat)
    requires i < n <= 64
    ensures BitsOf(x, n)[i] == On(x, Num(n - 1 - i))
    decreases n
  {
    hide On, Odd, Half;
    if i == n - 1 {
      LowBit(x);
    } else {
      BitsAt(Half(x), n - 1, i);
      NumIs(n - 2 - i);
      HalfBit(x, Num(n - 2 - i));
    }
  }

  /** Bit number `k` from the right. */
  lemma BitIsAt(x: bv64, n: nat, k: bv6)
    requires k as nat < n <= 64
    ensures BitsOf(x, n)[n - 1 - k as nat] == On(x, k)
  {
    hide On, BitsOf;
    BitsAt(x, n, n - 1 - k as nat);
    NumIs(k as nat);
    SameNumber(k, Num(k as nat));
  }

  lemma SplitOne(x: bv64, t: Table)
    requires 0 < |t| <= 64
    ensures Half(Shuffle(x, t)) == Shuffle(x, Init(t)) && Odd(Shuffle(x, t)) == On(x, Last(t))
  {
    ShuffleSplits(x, t);
  }

  lemma {:induction false} ShuffledAt(x: bv64, t: Table, i: nat)
    requires i < |t| <= 64
    ensures BitsOf(Shuffle(x, t), |t|)[i] == On(x, t[i])
    decreases |t|
  {
    hide On, Odd, Half, Shuffle;
    SplitOne(x, t);
    if i < |t| - 1 {
      ShuffledAt(x, Init(t), i);
    }
  }

  /** The table counts from the right what the other one counts from the left, from one. */
  predicate Mirrors(t: Table, s: seq<nat>, n: nat) {
    |t| == |s| && forall i :: 0 <= i < |t| ==> t[i] as nat == n - s[i]
  }

  /** The shuffle is the permutation of the standard. */
  lemma ShufflePermutes(x: bv64, t: Table, s: seq<nat>, n: nat)
    requires Mirrors(t, s, n) && Selects(s, n) && |t| <= 64 && n <= 64
    ensures BitsOf(Shuffle(x, t), |t|) == Permuted(BitsOf(x, n), s)
  {
    hide On, BitsOf, Shuffle;
    forall i | 0 <= i < |t|
      ensures BitsOf(Shuffle(x, t), |t|)[i] == Permuted(BitsOf(x, n), s)[i]
    {
      ShuffledAt(x, t, i);
      BitIsAt(x, n, t[i]);
    }
  }
}
