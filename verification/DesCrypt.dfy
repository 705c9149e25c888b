/** Encrypting and decrypting buffers with DES or triple DES, block by block or chained, in place or not. */
module DesCrypt {
  import opened DesShuffle
  import opened DesCipher

  // ------------------------------------------------------------------ byte order

  function Bswap32(x: bv32): bv32 {
    var y := ((x << 8) & 0xff00_ff00) | ((x >> 8) & 0x00ff_00ff);
    (y >> 16) | (y << 16)
  }

  function Low32(x: bv64): bv32 { (x & 0xffff_ffff) as bv32 }
  function High32(x: bv64): bv32 { (x >> 32) as bv32 }
  function Pair(high: bv32, low: bv32): bv64 { ((high as bv64) << 32) | low as bv64 }

  /** The eight bytes of a word in reverse. */
  function Be2me(x: bv64): bv64 { Pair(Bswap32(Low32(x)), Bswap32(High32(x))) }

  lemma BswapTwice(x: bv32) ensures Bswap32(Bswap32(x)) == x {}
  lemma PairParts(high: bv32, low: bv32) ensures High32(Pair(high, low)) == high && Low32(Pair(high, low)) == low {}
  lemma PartsPair(x: bv64) ensures Pair(High32(x), Low32(x)) == x {}

  lemma Be2meTwice(x: bv64)
    ensures Be2me(Be2me(x)) == x
  {
    hide Bswap32, Low32, High32, Pair;
    PairParts(Bswap32(Low32(x)), Bswap32(High32(x)));
    BswapTwice(Low32(x));
    BswapTwice(High32(x));
    PartsPair(x);
  }

  function Swapped(words: seq<bv64>): (r: seq<bv64>)
    ensures |r| == |words|
  {
    seq(|words|, i requires 0 <= i < |words| => Be2me(words[i]))
  }

  lemma SwappedTwice(words: seq<bv64>)
    ensures Swapped(Swapped(words)) == words
  {
    hide Be2me;
    forall i | 0 <= i < |words| ensures Swapped(Swapped(words))[i] == words[i] {
      Be2meTwice(words[i]);
    }
  }

  // ------------------------------------------------------------------ one block

  /** The round keys: one set, or three for triple DES. */
  datatype Keys = Keys(triple: bool, k0: seq<bv64>, k1: seq<bv64>, k2: seq<bv64>)

  function EncBlock(k: Keys, x: bv64): bv64 {
    var y := EncDec(x, k.k0, false);
    if k.triple then EncDec(EncDec(y, k.k1, true), k.k2, false) else y
  }

  function DecBlock(k: Keys, x: bv64): bv64 {
    EncDec(if k.triple then EncDec(EncDec(x, k.k2, true), k.k1, false) else x, k.k0, true)
  }

  lemma BlockInverse(k: Keys, x: bv64)
    ensures DecBlock(k, EncBlock(k, x)) == x && EncBlock(k, DecBlock(k, x)) == x
  {
    hide EncDec;
    var y := EncDec(x, k.k0, false);
    EncDecInverse(x, k.k0, false);
    EncDecInverse(y, k.k1, true);
    EncDecInverse(EncDec(y, k.k1, true), k.k2, false);
    var z := EncDec(x, k.k2, true);
    EncDecInverse(x, k.k2, true);
    EncDecInverse(z, k.k1, false);
    EncDecInverse(EncDec(z, k.k1, false), k.k0, true);
    EncDecInverse(x, k.k0, true);
  }

  /** Triple DES with a key twice in a row is single DES with the remaining one, so that its three ciphers
      are an encryption, a decryption and an encryption with the first, the second and the third key. */
  lemma TripleIsSingle(a: seq<bv64>, b: seq<bv64>, other: seq<bv64>, x: bv64)
    ensures EncBlock(Keys(true, a, a, b), x) == EncBlock(Keys(false, b, other, other), x) == EncDec(x, b, false)
    ensures EncBlock(Keys(true, a, b, b), x) == EncBlock(Keys(false, a, other, other), x) == EncDec(x, a, false)
  {
    hide EncDec;
    EncDecInverse(x, a, false);
    EncDecInverse(EncDec(x, a, false), b, true);
  }

  // ------------------------------------------------------------------ blocks in a row

  /** One block with the chaining value, and the next chaining value; without chaining that is zero. */
  function OneBlock(k: Keys, b: bv64, iv: bv64, chained: bool, decrypt: bool): (bv64, bv64) {
    if decrypt then (Xor(DecBlock(k, b), iv), if chained then b else 0)
    else
      var c := EncBlock(k, Xor(b, iv));
      (c, if chained then c else 0)
  }

  /** All the blocks, and the final chaining value. */
  function Run(k: Keys, blocks: seq<bv64>, iv: bv64, chained: bool, decrypt: bool): (r: (seq<bv64>, bv64))
    ensures |r.0| == |blocks|
    decreases |blocks|
  {
    if blocks == [] then ([], iv)
    else
      var (b, next) := OneBlock(k, blocks[0], iv, chained, decrypt);
      var (rest, last) := Run(k, blocks[1..], next, chained, decrypt);
      ([b] + rest, last)
  }

  lemma OneBlockBack(k: Keys, b: bv64, iv: bv64, chained: bool, decrypt: bool)
    ensures var (c, next) := OneBlock(k, b, iv, chained, decrypt);
            OneBlock(k, c, iv, chained, !decrypt) == (b, next)
  {
    hide EncBlock, DecBlock, Xor;
    if decrypt {
      XorTwice(DecBlock(k, b), iv);
      BlockInverse(k, b);
    } else {
      BlockInverse(k, Xor(b, iv));
      XorTwice(b, iv);
    }
  }

  /** Running the other way over the result, from the same chaining value, gives the blocks back and ends
      with the same chaining value: for single and triple DES, any keys, chained or not. */
  lemma {:induction false} RoundTrip(k: Keys, blocks: seq<bv64>, iv: bv64, chained: bool, decrypt: bool)
    ensures var (out, last) := Run(k, blocks, iv, chained, decrypt);
            Run(k, out, iv, chained, !decrypt) == (blocks, last)
    decreases |blocks|
  {
    hide OneBlock;
    if blocks != [] {
      OneBlockBack(k, blocks[0], iv, chained, decrypt);
      var (b, next) := OneBlock(k, blocks[0], iv, chained, decrypt);
      RoundTrip(k, blocks[1..], next, chained, decrypt);
      var (rest, last) := Run(k, blocks[1..], next, chained, decrypt);
      assert ([b] + rest)[1..] == rest && [blocks[0]] + blocks[1..] == blocks;
    }
  }

  /** Blocks in two runs, the chaining value handed on, are the same as in one. */
  lemma {:induction false} SplitRun(k: Keys, a: seq<bv64>, b: seq<bv64>, iv: bv64, chained: bool, decrypt: bool)
    ensures var (x, middle) := Run(k, a, iv, chained, decrypt);
            var (y, last) := Run(k, b, middle, chained, decrypt);
            Run(k, a + b, iv, chained, decrypt) == (x + y, last)
    decreases |a|
  {
    hide OneBlock;
    if a == [] {
      assert a + b == b;
      var y := Run(k, b, iv, chained, decrypt).0;
      assert [] + y == y;
    } else {
      var (c, next) := OneBlock(k, a[0], iv, chained, decrypt);
      SplitRun(k, a[1..], b, next, chained, decrypt);
      assert (a + b)[1..] == a[1..] + b && (a + b)[0] == a[0];
      var (x, middle) := Run(k, a[1..], next, chained, decrypt);
      var (y, last) := Run(k, b, middle, chained, decrypt);
      assert [c] + (x + y) == ([c] + x) + y;
    }
  }

  /** Cipher block chaining: each block is combined with the ciphertext before it, the first with the initial
      value, and the last ciphertext is what the next message is chained to. */
  predicate Chained(k: Keys, plain: seq<bv64>, cipher: seq<bv64>, iv: bv64, last: bv64) {
    && |cipher| == |plain| && last == (if |cipher| == 0 then iv else cipher[|cipher| - 1])
    && forall i :: 0 <= i < |plain| ==> cipher[i] == EncBlock(k, Xor(plain[i], if i == 0 then iv else cipher[i - 1]))
  }

  /** And back: each decrypted block is combined with the ciphertext before it. */
  predicate Unchained(k: Keys, cipher: seq<bv64>, plain: seq<bv64>, iv: bv64, last: bv64) {
    && |plain| == |cipher| && last == (if |cipher| == 0 then iv else cipher[|cipher| - 1])
    && forall i :: 0 <= i < |cipher| ==> plain[i] == Xor(DecBlock(k, cipher[i]), if i == 0 then iv else cipher[i - 1])
  }

  lemma {:induction false} EncryptionChains(k: Keys, blocks: seq<bv64>, iv: bv64)
    ensures Chained(k, blocks, Run(k, blocks, iv, true, false).0, iv, Run(k, blocks, iv, true, false).1)
    decreases |blocks|
  {
    hide EncBlock, Xor;
    if blocks != [] {
      var c := EncBlock(k, Xor(blocks[0], iv));
      EncryptionChains(k, blocks[1..], c);
      var rest := Run(k, blocks[1..], c, true, false).0;
      assert Run(k, blocks, iv, true, false).0 == [c] + rest;
      forall i | 0 < i < |blocks|
        ensures ([c] + rest)[i] == EncBlock(k, Xor(blocks[i], ([c] + rest)[i - 1]))
      {
        assert rest[i - 1] == EncBlock(k, Xor(blocks[1..][i - 1], if i - 1 == 0 then c else rest[i - 2]));
      }
    }
  }

  lemma {:induction false} DecryptionUnchains(k: Keys, blocks: seq<bv64>, iv: bv64)
    ensures Unchained(k, blocks, Run(k, blocks, iv, true, true).0, iv, Run(k, blocks, iv, true, true).1)
    decreases |blocks|
  {
    hide DecBlock, Xor;
    if blocks != [] {
      DecryptionUnchains(k, blocks[1..], blocks[0]);
      var p, rest := Xor(DecBlock(k, blocks[0]), iv), Run(k, blocks[1..], blocks[0], true, true).0;
      assert Run(k, blocks, iv, true, true).0 == [p] + rest;
      forall i | 0 < i < |blocks|
        ensures ([p] + rest)[i] == Xor(DecBlock(k, blocks[i]), blocks[i - 1])
      {
        assert rest[i - 1] == Xor(DecBlock(k, blocks[1..][i - 1]), if i - 1 == 0 then blocks[0] else blocks[1..][i - 2]);
      }
    }
  }

  lemma XorZero(x: bv64) ensures Xor(x, 0) == x {}

  /** Without chaining every block is encrypted or decrypted by itself. */
  lemma {:induction false} EachByItself(k: Keys, blocks: seq<bv64>, decrypt: bool)
    ensures forall i :: 0 <= i < |blocks| ==>
      Run(k, blocks, 0, false, decrypt).0[i] == if decrypt then DecBlock(k, blocks[i]) else EncBlock(k, blocks[i])
    decreases |blocks|
  {
    hide DecBlock, EncBlock, Xor;
    if blocks != [] {
      EachByItself(k, blocks[1..], decrypt);
      XorZero(blocks[0]);
      XorZero(DecBlock(k, blocks[0]));
    }
  }

  /** The same for the words that memory gets. */
  lemma ChainingIs(k: Keys, blocks: seq<bv64>, iv: bv64, decrypt: bool)
    ensures var (out, last) := Run(k, blocks, iv, true, decrypt);
            && Swapped(Swapped(out)) == out && Be2me(Be2me(last)) == last
            && if decrypt then Unchained(k, blocks, out, iv, last) else Chained(k, blocks, out, iv, last)
  {
    hide Run, Be2me, Chained, Unchained;
    var (out, last) := Run(k, blocks, iv, true, decrypt);
    SwappedTwice(out);
    Be2meTwice(last);
    if decrypt {
      DecryptionUnchains(k, blocks, iv);
    } else {
      EncryptionChains(k, blocks, iv);
    }
  }

  /** The words of a buffer, as memory holds them, encrypted or decrypted. */
  function CryptWords(k: Keys, words: seq<bv64>, iv: bv64, chained: bool, decrypt: bool): (seq<bv64>, bv64) {
    var (out, last) := Run(k, Swapped(words), iv, chained, decrypt);
    (Swapped(out), last)
  }

  /** The same for the words in memory. */
  lemma WordsRoundTrip(k: Keys, words: seq<bv64>, iv: bv64, chained: bool, decrypt: bool)
    ensures var (out, last) := CryptWords(k, words, iv, chained, decrypt);
            CryptWords(k, out, iv, chained, !decrypt) == (words, last)
  {
    hide Run, Swapped;
    RoundTrip(k, Swapped(words), iv, chained, decrypt);
    SwappedTwice(Run(k, Swapped(words), iv, chained, decrypt).0);
    SwappedTwice(words);
  }

  // ------------------------------------------------------------------ the cipher as an object

  function ReadBe64(key: seq<bv8>): bv64
    requires |key| == 8
  {
    ((key[0] as bv64) << 56) | ((key[1] as bv64) << 48) | ((key[2] as bv64) << 40) | ((key[3] as bv64) << 32)
    | ((key[4] as bv64) << 24) | ((key[5] as bv64) << 16) | ((key[6] as bv64) << 8) | key[7] as bv64
  }

  class AVDES {
    var tripleDes: bool
    const keys0: array<bv64>
    const keys1: array<bv64>
    const keys2: array<bv64>

    ghost predicate Valid() {
      && keys0.Length == keys1.Length == keys2.Length == ROUNDS
      && keys0 != keys1 && keys0 != keys2 && keys1 != keys2
    }

    ghost function Schedule(): Keys
      reads this, keys0, keys1, keys2
    {
      Keys(tripleDes, keys0[..], keys1[..], keys2[..])
    }

    constructor ()
      ensures Valid() && fresh(keys0) && fresh(keys1) && fresh(keys2)
    {
      tripleDes := false;
      keys0, keys1, keys2 := new bv64[ROUNDS], new bv64[ROUNDS], new bv64[ROUNDS];
    }

    /** Takes a key of 64 or 192 bits. */
    method Init(key: seq<bv8>, keyBits: int, decrypt: bool) returns (r: int)
      requires Valid() && (keyBits == 64 ==> |key| >= 8) && (keyBits == 192 ==> |key| >= 24)
      modifies this, keys0, keys1, keys2
      ensures r == if keyBits == 64 || keyBits == 192 then 0 else -1
      ensures r == -1 ==> Schedule() == old(Schedule())
      ensures keyBits == 64 ==> Schedule() == Keys(false, RoundKeys(ReadBe64(key[..8])), old(keys1[..]), old(keys2[..]))
      ensures keyBits == 192 ==>
                Schedule() == Keys(true, RoundKeys(ReadBe64(key[..8])), RoundKeys(ReadBe64(key[8..16])), RoundKeys(ReadBe64(key[16..24])))
    {
      hide RoundKeys, ReadBe64;
      if keyBits != 64 && keyBits != 192 {
        return -1;
      }
      tripleDes := keyBits > 64;
      GenRoundKeys(keys0, ReadBe64(key[..8]));
      if tripleDes {
        GenRoundKeys(keys1, ReadBe64(key[8..16]));
        GenRoundKeys(keys2, ReadBe64(key[16..24]));
      }
      return 0;
    }

    /** One block in the direction asked for, without the chaining value. */
    method CryptBlock(x: bv64, decrypt: bool) returns (r: bv64)
      requires Valid()
      ensures r == if decrypt then DecBlock(Schedule(), x) else EncBlock(Schedule(), x)
    {
      hide EncDec;
      r := x;
      if decrypt {
        if tripleDes {
          r := DesEncDec(r, keys2, true);
          r := DesEncDec(r, keys1, false);
        }
        r := DesEncDec(r, keys0, true);
      } else {
        r := DesEncDec(r, keys0, false);
        if tripleDes {
          r := DesEncDec(r, keys1, true);
          r := DesEncDec(r, keys2, false);
        }
      }
    }

    /** Encrypts or decrypts `count` blocks from `src` to `dst`, which may be the same buffer; the
        chaining value is read from `iv` and left there, or there is none. A null source stands for one
        block of zeros. */
    method Crypt(dst: array<bv64>, src: array?<bv64>, count: int, iv: array?<bv64>, decrypt: bool)
      requires Valid() && dst !in {keys0, keys1, keys2} && iv !in {keys0, keys1, keys2}
      requires count <= dst.Length && if src == null then count <= 1 else count <= src.Length
      requires iv != null ==> iv.Length == 1 && iv != dst && iv != src
      modifies dst, if iv == null then {} else {iv}
      ensures var n := if count < 0 then 0 else count;
              var blocks := if src == null then Zeros(n) else Swapped(old(src[..n]));
              var (out, last) := Run(old(Schedule()), blocks, if iv == null then 0 else Be2me(old(iv[0])), iv != null, decrypt);
              dst[..n] == Swapped(out) && dst[n..] == old(dst[n..]) && (iv != null ==> iv[0] == Be2me(last))
      ensures iv != null && src != null ==>
                var n := if count < 0 then 0 else count;
                var given, made := Swapped(old(src[..n])), Swapped(dst[..n]);
                if decrypt then Unchained(old(Schedule()), given, made, Be2me(old(iv[0])), Be2me(iv[0]))
                else Chained(old(Schedule()), given, made, Be2me(old(iv[0])), Be2me(iv[0]))
    {
      hide Run, Be2me, Chained, Unchained;
      ghost var blocks, k := if src == null then [] else Swapped(src[..if count < 0 then 0 else count]), Schedule();
      ghost var start := if iv == null then 0 else Be2me(iv[0]);
      ChainingIs(k, blocks, start, decrypt);
      var n := if count < 0 then 0 else count;
      var ivVal := if iv == null then 0 else Be2me(iv[0]);
      ivVal := CryptBlocks(dst, src, n, ivVal, iv != null, decrypt);
      if iv != null {
        iv[0] := Be2me(ivVal);
      }
    }

    /** The loop over the blocks. */
    method CryptBlocks(dst: array<bv64>, src: array?<bv64>, n: nat, iv: bv64, chained: bool, decrypt: bool) returns (last: bv64)
      requires Valid() && dst !in {keys0, keys1, keys2}
      requires n <= dst.Length && if src == null then n <= 1 else n <= src.Length
      modifies dst
      ensures var blocks := if src == null then Zeros(n) else Swapped(old(src[..n]));
              dst[..n] == Swapped(Run(Schedule(), blocks, iv, chained, decrypt).0) && dst[n..] == old(dst[n..])
              && last == Run(Schedule(), blocks, iv, chained, decrypt).1
    {
      hide *;
      ghost var k, before := Schedule(), dst[..];
      ghost var blocks := if src == null then Zeros(n) else Swapped(src[..n]);
      Loaded(src, n);
      last := iv;
      var i := 0;
      RunNone(k, iv, chained, decrypt);
      while i < n
        invariant i <= n && Schedule() == k && Run(k, blocks[..i], iv, chained, decrypt).1 == last
        invariant dst[..i] == Swapped(Run(k, blocks[..i], iv, chained, decrypt).0)
        invariant |before| == dst.Length && forall j :: i <= j < dst.Length ==> dst[j] == before[j]
        invariant src != null ==> forall j :: i <= j < n ==> Be2me(src[j]) == blocks[j]
      {
        var srcVal := if src != null then Be2me(src[i]) else 0;
        RunNext(k, blocks, i, iv, chained, decrypt);
        SwappedNext(Run(k, blocks[..i], iv, chained, decrypt).0, OneBlock(k, blocks[i], last, chained, decrypt).0);
        var dstVal;
        dstVal, last := CryptStep(srcVal, last, chained, decrypt);
        dst[i] := Be2me(dstVal);
        i := i + 1;
      }
      assert blocks[..n] == blocks;
    }

    method CryptStep(srcVal: bv64, ivVal: bv64, chained: bool, decrypt: bool) returns (dstVal: bv64, next: bv64)
      requires Valid()
      ensures (dstVal, next) == OneBlock(Schedule(), srcVal, ivVal, chained, decrypt)
    {
      if decrypt {
        dstVal := CryptBlock(srcVal, true);
        dstVal := Xor(dstVal, ivVal);
        next := if chained then srcVal else 0;
      } else {
        dstVal := CryptBlock(Xor(srcVal, ivVal), false);
        next := if chained then dstVal else 0;
      }
    }
  }

  function Zeros(n: nat): (s: seq<bv64>)
    ensures |s| == n
  {
    seq(n, _ => 0)
  }

  lemma RunNone(k: Keys, iv: bv64, chained: bool, decrypt: bool)
    ensures Run(k, [], iv, chained, decrypt) == ([], iv)
  {}

  lemma RunNext(k: Keys, blocks: seq<bv64>, i: nat, iv: bv64, chained: bool, decrypt: bool)
    requires i < |blocks|
    ensures var (out, next) := Run(k, blocks[..i], iv, chained, decrypt);
            var (b, last) := OneBlock(k, blocks[i], next, chained, decrypt);
            Run(k, blocks[..i + 1], iv, chained, decrypt) == (out + [b], last)
  {
    hide OneBlock;
    SplitRun(k, blocks[..i], [blocks[i]], iv, chained, decrypt);
    assert blocks[..i + 1] == blocks[..i] + [blocks[i]];
    var (out, next) := Run(k, blocks[..i], iv, chained, decrypt);
    assert [blocks[i]][1..] == [];
    var (b, last) := OneBlock(k, blocks[i], next, chained, decrypt);
    RunNone(k, last, chained, decrypt);
    assert [b] + [] == [b];
  }

  lemma Loaded(src: array?<bv64>, n: nat)
    requires src != null ==> n <= src.Length
    ensures if src == null then |Zeros(n)| == n && forall j :: 0 <= j < n ==> Zeros(n)[j] == 0
            else |Swapped(src[..n])| == n && forall j :: 0 <= j < n ==> Be2me(src[j]) == Swapped(src[..n])[j]
  {
    hide Be2me;
  }

  lemma SwappedNext(words: seq<bv64>, b: bv64)
    ensures Swapped(words + [b]) == Swapped(words) + [Be2me(b)] && Swapped([]) == []
  {
    hide Be2me;
  }

  /** A whole buffer encrypted in place and decrypted in place from the same chaining value: it is as
      before, and both runs leave the same chaining value. */
  method EncryptAndDecrypt(des: AVDES, buffer: array<bv64>, iv: array<bv64>) returns (encrypted: bv64)
    requires des.Valid() && buffer !in {des.keys0, des.keys1, des.keys2} && iv !in {des.keys0, des.keys1, des.keys2}
    requires iv.Length == 1 && iv != buffer
    modifies buffer, iv
    ensures buffer[..] == old(buffer[..]) && iv[0] == encrypted
  {
    hide Run, Be2me, EncBlock, DecBlock;
    var start := iv[0];
    ghost var k, words := des.Schedule(), buffer[..];
    assert buffer[..buffer.Length] == words;
    des.Crypt(buffer, buffer, buffer.Length, iv, false);
    encrypted := iv[0];
    iv[0] := start;
    assert buffer[..buffer.Length] == buffer[..];
    WordsRoundTrip(k, words, Be2me(start), true, false);
    des.Crypt(buffer, buffer, buffer.Length, iv, true);
    assert buffer[..buffer.Length] == buffer[..];
  }
}
