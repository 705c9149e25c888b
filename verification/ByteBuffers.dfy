/** Byte buffers that are written in place, and read, at offsets. */
module ByteBuffers {
  import opened MachineWords

  /** The bytes after writing some at an offset. */
  function Put(s: seq<byte>, at: nat, bytes: seq<byte>): (r: seq<byte>)
    requires at + |bytes| <= |s|
    ensures |r| == |s|
  {
    s[..at] + bytes + s[at + |bytes|..]
  }

  /** What is written can be read at its place, and any other place reads as before. */
  lemma PutSlices(s: seq<byte>, at: nat, bytes: seq<byte>, lo: nat, hi: nat)
    requires at + |bytes| <= |s| && lo <= hi <= |s| && (hi <= at || at + |bytes| <= lo)
    ensures Put(s, at, bytes)[at..at + |bytes|] == bytes && Put(s, at, bytes)[lo..hi] == s[lo..hi]
  {
    var r := Put(s, at, bytes);
    forall i | lo <= i < hi ensures r[i] == s[i] {}
  }

  lemma PutOne(before: seq<byte>, at: nat, bytes: seq<byte>, i: nat)
    requires i < |bytes| && at + |bytes| <= |before|
    ensures Put(before, at, bytes[..i])[at + i := bytes[i]] == Put(before, at, bytes[..i + 1])
  {}

  method PutBytes(buffer: array<byte>, at: nat, bytes: seq<byte>)
    requires at + |bytes| <= buffer.Length
    modifies buffer
    ensures buffer[..] == Put(old(buffer[..]), at, bytes)
  {
    ghost var before := buffer[..];
    var i := 0;
    while i < |bytes|
      invariant i <= |bytes| && buffer[..] == Put(before, at, bytes[..i])
    {
      PutOne(before, at, bytes, i);
      buffer[at + i] := bytes[i];
      i := i + 1;
    }
    assert bytes[..|bytes|] == bytes;
  }

  /** The word at an offset. */
  function DWord(s: seq<byte>, at: nat): (n: nat)
    requires at + 4 <= |s|
    ensures n < TWO32
  {
    U32(s[at..at + 4])
  }

  method ReadDWord(buffer: array<byte>, at: nat) returns (n: nat)
    requires at + 4 <= buffer.Length
    ensures n == DWord(buffer[..], at)
  {
    assert buffer[..][at..at + 4] == buffer[at..at + 4];
    n := buffer[at] as int + 0x100 * buffer[at + 1] as int + 0x1_0000 * buffer[at + 2] as int + 0x100_0000 * buffer[at + 3] as int;
  }

  /** A part of a part. */
  lemma SubSlice(m: seq<byte>, begin: nat, end: nat, lo: nat, hi: nat)
    requires begin <= end <= |m| && lo <= hi <= end - begin
    ensures m[begin..end][lo..hi] == m[begin + lo..begin + hi]
  {
    forall i | 0 <= i < hi - lo
      ensures m[begin..end][lo..hi][i] == m[begin + lo..begin + hi][i]
    {
      assert m[begin..end][lo + i] == m[begin + (lo + i)];
    }
  }
}
