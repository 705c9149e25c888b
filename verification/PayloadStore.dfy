/** The payload store: a byte buffer of records that is edited in place. */
module PayloadStore {
  import opened MachineWords
  import opened ByteBuffers
  import opened PayloadRecords

  class CImageData {
    /** The buffer; it is a borrowed one while nothing has been allocated. */
    var buffer: array<byte>
    var cbData: nat
    var cbAlloc: nat
    /** The records in the buffer. */
    ghost var recs: seq<Record>

    ghost predicate Valid()
      reads this, buffer
    {
      && cbData <= buffer.Length && cbData < TWO32 && (cbAlloc == 0 || cbAlloc == buffer.Length)
      && AreRecords(recs) && DistinctGuids(recs) && buffer[..cbData] == EncodeAll(recs)
    }

    /** The data of each GUID. */
    ghost function Map(): map<seq<byte>, seq<byte>>
      reads this
    {
      Contents(recs)
    }

    /** Data found in a file: the buffer belongs to the file. */
    constructor (buffer: array<byte>, cbData: nat, ghost recs: seq<Record>)
      requires cbData <= buffer.Length && cbData < TWO32
      requires AreRecords(recs) && DistinctGuids(recs) && buffer[..cbData] == EncodeAll(recs)
      ensures Valid() && this.recs == recs && this.buffer == buffer
    {
      this.buffer, this.cbData, cbAlloc, this.recs := buffer, cbData, 0, recs;
    }

    /** Makes room for `size` bytes; what is in the buffer stays. */
    method SizeTo(size: nat, memory: bool) returns (ok: bool)
      requires Valid() && cbData <= size
      modifies `buffer, `cbAlloc
      ensures Valid() && ok == (size <= old(cbAlloc) || memory)
      ensures ok ==> size <= cbAlloc
      ensures buffer == old(buffer) || fresh(buffer)
    {
      hide EncodeAll, AreRecords, DistinctGuids;
      if size <= cbAlloc {
        return true;
      }
      if !memory {
        return false;
      }
      var more := new byte[size];
      var i := 0;
      while i < cbData
        invariant i <= cbData && forall j :: 0 <= j < i ==> more[j] == buffer[j]
        modifies more
      {
        more[i] := buffer[i];
        i := i + 1;
      }
      assert more[..cbData] == buffer[..cbData];
      buffer, cbAlloc := more, more.Length;
      return true;
    }

    /** The bytes of the record at an offset. */
    lemma At(i: nat)
      requires Valid() && i < |recs|
      ensures var o := Offset(recs, i);
              && o + Size(recs[i]) == Offset(recs, i + 1) <= cbData && o + HEADER <= cbData
              && DWord(buffer[..], o) == Size(recs[i]) && DWord(buffer[..], o + 4) == 0
              && buffer[o + 8..o + 24] == recs[i].guid && buffer[o + 24..o + Size(recs[i])] == recs[i].data
    {
      hide U32, EncodeAll;
      ReadRecord(buffer[..cbData], recs, i);
      var o := Offset(recs, i);
      assert buffer[..cbData][o..o + 4] == buffer[o..o + 4] && buffer[..cbData][o + 4..o + 8] == buffer[o + 4..o + 8];
      assert buffer[..cbData][o + 8..o + 24] == buffer[o + 8..o + 24];
      assert buffer[..cbData][o + 24..o + Size(recs[i])] == buffer[o + 24..o + Size(recs[i])];
    }

    lemma AtEnd()
      requires Valid()
      ensures Offset(recs, 0) == 0 && Offset(recs, |recs|) == cbData
    {
      Ends(recs);
    }

    /** The place of the data of a GUID: its offset and size. */
    method Find(g: seq<byte>) returns (found: bool, at: nat, size: nat)
      requires Valid() && |g| == GUID_SIZE
      ensures found <==> g in Map()
      ensures found ==> IndexOf(recs, g) < |recs| && at == Offset(recs, IndexOf(recs, g)) + HEADER
                        && at + size <= cbData && buffer[at..at + size] == Map()[g]
      ensures !found ==> at == 0 && size == 0 && IndexOf(recs, g) == |recs|
    {
      hide Offset, EncodeAll, DWord, Contents, DistinctGuids, AreRecords;
      AtEnd();
      var offset := 0;
      ghost var i := 0;
      while offset < cbData
        invariant i <= |recs| && AreRecords(recs) && offset == Offset(recs, i) <= cbData
        invariant forall j :: 0 <= j < i ==> recs[j].guid != g
        decreases cbData - offset
      {
        Inside(recs, i);
        At(i);
        var cbBytes := ReadDWord(buffer, offset);
        if cbBytes > cbData {
          break;
        }
        if cbBytes >= HEADER && buffer[offset + 8..offset + 24] == g {
          FirstIndex(recs, g, i);
          ContentsOfIndex(recs, g);
          return true, offset + HEADER, cbBytes - HEADER;
        }
        offset := offset + cbBytes;
        i := i + 1;
      }
      AllPassed(buffer[..cbData], recs, i);
      NoIndex(recs, g);
      return false, 0, 0;
    }

    /** Moves `n` bytes down. */
    method MoveDown(to: nat, from: nat, n: nat)
      requires to <= from && from + n <= buffer.Length
      modifies buffer
      ensures buffer[..to + n] == old(buffer[..to]) + old(buffer[from..from + n])
    {
      ghost var before := buffer[..];
      var i := 0;
      while i < n
        invariant i <= n && buffer[..to + i] == before[..to] + before[from..from + i]
        invariant forall j :: from + i <= j < from + n ==> buffer[j] == before[j]
      {
        assert before[from..from + i + 1] == before[from..from + i] + [before[from + i]];
        buffer[to + i] := buffer[from + i];
        assert buffer[..to + i + 1] == buffer[..to + i] + [buffer[to + i]];
        i := i + 1;
      }
    }

    /** Removes the record of a GUID; the records behind it move down. */
    method Delete(g: seq<byte>) returns (found: bool)
      requires Valid() && |g| == GUID_SIZE
      modifies `cbData, `recs, buffer
      ensures Valid() && (found <==> g in old(Map())) && recs == Without(old(recs), g) && Map() == old(Map()) - {g}
      ensures cbData <= old(cbData) && forall j :: 0 <= j < |recs| ==> recs[j].guid != g
    {
      hide EncodeAll, DWord, Contents, DistinctGuids, AreRecords;
      WithoutShape(recs, g);
      WithoutKeeps(recs, g);
      var at, size;
      found, at, size := Find(g);
      if found {
        ContentsOfIndex(recs, g);
        FoundSize(IndexOf(recs, g), at, size);
        CloseGap(at - HEADER, size + HEADER, IndexOf(recs, g));
      } else {
        NotThere(recs, g);
      }
    }

    method CloseGap(start: nat, cbFound: nat, ghost i: nat)
      requires Valid() && i < |recs| && start == Offset(recs, i) && cbFound == Size(recs[i]) && start + cbFound <= cbData
      requires AreRecords(recs[..i] + recs[i + 1..]) && DistinctGuids(recs[..i] + recs[i + 1..])
      modifies `cbData, `recs, buffer
      ensures Valid() && recs == old(recs)[..i] + old(recs)[i + 1..] && cbData <= old(cbData)
    {
      hide EncodeAll, DistinctGuids, AreRecords, Offset;
      Closed(buffer[..cbData], recs, i);
      ghost var before := buffer[..cbData];
      var cbRest := cbData - (start + cbFound);
      if cbRest != 0 {
        MoveDown(start, start + cbFound, cbRest);
      }
      cbData := cbData - cbFound;
      recs := recs[..i] + recs[i + 1..];
      assert buffer[..cbData] == before[..start] + before[start + cbFound..];
    }

    lemma FoundSize(i: nat, at: nat, size: nat)
      requires Valid() && i < |recs| && at == Offset(recs, i) + HEADER && at + size <= cbData
      requires buffer[at..at + size] == recs[i].data
      ensures size == |recs[i].data| && Offset(recs, i) + Size(recs[i]) <= cbData
    {
      At(i);
    }

    // ------------------------------------------------------------------ adding

    /** Stores data under a GUID, at the end, in place of what was there; `data` is null for zeros. When
        there is no memory the old data is gone all the same. */
    method Set(g: seq<byte>, data: Source, memory: bool) returns (ok: bool, at: nat)
      requires Valid() && |g| == GUID_SIZE && cbData + HEADER + QuadAlign(Given(data)) < TWO32
      modifies this, buffer
      ensures Valid() && (buffer == old(buffer) || fresh(buffer))
      ensures ok ==> recs == Without(old(recs), g) + [Record(g, Stored(data))]
                     && Map() == old(Map())[g := Stored(data)] && at == Offset(recs, |recs| - 1) + HEADER
      ensures ok ==> g in Map() && Holds(Map()[g], data)
      ensures !ok ==> recs == Without(old(recs), g) && Map() == old(Map()) - {g}
      ensures memory ==> ok
    {
      hide EncodeAll, DWord, Contents, DistinctGuids, AreRecords, Without, Offset;
      at := 0;
      var _ := Delete(g);
      var alloc := QuadAlign(Given(data));
      ok := SizeTo(cbData + alloc + HEADER, memory);
      if !ok {
        return;
      }
      at := cbData + HEADER;
      StoredHolds(data);
      AppendRecord(g, Stored(data));
    }

    method AppendRecord(g: seq<byte>, stored: seq<byte>)
      requires Valid() && |g| == GUID_SIZE && cbData + HEADER + |stored| < TWO32 && cbData + HEADER + |stored| <= buffer.Length
      requires forall j :: 0 <= j < |recs| ==> recs[j].guid != g
      modifies `cbData, `recs, buffer
      ensures Valid() && recs == old(recs) + [Record(g, stored)] && Offset(recs, |recs| - 1) == old(cbData)
      ensures Map() == old(Map())[g := stored]
    {
      ghost var r := Record(g, stored);
      AddedContents(recs, r);
      Appended(recs, r);
      hide EncodeAll, Contents, DistinctGuids, AreRecords, Encode;
      assert buffer[..cbData] == EncodeAll(recs);
      PutRecord(g, stored);
      cbData := cbData + HEADER + |stored|;
      recs := recs + [r];
    }

    /** Writes the fields of a record behind the others. */
    method PutRecord(g: seq<byte>, stored: seq<byte>)
      requires |g| == GUID_SIZE && cbData + HEADER + |stored| < TWO32 && cbData + HEADER + |stored| <= buffer.Length
      modifies buffer
      ensures buffer[..cbData + HEADER + |stored|] == old(buffer[..cbData]) + Encode(Record(g, stored))
    {
      hide Le32;
      PutBytes(buffer, cbData, Le32(HEADER + |stored|));
      PutBytes(buffer, cbData + 4, RESERVED);
      PutBytes(buffer, cbData + 8, g);
      PutBytes(buffer, cbData + 24, stored);
      Joined(old(buffer[..cbData]), Le32(HEADER + |stored|), RESERVED, g, stored);
    }

    // ------------------------------------------------------------------ listing

    /** The record at the iterator position, which moves on to the next one; nothing at the end. */
    method Enumerate(position: nat, ghost i: nat) returns (found: bool, g: seq<byte>, at: nat, size: nat, next: nat)
      requires Valid() && i <= |recs| && position == Offset(recs, i)
      ensures found <==> i < |recs|
      ensures found ==> g == recs[i].guid && at == position + HEADER && at + size <= cbData && buffer[at..at + size] == recs[i].data
                        && next == Offset(recs, i + 1)
      ensures !found ==> next == position && g == Zeros(GUID_SIZE) && size == 0
    {
      hide EncodeAll, DWord, Contents, DistinctGuids, AreRecords, Offset;
      AtEnd();
      if cbData < position + HEADER {
        if i < |recs| {
          At(i);
        }
        return false, Zeros(GUID_SIZE), 0, 0, position;
      }
      Inside(recs, i);
      At(i);
      var cbBytes := ReadDWord(buffer, position);
      return true, buffer[position + 8..position + 24], position + HEADER, cbBytes - HEADER, position + cbBytes;
    }

    /** Enumerating from the start lists every record once, in order. */
    method EnumerateAll() returns (listing: seq<Record>)
      requires Valid()
      ensures listing == recs
    {
      hide EncodeAll, Contents, DistinctGuids, AreRecords, Offset;
      AtEnd();
      listing := [];
      var found, position := true, 0;
      while found
        invariant |listing| <= |recs| && listing == recs[..|listing|] && AreRecords(recs) && position == Offset(recs, |listing|)
        invariant !found ==> |listing| == |recs|
        decreases |recs| - |listing|, found
      {
        var g, at, size, next;
        found, g, at, size, next := Enumerate(position, |listing|);
        if found {
          listing := listing + [Record(g, buffer[at..at + size])];
          position := next;
        }
      }
    }
  }

  /** Data handed in, or so many zeros. */
  datatype Source = Data(bytes: seq<byte>) | Blank(size: nat)

  function Given(data: Source): nat { match data case Data(bytes) => |bytes| case Blank(size) => size }

  /** What ends up in the store: zeros up to a multiple of eight. */
  function Stored(data: Source): (s: seq<byte>)
    ensures |s| == QuadAlign(Given(data))
  {
    Padded(match data case Data(bytes) => bytes case Blank(size) => Zeros(size))
  }

  /** The bytes handed in, or as many zeros, and zeros behind them up to the next multiple of eight. */
  predicate Holds(s: seq<byte>, data: Source) {
    |s| % 8 == 0
    && match data
       case Data(bytes) => |bytes| <= |s| < |bytes| + 8 && s[..|bytes|] == bytes && forall i :: |bytes| <= i < |s| ==> s[i] == 0
       case Blank(size) => size <= |s| < size + 8 && forall i :: 0 <= i < |s| ==> s[i] == 0
  }

  lemma StoredHolds(data: Source)
    ensures Holds(Stored(data), data)
  {}

  lemma Appended(recs: seq<Record>, r: Record)
    requires AreRecords(recs) && IsRecord(r)
    ensures AreRecords(recs + [r]) && EncodeAll(recs + [r]) == EncodeAll(recs) + Encode(r)
    ensures Offset(recs + [r], |recs|) == |EncodeAll(recs)|
  {
    hide Encode, EncodeAll;
    EncodeOne(r);
    EncodeConcat(recs, [r]);
    assert (recs + [r])[..|recs|] == recs;
  }

  lemma NotThere(recs: seq<Record>, g: seq<byte>)
    requires IndexOf(recs, g) == |recs|
    ensures Without(recs, g) == recs
  {}

  /** Closing the gap of record `i` leaves the encoding of the other records. */
  lemma Closed(bytes: seq<byte>, recs: seq<Record>, i: nat)
    requires AreRecords(recs) && i < |recs| && bytes == EncodeAll(recs)
    ensures var o := Offset(recs, i);
            AreRecords(recs[..i] + recs[i + 1..]) && o + Size(recs[i]) <= |bytes|
            && EncodeAll(recs[..i] + recs[i + 1..]) == bytes[..o] + bytes[o + Size(recs[i])..]
  {
    hide Encode, EncodeAll;
    Around(recs, i);
    EncodeConcat(recs[..i], recs[i + 1..]);
    var a, e, b := EncodeAll(recs[..i]), Encode(recs[i]), EncodeAll(recs[i + 1..]);
    assert (a + e + b)[..|a|] == a && (a + e + b)[|a| + |e|..] == b;
  }

  lemma Joined(a: seq<byte>, b: seq<byte>, c: seq<byte>, d: seq<byte>, e: seq<byte>)
    ensures a + b + c + d + e == a + (b + c + d + e)
  {}
}
