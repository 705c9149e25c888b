/** The `.detour` section: laid out when a binary is written, read back from the file, and searched for
    payloads in a loaded module. */
module PayloadSection {
  import opened MachineWords
  import opened ByteBuffers
  import opened PayloadRecords

  const SECTION_HEADER_SIZE := 64
  const SECTION_SIGNATURE := 0x727444

  // ------------------------------------------------------------------ the output buffer

  /** What is laid out, in this order: header, the old headers of the file, lookup table, bound table,
      names, payloads, import table. */
  datatype Sizes = Sizes(prePE: nat, thunks: nat, chars: nat, data: nat, imports: nat)

  /** What the output buffer is sized to. */
  function Requested(z: Sizes): nat {
    QuadAlign(SECTION_HEADER_SIZE) + z.prePE + QuadAlign(z.data) + QuadAlign(z.thunks) + QuadAlign(z.thunks)
    + QuadAlign(z.chars) + QuadAlign(z.imports)
  }

  /** What the allocations take, each rounded up. */
  function Taken(z: Sizes): nat {
    QuadAlign(SECTION_HEADER_SIZE) + QuadAlign(z.prePE) + QuadAlign(z.thunks) + QuadAlign(z.thunks)
    + QuadAlign(z.chars) + QuadAlign(z.data) + QuadAlign(z.imports)
  }

  /** Rounded up to a multiple of an alignment, which is a power of two. */
  function Align(n: nat, a: nat): (m: nat)
    requires a > 0
    ensures n <= m < n + a
  {
    (n + a - 1) / a * a
  }

  predicate PowerOfTwo(a: nat) { a == 1 || (a > 0 && a % 2 == 0 && PowerOfTwo(a / 2)) }

  /** The size of a buffer of `have` bytes when `n` are to fit. */
  function Sized(have: nat, n: nat, a: nat): (m: nat)
    requires a > 0
    ensures n <= m && have <= m
  {
    if have < n then Align(if n < 1024 then 1024 else n, a) else have
  }

  lemma Powers(a: nat)
    requires PowerOfTwo(a)
    ensures a == 1 || a == 2 || a == 4 || a % 8 == 0
  {}

  lemma AlignEight(n: nat, a: nat)
    requires a > 0 && a % 8 == 0
    ensures Align(n, a) % 8 == 0
  {
    var q, k := (n + a - 1) / a, a / 8;
    assert q * a == 8 * (q * k);
  }

  lemma AlignSmall(n: nat)
    ensures Align(n, 1) == n && Align(n, 2) == n + n % 2 && Align(n, 4) == if n % 4 == 0 then n else n + 4 - n % 4
  {}

  lemma QuadAlignEight(n: nat)
    ensures QuadAlign(n) % 8 == 0 && QuadAlign(n) == if n % 8 == 0 then n else n + 8 - n % 8
  {}

  /** What is asked for is what is taken when the old headers are a multiple of eight long, and only then. */
  lemma RequestedExact(z: Sizes)
    ensures Requested(z) % 8 == z.prePE % 8
    ensures Taken(z) == if z.prePE % 8 == 0 then Requested(z) else Requested(z) + 8 - z.prePE % 8
  {
    QuadAlignEight(z.prePE);
    hide QuadAlign;
    var rest := QuadAlign(z.data) + QuadAlign(z.thunks) + QuadAlign(z.thunks) + QuadAlign(z.chars) + QuadAlign(z.imports);
    AlignedHeader();
    PlusEight(QuadAlign(z.data), QuadAlign(z.thunks));
    PlusEight(QuadAlign(z.data) + QuadAlign(z.thunks), QuadAlign(z.thunks));
    PlusEight(QuadAlign(z.data) + QuadAlign(z.thunks) + QuadAlign(z.thunks), QuadAlign(z.chars));
    PlusEight(QuadAlign(z.data) + QuadAlign(z.thunks) + QuadAlign(z.thunks) + QuadAlign(z.chars), QuadAlign(z.imports));
    PlusEight(z.prePE, rest);
    PlusEight(z.prePE + rest, SECTION_HEADER_SIZE);
    assert Requested(z) == z.prePE + rest + SECTION_HEADER_SIZE;
  }

  lemma PlusEight(n: nat, m: nat)
    requires m % 8 == 0
    ensures (n + m) % 8 == n % 8
  {}

  /** With a file alignment of eight or more, everything fits however long the old headers are: sizing
      rounds up; and the buffer is a multiple of eight bytes long again. */
  lemma SizedEnough(z: Sizes, have: nat, a: nat)
    requires a > 0 && a % 8 == 0 && have % 8 == 0
    ensures Taken(z) <= Sized(have, Requested(z), a) && Sized(have, Requested(z), a) % 8 == 0
  {
    RequestedExact(z);
    hide Requested, Taken, Align;
    var n := Requested(z);
    AlignEight(if n < 1024 then 1024 else n, a);
  }

  /** For any file alignment: what is taken does not fit exactly when the old headers are not a multiple of
      eight long, and either the buffer from before was large enough for what is asked but not for what is
      taken, or a new one of more than 1024 bytes is rounded up by less. */
  lemma SizedExact(z: Sizes, have: nat, a: nat)
    requires PowerOfTwo(a) && (a % 8 == 0 ==> have % 8 == 0)
    ensures var n, r := Requested(z), z.prePE % 8;
            Taken(z) <= Sized(have, n, a) <==> r == 0 || (if have >= n then have >= n + 8 - r else n < 1024 || Align(r, a) >= 8)
  {
    RequestedExact(z);
    hide Requested, Taken, PowerOfTwo, Align, Sized;
    SizedNext(Requested(z), z.prePE % 8, have, a);
  }

  /** Whether the next multiple of eight from `n` on fits into a buffer that is sized for `n`. */
  lemma SizedNext(n: nat, r: nat, have: nat, a: nat)
    requires PowerOfTwo(a) && (a % 8 == 0 ==> have % 8 == 0) && r == n % 8
    ensures r != 0 ==>
      (n + 8 - r <= Sized(have, n, a) <==> if have >= n then have >= n + 8 - r else n < 1024 || Align(r, a) >= 8)
  {
    Powers(a);
    hide PowerOfTwo, Align;
    if r != 0 {
      if have < n && n < 1024 {
        NextEight(1024, n, r);
      } else if have < n {
        AlignedNext(n, r, a);
      }
    }
  }

  /** Rounding up reaches the next multiple of eight exactly if rounding up the rest does. */
  lemma AlignedNext(n: nat, r: nat, a: nat)
    requires a == 1 || a == 2 || a == 4 || (a > 0 && a % 8 == 0)
    requires r == n % 8 != 0
    ensures n + 8 - r <= Align(n, a) <==> Align(r, a) >= 8
  {
    hide Align;
    if a % 8 == 0 {
      AlignEight(n, a);
      AlignEight(r, a);
      NextEight(Align(n, a), n, r);
    } else {
      AlignSmall(n);
      AlignSmall(r);
      Rests(n);
    }
  }

  lemma Rests(n: nat)
    ensures n % 2 == n % 8 % 2 && n % 4 == n % 8 % 4
  {}

  lemma NextEight(have: nat, n: nat, r: nat)
    requires have % 8 == 0 && r == n % 8 != 0 && have >= n
    ensures have >= n + 8 - r
  {}

  /** Where the parts are. */
  datatype Layout = Layout(lookup: nat, bound: nat, chars: nat, data: nat, imports: nat)

  function LayoutOf(z: Sizes): Layout {
    var lookup := SECTION_HEADER_SIZE + QuadAlign(z.prePE);
    var bound := lookup + QuadAlign(z.thunks);
    var chars := bound + QuadAlign(z.thunks);
    var data := chars + QuadAlign(z.chars);
    Layout(lookup, bound, chars, data, data + QuadAlign(z.data))
  }

  class Output {
    var buffer: array<byte>
    const fileAlignment: nat
    const virtAddr: nat
    var virtSize: nat

    constructor (buffer: array<byte>, fileAlignment: nat, virtAddr: nat)
      ensures this.buffer == buffer && this.fileAlignment == fileAlignment && this.virtAddr == virtAddr && virtSize == 0
    {
      this.buffer, this.fileAlignment, this.virtAddr, virtSize := buffer, fileAlignment, virtAddr, 0;
    }

    /** Makes the buffer large enough for `size` bytes; what is in it stays. */
    method SizeOutputBuffer(size: nat, memory: bool) returns (ok: bool)
      requires fileAlignment > 0
      modifies `buffer
      ensures ok <==> size <= old(buffer.Length) || memory
      ensures ok ==> buffer.Length == Sized(old(buffer.Length), size, fileAlignment)
                     && buffer[..] == old(buffer[..]) + Zeros(buffer.Length - old(buffer.Length))
      ensures buffer == old(buffer) || (ok && fresh(buffer))
    {
      if buffer.Length < size {
        if !memory {
          return false;
        }
        var cbData := Align(if size < 1024 then 1024 else size, fileAlignment);
        var more := new byte[cbData](_ => 0);
        assert more[..] == Zeros(cbData);
        PutBytes(more, 0, buffer[..]);
        assert more[..] == buffer[..] + Zeros(cbData - buffer.Length);
        buffer := more;
      }
      return true;
    }

    /** The next bytes of the buffer, rounded up and cleared; each allocation follows the one before. */
    method AllocateOutput(size: nat) returns (ok: bool, at: nat, address: nat)
      modifies `virtSize, buffer
      ensures at == old(virtSize) && address == virtAddr + at && virtSize == at + QuadAlign(size)
      ensures ok <==> virtSize <= buffer.Length
      ensures !ok ==> buffer[..] == old(buffer[..])
      ensures ok ==> buffer[..] == Put(old(buffer[..]), at, Zeros(QuadAlign(size)))
    {
      at, address := virtSize, virtAddr + virtSize;
      virtSize := virtSize + QuadAlign(size);
      ok := virtSize <= buffer.Length;
      if ok {
        PutBytes(buffer, at, Zeros(QuadAlign(size)));
      }
    }

    /** The allocations of a section; a failed one leaves the rest to fail too. What is allocated is clear. */
    method AllocateAll(z: Sizes) returns (ok: bool, l: Layout)
      requires virtSize == 0
      modifies `virtSize, buffer
      ensures virtSize == Taken(z) && l == LayoutOf(z) && (ok <==> Taken(z) <= buffer.Length)
      ensures ok ==> buffer[..] == Put(old(buffer[..]), 0, Zeros(Taken(z)))
    {
      hide QuadAlign, Put, Zeros;
      ghost var s := buffer[..];
      NoneClear(s);
      var headOk, _ := AllocateNext(SECTION_HEADER_SIZE, s);
      AlignedHeader();
      var prePEOk, _ := AllocateNext(z.prePE, s);
      var _, lookup := AllocateNext(z.thunks, s);
      var _, bound := AllocateNext(z.thunks, s);
      var _, chars := AllocateNext(z.chars, s);
      var dataOk, data := AllocateNext(z.data, s);
      var importsOk, imports := AllocateNext(z.imports, s);
      return headOk && prePEOk && dataOk && importsOk, Layout(lookup, bound, chars, data, imports);
    }

    /** One part behind the others, in a buffer that held `s`. */
    method AllocateNext(size: nat, ghost s: seq<byte>) returns (ok: bool, at: nat)
      requires |s| == buffer.Length && (virtSize <= |s| ==> buffer[..] == Put(s, 0, Zeros(virtSize)))
      modifies `virtSize, buffer
      ensures at == old(virtSize) && virtSize == at + QuadAlign(size) && (ok <==> virtSize <= |s|)
      ensures virtSize <= |s| ==> buffer[..] == Put(s, 0, Zeros(virtSize))
    {
      hide QuadAlign, Put, Zeros;
      MoreClear(s, virtSize, QuadAlign(size));
      var done, place, _ := AllocateOutput(size);
      return done, place;
    }

    /** Writes the header, the old headers of the file and the payloads; the tables are left clear. */
    method WriteSection(z: Sizes, rest: seq<byte>, prePE: seq<byte>, data: seq<byte>) returns (ok: bool, l: Layout)
      requires virtSize == 0 && |rest| == 48 && |prePE| == z.prePE && |data| == z.data && Taken(z) < TWO32
      modifies `virtSize, buffer
      ensures virtSize == Taken(z) && l == LayoutOf(z) && (ok <==> Taken(z) <= buffer.Length)
      ensures ok ==> Holds(buffer[..], l.data, rest, prePE, data)
      ensures ok ==> buffer[l.lookup..l.data] == Zeros(l.data - l.lookup) && buffer[l.imports..Taken(z)] == Zeros(Taken(z) - l.imports)
    {
      hide QuadAlign, Le32, Put, Taken, LayoutOf, Holds;
      ok, l := AllocateAll(z);
      if ok {
        Room(z);
        var head := Header(l.data, |data|, rest);
        Clear(old(buffer[..]), z);
        WrittenParts(buffer[..], z, rest, prePE, data);
        PutBytes(buffer, 0, head);
        PutBytes(buffer, SECTION_HEADER_SIZE, prePE);
        PutBytes(buffer, l.data, data);
      }
    }
  }

  lemma NoneClear(s: seq<byte>)
    ensures s == Put(s, 0, Zeros(0))
  {}

  /** Clearing one part behind the others. */
  lemma MoreClear(s: seq<byte>, at: nat, n: nat)
    ensures at + n <= |s| ==> Put(Put(s, 0, Zeros(at)), at, Zeros(n)) == Put(s, 0, Zeros(at + n))
  {}

  lemma Clear(s: seq<byte>, z: Sizes)
    requires Taken(z) <= |s|
    ensures Put(s, 0, Zeros(Taken(z)))[..Taken(z)] == Zeros(Taken(z))
  {
    hide Taken;
  }

  /** What is in the buffer once the three parts have been written into the cleared space. */
  lemma WrittenParts(s: seq<byte>, z: Sizes, rest: seq<byte>, prePE: seq<byte>, data: seq<byte>)
    requires |rest| == 48 && |prePE| == z.prePE && |data| == z.data && Taken(z) <= |s| && s[..Taken(z)] == Zeros(Taken(z))
    ensures var l := LayoutOf(z);
            && SECTION_HEADER_SIZE + |prePE| <= l.lookup && l.data + |data| <= l.imports <= Taken(z)
            && var r := Put(Put(Put(s, 0, Header(l.data, |data|, rest)), SECTION_HEADER_SIZE, prePE), l.data, data);
               && Holds(r, l.data, rest, prePE, data)
               && r[l.lookup..l.data] == Zeros(l.data - l.lookup) && r[l.imports..Taken(z)] == Zeros(Taken(z) - l.imports)
  {
    Room(z);
    var l, end, head := LayoutOf(z), Taken(z), Header(LayoutOf(z).data, |data|, rest);
    hide Header, LayoutOf, Taken, QuadAlign, Put;
    Kept(s, head, prePE, data, l.data);
    AroundParts(s, head, prePE, data, l.data, l.lookup, l.data);
    AroundParts(s, head, prePE, data, l.data, l.imports, end);
    assert s[l.lookup..l.data] == s[..end][l.lookup..l.data] && s[l.imports..end] == s[..end][l.imports..end];
  }

  lemma AroundParts(s: seq<byte>, head: seq<byte>, prePE: seq<byte>, data: seq<byte>, at: nat, lo: nat, hi: nat)
    requires |head| + |prePE| <= at && at + |data| <= |s| && lo <= hi <= |s|
    requires |head| + |prePE| <= lo && (hi <= at || at + |data| <= lo)
    ensures Put(Put(Put(s, 0, head), |head|, prePE), at, data)[lo..hi] == s[lo..hi]
  {
    hide Put;
    PutSlices(s, 0, head, lo, hi);
    PutSlices(Put(s, 0, head), |head|, prePE, lo, hi);
    PutSlices(Put(Put(s, 0, head), |head|, prePE), at, data, lo, hi);
  }

  /** The sixteen words of the header: its size, the signature, where the payloads begin and end, and what
      the file had before. */
  function Header(dataOffset: nat, dataSize: nat, rest: seq<byte>): (s: seq<byte>)
    requires |rest| == 48
    ensures |s| == SECTION_HEADER_SIZE
  {
    Le32(SECTION_HEADER_SIZE) + Le32(SECTION_SIGNATURE) + Le32(dataOffset) + Le32(dataOffset + dataSize) + rest
  }

  /** The bytes of a section as it is written. */
  predicate Holds(s: seq<byte>, dataAt: nat, rest: seq<byte>, prePE: seq<byte>, data: seq<byte>) {
    && |rest| == 48 && SECTION_HEADER_SIZE + |prePE| <= dataAt && dataAt + |data| <= |s|
    && s[..SECTION_HEADER_SIZE] == Header(dataAt, |data|, rest)
    && s[SECTION_HEADER_SIZE..SECTION_HEADER_SIZE + |prePE|] == prePE
    && s[dataAt..dataAt + |data|] == data
  }

  lemma AlignedHeader() ensures QuadAlign(SECTION_HEADER_SIZE) == SECTION_HEADER_SIZE {}

  lemma Room(z: Sizes)
    ensures var l := LayoutOf(z);
            && SECTION_HEADER_SIZE + z.prePE <= l.lookup && l.lookup + z.thunks <= l.bound && l.bound + z.thunks <= l.chars
            && l.chars + z.chars <= l.data && l.data + z.data <= l.imports && l.imports + z.imports <= Taken(z)
  {}

  lemma Kept(s: seq<byte>, head: seq<byte>, prePE: seq<byte>, data: seq<byte>, at: nat)
    requires |head| == SECTION_HEADER_SIZE && |head| + |prePE| <= at && at + |data| <= |s|
    ensures var r := Put(Put(Put(s, 0, head), |head|, prePE), at, data);
            r[..|head|] == head && r[|head|..|head| + |prePE|] == prePE && r[at..at + |data|] == data
  {
    var s0 := Put(s, 0, head);
    var s1 := Put(s0, |head|, prePE);
    hide Put;
    PutSlices(s, 0, head, |head|, |head|);
    PutSlices(s0, |head|, prePE, 0, |head|);
    PutSlices(s1, at, data, 0, |head|);
    PutSlices(s1, at, data, |head|, |head| + |prePE|);
  }

  // ------------------------------------------------------------------ reading the section of a file

  /** Where the payloads of a section are: reading takes an offset of zero for the header's size. */
  function DataStart(s: seq<byte>): nat
    requires |s| >= SECTION_HEADER_SIZE
  {
    if DWord(s, 8) == 0 then DWord(s, 0) else DWord(s, 8)
  }

  function DataEnd(s: seq<byte>): nat
    requires |s| >= SECTION_HEADER_SIZE
  {
    DWord(s, 12)
  }

  lemma HeaderFields(dataOffset: nat, dataSize: nat, rest: seq<byte>)
    requires |rest| == 48 && dataOffset + dataSize < TWO32
    ensures var h := Header(dataOffset, dataSize, rest);
            && DWord(h, 0) == SECTION_HEADER_SIZE && DWord(h, 4) == SECTION_SIGNATURE
            && DWord(h, 8) == dataOffset && DWord(h, 12) == dataOffset + dataSize && h[16..] == rest
  {
    var h := Header(dataOffset, dataSize, rest);
    hide Le32, U32;
    U32Le32(SECTION_HEADER_SIZE);
    U32Le32(SECTION_SIGNATURE);
    U32Le32(dataOffset);
    U32Le32(dataOffset + dataSize);
    assert h[0..4] == Le32(SECTION_HEADER_SIZE) && h[4..8] == Le32(SECTION_SIGNATURE);
    assert h[8..12] == Le32(dataOffset) && h[12..16] == Le32(dataOffset + dataSize);
  }

  /** What is read from a written section is what was written. */
  lemma SectionRoundTrip(s: seq<byte>, dataAt: nat, rest: seq<byte>, prePE: seq<byte>, data: seq<byte>)
    requires Holds(s, dataAt, rest, prePE, data) && dataAt + |data| < TWO32
    ensures DWord(s, 0) == SECTION_HEADER_SIZE && DWord(s, 4) == SECTION_SIGNATURE
    ensures DataStart(s) == dataAt && DataEnd(s) == dataAt + |data| && s[DataStart(s)..DataEnd(s)] == data
  {
    hide U32, Header;
    HeaderFields(dataAt, |data|, rest);
    var h := s[..SECTION_HEADER_SIZE];
    assert s[0..4] == h[0..4] && s[4..8] == h[4..8] && s[8..12] == h[8..12] && s[12..16] == h[12..16];
  }

  // ------------------------------------------------------------------ searching a loaded module

  datatype Section = Section(name: string, virtualAddress: nat, sizeOfRawData: nat)

  const DETOUR_NAME := ".detour"

  const DOS_SIGNATURE := 0x5a4d
  const NT_SIGNATURE := 0x4550

  /** What is looked at in the headers in front of the section headers. */
  datatype Headers = Headers(magic: nat, signature: nat, sizeOfOptionalHeader: nat)

  predicate AreHeaders(h: Headers) { h.magic == DOS_SIGNATURE && h.signature == NT_SIGNATURE && h.sizeOfOptionalHeader != 0 }

  /** The loaded module: its headers, its section headers and its memory from the base on. */
  class Module {
    const headers: Headers
    const sections: seq<Section>
    const memory: array<byte>

    constructor (headers: Headers, sections: seq<Section>, memory: array<byte>)
      ensures this.headers == headers && this.sections == sections && this.memory == memory
    {
      this.headers, this.sections, this.memory := headers, sections, memory;
    }

    /** Finds the section and replaces an offset of zero in its header. */
    method GetPayloadSection() returns (found: bool, at: nat)
      modifies memory
      ensures found <==> AreHeaders(headers) && HasSection(sections, old(memory[..]))
      ensures found ==> at == sections[FirstDetour(sections)].virtualAddress && IsHeader(memory[..], at)
                        && StartAt(memory[..], at) == old(StartAt(memory[..], at)) == DWord(memory[..], at + 8)
      ensures forall i :: 0 <= i < memory.Length && !(found && at + 8 <= i < at + 12) ==> memory[i] == old(memory[i])
    {
      hide DWord;
      if headers.magic != DOS_SIGNATURE || headers.signature != NT_SIGNATURE || headers.sizeOfOptionalHeader == 0 {
        return false, 0;
      }
      var n := 0;
      while n < |sections|
        invariant n <= |sections| && FirstDetour(sections) == n + FirstDetour(sections[n..])
      {
        assert sections[n..][1..] == sections[n + 1..];
        if sections[n].name == DETOUR_NAME {
          at := sections[n].virtualAddress;
          if at == 0 || sections[n].sizeOfRawData == 0 || at + SECTION_HEADER_SIZE > memory.Length {
            return false, 0;
          }
          var size := ReadDWord(memory, at);
          var signature := ReadDWord(memory, at + 4);
          if size < SECTION_HEADER_SIZE || signature != SECTION_SIGNATURE {
            return false, 0;
          }
          var offset := ReadDWord(memory, at + 8);
          if offset == 0 {
            WriteDWord(at + 8, size);
          }
          return true, at;
        }
        n := n + 1;
      }
      return false, 0;
    }

    method WriteDWord(at: nat, n: nat)
      requires at + 4 <= memory.Length && n < TWO32
      modifies memory
      ensures DWord(memory[..], at) == n
      ensures forall i :: 0 <= i < memory.Length && !(at <= i < at + 4) ==> memory[i] == old(memory[i])
      ensures forall o :: 0 <= o && (o + 4 <= at || at + 4 <= o) && o + 4 <= memory.Length ==> DWord(memory[..], o) == old(DWord(memory[..], o))
    {
      var b := Le32(n);
      memory[at], memory[at + 1], memory[at + 2], memory[at + 3] := b[0], b[1], b[2], b[3];
      assert memory[..][at..at + 4] == b;
      U32Le32(n);
      forall o | 0 <= o && (o + 4 <= at || at + 4 <= o) && o + 4 <= memory.Length
        ensures DWord(memory[..], o) == old(DWord(memory[..], o))
      {
        assert memory[..][o..o + 4] == old(memory[..])[o..o + 4];
      }
    }

    /** Walks the records of the payload section. The size is wanted by every caller that wants the data:
        without a place for it nothing is found. */
    method FindPayload(g: seq<byte>, wantSize: bool, ghost recs: seq<Record>) returns (found: bool, at: nat, size: nat)
      requires |g| == GUID_SIZE && HasRecords(sections, memory[..], recs)
      modifies memory
      ensures found <==> wantSize && AreHeaders(headers) && HasSection(sections, old(memory[..])) && g in Contents(recs)
      ensures found ==> at + size <= memory.Length && memory[at..at + size] == Contents(recs)[g]
      ensures !found ==> size == 0
    {
      hide DWord, EncodeAll, Contents, AreRecords, DistinctGuids, Offset, IsHeader;
      ghost var before := memory[..];
      var header;
      found, header := GetPayloadSection();
      if !found {
        return false, 0, 0;
      }
      var start := ReadDWord(memory, header + 8);
      var end := ReadDWord(memory, header + 12);
      SectionKept(sections, before, memory[..], header, recs);
      found, at, size := Walk(header + start, header + end, g, wantSize, recs);
    }

    method Walk(begin: nat, end: nat, g: seq<byte>, wantSize: bool, ghost recs: seq<Record>) returns (found: bool, at: nat, size: nat)
      requires |g| == GUID_SIZE && begin <= end <= memory.Length
      requires AreRecords(recs) && DistinctGuids(recs) && memory[begin..end] == EncodeAll(recs)
      ensures found <==> wantSize && g in Contents(recs)
      ensures found ==> at + size <= memory.Length && memory[at..at + size] == Contents(recs)[g]
      ensures !found ==> at == 0 && size == 0
    {
      hide DWord, EncodeAll, Contents, AreRecords, DistinctGuids, Offset;
      Ends(recs);
      var p := begin;
      ghost var i := 0;
      while p < end
        invariant i <= |recs| && AreRecords(recs) && p == begin + Offset(recs, i) <= end
        invariant forall j :: 0 <= j < i ==> recs[j].guid != g || !wantSize
        decreases end - p
      {
        Inside(recs, i);
        RecordAt(memory[..], begin, end, recs, i);
        var cbBytes := ReadDWord(memory, p);
        if memory[p + 8..p + 24] == g && wantSize {
          FirstIndex(recs, g, i);
          ContentsOfIndex(recs, g);
          return true, p + HEADER, cbBytes - HEADER;
        }
        p := p + cbBytes;
        i := i + 1;
      }
      AllPassed(memory[begin..end], recs, i);
      if wantSize {
        NoIndex(recs, g);
      }
      return false, 0, 0;
    }
  }

  /** The payload section, when there is one, holds these records. */
  predicate HasRecords(sections: seq<Section>, m: seq<byte>, recs: seq<Record>) {
    HasSection(sections, m) ==>
      var at := sections[FirstDetour(sections)].virtualAddress;
      && 16 <= StartAt(m, at) <= DWord(m, at + 12) && at + DWord(m, at + 12) <= |m|
      && AreRecords(recs) && DistinctGuids(recs)
      && m[at + StartAt(m, at)..at + DWord(m, at + 12)] == EncodeAll(recs)
  }

  /** The fix-up of the header leaves the payloads and where they are. */
  lemma SectionKept(sections: seq<Section>, m: seq<byte>, after: seq<byte>, at: nat, recs: seq<Record>)
    requires HasRecords(sections, m, recs) && HasSection(sections, m) && at == sections[FirstDetour(sections)].virtualAddress
    requires |after| == |m| && forall i :: 0 <= i < |m| && !(at + 8 <= i < at + 12) ==> after[i] == m[i]
    requires StartAt(m, at) == DWord(after, at + 8)
    ensures var start, end := DWord(after, at + 8), DWord(after, at + 12);
            && start <= end && at + end <= |after| && AreRecords(recs) && DistinctGuids(recs)
            && after[at + start..at + end] == EncodeAll(recs)
  {
    hide EncodeAll, U32;
    assert after[at + 12..at + 16] == m[at + 12..at + 16];
    var start, end := StartAt(m, at), DWord(m, at + 12);
    assert after[at + start..at + end] == m[at + start..at + end];
  }

  lemma RecordAt(m: seq<byte>, begin: nat, end: nat, recs: seq<Record>, i: nat)
    requires begin <= end <= |m| && AreRecords(recs) && m[begin..end] == EncodeAll(recs)
    requires i < |recs|
    ensures var p := begin + Offset(recs, i);
            && p + Size(recs[i]) == begin + Offset(recs, i + 1) <= end
            && DWord(m, p) == Size(recs[i]) && m[p + 8..p + 24] == recs[i].guid
            && m[p + HEADER..p + Size(recs[i])] == recs[i].data
  {
    hide U32, EncodeAll, Offset, AreRecords;
    Ends(recs);
    var b, o := m[begin..end], Offset(recs, i);
    ReadRecord(b, recs, i);
    SubSlice(m, begin, end, o, o + 4);
    SubSlice(m, begin, end, o + 8, o + 24);
    SubSlice(m, begin, end, o + 24, o + Size(recs[i]));
  }

  /** The number of section headers before the first one named `.detour`. */
  function FirstDetour(sections: seq<Section>): (n: nat)
    ensures n <= |sections| && (n < |sections| ==> sections[n].name == DETOUR_NAME)
  {
    if sections == [] || sections[0].name == DETOUR_NAME then 0 else 1 + FirstDetour(sections[1..])
  }

  predicate IsHeader(m: seq<byte>, at: nat) {
    at + SECTION_HEADER_SIZE <= |m| && DWord(m, at) >= SECTION_HEADER_SIZE && DWord(m, at + 4) == SECTION_SIGNATURE
  }

  function StartAt(m: seq<byte>, at: nat): nat {
    if at + SECTION_HEADER_SIZE > |m| then 0
    else if DWord(m, at + 8) == 0 then DWord(m, at) else DWord(m, at + 8)
  }

  predicate HasSection(sections: seq<Section>, m: seq<byte>) {
    var n := FirstDetour(sections);
    n < |sections| && sections[n].virtualAddress != 0 && sections[n].sizeOfRawData != 0 && IsHeader(m, sections[n].virtualAddress)
  }

  /** A section as it is written, loaded at its address, is found and holds its records. */
  lemma WrittenIsFound(sections: seq<Section>, m: seq<byte>, s: seq<byte>, dataAt: nat, rest: seq<byte>, prePE: seq<byte>, recs: seq<Record>)
    requires AreRecords(recs) && DistinctGuids(recs) && Holds(s, dataAt, rest, prePE, EncodeAll(recs))
    requires dataAt + |EncodeAll(recs)| < TWO32
    requires var n := FirstDetour(sections);
             n < |sections| && sections[n].virtualAddress != 0 && sections[n].sizeOfRawData != 0
             && var at := sections[n].virtualAddress;
                at + |s| <= |m| && m[at..at + |s|] == s
    ensures HasSection(sections, m) && HasRecords(sections, m, recs)
  {
    hide DWord, EncodeAll, Holds, AreRecords, DistinctGuids, IsHeader, StartAt;
    SectionLoaded(m, s, sections[FirstDetour(sections)].virtualAddress, dataAt, rest, prePE, EncodeAll(recs));
  }

  /** Reading a written section in place. */
  lemma SectionLoaded(m: seq<byte>, s: seq<byte>, at: nat, dataAt: nat, rest: seq<byte>, prePE: seq<byte>, data: seq<byte>)
    requires Holds(s, dataAt, rest, prePE, data) && dataAt + |data| < TWO32 && at + |s| <= |m| && m[at..at + |s|] == s
    ensures IsHeader(m, at) && StartAt(m, at) == dataAt >= 64 && DWord(m, at + 12) == dataAt + |data| && at + dataAt + |data| <= |m|
    ensures m[at + dataAt..at + (dataAt + |data|)] == data
  {
    SectionRoundTrip(s, dataAt, rest, prePE, data);
    hide DWord, Header;
    Loaded(m, s, at, 0);
    Loaded(m, s, at, 4);
    Loaded(m, s, at, 8);
    Loaded(m, s, at, 12);
    SubSlice(m, at, at + |s|, dataAt, dataAt + |data|);
  }

  lemma Loaded(m: seq<byte>, s: seq<byte>, at: nat, o: nat)
    requires at + |s| <= |m| && m[at..at + |s|] == s && o + 4 <= |s|
    ensures DWord(m, at + o) == DWord(s, o)
  {
    SubSlice(m, at, at + |s|, o, o + 4);
  }
}
