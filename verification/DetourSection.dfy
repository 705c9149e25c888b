/** The `.detour` section of a binary as a whole: the output buffer is sized from what has been counted, the
    parts are allocated from it one after the other, and the import tables are filled in; nothing fails, and
    a loader reads the imports back from the bytes. */
module DetourSection {
  import opened MachineWords
  import opened ByteBuffers
  import opened PayloadRecords
  import opened PayloadSection
  import opened ImportTables
  import opened ImportLayout
  import opened ImportWriter
  import opened ImportReadBack

  /** What is to be laid out for these imports. */
  function SizesOf(prePE: nat, data: nat, files: seq<ImportFile>): Sizes
    requires AreFiles(files)
  {
    Sizes(prePE, THUNK_SIZE * CountThunks(files), CountChars(files), data, DESCRIPTOR_SIZE * (|files| + 1))
  }

  function PlacesOf(l: Layout, files: seq<ImportFile>): Places
    requires AreFiles(files)
  {
    Places(l.lookup, l.bound, l.chars, l.imports, CountThunks(files), CountChars(files), |files| + 1)
  }

  function BasesOf(l: Layout, virtAddr: nat): Bases { Bases(virtAddr + l.lookup, virtAddr + l.bound, virtAddr + l.chars) }

  /** What the tables hold when all files have been written. */
  function AllWritten(files: seq<ImportFile>, b: Bases): Written
    requires AreFiles(files)
  {
    Written(AllBytes(files), AllLookup(files, b.names), AllBound(files), Descriptors(files, |files|, b) + [ImportTables.BLANK])
  }

  predicate TablesHold(s: seq<byte>, p: Places, w: Written) {
    && InOrder(p, |s|)
    && Filled(s, p.lookup, THUNK_SIZE * p.thunks, ThunkBytes(w.lookup)) && Filled(s, p.bound, THUNK_SIZE * p.thunks, ThunkBytes(w.bound))
    && Filled(s, p.names, p.chars, w.chars) && Filled(s, p.imports, DESCRIPTOR_SIZE * p.tables, DescriptorsBytes(w.descriptors))
  }

  lemma ClearTable(s: seq<byte>, lo: nat, hi: nat, at: nat, size: nat)
    requires lo <= at && at + size <= hi <= |s| && s[lo..hi] == Zeros(hi - lo)
    ensures Filled(s, at, size, [])
  {
    SubSlice(s, lo, hi, at - lo, at + size - lo);
    assert s[at..at + size] == [] + Zeros(size);
  }

  /** The allocated tables are clear. */
  lemma ClearTables(s: seq<byte>, z: Sizes, files: seq<ImportFile>)
    requires AreFiles(files) && z == SizesOf(z.prePE, z.data, files) && Taken(z) <= |s|
    requires LayoutOf(z).lookup <= LayoutOf(z).data <= LayoutOf(z).imports <= Taken(z)
    requires s[LayoutOf(z).lookup..LayoutOf(z).data] == Zeros(LayoutOf(z).data - LayoutOf(z).lookup)
    requires s[LayoutOf(z).imports..Taken(z)] == Zeros(Taken(z) - LayoutOf(z).imports)
    ensures Tables(s, s, PlacesOf(LayoutOf(z), files), Written([], [], [], []))
  {
    Room(z);
    var l, n, m := LayoutOf(z), CountThunks(files), CountChars(files);
    hide Taken, LayoutOf, CountThunks, CountChars, Filled, QuadAlign;
    ClearTable(s, l.lookup, l.data, l.lookup, THUNK_SIZE * n);
    ClearTable(s, l.lookup, l.data, l.bound, THUNK_SIZE * n);
    ClearTable(s, l.lookup, l.data, l.chars, m);
    ClearTable(s, l.imports, Taken(z), l.imports, DESCRIPTOR_SIZE * (|files| + 1));
  }

  /** Filling in the tables leaves header, old headers and payloads. */
  lemma HoldsStill(s0: seq<byte>, s: seq<byte>, p: Places, w: Written, dataAt: nat, rest: seq<byte>, prePE: seq<byte>, data: seq<byte>)
    requires Tables(s0, s, p, w) && Holds(s0, dataAt, rest, prePE, data)
    requires SECTION_HEADER_SIZE + |prePE| <= p.lookup && p.names + p.chars <= dataAt && dataAt + |data| <= p.imports
    ensures Holds(s, dataAt, rest, prePE, data) && TablesHold(s, p, w)
  {
    hide Filled, Header, ThunkBytes, DescriptorsBytes;
    LengthKept(s0, s, p);
    Same(s0, s, 0, p.lookup, 0, SECTION_HEADER_SIZE);
    Same(s0, s, 0, p.lookup, SECTION_HEADER_SIZE, SECTION_HEADER_SIZE + |prePE|);
    Same(s0, s, p.names + p.chars, p.imports, dataAt, dataAt + |data|);
  }

  lemma Same(s0: seq<byte>, s: seq<byte>, lo: nat, hi: nat, at: nat, end: nat)
    requires lo <= at <= end <= hi <= |s0| && |s| == |s0| && s[lo..hi] == s0[lo..hi]
    ensures s[at..end] == s0[at..end]
  {
    SubSlice(s, lo, hi, at - lo, end - lo);
    SubSlice(s0, lo, hi, at - lo, end - lo);
  }

  /** Counts, sizes the buffer, allocates, and writes. It succeeds exactly when there is memory for the
      buffer and everything fits into it; everything does unless the old headers are not a multiple of eight
      long and neither is the alignment of the file (`SizedExact`). */
  method WriteDetourSection(out: Output, files: seq<ImportFile>, rest: seq<byte>, prePE: seq<byte>, data: seq<byte>, memory: bool)
    returns (ok: bool, l: Layout)
    requires AreFiles(files) && |rest| == 48 && out.virtSize == 0 && out.fileAlignment > 0
    requires Taken(SizesOf(|prePE|, |data|, files)) < TWO32
    modifies out, out.buffer
    ensures var z, have := SizesOf(|prePE|, |data|, files), old(out.buffer.Length);
            && (ok <==> (Requested(z) <= have || memory) && Taken(z) <= Sized(have, Requested(z), out.fileAlignment))
            && (|prePE| % 8 == 0 || (out.fileAlignment % 8 == 0 && have % 8 == 0) ==> (ok <==> Requested(z) <= have || memory))
    ensures ok ==> l == LayoutOf(SizesOf(|prePE|, |data|, files)) && Holds(out.buffer[..], l.data, rest, prePE, data)
                   && TablesHold(out.buffer[..], PlacesOf(l, files), AllWritten(files, BasesOf(l, out.virtAddr)))
                   && out.virtSize == Taken(SizesOf(|prePE|, |data|, files))
  {
    var _, nTables, nThunks, nChars := CheckImportsNeeded(files);
    var z := Sizes(|prePE|, THUNK_SIZE * nThunks, nChars, |data|, DESCRIPTOR_SIZE * nTables);
    Fitting(z, out.buffer.Length, out.fileAlignment);
    hide Requested, Taken, Sized, CountThunks, CountChars, LayoutOf, Holds, IsFile, Tables, TablesHold;
    l := Layout(0, 0, 0, 0, 0);
    ok := out.SizeOutputBuffer(Requested(z), memory);
    if !ok {
      return;
    }
    ok, l := out.WriteSection(z, rest, prePE, data);
    if !ok {
      return;
    }
    Room(z);
    ghost var s0 := out.buffer[..];
    ClearTables(s0, z, files);
    var _ := FillTables(out.buffer, out.virtAddr, l, files, nTables, nThunks, nChars);
    HoldsStill(s0, out.buffer[..], PlacesOf(l, files), AllWritten(files, BasesOf(l, out.virtAddr)), l.data, rest, prePE, data);
  }

  /** The tables over the buffer, and the loop that fills them; no allocation from them fails. */
  method FillTables(buffer: array<byte>, virtAddr: nat, l: Layout, files: seq<ImportFile>, nTables: nat, nThunks: nat, nChars: nat)
    returns (allOk: bool)
    requires AreFiles(files) && nTables == |files| + 1 && nThunks == CountThunks(files) && nChars == CountChars(files)
    requires Tables(buffer[..], buffer[..], PlacesOf(l, files), Written([], [], [], []))
    modifies buffer
    ensures allOk && Tables(old(buffer[..]), buffer[..], PlacesOf(l, files), AllWritten(files, BasesOf(l, virtAddr)))
  {
    hide CountThunks, CountChars, IsFile, Tables, AllBytes, AllLookup, AllBound, Descriptors;
    var lookup := new CImageThunks(buffer, l.lookup, nThunks, virtAddr + l.lookup);
    var bound := new CImageThunks(buffer, l.bound, nThunks, virtAddr + l.bound);
    var names := new CImageChars(buffer, l.chars, nChars, virtAddr + l.chars);
    var writer := new ImportTablesWriter(lookup, bound, names, l.imports, nTables);
    allOk := writer.WriteImports(files, buffer[..]);
  }

  lemma Fitting(z: Sizes, have: nat, a: nat)
    requires a > 0
    ensures z.prePE % 8 == 0 || (a % 8 == 0 && have % 8 == 0) ==> Taken(z) <= Sized(have, Requested(z), a)
    ensures Taken(z) <= have ==> Requested(z) <= have
  {
    RequestedExact(z);
    hide Requested, Taken, Sized;
    if a % 8 == 0 && have % 8 == 0 {
      SizedEnough(z, have, a);
    }
  }

  // ------------------------------------------------------------------ loading

  function QWord(s: seq<byte>, at: nat): nat
    requires at + 8 <= |s|
  {
    U32(s[at..at + 4]) + TWO32 * U32(s[at + 4..at + 8])
  }

  /** The entries of a table of thunks. */
  function ThunksAt(s: seq<byte>, at: nat, n: nat): (t: seq<nat>)
    requires at + THUNK_SIZE * n <= |s|
    ensures |t| == n
  {
    seq(n, k requires 0 <= k < n => QWord(s, at + THUNK_SIZE * k))
  }

  function DescriptorAt(s: seq<byte>, at: nat): Descriptor
    requires at + DESCRIPTOR_SIZE <= |s|
  {
    Descriptor(DWord(s, at), DWord(s, at + 4), DWord(s, at + 8), DWord(s, at + 12), DWord(s, at + 16))
  }

  predicate Small(t: seq<nat>) { forall k :: 0 <= k < |t| ==> t[k] < TWO64 }

  lemma QWordOf(n: nat)
    requires n < TWO64
    ensures QWord(Le64(n), 0) == n
  {
    U64Le64(n);
    assert Le64(n)[0..4] == Le64(n)[..4] && Le64(n)[4..8] == Le64(n)[4..];
  }

  lemma QWordMoved(s: seq<byte>, at: nat, t: seq<byte>, o: nat)
    requires o + 8 <= |t| && at + |t| <= |s| && s[at..at + |t|] == t
    ensures QWord(s, at + o) == QWord(t, o)
  {
    SubSlice(s, at, at + |t|, o, o + 4);
    SubSlice(s, at, at + |t|, o + 4, o + 8);
  }

  /** Entry number `k` among the bytes of all. */
  lemma {:induction false} ThunkAt(t: seq<nat>, k: nat)
    requires k < |t| && Small(t)
    ensures QWord(ThunkBytes(t), THUNK_SIZE * k) == t[k]
    decreases |t|
  {
    hide QWord, Le64;
    var init, last := t[..|t| - 1], t[|t| - 1];
    var bytes := ThunkBytes(t);
    assert bytes == ThunkBytes(init) + Le64(last);
    if k < |init| {
      ThunkAt(init, k);
      assert bytes[0..0 + |ThunkBytes(init)|] == ThunkBytes(init);
      QWordMoved(bytes, 0, ThunkBytes(init), THUNK_SIZE * k);
    } else {
      QWordOf(last);
      assert bytes[|ThunkBytes(init)|..|ThunkBytes(init)| + 8] == Le64(last);
      QWordMoved(bytes, |ThunkBytes(init)|, Le64(last), 0);
    }
  }

  lemma FilledWhole(s: seq<byte>, at: nat, bytes: seq<byte>)
    requires Filled(s, at, |bytes|, bytes)
    ensures at + |bytes| <= |s| && s[at..at + |bytes|] == bytes
  {
    assert Zeros(0) == [];
  }

  lemma ThunkLoaded(s: seq<byte>, at: nat, t: seq<nat>, k: nat)
    requires k < |t| && Small(t) && at + |ThunkBytes(t)| <= |s| && s[at..at + |ThunkBytes(t)|] == ThunkBytes(t)
    ensures QWord(s, at + THUNK_SIZE * k) == t[k]
  {
    hide QWord, ThunkBytes;
    ThunkAt(t, k);
    QWordMoved(s, at, ThunkBytes(t), THUNK_SIZE * k);
  }

  lemma ThunksLoaded(s: seq<byte>, at: nat, t: seq<nat>)
    requires at + THUNK_SIZE * |t| <= |s| && s[at..at + THUNK_SIZE * |t|] == ThunkBytes(t) && Small(t)
    ensures ThunksAt(s, at, |t|) == t
  {
    hide QWord, ThunkBytes, Small;
    forall k | 0 <= k < |t| ensures QWord(s, at + THUNK_SIZE * k) == t[k] {
      ThunkLoaded(s, at, t, k);
    }
  }

  predicate SmallDescriptor(d: Descriptor) {
    d.originalFirstThunk < TWO32 && d.timeDateStamp < TWO32 && d.forwarderChain < TWO32 && d.name < TWO32 && d.firstThunk < TWO32
  }

  lemma DWordMoved(s: seq<byte>, at: nat, t: seq<byte>, o: nat)
    requires o + 4 <= |t| && at + |t| <= |s| && s[at..at + |t|] == t
    ensures DWord(s, at + o) == DWord(t, o)
  {
    SubSlice(s, at, at + |t|, o, o + 4);
  }

  lemma DescriptorOfBytes(d: Descriptor)
    requires SmallDescriptor(d)
    ensures DescriptorAt(DescriptorBytes(d), 0) == d
  {
    hide Le32, U32;
    var s := DescriptorBytes(d);
    U32Le32(d.originalFirstThunk);
    U32Le32(d.timeDateStamp);
    U32Le32(d.forwarderChain);
    U32Le32(d.name);
    U32Le32(d.firstThunk);
    assert s[0..4] == Le32(d.originalFirstThunk) && s[4..8] == Le32(d.timeDateStamp) && s[8..12] == Le32(d.forwarderChain);
    assert s[12..16] == Le32(d.name) && s[16..20] == Le32(d.firstThunk);
  }

  lemma DescriptorMoved(s: seq<byte>, at: nat, t: seq<byte>, o: nat)
    requires o + DESCRIPTOR_SIZE <= |t| && at + |t| <= |s| && s[at..at + |t|] == t
    ensures DescriptorAt(s, at + o) == DescriptorAt(t, o)
  {
    hide DWord;
    DWordMoved(s, at, t, o);
    DWordMoved(s, at, t, o + 4);
    DWordMoved(s, at, t, o + 8);
    DWordMoved(s, at, t, o + 12);
    DWordMoved(s, at, t, o + 16);
  }

  lemma {:induction false} DescriptorInBytes(d: seq<Descriptor>, k: nat)
    requires k < |d| && SmallDescriptor(d[k])
    ensures DescriptorAt(DescriptorsBytes(d), DESCRIPTOR_SIZE * k) == d[k]
    decreases |d|
  {
    hide DescriptorAt, DescriptorBytes, SmallDescriptor;
    var init, last := d[..|d| - 1], d[|d| - 1];
    var bytes := DescriptorsBytes(d);
    assert bytes == DescriptorsBytes(init) + DescriptorBytes(last);
    if k < |init| {
      DescriptorInBytes(init, k);
      assert bytes[0..0 + |DescriptorsBytes(init)|] == DescriptorsBytes(init);
      DescriptorMoved(bytes, 0, DescriptorsBytes(init), DESCRIPTOR_SIZE * k);
    } else {
      DescriptorOfBytes(last);
      assert bytes[|DescriptorsBytes(init)|..|DescriptorsBytes(init)| + DESCRIPTOR_SIZE] == DescriptorBytes(last);
      DescriptorMoved(bytes, |DescriptorsBytes(init)|, DescriptorBytes(last), 0);
    }
  }

  lemma {:induction false} NamesThunksSmall(names: seq<ImportName>, at: nat)
    requires (forall i :: 0 <= i < |names| ==> Fits(names[i])) && at + NamesChars(names) < ORDINAL_FLAG
    ensures Small(NamesThunks(names, at))
    decreases |names|
  {
    hide NameChars;
    if names != [] {
      NamesThunksSmall(names[..|names| - 1], at);
      assert Fits(names[|names| - 1]);
    }
  }

  predicate AllFit(files: seq<ImportFile>) {
    forall i :: 0 <= i < |files| ==> forall j :: 0 <= j < |files[i].names| ==> Fits(files[i].names[j])
  }

  lemma {:induction false} AllLookupSmall(files: seq<ImportFile>, names: nat)
    requires AreFiles(files) && AllFit(files) && names + CountChars(files) < ORDINAL_FLAG
    ensures Small(AllLookup(files, names))
    decreases |files|
  {
    hide NamesThunks, NamesChars, Fits;
    if files != [] {
      var init, last := files[..|files| - 1], files[|files| - 1];
      assert files[|files| - 1] == last;
      AllLookupSmall(init, names);
      if !last.byway {
        NamesThunksSmall(last.names, names + CountChars(init) + Even(|last.name.chars| + 1));
      }
    }
  }

  /** From the bytes of the section, a loader finds for every file the name and the imports that were asked
      for. */
  lemma SectionLoads(s: seq<byte>, l: Layout, files: seq<ImportFile>, i: nat, virtAddr: nat)
    requires AreFiles(files) && AllFit(files) && i < |files| && 0 < virtAddr + l.chars && virtAddr + |s| < TWO32
    requires files[i].forwarderChain < TWO32 && files[i].rvaFirstThunk < TWO32
    requires TablesHold(s, PlacesOf(l, files), AllWritten(files, BasesOf(l, virtAddr)))
    ensures l.imports + DESCRIPTOR_SIZE * (|files| + 1) <= |s| && l.lookup + THUNK_SIZE * CountThunks(files) <= |s| && l.chars + CountChars(files) <= |s|
    ensures l.bound + THUNK_SIZE * |AllBound(files)| <= |s|
    ensures var d, f := DescriptorAt(s, l.imports + DESCRIPTOR_SIZE * i), files[i];
            && d.forwarderChain == f.forwarderChain && d.timeDateStamp == 0
            && if f.byway
               then var k := |AllBound(files[..i])|;
                    d.firstThunk == virtAddr + l.bound + THUNK_SIZE * k
                    && LoadThunks(ThunksAt(s, l.bound, |AllBound(files)|), k, s[l.chars..l.chars + CountChars(files)], virtAddr + l.chars) == [ByOrdinal(1)]
               else d.firstThunk == f.rvaFirstThunk
    ensures var d, f := DescriptorAt(s, l.imports + DESCRIPTOR_SIZE * i), files[i];
            var chars, lookup := s[l.chars..l.chars + CountChars(files)], ThunksAt(s, l.lookup, CountThunks(files));
            && d.name >= virtAddr + l.chars && ReadString(chars, d.name - (virtAddr + l.chars)) == f.name.chars
            && (f.byway || f.names != [] ==>
                  && d.originalFirstThunk == virtAddr + l.lookup + THUNK_SIZE * CountThunks(files[..i])
                  && LoadThunks(lookup, CountThunks(files[..i]), chars, virtAddr + l.chars)
                     == if f.byway then [ByOrdinal(1)] else WantedAll(f.names))
  {
    hide *;
    BasesAre(l, virtAddr, |s|);
    Parts(s, l, files, virtAddr);
    SectionThunks(s, l, files, virtAddr);
    SectionDescriptor(s, l, files, i, virtAddr);
    FitOne(files, i);
    ReadBack(files, i, BasesOf(l, virtAddr));
    SectionBound(s, l, files, virtAddr);
    ReadBackBound(files, i, BasesOf(l, virtAddr));
  }

  lemma {:induction false} AllBoundSmall(files: seq<ImportFile>)
    ensures Small(AllBound(files))
    decreases |files|
  {
    if files != [] {
      AllBoundSmall(files[..|files| - 1]);
    }
  }

  /** The bound table, as far as it is filled. */
  lemma SectionBound(s: seq<byte>, l: Layout, files: seq<ImportFile>, virtAddr: nat)
    requires AreFiles(files) && TablesHold(s, PlacesOf(l, files), AllWritten(files, BasesOf(l, virtAddr)))
    ensures l.bound + THUNK_SIZE * |AllBound(files)| <= |s|
    ensures ThunksAt(s, l.bound, |AllBound(files)|) == AllBound(files)
  {
    hide AllBytes, AllLookup, AllBound, CountChars, CountThunks, Descriptors, IsFile, ThunkBytes, DescriptorsBytes, ThunksAt, Small;
    var bytes := ThunkBytes(AllBound(files));
    FilledFront(s, l.bound, THUNK_SIZE * CountThunks(files), bytes);
    AllBoundSmall(files);
    ThunksLoaded(s, l.bound, AllBound(files));
  }

  lemma FilledFront(s: seq<byte>, at: nat, size: nat, bytes: seq<byte>)
    requires Filled(s, at, size, bytes)
    ensures at + |bytes| <= |s| && s[at..at + |bytes|] == bytes
  {
    SubSlice(s, at, at + size, 0, |bytes|);
    assert (bytes + Zeros(size - |bytes|))[0..|bytes|] == bytes;
  }

  lemma BasesAre(l: Layout, virtAddr: nat, length: nat)
    ensures BasesOf(l, virtAddr) == Bases(virtAddr + l.lookup, virtAddr + l.bound, virtAddr + l.chars)
    ensures virtAddr + length < TWO32 ==> virtAddr + length < ORDINAL_FLAG
  {}

  lemma SectionThunks(s: seq<byte>, l: Layout, files: seq<ImportFile>, virtAddr: nat)
    requires AreFiles(files) && AllFit(files) && virtAddr + |s| < TWO32
    requires TablesHold(s, PlacesOf(l, files), AllWritten(files, BasesOf(l, virtAddr)))
    ensures l.lookup + THUNK_SIZE * CountThunks(files) <= |s|
    ensures ThunksAt(s, l.lookup, CountThunks(files)) == AllLookup(files, virtAddr + l.chars)
  {
    hide *;
    BasesAre(l, virtAddr, |s|);
    Parts(s, l, files, virtAddr);
    AllLookupSmall(files, virtAddr + l.chars);
    ThunksLoaded(s, l.lookup, AllLookup(files, virtAddr + l.chars));
  }

  lemma SectionDescriptor(s: seq<byte>, l: Layout, files: seq<ImportFile>, i: nat, virtAddr: nat)
    requires AreFiles(files) && i < |files| && virtAddr + |s| < TWO32 && files[i].forwarderChain < TWO32 && files[i].rvaFirstThunk < TWO32
    requires TablesHold(s, PlacesOf(l, files), AllWritten(files, BasesOf(l, virtAddr)))
    ensures l.imports + DESCRIPTOR_SIZE * (|files| + 1) <= |s|
    ensures DescriptorAt(s, l.imports + DESCRIPTOR_SIZE * i) == DescriptorOf(files, i, BasesOf(l, virtAddr))
  {
    hide *;
    Parts(s, l, files, virtAddr);
    SmallOne(s, l, files, i, virtAddr);
    DescriptorLoaded(s, l.imports, Descriptors(files, |files|, BasesOf(l, virtAddr)) + [ImportTables.BLANK], i);
  }

  lemma DescriptorLoaded(s: seq<byte>, at: nat, d: seq<Descriptor>, k: nat)
    requires k < |d| && SmallDescriptor(d[k]) && at + DESCRIPTOR_SIZE * |d| <= |s| && s[at..at + DESCRIPTOR_SIZE * |d|] == DescriptorsBytes(d)
    ensures DescriptorAt(s, at + DESCRIPTOR_SIZE * k) == d[k]
  {
    hide DescriptorAt, DescriptorsBytes, SmallDescriptor;
    DescriptorInBytes(d, k);
    DescriptorMoved(s, at, DescriptorsBytes(d), DESCRIPTOR_SIZE * k);
  }

  lemma FitOne(files: seq<ImportFile>, i: nat)
    requires AllFit(files) && i < |files|
    ensures forall j :: 0 <= j < |files[i].names| ==> Fits(files[i].names[j])
  {}

  /** The tables as parts of the section. */
  lemma Parts(s: seq<byte>, l: Layout, files: seq<ImportFile>, virtAddr: nat)
    requires AreFiles(files) && TablesHold(s, PlacesOf(l, files), AllWritten(files, BasesOf(l, virtAddr)))
    ensures l.imports + DESCRIPTOR_SIZE * (|files| + 1) <= |s| && l.lookup + THUNK_SIZE * CountThunks(files) <= |s|
    ensures l.bound + THUNK_SIZE * CountThunks(files) <= |s| && l.chars + CountChars(files) <= |s|
    ensures s[l.lookup..l.lookup + THUNK_SIZE * CountThunks(files)] == ThunkBytes(AllLookup(files, virtAddr + l.chars))
    ensures s[l.chars..l.chars + CountChars(files)] == AllBytes(files)
    ensures s[l.imports..l.imports + DESCRIPTOR_SIZE * (|files| + 1)]
         == DescriptorsBytes(Descriptors(files, |files|, BasesOf(l, virtAddr)) + [ImportTables.BLANK])
  {
    hide *;
    var p, w := PlacesOf(l, files), AllWritten(files, BasesOf(l, virtAddr));
    WrittenIs(l, files, virtAddr);
    FullTables(s, p, w);
  }

  /** Tables that are full are their bytes. */
  lemma FullTables(s: seq<byte>, p: Places, w: Written)
    requires TablesHold(s, p, w) && |w.lookup| == p.thunks && |w.chars| == p.chars && |w.descriptors| == p.tables
    ensures p.imports + DESCRIPTOR_SIZE * p.tables <= |s| && p.lookup + THUNK_SIZE * p.thunks <= |s|
    ensures p.bound + THUNK_SIZE * p.thunks <= |s| && p.names + p.chars <= |s|
    ensures s[p.lookup..p.lookup + THUNK_SIZE * p.thunks] == ThunkBytes(w.lookup) && s[p.names..p.names + p.chars] == w.chars
    ensures s[p.imports..p.imports + DESCRIPTOR_SIZE * p.tables] == DescriptorsBytes(w.descriptors)
  {
    hide Filled, ThunkBytes, DescriptorsBytes;
    FilledWhole(s, p.lookup, ThunkBytes(w.lookup));
    FilledWhole(s, p.names, w.chars);
    FilledWhole(s, p.imports, DescriptorsBytes(w.descriptors));
  }

  lemma WrittenIs(l: Layout, files: seq<ImportFile>, virtAddr: nat)
    requires AreFiles(files)
    ensures var p, b := PlacesOf(l, files), BasesOf(l, virtAddr);
            var w := AllWritten(files, b);
            && p == Places(l.lookup, l.bound, l.chars, l.imports, CountThunks(files), CountChars(files), |files| + 1)
            && w.lookup == AllLookup(files, virtAddr + l.chars) && w.chars == AllBytes(files)
            && w.descriptors == Descriptors(files, |files|, b) + [ImportTables.BLANK]
            && |w.lookup| == p.thunks && |w.chars| == p.chars && |w.descriptors| == p.tables
  {
    hide AllBytes, AllLookup, AllBound, Descriptors, CountChars, CountThunks, IsFile;
  }

  lemma SmallOne(s: seq<byte>, l: Layout, files: seq<ImportFile>, i: nat, virtAddr: nat)
    requires AreFiles(files) && i < |files| && virtAddr + |s| < TWO32 && files[i].forwarderChain < TWO32 && files[i].rvaFirstThunk < TWO32
    requires l.imports + DESCRIPTOR_SIZE * (|files| + 1) <= |s| && l.lookup + THUNK_SIZE * CountThunks(files) <= |s|
    requires l.bound + THUNK_SIZE * CountThunks(files) <= |s| && l.chars + CountChars(files) <= |s|
    ensures var d := Descriptors(files, |files|, BasesOf(l, virtAddr)) + [ImportTables.BLANK];
            d[i] == DescriptorOf(files, i, BasesOf(l, virtAddr)) && SmallDescriptor(d[i])
  {
    hide AllBound, CountChars, CountThunks, IsFile;
    CountPart(files, i);
  }
}
