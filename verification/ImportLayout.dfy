/** What the written import tables hold, and how they fill up in the output buffer. */
module ImportLayout {
  import opened MachineWords
  import opened ByteBuffers
  import opened ImportTables

  // ------------------------------------------------------------------ what the tables hold

  /** A string with its zero, and another one if it takes that to make the length even. */
  function Padded(s: seq<byte>, before: nat): (r: seq<byte>)
    ensures |r| == Even(before + |s| + 1) - before
  {
    s + Zeros(Even(before + |s| + 1) - before - |s|)
  }

  function HintBytes(hint: nat): (s: seq<byte>)
    requires hint < 0x1_0000
    ensures |s| == 2
  {
    [hint % 0x100, hint / 0x100]
  }

  function NameBytes(n: ImportName): (s: seq<byte>)
    requires IsName(n)
    ensures |s| == NameChars(n)
  {
    if n.name.Text? then HintBytes(n.hint) + Padded(n.name.chars, 2) else []
  }

  function NamesBytes(names: seq<ImportName>): (s: seq<byte>)
    requires forall i :: 0 <= i < |names| ==> IsName(names[i])
    ensures |s| == NamesChars(names)
    decreases |names|
  {
    if names == [] then [] else NamesBytes(names[..|names| - 1]) + NameBytes(names[|names| - 1])
  }

  function FileBytes(f: ImportFile): (s: seq<byte>)
    requires IsFile(f)
    ensures |s| == FileChars(f)
  {
    Padded(f.name.chars, 0) + if f.byway then [] else NamesBytes(f.names)
  }

  /** The name table. */
  function AllBytes(files: seq<ImportFile>): (s: seq<byte>)
    requires AreFiles(files)
    ensures |s| == CountChars(files)
    decreases |files|
  {
    if files == [] then [] else AllBytes(files[..|files| - 1]) + FileBytes(files[|files| - 1])
  }

  /** The thunk of a name whose entry in the name table is at `at`. */
  function NameThunk(n: ImportName, at: nat): nat { if n.name.Text? then at else ORDINAL_FLAG + n.nOrdinal }

  function NamesThunks(names: seq<ImportName>, at: nat): (t: seq<nat>)
    ensures |t| == |names|
    decreases |names|
  {
    if names == [] then []
    else
      var init := names[..|names| - 1];
      NamesThunks(init, at) + [NameThunk(names[|names| - 1], at + NamesChars(init))]
  }

  const BYWAY_THUNKS: seq<nat> := [ORDINAL_FLAG + 1, 0]

  /** The lookup entries of a file whose name is at `at`. */
  function FileLookup(f: ImportFile, at: nat): (t: seq<nat>)
    requires f.name.Text?
    ensures |t| == FileThunks(f)
  {
    if f.byway then BYWAY_THUNKS else NamesThunks(f.names, at + Even(|f.name.chars| + 1)) + [0]
  }

  function AllLookup(files: seq<ImportFile>, names: nat): (t: seq<nat>)
    requires AreFiles(files)
    ensures |t| == CountThunks(files)
    decreases |files|
  {
    if files == [] then []
    else
      var init := files[..|files| - 1];
      AllLookup(init, names) + FileLookup(files[|files| - 1], names + CountChars(init))
  }

  function FileBound(f: ImportFile): (t: seq<nat>)
    ensures |t| <= FileThunks(f)
  {
    if f.byway then BYWAY_THUNKS else []
  }

  function AllBound(files: seq<ImportFile>): (t: seq<nat>)
    ensures |t| <= CountThunks(files)
    decreases |files|
  {
    if files == [] then [] else AllBound(files[..|files| - 1]) + FileBound(files[|files| - 1])
  }

  /** The addresses of the three tables. */
  datatype Bases = Bases(lookup: nat, bound: nat, names: nat)

  /** The descriptor of file number `i`. */
  function DescriptorOf(files: seq<ImportFile>, i: nat, b: Bases): Descriptor
    requires AreFiles(files) && i < |files|
  {
    var f, before := files[i], files[..i];
    Descriptor(
      if f.byway || CountThunks(files) > 1 then b.lookup + THUNK_SIZE * CountThunks(before) else 0,
      0, f.forwarderChain, b.names + CountChars(before),
      if f.byway then b.bound + THUNK_SIZE * |AllBound(before)| else f.rvaFirstThunk)
  }

  /** The descriptors of the first `n` files. */
  function Descriptors(files: seq<ImportFile>, n: nat, b: Bases): (d: seq<Descriptor>)
    requires AreFiles(files) && n <= |files|
    ensures |d| == n
  {
    seq(n, i requires 0 <= i < n => DescriptorOf(files, i, b))
  }

  lemma AllBytesNext(files: seq<ImportFile>, i: nat)
    requires AreFiles(files) && i < |files|
    ensures AllBytes(files[..i + 1]) == AllBytes(files[..i]) + FileBytes(files[i])
  {
    hide FileBytes, FileChars, IsFile;
    assert files[..i + 1][..i] == files[..i];
  }

  lemma AllLookupNext(files: seq<ImportFile>, i: nat, names: nat)
    requires AreFiles(files) && i < |files|
    ensures AllLookup(files[..i + 1], names) == AllLookup(files[..i], names) + FileLookup(files[i], names + CountChars(files[..i]))
  {
    hide FileLookup, FileChars, CountChars;
    assert files[..i + 1][..i] == files[..i];
  }

  lemma AllBoundNext(files: seq<ImportFile>, i: nat)
    requires i < |files|
    ensures AllBound(files[..i + 1]) == AllBound(files[..i]) + FileBound(files[i])
  {
    hide FileBound;
    assert files[..i + 1][..i] == files[..i];
  }

  lemma {:induction false} BoundPart(files: seq<ImportFile>, i: nat)
    requires i <= |files|
    ensures |AllBound(files[..i])| <= |AllBound(files)|
    decreases |files|
  {
    if i == |files| {
      assert files[..i] == files;
    } else {
      BoundPart(files[..|files| - 1], i);
      assert files[..|files| - 1][..i] == files[..i];
    }
  }

  // ------------------------------------------------------------------ tables in a buffer

  const DESCRIPTOR_SIZE := 20

  function ThunkBytes(t: seq<nat>): (s: seq<byte>)
    ensures |s| == THUNK_SIZE * |t|
    decreases |t|
  {
    if t == [] then [] else ThunkBytes(t[..|t| - 1]) + Le64(t[|t| - 1])
  }

  function DescriptorBytes(d: Descriptor): (s: seq<byte>)
    ensures |s| == DESCRIPTOR_SIZE
  {
    Le32(d.originalFirstThunk) + Le32(d.timeDateStamp) + Le32(d.forwarderChain) + Le32(d.name) + Le32(d.firstThunk)
  }

  function DescriptorsBytes(d: seq<Descriptor>): (s: seq<byte>)
    ensures |s| == DESCRIPTOR_SIZE * |d|
    decreases |d|
  {
    if d == [] then [] else DescriptorsBytes(d[..|d| - 1]) + DescriptorBytes(d[|d| - 1])
  }

  lemma ThunkBytesMore(t: seq<nat>, n: nat)
    ensures ThunkBytes(t + [n]) == ThunkBytes(t) + Le64(n)
  {
    hide Le64;
    assert (t + [n])[..|t|] == t;
  }

  lemma DescriptorsBytesMore(t: seq<Descriptor>, d: Descriptor)
    ensures DescriptorsBytes(t + [d]) == DescriptorsBytes(t) + DescriptorBytes(d)
  {
    hide DescriptorBytes;
    assert (t + [d])[..|t|] == t;
  }

  /** The table of `size` bytes at `at` has been filled with `bytes`, and is clear behind them. */
  predicate Filled(s: seq<byte>, at: nat, size: nat, bytes: seq<byte>) {
    |bytes| <= size && at + size <= |s| && s[at..at + size] == bytes + Zeros(size - |bytes|)
  }

  lemma FilledMore(s: seq<byte>, at: nat, size: nat, bytes: seq<byte>, more: seq<byte>)
    requires Filled(s, at, size, bytes) && |bytes| + |more| <= size
    ensures Filled(Put(s, at + |bytes|, more), at, size, bytes + more)
  {
    var r, t := Put(s, at + |bytes|, more), s[at..at + size];
    var u, v := r[at..at + size], bytes + more + Zeros(size - |bytes + more|);
    forall i | 0 <= i < size
      ensures u[i] == v[i]
    {
      assert t[i] == s[at + i] && u[i] == r[at + i];
    }
    assert u == v;
  }

  lemma FilledOther(s: seq<byte>, at: nat, size: nat, bytes: seq<byte>, p: nat, more: seq<byte>)
    requires Filled(s, at, size, bytes) && p + |more| <= |s| && (p + |more| <= at || at + size <= p)
    ensures Filled(Put(s, p, more), at, size, bytes)
  {
    hide Put;
    PutSlices(s, p, more, at, at + size);
  }

  /** Zeros behind what a table has been filled with may as well belong to it. */
  lemma FilledZeros(s: seq<byte>, at: nat, size: nat, bytes: seq<byte>, n: nat)
    requires Filled(s, at, size, bytes) && |bytes| + n <= size
    ensures Filled(s, at, size, bytes + Zeros(n))
  {
    assert Zeros(size - |bytes|) == Zeros(n) + Zeros(size - |bytes| - n);
  }

  /** Where the tables are in the buffer, and how many thunks, characters and descriptors they have room for. */
  datatype Places = Places(lookup: nat, bound: nat, names: nat, imports: nat, thunks: nat, chars: nat, tables: nat)

  predicate InOrder(p: Places, length: nat) {
    && p.lookup + THUNK_SIZE * p.thunks <= p.bound && p.bound + THUNK_SIZE * p.thunks <= p.names
    && p.names + p.chars <= p.imports && p.imports + DESCRIPTOR_SIZE * p.tables <= length
  }

  /** What has been written so far. */
  datatype Written = Written(chars: seq<byte>, lookup: seq<nat>, bound: seq<nat>, descriptors: seq<Descriptor>)

  /** What is around the tables is as it was. */
  predicate Kept(s0: seq<byte>, s: seq<byte>, p: Places)
    requires InOrder(p, |s0|)
  {
    && |s| == |s0| && s[0..p.lookup] == s0[0..p.lookup] && s[p.names + p.chars..p.imports] == s0[p.names + p.chars..p.imports]
    && s[p.imports + DESCRIPTOR_SIZE * p.tables..|s|] == s0[p.imports + DESCRIPTOR_SIZE * p.tables..|s|]
  }

  predicate Tables(s0: seq<byte>, s: seq<byte>, p: Places, w: Written) {
    && InOrder(p, |s0|) && Kept(s0, s, p)
    && Filled(s, p.lookup, THUNK_SIZE * p.thunks, ThunkBytes(w.lookup)) && Filled(s, p.bound, THUNK_SIZE * p.thunks, ThunkBytes(w.bound))
    && Filled(s, p.names, p.chars, w.chars) && Filled(s, p.imports, DESCRIPTOR_SIZE * p.tables, DescriptorsBytes(w.descriptors))
  }

  lemma KeptPut(s0: seq<byte>, s: seq<byte>, p: Places, at: nat, bytes: seq<byte>)
    requires InOrder(p, |s0|) && Kept(s0, s, p) && at + |bytes| <= |s|
    requires (p.lookup <= at && at + |bytes| <= p.names + p.chars) || (p.imports <= at && at + |bytes| <= p.imports + DESCRIPTOR_SIZE * p.tables)
    ensures Kept(s0, Put(s, at, bytes), p)
  {
    hide Put;
    PutSlices(s, at, bytes, 0, p.lookup);
    PutSlices(s, at, bytes, p.names + p.chars, p.imports);
    PutSlices(s, at, bytes, p.imports + DESCRIPTOR_SIZE * p.tables, |s|);
  }

  lemma TablesLookup(s0: seq<byte>, s: seq<byte>, p: Places, w: Written, n: nat)
    requires Tables(s0, s, p, w) && |w.lookup| < p.thunks
    ensures p.lookup + THUNK_SIZE * |w.lookup| + THUNK_SIZE <= |s|
    ensures Tables(s0, Put(s, p.lookup + THUNK_SIZE * |w.lookup|, Le64(n)), p, w.(lookup := w.lookup + [n]))
  {
    hide Kept, Filled, ThunkBytes, Le64, DescriptorsBytes, Put;
    var at := p.lookup + THUNK_SIZE * |w.lookup|;
    LengthKept(s0, s, p);
    ThunkBytesMore(w.lookup, n);
    FilledMore(s, p.lookup, THUNK_SIZE * p.thunks, ThunkBytes(w.lookup), Le64(n));
    FilledOther(s, p.bound, THUNK_SIZE * p.thunks, ThunkBytes(w.bound), at, Le64(n));
    FilledOther(s, p.names, p.chars, w.chars, at, Le64(n));
    FilledOther(s, p.imports, DESCRIPTOR_SIZE * p.tables, DescriptorsBytes(w.descriptors), at, Le64(n));
    KeptPut(s0, s, p, at, Le64(n));
  }

  lemma LengthKept(s0: seq<byte>, s: seq<byte>, p: Places)
    requires InOrder(p, |s0|) && Kept(s0, s, p)
    ensures |s| == |s0|
  {}

  lemma TablesBound(s0: seq<byte>, s: seq<byte>, p: Places, w: Written, n: nat)
    requires Tables(s0, s, p, w) && |w.bound| < p.thunks
    ensures p.bound + THUNK_SIZE * |w.bound| + THUNK_SIZE <= |s|
    ensures Tables(s0, Put(s, p.bound + THUNK_SIZE * |w.bound|, Le64(n)), p, w.(bound := w.bound + [n]))
  {
    hide Kept, Filled, ThunkBytes, Le64, DescriptorsBytes, Put;
    var at := p.bound + THUNK_SIZE * |w.bound|;
    LengthKept(s0, s, p);
    ThunkBytesMore(w.bound, n);
    FilledMore(s, p.bound, THUNK_SIZE * p.thunks, ThunkBytes(w.bound), Le64(n));
    FilledOther(s, p.lookup, THUNK_SIZE * p.thunks, ThunkBytes(w.lookup), at, Le64(n));
    FilledOther(s, p.names, p.chars, w.chars, at, Le64(n));
    FilledOther(s, p.imports, DESCRIPTOR_SIZE * p.tables, DescriptorsBytes(w.descriptors), at, Le64(n));
    KeptPut(s0, s, p, at, Le64(n));
  }

  lemma TablesChars(s0: seq<byte>, s: seq<byte>, p: Places, w: Written, more: seq<byte>)
    requires Tables(s0, s, p, w) && |w.chars| + |more| <= p.chars
    ensures p.names + |w.chars| + |more| <= |s|
    ensures Tables(s0, Put(s, p.names + |w.chars|, more), p, w.(chars := w.chars + more))
  {
    hide Kept, Filled, ThunkBytes, DescriptorsBytes, Put;
    var at := p.names + |w.chars|;
    LengthKept(s0, s, p);
    FilledMore(s, p.names, p.chars, w.chars, more);
    FilledOther(s, p.lookup, THUNK_SIZE * p.thunks, ThunkBytes(w.lookup), at, more);
    FilledOther(s, p.bound, THUNK_SIZE * p.thunks, ThunkBytes(w.bound), at, more);
    FilledOther(s, p.imports, DESCRIPTOR_SIZE * p.tables, DescriptorsBytes(w.descriptors), at, more);
    KeptPut(s0, s, p, at, more);
  }

  lemma TablesDescriptor(s0: seq<byte>, s: seq<byte>, p: Places, w: Written, d: Descriptor)
    requires Tables(s0, s, p, w) && |w.descriptors| < p.tables
    ensures p.imports + DESCRIPTOR_SIZE * |w.descriptors| + DESCRIPTOR_SIZE <= |s|
    ensures Tables(s0, Put(s, p.imports + DESCRIPTOR_SIZE * |w.descriptors|, DescriptorBytes(d)), p, w.(descriptors := w.descriptors + [d]))
  {
    hide Kept, Filled, ThunkBytes, DescriptorsBytes, DescriptorBytes, Put;
    var at, more := p.imports + DESCRIPTOR_SIZE * |w.descriptors|, DescriptorBytes(d);
    LengthKept(s0, s, p);
    DescriptorsBytesMore(w.descriptors, d);
    FilledMore(s, p.imports, DESCRIPTOR_SIZE * p.tables, DescriptorsBytes(w.descriptors), more);
    FilledOther(s, p.lookup, THUNK_SIZE * p.thunks, ThunkBytes(w.lookup), at, more);
    FilledOther(s, p.bound, THUNK_SIZE * p.thunks, ThunkBytes(w.bound), at, more);
    FilledOther(s, p.names, p.chars, w.chars, at, more);
    KeptPut(s0, s, p, at, more);
  }

  /** A string, its zero, and what it takes to make the length even, which is clear already. */
  lemma TablesPadded(s0: seq<byte>, s: seq<byte>, p: Places, w: Written, text: seq<byte>, before: nat)
    requires Tables(s0, s, p, w) && |w.chars| + |Padded(text, before)| <= p.chars
    ensures p.names + |w.chars| + |text| + 1 <= |s|
    ensures Tables(s0, Put(s, p.names + |w.chars|, text + [0]), p, w.(chars := w.chars + Padded(text, before)))
  {
    hide Kept, ThunkBytes, DescriptorsBytes, Put, Filled;
    TablesChars(s0, s, p, w, text + [0]);
    var n := |Padded(text, before)| - |text| - 1;
    FilledZeros(Put(s, p.names + |w.chars|, text + [0]), p.names, p.chars, w.chars + (text + [0]), n);
    assert Zeros(n + 1) == [0] + Zeros(n);
    assert w.chars + (text + [0]) + Zeros(n) == w.chars + Padded(text, before);
  }

  lemma NamesBytesNext(names: seq<ImportName>, i: nat)
    requires (forall j :: 0 <= j < |names| ==> IsName(names[j])) && i < |names|
    ensures NamesBytes(names[..i + 1]) == NamesBytes(names[..i]) + NameBytes(names[i])
  {
    hide NameBytes, IsName;
    assert names[..i + 1][..i] == names[..i];
  }

  lemma NamesThunksNext(names: seq<ImportName>, i: nat, at: nat)
    requires i < |names|
    ensures NamesThunks(names[..i + 1], at) == NamesThunks(names[..i], at) + [NameThunk(names[i], at + NamesChars(names[..i]))]
  {
    hide NameThunk;
    assert names[..i + 1][..i] == names[..i];
  }

  lemma {:induction false} NamesPart(names: seq<ImportName>, i: nat)
    requires i <= |names|
    ensures NamesChars(names[..i]) <= NamesChars(names)
    decreases |names|
  {
    hide NameChars;
    if i == |names| {
      assert names[..i] == names;
    } else {
      NamesPart(names[..|names| - 1], i);
      assert names[..|names| - 1][..i] == names[..i];
    }
  }

  lemma NoNames(at: nat)
    ensures NamesBytes([]) == [] && NamesThunks([], at) == [] && NamesChars([]) == 0
  {}

  lemma Joined<T>(a: seq<T>, b: seq<T>, c: seq<T>)
    ensures a + (b + c) == (a + b) + c
  {}

  lemma ByTwo(t: seq<nat>)
    ensures t + [ORDINAL_FLAG + 1] + [0] == t + BYWAY_THUNKS
  {}

  lemma Prefixes(files: seq<ImportFile>)
    requires AreFiles(files)
    ensures forall i :: 0 <= i <= |files| ==> AreFiles(files[..i])
  {}

  lemma NoFiles(names: nat, files: seq<ImportFile>, b: Bases)
    requires AreFiles(files)
    ensures AllBytes([]) == [] && AllLookup([], names) == [] && AllBound([]) == [] && Descriptors(files, 0, b) == []
  {}

  /** The next file fits, and what the tables hold after it. */
  lemma NextFile(files: seq<ImportFile>, i: nat, names: nat)
    requires AreFiles(files) && i < |files|
    ensures IsFile(files[i]) && AreFiles(files[..i]) && AreFiles(files[..i + 1])
    ensures AllBytes(files[..i + 1]) == AllBytes(files[..i]) + FileBytes(files[i])
    ensures AllLookup(files[..i + 1], names) == AllLookup(files[..i], names) + FileLookup(files[i], names + |AllBytes(files[..i])|)
    ensures AllBound(files[..i + 1]) == AllBound(files[..i]) + FileBound(files[i])
    ensures |AllBytes(files[..i])| + FileChars(files[i]) <= CountChars(files)
    ensures |AllLookup(files[..i], names)| + FileThunks(files[i]) <= CountThunks(files)
    ensures |AllBound(files[..i])| + FileThunks(files[i]) <= CountThunks(files)
  {
    hide FileBytes, FileLookup, FileBound, FileChars, FileThunks, IsFile;
    AllBytesNext(files, i);
    AllLookupNext(files, i, names);
    AllBoundNext(files, i);
    CountNext(files, i);
    CountPart(files, i + 1);
  }

  lemma DescriptorIs(files: seq<ImportFile>, i: nat, b: Bases, length: nat)
    requires AreFiles(files) && i < |files| && length == CountThunks(files)
    ensures DescriptorOf(files, i, b) == Descriptor(
              if files[i].byway || length > 1 then b.lookup + THUNK_SIZE * |AllLookup(files[..i], b.names)| else 0,
              0, files[i].forwarderChain, b.names + |AllBytes(files[..i])|,
              if files[i].byway then b.bound + THUNK_SIZE * |AllBound(files[..i])| else files[i].rvaFirstThunk)
  {}
}
