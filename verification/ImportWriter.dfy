/** Writing the import tables: thunks, names and descriptors go into tables of the counted size, side by
    side in the output buffer. */
module ImportWriter {
  import opened MachineWords
  import opened ByteBuffers
  import opened ImportTables
  import opened ImportLayout

  // ------------------------------------------------------------------ the tables as they fill up

  /** A table of thunks at an offset of the output buffer, and its address. */
  class CImageThunks {
    const buffer: array<byte>
    const at: nat
    const max: nat
    const base: nat
    var count: nat

    constructor (buffer: array<byte>, at: nat, max: nat, base: nat)
      ensures this.buffer == buffer && this.at == at && this.max == max && this.base == base && count == 0
    {
      this.buffer, this.at, this.max, this.base, count := buffer, at, max, base, 0;
    }

    /** Where the next entry will be; nowhere in a table of one entry. */
    function Current(): nat
      reads this
    {
      if max > 1 then base + THUNK_SIZE * count else 0
    }

    method Allocate(data: nat) returns (ok: bool, address: nat)
      requires at + THUNK_SIZE * max <= buffer.Length
      modifies `count, buffer
      ensures ok == (old(count) < max)
      ensures if ok then address == base + THUNK_SIZE * old(count) && count == old(count) + 1
                         && buffer[..] == Put(old(buffer[..]), at + THUNK_SIZE * old(count), Le64(data))
              else address == 0 && count == old(count) && buffer[..] == old(buffer[..])
    {
      hide Put;
      if count < max {
        address := base + THUNK_SIZE * count;
        PutBytes(buffer, at + THUNK_SIZE * count, Le64(data));
        count := count + 1;
        return true, address;
      }
      return false, 0;
    }
  }

  /** The table of names at an offset of the output buffer, and its address. */
  class CImageChars {
    const buffer: array<byte>
    const at: nat
    const max: nat
    const base: nat
    var count: nat

    constructor (buffer: array<byte>, at: nat, max: nat, base: nat)
      ensures this.buffer == buffer && this.at == at && this.max == max && this.base == base && count == 0
    {
      this.buffer, this.at, this.max, this.base, count := buffer, at, max, base, 0;
    }

    method Allocate(s: seq<byte>) returns (ok: bool, address: nat)
      requires at + max <= buffer.Length
      modifies `count, buffer
      ensures ok == (old(count) + Even(|s| + 1) <= max)
      ensures if ok then address == base + old(count) && count == old(count) + Even(|s| + 1)
                         && buffer[..] == Put(old(buffer[..]), at + old(count), s + [0])
              else address == 0 && count == old(count) && buffer[..] == old(buffer[..])
    {
      hide Put;
      var n := |s| + 1;
      n := n + n % 2;
      if count + n > max {
        return false, 0;
      }
      address := base + count;
      PutBytes(buffer, at + count, s + [0]);
      count := count + n;
      return true, address;
    }

    method AllocateHint(s: seq<byte>, hint: nat) returns (ok: bool, address: nat)
      requires at + max <= buffer.Length && hint < 0x1_0000
      modifies `count, buffer
      ensures ok == (old(count) + Even(2 + |s| + 1) <= max)
      ensures if ok then address == base + old(count) && count == old(count) + Even(2 + |s| + 1)
                         && buffer[..] == Put(Put(old(buffer[..]), at + old(count), HintBytes(hint)), at + old(count) + 2, s + [0])
              else address == 0 && count == old(count) && buffer[..] == old(buffer[..])
    {
      hide Put, HintBytes;
      var n := |s| + 1 + 2;
      n := n + n % 2;
      if count + n > max {
        return false, 0;
      }
      address := base + count;
      PutBytes(buffer, at + count, HintBytes(hint));
      PutBytes(buffer, at + count + 2, s + [0]);
      count := count + n;
      return true, address;
    }
  }

  // ------------------------------------------------------------------ the write loop

  class ImportTablesWriter {
    const buffer: array<byte>
    const lookup: CImageThunks
    const bound: CImageThunks
    const names: CImageChars
    const imports: nat
    const tables: nat

    constructor (lookup: CImageThunks, bound: CImageThunks, names: CImageChars, imports: nat, tables: nat)
      ensures this.lookup == lookup && this.bound == bound && this.names == names && this.imports == imports && this.tables == tables
      ensures buffer == lookup.buffer
    {
      this.buffer, this.lookup, this.bound, this.names, this.imports, this.tables := lookup.buffer, lookup, bound, names, imports, tables;
    }

    ghost function Where(): Places { Places(lookup.at, bound.at, names.at, imports, lookup.max, names.max, tables) }

    ghost function Addresses(): Bases { Bases(lookup.base, bound.base, names.base) }

    /** What has been written into a buffer that held `s0`. */
    ghost predicate Holds(s0: seq<byte>, w: Written)
      reads lookup, bound, names, buffer
    {
      && lookup != bound && lookup.buffer == buffer && bound.buffer == buffer && names.buffer == buffer && lookup.max == bound.max
      && lookup.count == |w.lookup| && bound.count == |w.bound| && names.count == |w.chars|
      && Tables(s0, buffer[..], Where(), w)
    }

    /** One entry of the lookup table. */
    method WriteLookup(data: nat, ghost s0: seq<byte>, ghost w: Written) returns (ok: bool, address: nat)
      requires Holds(s0, w) && |w.lookup| < lookup.max
      modifies lookup`count, buffer
      ensures ok && address == lookup.base + THUNK_SIZE * |w.lookup| && Holds(s0, w.(lookup := w.lookup + [data]))
    {
      hide Tables, Le64, Put, Where;
      Fits(s0, w);
      TablesLookup(s0, buffer[..], Where(), w, data);
      ok, address := lookup.Allocate(data);
    }

    /** One entry of the bound table. */
    method WriteBound(data: nat, ghost s0: seq<byte>, ghost w: Written) returns (ok: bool, address: nat)
      requires Holds(s0, w) && |w.bound| < bound.max
      modifies bound`count, buffer
      ensures ok && address == bound.base + THUNK_SIZE * |w.bound| && Holds(s0, w.(bound := w.bound + [data]))
    {
      hide Tables, Le64, Put, Where;
      Fits(s0, w);
      TablesBound(s0, buffer[..], Where(), w, data);
      ok, address := bound.Allocate(data);
    }

    /** The tables are within the buffer. */
    lemma Fits(s0: seq<byte>, w: Written)
      requires Holds(s0, w)
      ensures lookup.at + THUNK_SIZE * lookup.max <= buffer.Length && bound.at + THUNK_SIZE * bound.max <= buffer.Length
      ensures names.at + names.max <= buffer.Length && imports + DESCRIPTOR_SIZE * tables <= buffer.Length
      ensures Where().lookup == lookup.at && Where().bound == bound.at && Where().names == names.at && Where().imports == imports
      ensures Where().thunks == lookup.max == bound.max && Where().chars == names.max && Where().tables == tables
    {}

    method WriteText(s: seq<byte>, ghost s0: seq<byte>, ghost w: Written) returns (ok: bool, at: nat)
      requires Holds(s0, w) && |w.chars| + Even(|s| + 1) <= names.max
      modifies names`count, buffer
      ensures ok && at == names.base + |w.chars| && Holds(s0, w.(chars := w.chars + Padded(s, 0)))
    {
      hide Tables, Padded, Put, Where;
      Fits(s0, w);
      TablesPadded(s0, buffer[..], Where(), w, s, 0);
      ok, at := names.Allocate(s);
    }

    method WriteHinted(s: seq<byte>, hint: nat, ghost s0: seq<byte>, ghost w: Written) returns (ok: bool, at: nat)
      requires Holds(s0, w) && hint < 0x1_0000 && |w.chars| + Even(2 + |s| + 1) <= names.max
      modifies names`count, buffer
      ensures ok && at == names.base + |w.chars| && Holds(s0, w.(chars := w.chars + (HintBytes(hint) + Padded(s, 2))))
    {
      hide Padded, Put, HintBytes, Tables, Where;
      Fits(s0, w);
      ghost var v := w.(chars := w.chars + HintBytes(hint));
      TablesChars(s0, buffer[..], Where(), w, HintBytes(hint));
      TablesPadded(s0, Put(buffer[..], names.at + |w.chars|, HintBytes(hint)), Where(), v, s, 2);
      assert w.chars + HintBytes(hint) + Padded(s, 2) == w.chars + (HintBytes(hint) + Padded(s, 2));
      ok, at := names.AllocateHint(s, hint);
    }

    /** One name, and its lookup entry. */
    method WriteName(n: ImportName, ghost s0: seq<byte>, ghost w: Written) returns (ok: bool)
      requires Holds(s0, w) && IsName(n) && |w.lookup| < lookup.max && |w.chars| + NameChars(n) <= names.max
      modifies lookup`count, names`count, buffer
      ensures ok && Holds(s0, w.(chars := w.chars + NameBytes(n), lookup := w.lookup + [NameThunk(n, names.base + |w.chars|)]))
    {
      hide Padded, HintBytes, Holds;
      if n.name.Text? {
        var ok0, at := WriteHinted(n.name.chars, n.hint, s0, w);
        var ok1, _ := WriteLookup(at, s0, w.(chars := w.chars + NameBytes(n)));
        return ok0 && ok1;
      }
      var ok2, _ := WriteLookup(ORDINAL_FLAG + n.nOrdinal, s0, w);
      assert w.chars + NameBytes(n) == w.chars;
      return ok2;
    }

    /** What has been written after some names of a file. */
    ghost function AfterNames(w: Written, list: seq<ImportName>): Written
      requires forall i :: 0 <= i < |list| ==> IsName(list[i])
    {
      w.(chars := w.chars + NamesBytes(list), lookup := w.lookup + NamesThunks(list, names.base + |w.chars|))
    }

    lemma AfterNone(w: Written)
      ensures AfterNames(w, []) == w
    {
      NoNames(names.base + |w.chars|);
      assert w.chars + [] == w.chars && w.lookup + [] == w.lookup;
    }

    lemma AfterOne(w: Written, list: seq<ImportName>, n: nat)
      requires n < |list| && forall i :: 0 <= i < |list| ==> IsName(list[i])
      ensures var v := AfterNames(w, list[..n]);
              && AfterNames(w, list[..n + 1])
                 == v.(chars := v.chars + NameBytes(list[n]), lookup := v.lookup + [NameThunk(list[n], names.base + |v.chars|)])
              && |v.lookup| == |w.lookup| + n && |v.chars| + NameChars(list[n]) <= |w.chars| + NamesChars(list)
    {
      hide NameBytes, NameThunk, NamesBytes, NamesThunks, NameChars, IsName;
      var at := names.base + |w.chars|;
      NamesNext(list, n);
      NamesBytesNext(list, n);
      NamesThunksNext(list, n, at);
      NamesPart(list, n + 1);
      Joined(w.chars, NamesBytes(list[..n]), NameBytes(list[n]));
      Joined(w.lookup, NamesThunks(list[..n], at), [NameThunk(list[n], at + NamesChars(list[..n]))]);
    }

    /** The names of a file. */
    method WriteNames(list: seq<ImportName>, ghost s0: seq<byte>, ghost w: Written) returns (allOk: bool)
      requires Holds(s0, w) && forall i :: 0 <= i < |list| ==> IsName(list[i])
      requires |w.lookup| + |list| <= lookup.max && |w.chars| + NamesChars(list) <= names.max
      modifies lookup`count, names`count, buffer
      ensures allOk && Holds(s0, AfterNames(w, list))
    {
      hide *;
      allOk := true;
      AfterNone(w);
      assert list[..0] == [];
      var n := 0;
      while n < |list|
        invariant n <= |list| && allOk && Holds(s0, AfterNames(w, list[..n]))
      {
        AfterOne(w, list, n);
        var ok := WriteName(list[n], s0, AfterNames(w, list[..n]));
        allOk := allOk && ok;
        n := n + 1;
      }
      assert list[..n] == list;
    }

    /** The two entries of a byway in both tables. */
    method WriteByway(ghost s0: seq<byte>, ghost w: Written) returns (ok: bool, original: nat, first: nat)
      requires Holds(s0, w) && |w.lookup| + 2 <= lookup.max && |w.bound| + 2 <= bound.max
      modifies lookup`count, bound`count, buffer
      ensures ok && original == lookup.base + THUNK_SIZE * |w.lookup| && first == bound.base + THUNK_SIZE * |w.bound|
      ensures Holds(s0, w.(lookup := w.lookup + BYWAY_THUNKS, bound := w.bound + BYWAY_THUNKS))
    {
      hide Holds;
      var ok1;
      ok, original := WriteLookup(ORDINAL_FLAG + 1, s0, w);
      ghost var v := w.(lookup := w.lookup + [ORDINAL_FLAG + 1]);
      ok1, first := WriteBound(ORDINAL_FLAG + 1, s0, v);
      v := v.(bound := v.bound + [ORDINAL_FLAG + 1]);
      var ok2, _ := WriteLookup(0, s0, v);
      v := v.(lookup := v.lookup + [0]);
      var ok3, _ := WriteBound(0, s0, v);
      ByTwo(w.lookup);
      ByTwo(w.bound);
      ok := ok && ok1 && ok2 && ok3;
    }

    /** What has been written after a file, but for its descriptor. */
    ghost function AfterFile(w: Written, f: ImportFile): Written
      requires IsFile(f)
    {
      w.(chars := w.chars + FileBytes(f), lookup := w.lookup + FileLookup(f, names.base + |w.chars|), bound := w.bound + FileBound(f))
    }

    /** The descriptor of a file with this much written before it. */
    ghost function DescriptorAfter(w: Written, f: ImportFile): Descriptor {
      Descriptor(if f.byway || lookup.max > 1 then lookup.base + THUNK_SIZE * |w.lookup| else 0,
                 0, f.forwarderChain, names.base + |w.chars|,
                 if f.byway then bound.base + THUNK_SIZE * |w.bound| else f.rvaFirstThunk)
    }

    /** The name and the imports of a file, and what its descriptor is. */
    method WriteFile(f: ImportFile, ghost s0: seq<byte>, ghost w: Written) returns (allOk: bool, d: Descriptor)
      requires Holds(s0, w) && IsFile(f) && |w.chars| + FileChars(f) <= names.max
      requires |w.lookup| + FileThunks(f) <= lookup.max && |w.bound| + FileThunks(f) <= bound.max
      modifies lookup`count, bound`count, names`count, buffer
      ensures allOk && d == DescriptorAfter(w, f) && Holds(s0, AfterFile(w, f))
    {
      hide Holds, NamesBytes, NamesThunks, Padded, IsName;
      var ok, name := WriteText(f.name.chars, s0, w);
      ghost var v := w.(chars := w.chars + Padded(f.name.chars, 0));
      if f.byway {
        var ok1, original, first := WriteByway(s0, v);
        assert w.chars + (Padded(f.name.chars, 0) + []) == v.chars;
        return ok && ok1, Descriptor(original, 0, f.forwarderChain, name, first);
      }
      var original := WhereNext(s0, v);
      var ok1 := WriteNames(f.names, s0, v);
      var ok2, _ := WriteLookup(0, s0, AfterNames(v, f.names));
      Joined(w.chars, Padded(f.name.chars, 0), NamesBytes(f.names));
      Joined(w.lookup, NamesThunks(f.names, names.base + |v.chars|), [0]);
      assert w.bound + [] == w.bound;
      return ok && ok1 && ok2, Descriptor(original, 0, f.forwarderChain, name, f.rvaFirstThunk);
    }

    method WhereNext(ghost s0: seq<byte>, ghost w: Written) returns (address: nat)
      requires Holds(s0, w)
      ensures address == if lookup.max > 1 then lookup.base + THUNK_SIZE * |w.lookup| else 0
    {
      address := lookup.Current();
    }

    /** The descriptor of file number `i`, behind the ones before. */
    method WriteDescriptor(d: Descriptor, i: nat, ghost s0: seq<byte>, ghost w: Written)
      requires Holds(s0, w) && i == |w.descriptors| < tables
      modifies buffer
      ensures Holds(s0, w.(descriptors := w.descriptors + [d]))
    {
      hide Tables, DescriptorBytes, Put, Where;
      Fits(s0, w);
      TablesDescriptor(s0, buffer[..], Where(), w, d);
      PutBytes(buffer, imports + DESCRIPTOR_SIZE * i, DescriptorBytes(d));
    }

    /** What the tables hold after all files. */
    ghost function AfterFiles(files: seq<ImportFile>, all: seq<ImportFile>): Written
      requires AreFiles(files) && AreFiles(all) && files <= all
    {
      Written(AllBytes(files), AllLookup(files, names.base), AllBound(files), Descriptors(all, |files|, Addresses()))
    }

    /** The descriptors of all files and a blank one behind them. Every allocation succeeds, and the lookup
        and name tables end up exactly full. */
    method WriteImports(files: seq<ImportFile>, ghost s0: seq<byte>) returns (allOk: bool)
      requires AreFiles(files) && Holds(s0, Written([], [], [], []))
      requires lookup.max == CountThunks(files) && names.max == CountChars(files) && tables == |files| + 1
      modifies lookup`count, bound`count, names`count, buffer
      ensures allOk && Holds(s0, Written(AllBytes(files), AllLookup(files, names.base), AllBound(files),
                                         Descriptors(files, |files|, Addresses()) + [BLANK]))
      ensures lookup.count == lookup.max && names.count == names.max && bound.count <= bound.max
    {
      hide *;
      allOk := true;
      Prefixes(files);
      AfterNoFiles(files);
      var i := 0;
      while i < |files|
        invariant i <= |files| && allOk && Holds(s0, AfterFiles(files[..i], files))
      {
        NextFile(files, i, names.base);
        ghost var w := AfterFiles(files[..i], files);
        Room(files, i, s0);
        var ok, d := WriteFile(files[i], s0, w);
        NextWritten(files, i);
        WriteDescriptor(d, i, s0, AfterFile(w, files[i]));
        allOk := allOk && ok;
        i := i + 1;
      }
      assert files[..i] == files;
      AfterAll(files);
      WriteDescriptor(BLANK, i, s0, AfterFiles(files, files));
      Full(files, s0);
    }

    lemma AfterNoFiles(files: seq<ImportFile>)
      requires AreFiles(files)
      ensures AreFiles(files[..0]) && AfterFiles(files[..0], files) == Written([], [], [], [])
    {
      assert files[..0] == [];
      NoFiles(names.base, files, Addresses());
    }

    /** There is room for the next file. */
    lemma Room(files: seq<ImportFile>, i: nat, s0: seq<byte>)
      requires AreFiles(files) && i < |files| && lookup.max == CountThunks(files) && names.max == CountChars(files)
      requires AreFiles(files[..i]) && Holds(s0, AfterFiles(files[..i], files)) && IsFile(files[i])
      ensures var w := AfterFiles(files[..i], files);
              && |w.chars| + FileChars(files[i]) <= names.max
              && |w.lookup| + FileThunks(files[i]) <= lookup.max && |w.bound| + FileThunks(files[i]) <= bound.max
    {
      hide AllBytes, AllLookup, AllBound, FileChars, FileThunks, Tables, IsFile, DescriptorOf;
      NextFile(files, i, names.base);
    }

    lemma NextWritten(files: seq<ImportFile>, i: nat)
      requires AreFiles(files) && i < |files| && lookup.max == CountThunks(files)
      ensures AreFiles(files[..i]) && AreFiles(files[..i + 1]) && IsFile(files[i])
      ensures var w := AfterFiles(files[..i], files);
              var v := AfterFile(w, files[i]);
              AfterFiles(files[..i + 1], files) == v.(descriptors := v.descriptors + [DescriptorAfter(w, files[i])])
              && |v.descriptors| == i
    {
      hide AllBytes, AllLookup, AllBound, FileBytes, FileLookup, FileBound, FileChars, FileThunks, DescriptorOf, IsFile;
      NextFile(files, i, names.base);
      DescriptorIs(files, i, Addresses(), lookup.max);
    }

    lemma AfterAll(files: seq<ImportFile>)
      requires AreFiles(files)
      ensures AfterFiles(files, files) == Written(AllBytes(files), AllLookup(files, names.base), AllBound(files), Descriptors(files, |files|, Addresses()))
      ensures |AfterFiles(files, files).descriptors| == |files|
    {
      hide AllBytes, AllLookup, AllBound, DescriptorOf;
    }

    lemma Full(files: seq<ImportFile>, s0: seq<byte>)
      requires AreFiles(files) && lookup.max == CountThunks(files)
      requires Holds(s0, Written(AllBytes(files), AllLookup(files, names.base), AllBound(files), Descriptors(files, |files|, Addresses()) + [BLANK]))
      ensures lookup.count == CountThunks(files) && names.count == CountChars(files) && bound.count <= bound.max
    {}
  }
}
