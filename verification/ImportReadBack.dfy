/** Loading the written import tables gives back the imports. */
module ImportReadBack {
  import opened MachineWords
  import opened ImportTables
  import opened ImportLayout

  /** The string at an offset, up to its zero. */
  function ReadString(chars: seq<byte>, at: nat): seq<byte>
    decreases |chars| - at
  {
    if at >= |chars| || chars[at] == 0 then [] else [chars[at]] + ReadString(chars, at + 1)
  }

  /** An import as the loader sees it. */
  datatype Import = ByName(hint: nat, name: seq<byte>) | ByOrdinal(ordinal: nat)

  function LoadThunk(t: nat, chars: seq<byte>, base: nat): Import {
    if t >= ORDINAL_FLAG then ByOrdinal(t - ORDINAL_FLAG)
    else if base <= t && t - base + 2 <= |chars| then
      ByName(chars[t - base] as int + 0x100 * chars[t - base + 1] as int, ReadString(chars, t - base + 2))
    else ByName(0, [])
  }

  /** The imports from an entry of the lookup table on, up to the zero entry. */
  function LoadThunks(lookup: seq<nat>, k: nat, chars: seq<byte>, base: nat): seq<Import>
    decreases |lookup| - k
  {
    if k >= |lookup| || lookup[k] == 0 then [] else [LoadThunk(lookup[k], chars, base)] + LoadThunks(lookup, k + 1, chars, base)
  }

  /** The imports that are asked for. */
  function Wanted(n: ImportName): Import { if n.name.Text? then ByName(n.hint, n.name.chars) else ByOrdinal(n.nOrdinal) }

  function WantedAll(names: seq<ImportName>): (w: seq<Import>)
    ensures |w| == |names|
  {
    seq(|names|, i requires 0 <= i < |names| => Wanted(names[i]))
  }

  /** `part` lies in `s` from `at` on. */
  predicate At<T(==)>(s: seq<T>, at: nat, part: seq<T>) {
    at + |part| <= |s| && forall i :: 0 <= i < |part| ==> part[i] == s[at + i]
  }

  lemma AtPart<T>(s: seq<T>, at: nat, a: seq<T>, b: seq<T>)
    requires At(s, at, a + b)
    ensures At(s, at, a) && At(s, at + |a|, b)
  {
    var p := a + b;
    forall i | 0 <= i < |a| ensures a[i] == s[at + i] {
      assert p[i] == a[i];
    }
    forall i | 0 <= i < |b| ensures b[i] == s[at + |a| + i] {
      assert p[|a| + i] == b[i];
    }
  }

  lemma AtLonger<T>(s: seq<T>, more: seq<T>, at: nat, part: seq<T>)
    requires At(s, at, part)
    ensures At(s + more, at, part)
  {}

  lemma AtEnd<T>(s: seq<T>, part: seq<T>)
    ensures At(s + part, |s|, part)
  {}

  lemma {:induction false} ReadStringAt(chars: seq<byte>, at: nat, s: seq<byte>)
    requires At(chars, at, s) && 0 !in s && at + |s| < |chars| && chars[at + |s|] == 0
    ensures ReadString(chars, at) == s
    decreases |s|
  {
    if s != [] {
      assert s[0] == chars[at] && s[0] in s;
      assert [s[0]] + s[1..] == s;
      AtPart(chars, at, [s[0]], s[1..]);
      ReadStringAt(chars, at + 1, s[1..]);
    }
  }

  lemma ReadPadded(chars: seq<byte>, at: nat, s: seq<byte>, before: nat)
    requires At(chars, at, Padded(s, before)) && 0 !in s
    ensures ReadString(chars, at) == s
  {
    var z := Zeros(Even(before + |s| + 1) - before - |s|);
    AtPart(chars, at, s, z);
    assert z[0] == chars[at + |s|];
    ReadStringAt(chars, at, s);
  }

  predicate Fits(n: ImportName) { IsName(n) && n.nOrdinal < 0x1_0000 }

  /** One name comes back. */
  lemma LoadName(n: ImportName, chars: seq<byte>, at: nat, base: nat)
    requires Fits(n) && At(chars, at, NameBytes(n)) && 0 < base && base + |chars| < ORDINAL_FLAG
    ensures NameThunk(n, base + at) != 0 && LoadThunk(NameThunk(n, base + at), chars, base) == Wanted(n)
  {
    if n.name.Text? {
      hide Padded;
      var h := HintBytes(n.hint);
      AtPart(chars, at, h, Padded(n.name.chars, 2));
      assert h[0] == chars[at] && h[1] == chars[at + 1];
      ReadPadded(chars, at + 2, n.name.chars, 2);
    }
  }

  /** All the names of a file come back, in order. */
  lemma {:induction false} LoadNames(names: seq<ImportName>, i: nat, lookup: seq<nat>, k: nat, chars: seq<byte>, at: nat, base: nat)
    requires forall j :: 0 <= j < |names| ==> IsName(names[j]) && Fits(names[j])
    requires i <= |names| && At(chars, at, NamesBytes(names)) && At(lookup, k, NamesThunks(names, base + at) + [0])
    requires 0 < base && base + |chars| < ORDINAL_FLAG
    ensures LoadThunks(lookup, k + i, chars, base) == WantedAll(names)[i..]
    decreases |names| - i
  {
    hide NameBytes, LoadThunk, Wanted;
    var t := NamesThunks(names, base + at);
    AtPart(lookup, k, t, [0]);
    if i < |names| {
      NameInNames(names, i, chars, at, base);
      LoadName(names[i], chars, at + NamesChars(names[..i]), base);
      assert t[i] == lookup[k + i];
      LoadNames(names, i + 1, lookup, k, chars, at, base);
    } else {
      assert [0][0] == lookup[k + |t| + 0];
    }
  }

  /** Where the bytes and the thunk of one name are among those of all. */
  lemma {:induction false} NameInNames(names: seq<ImportName>, i: nat, chars: seq<byte>, at: nat, base: nat)
    requires (forall j :: 0 <= j < |names| ==> IsName(names[j])) && i < |names| && At(chars, at, NamesBytes(names))
    ensures At(chars, at + NamesChars(names[..i]), NameBytes(names[i]))
    ensures NamesThunks(names, base + at)[i] == NameThunk(names[i], base + (at + NamesChars(names[..i])))
    decreases |names|
  {
    hide NameBytes, NameThunk, NameChars, IsName;
    var init, last := names[..|names| - 1], names[|names| - 1];
    AtPart(chars, at, NamesBytes(init), NameBytes(last));
    if i < |init| {
      NameInNames(init, i, chars, at, base);
      assert init[..i] == names[..i];
    }
  }

  // ------------------------------------------------------------------ among all files

  /** Where the parts of one file are in the tables. */
  lemma {:induction false} FileInTables(files: seq<ImportFile>, i: nat, names: nat)
    requires AreFiles(files) && i < |files|
    ensures At(AllBytes(files), CountChars(files[..i]), FileBytes(files[i]))
    ensures At(AllLookup(files, names), CountThunks(files[..i]), FileLookup(files[i], names + CountChars(files[..i])))
    decreases |files|
  {
    hide FileBytes, FileLookup, FileChars, FileThunks, At;
    var init, last := files[..|files| - 1], files[|files| - 1];
    if i < |init| {
      FileInTables(init, i, names);
      assert init[..i] == files[..i];
      AtLonger(AllBytes(init), FileBytes(last), CountChars(files[..i]), FileBytes(files[i]));
      AtLonger(AllLookup(init, names), FileLookup(last, names + CountChars(init)), CountThunks(files[..i]),
               FileLookup(files[i], names + CountChars(files[..i])));
    } else {
      AtEnd(AllBytes(init), FileBytes(last));
      AtEnd(AllLookup(init, names), FileLookup(last, names + CountChars(init)));
    }
  }

  lemma {:induction false} FileInBound(files: seq<ImportFile>, i: nat)
    requires i < |files|
    ensures At(AllBound(files), |AllBound(files[..i])|, FileBound(files[i]))
    decreases |files|
  {
    hide FileBound, At;
    var init, last := files[..|files| - 1], files[|files| - 1];
    if i < |init| {
      FileInBound(init, i);
      assert init[..i] == files[..i];
      AtLonger(AllBound(init), FileBound(last), |AllBound(files[..i])|, FileBound(files[i]));
    } else {
      AtEnd(AllBound(init), FileBound(last));
    }
  }

  /** The rest of a descriptor: the table that the loader binds is one of its own for a byway, which asks for
      the function with ordinal 1 as the lookup table does, and the one the file always had otherwise. */
  lemma ReadBackBound(files: seq<ImportFile>, i: nat, b: Bases)
    requires AreFiles(files) && i < |files|
    ensures var d, f := DescriptorOf(files, i, b), files[i];
            && d.forwarderChain == f.forwarderChain && d.timeDateStamp == 0
            && if f.byway
               then var k := |AllBound(files[..i])|;
                    d.firstThunk == b.bound + THUNK_SIZE * k && LoadThunks(AllBound(files), k, AllBytes(files), b.names) == [ByOrdinal(1)]
               else d.firstThunk == f.rvaFirstThunk
  {
    hide AllBound, LoadThunks, At, AllBytes, CountThunks, CountChars;
    FileInBound(files, i);
    if files[i].byway {
      LoadByway(AllBound(files), |AllBound(files[..i])|, AllBytes(files), b.names);
    }
  }

  /** What the loader reads for a file is what was asked for: its name and its imports. */
  lemma ReadBack(files: seq<ImportFile>, i: nat, b: Bases)
    requires AreFiles(files) && i < |files| && 0 < b.names && b.names + CountChars(files) < ORDINAL_FLAG
    requires forall j :: 0 <= j < |files[i].names| ==> Fits(files[i].names[j])
    ensures var d, f := DescriptorOf(files, i, b), files[i];
            && d.name >= b.names && ReadString(AllBytes(files), d.name - b.names) == f.name.chars
            && (f.byway || f.names != [] ==>
                  var k := CountThunks(files[..i]);
                  d.originalFirstThunk == b.lookup + THUNK_SIZE * k
                  && LoadThunks(AllLookup(files, b.names), k, AllBytes(files), b.names)
                     == if f.byway then [ByOrdinal(1)] else WantedAll(f.names))
  {
    hide AllBytes, AllLookup, AllBound, CountChars, CountThunks, Padded, LoadThunks, ReadString, At;
    var f, at, k := files[i], CountChars(files[..i]), CountThunks(files[..i]);
    FileInTables(files, i, b.names);
    FileStarts(files, i);
    AtPart(AllBytes(files), at, Padded(f.name.chars, 0), if f.byway then [] else NamesBytes(f.names));
    ReadPadded(AllBytes(files), at, f.name.chars, 0);
    if f.byway {
      LoadByway(AllLookup(files, b.names), k, AllBytes(files), b.names);
    } else {
      LoadNames(f.names, 0, AllLookup(files, b.names), k, AllBytes(files), at + Even(|f.name.chars| + 1), b.names);
    }
  }

  /** A byway asks for the function with ordinal 1. */
  lemma LoadByway(lookup: seq<nat>, k: nat, chars: seq<byte>, base: nat)
    requires At(lookup, k, BYWAY_THUNKS)
    ensures LoadThunks(lookup, k, chars, base) == [ByOrdinal(1)]
  {
    assert BYWAY_THUNKS[0] == lookup[k + 0] && BYWAY_THUNKS[1] == lookup[k + 1];
    assert LoadThunks(lookup, k + 1, chars, base) == [];
  }

  /** A file with imports leaves more than one entry in the lookup table. */
  lemma FileStarts(files: seq<ImportFile>, i: nat)
    requires AreFiles(files) && i < |files|
    ensures files[i].names != [] && !files[i].byway ==> CountThunks(files) > 1
  {
    CountNext(files, i);
    CountPart(files, i + 1);
  }
}
