/** The import tables of a binary as they are written: what is counted beforehand is what is written, and
    the loader reads back the imports that were asked for. */
module ImportTables {
  import opened MachineWords

  /** A string that may be missing. */
  datatype Name = Null | Text(chars: seq<byte>)

  datatype ImportName = ImportName(hint: nat, nOrig: nat, nOrdinal: nat, orig: Name, name: Name)

  datatype ImportFile = ImportFile(byway: bool, orig: Name, name: Name, names: seq<ImportName>, rvaFirstThunk: nat, forwarderChain: nat)

  datatype Descriptor = Descriptor(originalFirstThunk: nat, timeDateStamp: nat, forwarderChain: nat, name: nat, firstThunk: nat)

  const ORDINAL_FLAG := 0x8000_0000_0000_0000
  const THUNK_SIZE := 8
  const BLANK := Descriptor(0, 0, 0, 0, 0)

  /** Rounded up to an even number. */
  function Even(n: nat): (m: nat)
    ensures n <= m <= n + 1 && m % 2 == 0
  {
    n + n % 2
  }

  predicate Differs(a: Name, b: Name) { a != b }

  /** A file has a name; strings hold no zero; hints are 16-bit words. */
  predicate IsText(n: Name) { n.Text? && 0 !in n.chars }
  predicate IsName(n: ImportName) { n.hint < 0x1_0000 && (n.name.Text? ==> IsText(n.name)) }
  predicate IsFile(f: ImportFile) { IsText(f.name) && forall i :: 0 <= i < |f.names| ==> IsName(f.names[i]) }
  predicate AreFiles(files: seq<ImportFile>) { forall i :: 0 <= i < |files| ==> IsFile(files[i]) }

  // ------------------------------------------------------------------ counting

  function NameChars(n: ImportName): nat { if n.name.Text? then Even(2 + |n.name.chars| + 1) else 0 }

  function NamesChars(names: seq<ImportName>): nat
    decreases |names|
  {
    if names == [] then 0 else NamesChars(names[..|names| - 1]) + NameChars(names[|names| - 1])
  }

  function FileChars(f: ImportFile): nat
    requires f.name.Text?
  {
    Even(|f.name.chars| + 1) + if f.byway then 0 else NamesChars(f.names)
  }

  function FileThunks(f: ImportFile): nat { if f.byway then 2 else |f.names| + 1 }

  function CountChars(files: seq<ImportFile>): nat
    requires AreFiles(files)
    decreases |files|
  {
    if files == [] then 0 else CountChars(files[..|files| - 1]) + FileChars(files[|files| - 1])
  }

  function CountThunks(files: seq<ImportFile>): nat
    decreases |files|
  {
    if files == [] then 0 else CountThunks(files[..|files| - 1]) + FileThunks(files[|files| - 1])
  }

  /** The file has been edited. */
  predicate Edited(f: ImportFile) {
    f.byway || Differs(f.name, f.orig) || exists i :: 0 <= i < |f.names| && Differs(f.names[i].name, f.names[i].orig)
  }

  predicate AnyEdited(files: seq<ImportFile>) { exists i :: 0 <= i < |files| && Edited(files[i]) }

  lemma {:induction false} NamesCharsEven(names: seq<ImportName>)
    ensures NamesChars(names) % 2 == 0
    decreases |names|
  {
    if names != [] {
      NamesCharsEven(names[..|names| - 1]);
    }
  }

  lemma {:induction false} CountCharsEven(files: seq<ImportFile>)
    requires AreFiles(files)
    ensures CountChars(files) % 2 == 0
    decreases |files|
  {
    if files != [] {
      CountCharsEven(files[..|files| - 1]);
      NamesCharsEven(files[|files| - 1].names);
    }
  }

  lemma CountNext(files: seq<ImportFile>, i: nat)
    requires AreFiles(files) && i < |files|
    ensures CountChars(files[..i + 1]) == CountChars(files[..i]) + FileChars(files[i])
    ensures CountThunks(files[..i + 1]) == CountThunks(files[..i]) + FileThunks(files[i])
  {
    assert files[..i + 1][..i] == files[..i];
  }

  /** A part needs no more than the whole. */
  lemma {:induction false} CountPart(files: seq<ImportFile>, i: nat)
    requires AreFiles(files) && i <= |files|
    ensures CountChars(files[..i]) <= CountChars(files) && CountThunks(files[..i]) <= CountThunks(files)
    decreases |files|
  {
    if i == |files| {
      assert files[..i] == files;
    } else {
      CountPart(files[..|files| - 1], i);
      assert files[..|files| - 1][..i] == files[..i];
    }
  }

  lemma NamesNext(names: seq<ImportName>, i: nat)
    requires i < |names|
    ensures NamesChars(names[..i + 1]) == NamesChars(names[..i]) + NameChars(names[i])
  {
    assert names[..i + 1][..i] == names[..i];
  }

  /** A byway, or a file of which some name is not the original one. */
  predicate IsChanged(f: ImportFile) {
    f.byway || f.name != f.orig || (exists j :: 0 <= j < |f.names| && f.names[j].name != f.names[j].orig)
  }

  lemma EditedIs(files: seq<ImportFile>)
    ensures AnyEdited(files) <==> exists i :: 0 <= i < |files| && IsChanged(files[i])
  {
    forall i | 0 <= i < |files|
      ensures Edited(files[i]) <==> IsChanged(files[i])
    {
      if j :| 0 <= j < |files[i].names| && files[i].names[j].name != files[i].names[j].orig {
        assert Differs(files[i].names[j].name, files[i].names[j].orig);
      }
    }
  }

  method CheckImportsNeeded(files: seq<ImportFile>) returns (needed: bool, nTables: nat, nThunks: nat, nChars: nat)
    requires AreFiles(files)
    ensures needed <==> AnyEdited(files)
    ensures needed <==> exists i :: 0 <= i < |files| && IsChanged(files[i])
    ensures nTables == |files| + 1 && nThunks == CountThunks(files) && nChars == CountChars(files)
  {
    hide FileChars, IsFile;
    EditedIs(files);
    needed, nTables, nThunks, nChars := false, 0, 0, 0;
    var i := 0;
    while i < |files|
      invariant i <= |files| && nTables == i && nThunks == CountThunks(files[..i]) && nChars == CountChars(files[..i])
      invariant needed <==> exists j :: 0 <= j < i && Edited(files[j])
    {
      CountNext(files, i);
      CountCharsEven(files[..i]);
      needed, nThunks, nChars := CheckFile(files[i], needed, nThunks, nChars);
      nTables := nTables + 1;
      i := i + 1;
    }
    assert files[..i] == files;
    nTables := nTables + 1;
  }

  method CheckFile(f: ImportFile, needed0: bool, nThunks0: nat, nChars0: nat) returns (needed: bool, nThunks: nat, nChars: nat)
    requires IsFile(f) && nChars0 % 2 == 0
    ensures needed <==> needed0 || Edited(f)
    ensures nThunks == nThunks0 + FileThunks(f) && nChars == nChars0 + FileChars(f)
  {
    needed, nThunks := needed0, nThunks0;
    nChars := nChars0 + |f.name.chars| + 1;
    nChars := nChars + nChars % 2;
    if f.byway {
      needed := true;
      nThunks := nThunks + 1;
    } else {
      ghost var start := nChars;
      hide NameChars, Differs;
      if !needed && Differs(f.name, f.orig) {
        needed := true;
      }
      var n := 0;
      while n < |f.names|
        invariant n <= |f.names| && nThunks == nThunks0 + n && nChars == start + NamesChars(f.names[..n])
        invariant needed <==> needed0 || Differs(f.name, f.orig) || exists j :: 0 <= j < n && Differs(f.names[j].name, f.names[j].orig)
      {
        NamesNext(f.names, n);
        NamesCharsEven(f.names[..n]);
        if !needed && Differs(f.names[n].name, f.names[n].orig) {
          needed := true;
        }
        nChars := CountName(f.names[n], nChars);
        nThunks := nThunks + 1;
        n := n + 1;
      }
      assert f.names[..n] == f.names;
    }
    nThunks := nThunks + 1;
  }

  method CountName(n: ImportName, nChars0: nat) returns (nChars: nat)
    requires nChars0 % 2 == 0
    ensures nChars == nChars0 + NameChars(n)
  {
    nChars := nChars0;
    if n.name.Text? {
      nChars := nChars + 2;
      nChars := nChars + |n.name.chars| + 1;
      nChars := nChars + nChars % 2;
    }
  }
}
