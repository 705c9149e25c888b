/** Resetting the imports of a binary: byways go, original names and ordinals come back. */
module ImportReset {
  import opened ImportTables
  import opened ImportEdit

  /** A callback that answers with the original name: none when there is none. */
  function Original(orig: Name): Answer { if orig.Text? then Other(orig.chars) else None }

  datatype NoContext = NoContext

  /** The callbacks of a reset have no context, and there is none for the end. */
  function ResetCallbacks(): Callbacks<NoContext> {
    Callbacks((c: NoContext, name: Name) => (c, None),
              (c: NoContext, orig: Name, name: Name) => (c, Original(orig)),
              (c: NoContext, nOrig: nat, nOrdinal: nat, orig: Name, name: Name) => (c, nOrig, Original(orig)),
              (c: NoContext) => (c, true))
  }

  function NoneLeft(): NoContext -> nat { (c: NoContext) => 0 }

  lemma ResetStops()
    ensures Stops(ResetCallbacks(), NoneLeft())
  {}

  // ------------------------------------------------------------------ what resetting leaves

  function ResetName(n: ImportName): ImportName {
    if n.orig.Text? then n.(nOrdinal := 0, name := n.orig)
    else if n.nOrig != 0 then n.(nOrdinal := n.nOrig, name := Null)
    else n
  }

  function ResetNames(names: seq<ImportName>): (r: seq<ImportName>)
    ensures |r| == |names|
  {
    seq(|names|, i requires 0 <= i < |names| => ResetName(names[i]))
  }

  function ResetFile(f: ImportFile): ImportFile {
    f.(name := if f.orig.Text? then f.orig else f.name, names := ResetNames(f.names))
  }

  /** The files that are not byways, in order, reset. */
  function ResetFiles(files: seq<ImportFile>): seq<ImportFile>
    decreases |files|
  {
    if files == [] then [] else (if files[0].byway then [] else [ResetFile(files[0])]) + ResetFiles(files[1..])
  }

  predicate ShortName(n: Name) { n.Text? ==> CanDuplicate(n.chars) }

  /** The original names are short enough to be copied. */
  predicate Resettable(f: ImportFile) {
    f.byway || (ShortName(f.orig) && forall i :: 0 <= i < |f.names| ==> ShortName(f.names[i].orig))
  }

  lemma {:induction false} NamesReset(names: seq<ImportName>)
    ensures EditNames(ResetCallbacks(), NoContext, names).ok <==> forall i :: 0 <= i < |names| ==> ShortName(names[i].orig)
    ensures EditNames(ResetCallbacks(), NoContext, names).ok ==> EditNames(ResetCallbacks(), NoContext, names).value == ResetNames(names)
    decreases |names|
  {
    if names != [] {
      var init := names[..|names| - 1];
      NamesReset(init);
      NameReset(names[|names| - 1]);
      hide EditName, ResetName, ShortName, ResetCallbacks;
      assert EditNames(ResetCallbacks(), NoContext, init).context == NoContext;
      assert forall i :: 0 <= i < |init| ==> init[i] == names[i];
      assert ResetNames(names) == ResetNames(init) + [ResetName(names[|names| - 1])];
    }
  }

  lemma NameReset(n: ImportName)
    ensures EditName(ResetCallbacks(), NoContext, n).ok <==> ShortName(n.orig)
    ensures ShortName(n.orig) ==> EditName(ResetCallbacks(), NoContext, n).value == ResetName(n)
  {}

  lemma FileReset(f: ImportFile)
    ensures EditNode(ResetCallbacks(), NoContext, f).ok <==> Resettable(f)
    ensures Resettable(f) ==> EditNode(ResetCallbacks(), NoContext, f).value == if f.byway then [] else [ResetFile(f)]
  {
    hide EditNames, ResetNames;
    NamesReset(f.names);
  }

  /** Resetting succeeds exactly when the original names can be copied; then the byways are gone and the
      other files are reset, in their order. */
  lemma {:induction false} FilesReset(files: seq<ImportFile>)
    requires Stops(ResetCallbacks(), NoneLeft())
    ensures EditFrom(ResetCallbacks(), NoneLeft(), NoContext, files).ok <==> forall i :: 0 <= i < |files| ==> Resettable(files[i])
    ensures EditFrom(ResetCallbacks(), NoneLeft(), NoContext, files).ok ==> EditFrom(ResetCallbacks(), NoneLeft(), NoContext, files).value == ResetFiles(files)
    decreases |files|
  {
    assert ResetCallbacks().byway(NoContext, Null).1.None?;
    hide EditNode, ResetFile, Resettable, ResetCallbacks, Stops, NoneLeft;
    if files != [] {
      FileReset(files[0]);
      FilesReset(files[1..]);
      assert EditNode(ResetCallbacks(), NoContext, files[0]).context == NoContext;
      assert files == [files[0]] + files[1..];
    }
  }

  // ------------------------------------------------------------------ nothing edited is left

  /** An import that resetting cannot restore: it has a name, but neither an original one nor an original
      ordinal other than zero. */
  predicate Lost(n: ImportName) { n.orig.Null? && n.nOrig == 0 && n.name.Text? }

  predicate LostIn(f: ImportFile) {
    !f.byway && ((f.orig.Null? && f.name.Text?) || exists i :: 0 <= i < |f.names| && Lost(f.names[i]))
  }

  lemma NameRestored(n: ImportName)
    ensures Differs(ResetName(n).name, ResetName(n).orig) <==> Lost(n)
  {}

  lemma FileRestored(f: ImportFile)
    requires !f.byway
    ensures Edited(ResetFile(f)) <==> LostIn(f)
  {
    var r := ResetFile(f);
    forall i | 0 <= i < |f.names|
      ensures Differs(r.names[i].name, r.names[i].orig) <==> Lost(f.names[i])
    {
      NameRestored(f.names[i]);
    }
    hide ResetName, Lost;
  }

  predicate AnyLost(files: seq<ImportFile>) { exists i :: 0 <= i < |files| && LostIn(files[i]) }

  /** After a reset a detour section is needed for the imports exactly when one of them could not be restored. */
  lemma {:induction false} ResetRestores(files: seq<ImportFile>)
    ensures AnyEdited(ResetFiles(files)) <==> AnyLost(files)
    decreases |files|
  {
    if files != [] {
      var f := files[0];
      ResetRestores(files[1..]);
      LostSplit(files);
      if f.byway {
        assert [] + ResetFiles(files[1..]) == ResetFiles(files[1..]);
        BywayNotLost(f);
      } else {
        FileRestored(f);
        EditedSplit(ResetFile(f), ResetFiles(files[1..]));
      }
      hide AnyEdited, AnyLost, ResetFile, LostIn, Edited;
    }
  }

  lemma BywayNotLost(f: ImportFile) ensures f.byway ==> !LostIn(f) {}

  lemma EditedSplit(f: ImportFile, rest: seq<ImportFile>)
    ensures AnyEdited([f] + rest) <==> Edited(f) || AnyEdited(rest)
  {
    hide Edited;
    var all := [f] + rest;
    assert all[0] == f;
    if i :| 0 <= i < |rest| && Edited(rest[i]) {
      assert Edited(all[i + 1]);
    }
  }

  lemma LostSplit(files: seq<ImportFile>)
    requires files != []
    ensures AnyLost(files) <==> LostIn(files[0]) || AnyLost(files[1..])
  {
    hide LostIn;
    if i :| 0 <= i < |files[1..]| && LostIn(files[1..][i]) {
      assert LostIn(files[i + 1]);
    }
    if i :| 0 < i < |files| && LostIn(files[i]) {
      assert LostIn(files[1..][i - 1]);
    }
  }

  // ------------------------------------------------------------------ on the list

  method ResetImports(image: CImage) returns (ok: bool)
    requires image.Valid()
    modifies image, image.Repr
    ensures image.Valid() && (ok <==> forall i :: 0 <= i < |old(image.Files())| ==> Resettable(old(image.Files())[i]))
    ensures ok ==> image.Files() == ResetFiles(old(image.Files()))
  {
    ResetStops();
    FilesReset(image.Files());
    assert ResetCallbacks().commit(NoContext).1;
    hide EditFrom, Resettable, ResetFiles, Stops;
    var done, _ := image.EditImports(ResetCallbacks(), NoneLeft(), NoContext);
    ok := done;
  }
}
