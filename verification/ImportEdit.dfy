/** Editing the imports of a binary through callbacks, on the linked list of its files. */
module ImportEdit {
  import opened MachineWords
  import opened ImportTables

  /** What a callback answers for a name: the name it was given, none, another one, or that it fails. */
  datatype Answer = Same | None | Other(chars: seq<byte>) | Failed

  /** The callbacks, as functions of their context and of what they are passed; they change the context. A
      callback that is missing is one that always answers with what it was given. */
  datatype Callbacks<!C> = Callbacks(
    byway: (C, Name) -> (C, Answer),
    file: (C, Name, Name) -> (C, Answer),
    symbol: (C, nat, nat, Name, Name) -> (C, nat, Answer),
    commit: C -> (C, bool))

  /** The callback that adds byways comes to an end: `left` bounds how many it still adds in a context. */
  ghost predicate Stops<C(!new)>(cb: Callbacks<C>, left: C -> nat) {
    && (forall c: C, n: Name :: left(cb.byway(c, n).0) <= left(c))
    && (forall c: C :: cb.byway(c, Null).1.Other? ==> left(cb.byway(c, Null).0) < left(c))
    && (forall c: C, o: Name, n: Name :: left(cb.file(c, o, n).0) <= left(c))
    && (forall c: C, i: nat, j: nat, o: Name, n: Name :: left(cb.symbol(c, i, j, o, n).0) <= left(c))
  }

  const MAX_STRING := 8192

  /** Strings of 8192 characters and more are not copied. */
  predicate CanDuplicate(s: seq<byte>) { |s| < MAX_STRING }

  // ------------------------------------------------------------------ what editing does

  /** The context after it, whether all went well, and what is there then. */
  datatype Outcome<C, T> = Outcome(context: C, ok: bool, value: T)

  /** A missing name that is given back is none. */
  function Given(name: Name, a: Answer): Answer { if a.Same? && name.Null? then None else a }

  /** Whether a file can be renamed, and its name then: none after a copy that fails. */
  function Renamed(name: Name, a: Answer): (bool, Name) {
    match a
    case Other(s) => if CanDuplicate(s) then (true, Text(s)) else (false, Null)
    case Failed => (false, name)
    case _ => (true, name)
  }

  function EditName<C>(cb: Callbacks<C>, c: C, n: ImportName): Outcome<C, ImportName> {
    var (c1, ordinal, a) := cb.symbol(c, n.nOrig, n.nOrdinal, n.orig, n.name);
    match Given(n.name, a)
    case Failed => Outcome(c1, false, n)
    case Same => Outcome(c1, true, n)
    case Other(s) => if CanDuplicate(s) then Outcome(c1, true, n.(nOrdinal := 0, name := Text(s))) else Outcome(c1, false, n.(nOrdinal := 0, name := Null))
    case None => Outcome(c1, true, if ordinal != 0 then n.(nOrdinal := ordinal, name := Null) else n)
  }

  /** The imports of a file one after the other, up to the first that fails. */
  function EditNames<C>(cb: Callbacks<C>, c: C, names: seq<ImportName>): (r: Outcome<C, seq<ImportName>>)
    ensures |r.value| == |names|
    decreases |names|
  {
    if names == [] then Outcome(c, true, [])
    else
      var init := EditNames(cb, c, names[..|names| - 1]);
      if !init.ok then Outcome(init.context, false, init.value + [names[|names| - 1]])
      else
        var last := EditName(cb, init.context, names[|names| - 1]);
        Outcome(last.context, last.ok, init.value + [last.value])
  }

  function EditFile<C>(cb: Callbacks<C>, c: C, f: ImportFile): Outcome<C, ImportFile> {
    var (c1, a) := cb.file(c, f.orig, f.name);
    var (ok, name) := Renamed(f.name, a);
    if !ok then Outcome(c1, false, f.(name := name))
    else
      var r := EditNames(cb, c1, f.names);
      Outcome(r.context, r.ok, f.(name := name, names := r.value))
  }

  /** A file after editing; no file for a byway that is deleted. */
  function EditNode<C>(cb: Callbacks<C>, c: C, f: ImportFile): Outcome<C, seq<ImportFile>> {
    if f.byway then
      var (c1, a) := cb.byway(c, f.name);
      if Given(f.name, a).None? then Outcome(c1, true, [])
      else
        var (ok, name) := Renamed(f.name, a);
        Outcome(c1, ok, [f.(name := name)])
    else
      var r := EditFile(cb, c, f);
      Outcome(r.context, r.ok, [r.value])
  }

  function Byway(s: seq<byte>): ImportFile { ImportFile(true, Null, Text(s), [], 0, 0) }

  /** Files before the ones still to come. */
  function Prepend<C>(before: seq<ImportFile>, r: Outcome<C, seq<ImportFile>>): Outcome<C, seq<ImportFile>> {
    r.(value := before + r.value)
  }

  lemma {:induction false} NamesStop<C(!new)>(cb: Callbacks<C>, left: C -> nat, c: C, names: seq<ImportName>)
    requires Stops(cb, left)
    ensures left(EditNames(cb, c, names).context) <= left(c)
    decreases |names|
  {
    hide Given, CanDuplicate;
    if names != [] {
      NamesStop(cb, left, c, names[..|names| - 1]);
    }
  }

  lemma NodeStops<C(!new)>(cb: Callbacks<C>, left: C -> nat, c: C, f: ImportFile)
    requires Stops(cb, left)
    ensures left(EditNode(cb, c, f).context) <= left(c)
  {
    hide Given, CanDuplicate, EditNames;
    NamesStop(cb, left, cb.file(c, f.orig, f.name).0, f.names);
  }

  /** The files from some place in the list on. Before each file, and behind the last, byways are added as
      long as there are any. */
  ghost function EditFrom<C(!new)>(cb: Callbacks<C>, left: C -> nat, c: C, files: seq<ImportFile>): Outcome<C, seq<ImportFile>>
    requires Stops(cb, left)
    decreases left(c), |files|
  {
    var (c1, a) := cb.byway(c, Null);
    match a
    case Failed => Outcome(c1, false, files)
    case Other(s) => if CanDuplicate(s) then Prepend([Byway(s)], EditFrom(cb, left, c1, files)) else Outcome(c1, false, files)
    case _ =>
      if files == [] then Outcome(c1, true, [])
      else
        NodeStops(cb, left, c1, files[0]);
        var r := EditNode(cb, c1, files[0]);
        if !r.ok then Outcome(r.context, false, r.value + files[1..]) else Prepend(r.value, EditFrom(cb, left, r.context, files[1..]))
  }

  ghost function EditAll<C(!new)>(cb: Callbacks<C>, left: C -> nat, c: C, files: seq<ImportFile>): Outcome<C, seq<ImportFile>>
    requires Stops(cb, left)
  {
    var r := EditFrom(cb, left, c, files);
    if r.ok then Outcome(cb.commit(r.context).0, cb.commit(r.context).1, r.value) else r
  }

  // ------------------------------------------------------------------ what callbacks leave alone

  /** An import whose name is given back stays as it is. */
  lemma {:induction false} NameGivenBack<C>(cb: Callbacks<C>, c: C, names: seq<ImportName>, i: nat)
    requires i < |names| && names[i].name.Text? && EditNames(cb, c, names[..i]).ok
    requires var n := names[i]; cb.symbol(EditNames(cb, c, names[..i]).context, n.nOrig, n.nOrdinal, n.orig, n.name).2.Same?
    ensures EditNames(cb, c, names).value[i] == names[i]
    decreases |names|
  {
    hide CanDuplicate;
    if i == |names| - 1 {
      assert names[..i] == names[..|names| - 1];
    } else {
      assert names[..|names| - 1][..i] == names[..i];
      NameGivenBack(cb, c, names[..|names| - 1], i);
    }
  }

  /** A byway whose name is given back stays. */
  lemma BywayGivenBack<C>(cb: Callbacks<C>, c: C, f: ImportFile)
    requires f.byway && f.name.Text? && cb.byway(c, f.name).1.Same?
    ensures EditNode(cb, c, f) == Outcome(cb.byway(c, f.name).0, true, [f])
  {}

  /** The callbacks give back every name and every ordinal that there is; what they do about no name, which
      is to add byways, is left open. */
  ghost predicate GiveBack<C(!new)>(cb: Callbacks<C>) {
    && (forall c: C, n: Name :: n.Text? ==> cb.byway(c, n).1.Same?)
    && (forall c: C, o: Name, n: Name :: cb.file(c, o, n).1.Same?)
    && (forall c: C, i: nat, j: nat, o: Name, n: Name :: cb.symbol(c, i, j, o, n).1 == j && cb.symbol(c, i, j, o, n).2.Same?)
  }

  /** Nothing stands in the way: byways have names that can be copied, and committing goes well. */
  ghost predicate NoneFails<C(!new)>(cb: Callbacks<C>) {
    && (forall c: C :: !cb.byway(c, Null).1.Failed?)
    && (forall c: C :: cb.byway(c, Null).1.Other? ==> |cb.byway(c, Null).1.chars| < 8192)
    && (forall c: C :: cb.commit(c).1)
  }

  ghost predicate AddNothing<C(!new)>(cb: Callbacks<C>) { forall c: C :: !cb.byway(c, Null).1.Other? }

  /** The byways that are added at one place, and the context then. */
  ghost function Added<C(!new)>(cb: Callbacks<C>, left: C -> nat, c: C): (seq<ImportFile>, C)
    requires Stops(cb, left)
    decreases left(c)
  {
    var (c1, a) := cb.byway(c, Null);
    if a.Other? then
      var (more, c2) := Added(cb, left, c1);
      ([ImportFile(true, Null, Text(a.chars), [], 0, 0)] + more, c2)
    else ([], c1)
  }

  /** The context after asking about all names of a file. */
  function AskedNames<C>(cb: Callbacks<C>, c: C, names: seq<ImportName>): C
    decreases |names|
  {
    if names == [] then c
    else
      var n := names[|names| - 1];
      cb.symbol(AskedNames(cb, c, names[..|names| - 1]), n.nOrig, n.nOrdinal, n.orig, n.name).0
  }

  function Asked<C>(cb: Callbacks<C>, c: C, f: ImportFile): C {
    if f.byway then cb.byway(c, f.name).0 else AskedNames(cb, cb.file(c, f.orig, f.name).0, f.names)
  }

  lemma {:induction false} NamesAllGivenBack<C(!new)>(cb: Callbacks<C>, c: C, names: seq<ImportName>)
    requires GiveBack(cb)
    ensures EditNames(cb, c, names) == Outcome(AskedNames(cb, c, names), true, names)
    decreases |names|
  {
    hide CanDuplicate;
    if names != [] {
      NamesAllGivenBack(cb, c, names[..|names| - 1]);
      assert names == names[..|names| - 1] + [names[|names| - 1]];
    }
  }

  lemma FileGivenBack<C(!new)>(cb: Callbacks<C>, c: C, f: ImportFile)
    requires GiveBack(cb) && f.name.Text?
    ensures EditNode(cb, c, f) == Outcome(Asked(cb, c, f), true, [f])
  {
    hide EditNames, AskedNames;
    if !f.byway {
      NamesAllGivenBack(cb, cb.file(c, f.orig, f.name).0, f.names);
    }
  }

  lemma AskedStops<C(!new)>(cb: Callbacks<C>, left: C -> nat, c: C, f: ImportFile)
    requires Stops(cb, left) && GiveBack(cb) && f.name.Text?
    ensures left(Asked(cb, c, f)) <= left(c)
  {
    FileGivenBack(cb, c, f);
    NodeStops(cb, left, c, f);
    hide Asked, EditNode;
  }

  lemma {:induction false} AddedStops<C(!new)>(cb: Callbacks<C>, left: C -> nat, c: C)
    requires Stops(cb, left)
    ensures left(Added(cb, left, c).1) <= left(c)
    decreases left(c)
  {
    var (c1, a) := cb.byway(c, Null);
    if a.Other? {
      AddedStops(cb, left, c1);
    }
  }

  /** The old files in order, and before each of them and behind the last the byways that are added there. */
  ghost function Woven<C(!new)>(cb: Callbacks<C>, left: C -> nat, c: C, files: seq<ImportFile>): seq<ImportFile>
    requires Stops(cb, left) && GiveBack(cb) && forall i :: 0 <= i < |files| ==> files[i].name.Text?
    decreases |files|
  {
    var (added, c1) := Added(cb, left, c);
    added + if files == [] then [] else [files[0]] + Woven(cb, left, Asked(cb, c1, files[0]), files[1..])
  }

  /** One step of weaving, when a byway is added. */
  lemma WovenMore<C(!new)>(cb: Callbacks<C>, left: C -> nat, c: C, files: seq<ImportFile>)
    requires Stops(cb, left) && GiveBack(cb) && (forall i :: 0 <= i < |files| ==> files[i].name.Text?) && cb.byway(c, Null).1.Other?
    ensures Woven(cb, left, c, files) == [ImportFile(true, Null, Text(cb.byway(c, Null).1.chars), [], 0, 0)] + Woven(cb, left, cb.byway(c, Null).0, files)
  {
    hide Asked;
    var (more, c2) := Added(cb, left, cb.byway(c, Null).0);
    var tail := if files == [] then [] else [files[0]] + Woven(cb, left, Asked(cb, c2, files[0]), files[1..]);
    JoinThree([ImportFile(true, Null, Text(cb.byway(c, Null).1.chars), [], 0, 0)], more, tail);
  }

  /** With callbacks that give everything back, editing adds byways where they are given and changes nothing
      else. */
  lemma {:induction false} OnlyAdds<C(!new)>(cb: Callbacks<C>, left: C -> nat, c: C, files: seq<ImportFile>)
    requires Stops(cb, left) && GiveBack(cb) && NoneFails(cb) && forall i :: 0 <= i < |files| ==> files[i].name.Text?
    ensures EditFrom(cb, left, c, files).ok && EditFrom(cb, left, c, files).value == Woven(cb, left, c, files)
    decreases left(c), |files|
  {
    hide EditNode, Asked;
    var (c1, a) := cb.byway(c, Null);
    if a.Other? {
      OnlyAdds(cb, left, c1, files);
      WovenMore(cb, left, c, files);
    } else if files != [] {
      FileGivenBack(cb, c1, files[0]);
      AskedStops(cb, left, c1, files[0]);
      OnlyAdds(cb, left, Asked(cb, c1, files[0]), files[1..]);
      assert [] + Woven(cb, left, c, files) == Woven(cb, left, c, files);
    }
  }

  /** And if they add nothing, it changes nothing. */
  lemma {:induction false} WovenNothing<C(!new)>(cb: Callbacks<C>, left: C -> nat, c: C, files: seq<ImportFile>)
    requires Stops(cb, left) && GiveBack(cb) && AddNothing(cb) && forall i :: 0 <= i < |files| ==> files[i].name.Text?
    ensures Woven(cb, left, c, files) == files
    decreases |files|
  {
    hide Asked;
    if files != [] {
      WovenNothing(cb, left, Asked(cb, Added(cb, left, c).1, files[0]), files[1..]);
    }
  }

  /** The files as a whole, with all of that said about them. */
  lemma AllGivenBack<C(!new)>(cb: Callbacks<C>, left: C -> nat, c: C, files: seq<ImportFile>)
    requires Stops(cb, left) && GiveBack(cb) && NoneFails(cb) && forall i :: 0 <= i < |files| ==> files[i].name.Text?
    ensures EditAll(cb, left, c, files).ok && EditAll(cb, left, c, files).value == Woven(cb, left, c, files)
    ensures AddNothing(cb) ==> EditAll(cb, left, c, files).value == files
  {
    OnlyAdds(cb, left, c, files);
    if AddNothing(cb) {
      WovenNothing(cb, left, c, files);
    }
    hide Woven, EditFrom;
  }

  // ------------------------------------------------------------------ the linked list

  class CImageImportFile {
    var next: CImageImportFile?
    const byway: bool
    const orig: Name
    var name: Name
    const importNames: array<ImportName>
    const rvaFirstThunk: nat
    const forwarderChain: nat

    constructor (byway: bool, orig: Name, name: Name, importNames: array<ImportName>, rvaFirstThunk: nat, forwarderChain: nat)
      ensures next == null && this.byway == byway && this.orig == orig && this.name == name && this.importNames == importNames
      ensures this.rvaFirstThunk == rvaFirstThunk && this.forwarderChain == forwarderChain
    {
      next := null;
      this.byway, this.orig, this.name, this.importNames := byway, orig, name, importNames;
      this.rvaFirstThunk, this.forwarderChain := rvaFirstThunk, forwarderChain;
    }

    /** The file as a value. */
    ghost function File(): ImportFile
      reads this, importNames
    {
      ImportFile(byway, orig, name, importNames[..], rvaFirstThunk, forwarderChain)
    }

    /** Asks about the name of the file and about every import. */
    method Edit<C>(cb: Callbacks<C>, c: C) returns (ok: bool, context: C)
      modifies `name, importNames
      ensures Outcome(context, ok, File()) == EditFile(cb, c, old(File()))
    {
      hide EditName;
      var (c1, a) := cb.file(c, orig, name);
      context := c1;
      ok := Rename(a);
      if ok {
        ok, context := EditImportNames(cb, context);
      }
    }

    method Rename(a: Answer) returns (ok: bool)
      modifies `name
      ensures (ok, name) == Renamed(old(name), a)
    {
      ok := !a.Failed?;
      if a.Other? {
        if CanDuplicate(a.chars) {
          name := Text(a.chars);
        } else {
          name := Null;
          ok := false;
        }
      }
    }

    method EditImportNames<C>(cb: Callbacks<C>, c: C) returns (ok: bool, context: C)
      modifies importNames
      ensures Outcome(context, ok, importNames[..]) == EditNames(cb, c, old(importNames[..]))
    {
      hide EditName;
      ghost var before := importNames[..];
      ok, context := true, c;
      var n := 0;
      while n < importNames.Length
        invariant n <= importNames.Length && |before| == importNames.Length && ok
        invariant EditNames(cb, c, before[..n]) == Outcome(context, true, importNames[..n])
        invariant forall j :: n <= j < importNames.Length ==> importNames[j] == before[j]
      {
        EditNamesNext(cb, c, before, n);
        var i := importNames[n];
        ok, context, i := EditImportName(cb, context, i);
        importNames[n] := i;
        assert importNames[..n + 1] == importNames[..n] + [i];
        n := n + 1;
        if !ok {
          EditNamesFails(cb, c, before, n);
          assert importNames[..] == importNames[..n] + before[n..];
          return;
        }
      }
      assert before[..n] == before && importNames[..n] == importNames[..];
    }

    /** Asks about one import. */
    method EditImportName<C>(cb: Callbacks<C>, c: C, i: ImportName) returns (ok: bool, context: C, n: ImportName)
      ensures Outcome(context, ok, n) == EditName(cb, c, i)
    {
      var (c1, ordinal, a) := cb.symbol(c, i.nOrig, i.nOrdinal, i.orig, i.name);
      context := c1;
      n, ok := i, true;
      if a.Failed? {
        return false, context, n;
      }
      if a.Other? || (a.Same? && i.name.Text?) {
        if a.Other? {
          n := n.(nOrdinal := 0);
          if !CanDuplicate(a.chars) {
            return false, context, n.(name := Null);
          }
          n := n.(name := Text(a.chars));
        }
      } else if ordinal != 0 {
        n := n.(nOrdinal := ordinal);
        if n.name != Null {
          n := n.(name := Null);
        }
      }
    }
  }

  lemma EditNamesNext<C>(cb: Callbacks<C>, c: C, names: seq<ImportName>, n: nat)
    requires n < |names|
    ensures var init := EditNames(cb, c, names[..n]);
            EditNames(cb, c, names[..n + 1]) ==
              if !init.ok then Outcome(init.context, false, init.value + [names[n]])
              else var last := EditName(cb, init.context, names[n]); Outcome(last.context, last.ok, init.value + [last.value])
  {
    hide EditName;
    assert names[..n + 1][..n] == names[..n];
  }

  /** After a failure the rest of the imports is left. */
  lemma {:induction false} EditNamesFails<C>(cb: Callbacks<C>, c: C, names: seq<ImportName>, n: nat)
    requires n <= |names| && !EditNames(cb, c, names[..n]).ok
    ensures var r := EditNames(cb, c, names[..n]); EditNames(cb, c, names) == Outcome(r.context, false, r.value + names[n..])
    decreases |names| - n
  {
    hide EditName;
    if n < |names| {
      EditNamesNext(cb, c, names, n);
      EditNamesFails(cb, c, names, n + 1);
      var r := EditNames(cb, c, names[..n]);
      assert r.value + [names[n]] + names[n + 1..] == r.value + names[n..];
    } else {
      assert names[..n] == names && names[n..] == [];
      assert EditNames(cb, c, names).value + [] == EditNames(cb, c, names).value;
    }
  }

  ghost function FilesOf(nodes: seq<CImageImportFile>): (files: seq<ImportFile>)
    reads nodes, set n: CImageImportFile | n in nodes :: n.importNames
    ensures |files| == |nodes|
  {
    seq(|nodes|, i requires 0 <= i < |nodes| reads nodes, set n: CImageImportFile | n in nodes :: n.importNames => nodes[i].File())
  }

  ghost predicate Different(nodes: seq<CImageImportFile>) {
    forall i, j :: 0 <= i < j < |nodes| ==> nodes[i] != nodes[j] && nodes[i].importNames != nodes[j].importNames
  }

  lemma DifferentWithout(nodes: seq<CImageImportFile>, k: nat)
    requires Different(nodes) && k < |nodes|
    ensures Different(nodes[..k] + nodes[k + 1..]) && forall n :: n in nodes[..k] + nodes[k + 1..] ==> n in nodes
  {}

  lemma OthersDiffer(nodes: seq<CImageImportFile>, k: nat)
    requires Different(nodes) && k < |nodes|
    ensures forall j :: 0 <= j < |nodes| && j != k ==> nodes[j] != nodes[k]
    ensures k > 0 ==> forall j :: 0 <= j < |nodes| && j != k - 1 ==> nodes[j] != nodes[k - 1]
  {}

  /** Node number `i`, null behind the last. */
  function Node(nodes: seq<CImageImportFile>, i: nat): CImageImportFile? { if i < |nodes| then nodes[i] else null }

  ghost function Nexts(nodes: seq<CImageImportFile>): (nexts: seq<CImageImportFile?>)
    reads nodes
    ensures |nexts| == |nodes|
  {
    seq(|nodes|, i requires 0 <= i < |nodes| reads nodes => nodes[i].next)
  }

  /** The head and the links run through the nodes in order. */
  ghost predicate Chained(head: CImageImportFile?, nexts: seq<CImageImportFile?>, nodes: seq<CImageImportFile>) {
    && head == Node(nodes, 0) && |nexts| == |nodes|
    && forall i :: 0 <= i < |nodes| ==> nexts[i] == Node(nodes, i + 1)
  }

  /** The links after the link to node `k` is made to pass it by. */
  ghost function Bypassed(nexts: seq<CImageImportFile?>, k: nat): seq<CImageImportFile?>
    requires k < |nexts|
  {
    var others := nexts[..k] + nexts[k + 1..];
    if k == 0 then others else others[k - 1 := nexts[k]]
  }

  lemma ChainWithout(head: CImageImportFile?, nexts: seq<CImageImportFile?>, nodes: seq<CImageImportFile>, k: nat)
    requires Chained(head, nexts, nodes) && k < |nodes|
    ensures Chained(if k == 0 then nexts[k] else head, Bypassed(nexts, k), nodes[..k] + nodes[k + 1..])
  {}

  /** The links after node `node` is put before node `k`. */
  ghost function Inserted(nexts: seq<CImageImportFile?>, k: nat, node: CImageImportFile, rest: CImageImportFile?): seq<CImageImportFile?>
    requires k <= |nexts|
  {
    var more := nexts[..k] + [rest] + nexts[k..];
    if k == 0 then more else more[k - 1 := node]
  }

  lemma ChainWith(head: CImageImportFile?, nexts: seq<CImageImportFile?>, nodes: seq<CImageImportFile>, k: nat, node: CImageImportFile)
    requires Chained(head, nexts, nodes) && k <= |nodes|
    ensures Chained(if k == 0 then node else head, Inserted(nexts, k, node, Node(nodes, k)), nodes[..k] + [node] + nodes[k..])
  {}

  class CImage {
    var importFiles: CImageImportFile?
    var nImportFiles: nat
    /** The files of the list, first to last, and everything they consist of. */
    ghost var nodes: seq<CImageImportFile>
    ghost var Repr: set<object>

    ghost predicate Valid()
      reads this, Repr
    {
      && this !in Repr && nImportFiles == |nodes| && Different(nodes)
      && (forall n :: n in nodes ==> n in Repr && n.importNames in Repr)
      && Chained(importFiles, Nexts(nodes), nodes)
    }

    ghost function Files(): (files: seq<ImportFile>)
      requires Valid()
      reads this, Repr
      ensures |files| == |nodes|
    {
      FilesOf(nodes)
    }

    /** What `ppLastFile` points to: the head of the list, or the link of the node `last`. */
    method SetNext(last: CImageImportFile?, rest: CImageImportFile?)
      modifies if last == null then {this as object} else {last}
      ensures if last == null then importFiles == rest && unchanged(`nImportFiles, `nodes, `Repr)
              else last.next == rest && last.name == old(last.name)
    {
      if last == null {
        importFiles := rest;
      } else {
        last.next := rest;
      }
    }

    /** Takes the node behind `last`, or the first one, out of the list. */
    method Unlink(last: CImageImportFile?, file: CImageImportFile, ghost k: nat)
      requires Valid() && k < |nodes| && nodes[k] == file && last == if k == 0 then null else nodes[k - 1]
      modifies this, if last == null then {} else {last}, file
      ensures Valid() && Repr == old(Repr) && nodes == old(nodes)[..k] + old(nodes)[k + 1..]
      ensures file.name == old(file.name) && (last != null ==> last.name == old(last.name))
    {
      hide Different, Chained;
      ghost var before, nexts := nodes, Nexts(nodes);
      DifferentWithout(before, k);
      ChainWithout(importFiles, nexts, before, k);
      OthersDiffer(before, k);
      var rest := file.next;
      SetNext(last, rest);
      file.next := null;
      nImportFiles := nImportFiles - 1;
      nodes := nodes[..k] + nodes[k + 1..];
      assert Nexts(nodes) == Bypassed(nexts, k);
    }

    /** Puts a new node behind `last`, or at the head of the list, before `file`. */
    method Link(last: CImageImportFile?, file: CImageImportFile?, node: CImageImportFile, ghost k: nat)
      requires Walking(last, file, k) && node !in Repr && node.importNames !in Repr && (node as object) != this && (node.importNames as object) != this
      requires forall n :: n in nodes ==> n != node && n.importNames != node.importNames
      modifies this, if last == null then {} else {last}, node
      ensures Valid() && Repr == old(Repr) + {node, node.importNames} && nodes == old(nodes)[..k] + [node] + old(nodes)[k..]
      ensures Walking(node, file, k + 1)
      ensures node.File() == old(node.File()) && forall n :: n in old(nodes) ==> n.File() == old(n.File())
    {
      hide Different, Chained;
      ghost var before, nexts := nodes, Nexts(nodes);
      DifferentWith(before, k, node);
      ChainWith(importFiles, nexts, before, k, node);
      LastDiffers(before, k);
      node.next := file;
      SetNext(last, node);
      nImportFiles := nImportFiles + 1;
      nodes := nodes[..k] + [node] + nodes[k..];
      Repr := Repr + {node, node.importNames};
      assert Nexts(nodes) == Inserted(nexts, k, node, file);
    }

    /** Edits the file of node number `k`, which stays in the list. */
    method EditListed<C>(file: CImageImportFile, cb: Callbacks<C>, c: C, ghost k: nat) returns (ok: bool, context: C)
      requires Valid() && k < |nodes| && nodes[k] == file && !file.byway
      modifies file`name, file.importNames
      ensures Valid() && Files() == old(Files())[k := Files()[k]]
      ensures Outcome(context, ok, Files()[k]) == EditFile(cb, c, old(Files())[k])
    {
      hide Chained, EditFile;
      ghost var nexts := Nexts(nodes);
      ok, context := file.Edit(cb, c);
      assert Nexts(nodes) == nexts;
    }

    method RenameListed(file: CImageImportFile, a: Answer, ghost k: nat) returns (ok: bool)
      requires Valid() && k < |nodes| && nodes[k] == file
      modifies file`name
      ensures Valid() && Files() == old(Files())[k := Files()[k]]
      ensures var f := old(Files())[k]; ok == Renamed(f.name, a).0 && Files()[k] == f.(name := Renamed(f.name, a).1)
    {
      hide Chained, Renamed;
      ghost var nexts := Nexts(nodes);
      ok := file.Rename(a);
      assert Nexts(nodes) == nexts;
    }

    /** The walk is at node `k`: `file` is that node and `last` the one before. */
    ghost predicate Walking(last: CImageImportFile?, file: CImageImportFile?, k: nat)
      reads this, Repr
    {
      Valid() && k <= |nodes| && file == Node(nodes, k) && last == if k == 0 then null else nodes[k - 1]
    }

    /** Asks about the file that the walk is at, and moves on; the rest of the list is not touched. */
    method Visit<C>(last: CImageImportFile?, file: CImageImportFile, cb: Callbacks<C>, c: C, ghost k: nat, ghost files: seq<ImportFile>)
      returns (ok: bool, context: C, last': CImageImportFile?, ghost k': nat)
      requires Walking(last, file, k) && files == Files()
      modifies this, Repr
      ensures Repr == old(Repr) && Valid() && context == EditNode(cb, c, files[k]).context && ok == EditNode(cb, c, files[k]).ok
      ensures Files() == files[..k] + EditNode(cb, c, files[k]).value + files[k + 1..]
      ensures k' == k + |EditNode(cb, c, files[k]).value| && |nodes| - k' == |files| - k - 1 && Walking(last', Node(nodes, k'), k')
    {
      hide Chained, Different, EditFile, Renamed;
      ok, last', k' := true, last, k;
      if file.byway {
        var (c1, a) := cb.byway(c, file.name);
        context := c1;
        if Given(file.name, a).None? {
          Unlink(last, file, k);
          assert Files() == files[..k] + files[k + 1..];
          assert files[..k] + [] == files[..k];
          return;
        }
        ok := RenameListed(file, a, k);
      } else {
        ok, context := EditListed(file, cb, c, k);
      }
      last', k' := file, k + 1;
      assert Files() == files[..k] + [Files()[k]] + files[k + 1..];
    }

    /** Adds a byway before the file that the walk is at. */
    method AddByway(last: CImageImportFile?, file: CImageImportFile?, s: seq<byte>, ghost k: nat, ghost files: seq<ImportFile>)
      returns (ok: bool, last': CImageImportFile?)
      requires Walking(last, file, k) && files == Files()
      modifies this, Repr
      ensures ok == CanDuplicate(s) && Valid() && fresh(Repr - old(Repr))
      ensures !ok ==> Files() == files && Repr == old(Repr)
      ensures ok ==> Files() == files[..k] + [Byway(s)] + files[k..] && |nodes| == |files| + 1 && Walking(last', file, k + 1)
    {
      if !CanDuplicate(s) {
        return false, last;
      }
      hide *;
      last' := NewByway(s);
      ghost var before := nodes;
      Outside(last, file, k);
      Link(last, file, last', k);
      FilesAre();
      FilesJoined(before, k, last');
      SameFiles(before);
      ok := true;
    }

    /** A new node for a byway. */
    method NewByway(s: seq<byte>) returns (node: CImageImportFile)
      ensures fresh(node) && fresh(node.importNames) && node.File() == Byway(s)
    {
      var names := new ImportName[0];
      node := new CImageImportFile(true, Null, Text(s), names, 0, 0);
    }

    lemma FilesAre()
      requires Valid()
      ensures Files() == FilesOf(nodes)
    {}

    /** The values of nodes of the list, when none of them has changed. */
    twostate lemma SameFiles(before: seq<CImageImportFile>)
      requires old(Valid()) && before == old(nodes) && forall n :: n in before ==> n.File() == old(n.File())
      ensures FilesOf(before) == old(Files())
    {}

    lemma Outside(last: CImageImportFile?, file: CImageImportFile?, k: nat)
      requires Walking(last, file, k)
      ensures forall n :: n in nodes ==> n in Repr && n.importNames in Repr
    {}

    /** The first file. */
    method First() returns (file: CImageImportFile?)
      requires Valid()
      ensures Walking(null, file, 0)
    {
      file := importFiles;
    }

    /** The file that `ppLastFile` leads to. */
    method Behind(last: CImageImportFile?, ghost k: nat) returns (file: CImageImportFile?)
      requires Walking(last, Node(nodes, k), k)
      ensures Walking(last, file, k)
    {
      if last == null {
        file := importFiles;
      } else {
        assert last.next == Nexts(nodes)[k - 1];
        file := last.next;
      }
    }

    lemma AtNode(last: CImageImportFile?, file: CImageImportFile?, k: nat)
      requires Walking(last, file, k)
      ensures Valid() && |Files()| == |nodes| && k <= |nodes| && (file == null <==> k == |nodes|)
    {}

    /** One round of the walk, at a file or behind the last one: a byway is added, or else the file is asked
        about, or else the walk is done. */
    method Round<C(!new)>(last: CImageImportFile?, file: CImageImportFile?, cb: Callbacks<C>, ghost left: C -> nat, c: C, ghost k: nat)
      returns (ok: bool, done: bool, context: C, last': CImageImportFile?, file': CImageImportFile?, ghost k': nat)
      requires Walking(last, file, k) && Stops(cb, left)
      modifies this, Repr
      ensures Valid() && fresh(Repr - old(Repr)) && |Files()| == |nodes|
      ensures var before := Prepend(old(Files())[..k], EditFrom(cb, left, c, old(Files())[k..]));
              if ok && !done
              then Walking(last', file', k') && k' <= |nodes| && before == Prepend(Files()[..k'], EditFrom(cb, left, context, Files()[k'..]))
                   && (left(context) < left(c) || (left(context) <= left(c) && |nodes| - k' < old(|nodes|) - k))
              else before == Outcome(context, ok, Files())
    {
      hide *;
      AtNode(last, file, k);
      ghost var files := Files();
      FromUnfold(cb, left, c, files, k);
      ok, done, last', file', k' := true, false, last, file, k;
      var (c1, a) := cb.byway(c, Null);
      context := c1;
      if a.Failed? {
        ok := false;
      } else if a.Other? {
        ok, last' := AddByway(last, file, a.chars, k, files);
        k' := k + 1;
        if ok {
          AtNode(last', file, k');
          SplitAt(files[..k] + [Byway(a.chars)], files[k..]);
        }
      } else if file == null {
        done := true;
        assert files[..k] == files;
      } else {
        ok, context, last', k' := Visit(last, file, cb, context, k, files);
        if ok {
          file' := Behind(last', k');
          AtNode(last', file', k');
          SplitAt(files[..k] + EditNode(cb, cb.byway(c, Null).0, files[k]).value, files[k + 1..]);
        }
      }
    }

    /** Walks the list: byways are added as the callback says, those for which there is no name any more are
        deleted, and the other files are edited. After a failure the rest of the list is as it was. */
    method EditImports<C(!new)>(cb: Callbacks<C>, ghost left: C -> nat, c: C) returns (ok: bool, context: C)
      requires Valid() && Stops(cb, left)
      modifies this, Repr
      ensures Valid() && fresh(Repr - old(Repr)) && Outcome(context, ok, Files()) == EditAll(cb, left, c, old(Files()))
      ensures GiveBack(cb) && NoneFails(cb) && (forall i :: 0 <= i < |old(Files())| ==> old(Files())[i].name.Text?) ==>
                ok && Files() == Woven(cb, left, c, old(Files())) && (AddNothing(cb) ==> Files() == old(Files()))
    {
      hide *;
      ghost var files := Files();
      if GiveBack(cb) && NoneFails(cb) && forall i :: 0 <= i < |files| ==> files[i].name.Text? {
        AllGivenBack(cb, left, c, files);
      }
      ghost var k: nat := 0;
      var last: CImageImportFile? := null;
      var file := First();
      var done := false;
      ok, context := true, c;
      AtNode(last, file, k);
      WalkStarts(EditFrom(cb, left, c, files), files);
      while ok && !done
        invariant Valid() && fresh(Repr - old(Repr)) && |Files()| == |nodes|
        invariant if ok && !done
                  then k <= |nodes| && Walking(last, file, k) && EditFrom(cb, left, c, files) == Prepend(Files()[..k], EditFrom(cb, left, context, Files()[k..]))
                  else EditFrom(cb, left, c, files) == Outcome(context, ok, Files())
        decreases ok && !done, left(context), |nodes| - k
      {
        ok, done, context, last, file, k := Round(last, file, cb, left, context, k);
      }
      if ok {
        var (c1, committed) := cb.commit(context);
        ok, context := committed, c1;
      }
      AllIs(cb, left, c, files);
    }
  }

  lemma FilesJoined(nodes: seq<CImageImportFile>, k: nat, node: CImageImportFile)
    requires k <= |nodes|
    ensures FilesOf(nodes[..k] + [node] + nodes[k..]) == FilesOf(nodes)[..k] + [node.File()] + FilesOf(nodes)[k..]
  {
    var more := nodes[..k] + [node] + nodes[k..];
    forall i | 0 <= i < |more|
      ensures FilesOf(more)[i] == (FilesOf(nodes)[..k] + [node.File()] + FilesOf(nodes)[k..])[i]
    {
      assert i > k ==> more[i] == nodes[i - 1];
    }
  }

  lemma DifferentWith(nodes: seq<CImageImportFile>, k: nat, node: CImageImportFile)
    requires Different(nodes) && k <= |nodes| && forall n :: n in nodes ==> n != node && n.importNames != node.importNames
    ensures Different(nodes[..k] + [node] + nodes[k..])
    ensures forall n :: n in nodes[..k] + [node] + nodes[k..] ==> n in nodes || n == node
  {
    var more := nodes[..k] + [node] + nodes[k..];
    forall i, j | 0 <= i < j < |more|
      ensures more[i] != more[j] && more[i].importNames != more[j].importNames
    {
      var a, b := if i < k then i else i - 1, if j < k then j else j - 1;
      if i != k && j != k {
        assert more[i] == nodes[a] && more[j] == nodes[b] && a < b;
      } else if i != k {
        assert more[i] == nodes[a] && more[i] in nodes;
      } else {
        assert more[j] == nodes[b] && more[j] in nodes;
      }
    }
  }

  lemma LastDiffers(nodes: seq<CImageImportFile>, k: nat)
    requires Different(nodes) && k <= |nodes|
    ensures k > 0 ==> forall j :: 0 <= j < |nodes| && j != k - 1 ==> nodes[j] != nodes[k - 1]
  {}

  lemma WalkStarts<C>(r: Outcome<C, seq<ImportFile>>, files: seq<ImportFile>)
    ensures Prepend(files[..0], r) == r && files[0..] == files
  {
    assert files[..0] == [] && [] + r.value == r.value;
  }

  lemma SplitAt(a: seq<ImportFile>, b: seq<ImportFile>)
    ensures (a + b)[..|a|] == a && (a + b)[|a|..] == b
  {}

  lemma AllIs<C(!new)>(cb: Callbacks<C>, left: C -> nat, c: C, files: seq<ImportFile>)
    requires Stops(cb, left)
    ensures var r := EditFrom(cb, left, c, files);
            EditAll(cb, left, c, files) == if r.ok then Outcome(cb.commit(r.context).0, cb.commit(r.context).1, r.value) else r
  {}

  /** What one round contributes. */
  lemma FromUnfold<C(!new)>(cb: Callbacks<C>, left: C -> nat, c: C, files: seq<ImportFile>, k: nat)
    requires Stops(cb, left) && k <= |files|
    ensures left(cb.byway(c, Null).0) <= left(c) && (cb.byway(c, Null).1.Other? ==> left(cb.byway(c, Null).0) < left(c))
    ensures var (c1, a) := cb.byway(c, Null); var all := Prepend(files[..k], EditFrom(cb, left, c, files[k..]));
            match a
            case Failed => all == Outcome(c1, false, files)
            case Other(s) =>
              all == if CanDuplicate(s) then Prepend(files[..k] + [Byway(s)], EditFrom(cb, left, c1, files[k..])) else Outcome(c1, false, files)
            case _ =>
              if k == |files| then all == Outcome(c1, true, files[..k])
              else
                var r := EditNode(cb, c1, files[k]);
                left(r.context) <= left(c1)
                && all == if r.ok then Prepend(files[..k] + r.value, EditFrom(cb, left, r.context, files[k + 1..]))
                          else Outcome(r.context, false, files[..k] + r.value + files[k + 1..])
  {
    hide EditNode, CanDuplicate;
    var (c1, a) := cb.byway(c, Null);
    assert files[..k] + files[k..] == files;
    if a.Other? && CanDuplicate(a.chars) {
      JoinThree(files[..k], [Byway(a.chars)], EditFrom(cb, left, c1, files[k..]).value);
    } else if a.Failed? || a.Other? {
    } else if k < |files| {
      NodeStops(cb, left, c1, files[k]);
      var r := EditNode(cb, c1, files[k]);
      assert files[k..][0] == files[k] && files[k..][1..] == files[k + 1..];
      JoinThree(files[..k], r.value, files[k + 1..]);
      if r.ok {
        JoinThree(files[..k], r.value, EditFrom(cb, left, r.context, files[k + 1..]).value);
      }
    } else {
      assert files[k..] == [] && files[..k] + [] == files[..k];
    }
  }

  lemma JoinThree(a: seq<ImportFile>, b: seq<ImportFile>, c: seq<ImportFile>)
    ensures a + (b + c) == (a + b) + c
  {}
}
