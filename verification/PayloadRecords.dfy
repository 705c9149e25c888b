/** Payload records laid out one after the other: each a length, a reserved word, a GUID and the data. */
module PayloadRecords {
  import opened MachineWords

  const HEADER := 24
  const GUID_SIZE := 16

  datatype Record = Record(guid: seq<byte>, data: seq<byte>)

  predicate IsRecord(r: Record) { |r.guid| == GUID_SIZE && HEADER + |r.data| < TWO32 }

  function Size(r: Record): nat { HEADER + |r.data| }

  const RESERVED: seq<byte> := [0, 0, 0, 0]

  function Encode(r: Record): (s: seq<byte>)
    requires IsRecord(r)
    ensures |s| == Size(r)
  {
    Le32(Size(r)) + RESERVED + r.guid + r.data
  }

  predicate AreRecords(recs: seq<Record>) { forall i :: 0 <= i < |recs| ==> IsRecord(recs[i]) }

  function EncodeAll(recs: seq<Record>): (s: seq<byte>)
    requires AreRecords(recs)
    decreases |recs|
  {
    if recs == [] then [] else Encode(recs[0]) + EncodeAll(recs[1..])
  }

  /** Where record number `i` begins, or the end for `i` the number of records. */
  function Offset(recs: seq<Record>, i: nat): (o: nat)
    requires AreRecords(recs) && i <= |recs|
  {
    |EncodeAll(recs[..i])|
  }

  lemma {:induction false} EncodeConcat(a: seq<Record>, b: seq<Record>)
    requires AreRecords(a) && AreRecords(b)
    ensures AreRecords(a + b) && EncodeAll(a + b) == EncodeAll(a) + EncodeAll(b)
    decreases |a|
  {
    hide Encode;
    if a == [] {
      assert a + b == b;
    } else {
      assert (a + b)[1..] == a[1..] + b;
      EncodeConcat(a[1..], b);
    }
  }

  lemma EncodeOne(r: Record)
    requires IsRecord(r)
    ensures AreRecords([r]) && EncodeAll([r]) == Encode(r)
  {
    hide Encode;
    assert EncodeAll([r][1..]) == [];
  }

  /** The layout around one record. */
  lemma Around(recs: seq<Record>, i: nat)
    requires AreRecords(recs) && i < |recs|
    ensures EncodeAll(recs) == EncodeAll(recs[..i]) + Encode(recs[i]) + EncodeAll(recs[i + 1..])
    ensures Offset(recs, i + 1) == Offset(recs, i) + Size(recs[i]) <= |EncodeAll(recs)|
  {
    hide Encode;
    var a, b := recs[..i], recs[i + 1..];
    assert recs == a + [recs[i]] + b && recs[..i + 1] == a + [recs[i]];
    EncodeOne(recs[i]);
    EncodeConcat(a, [recs[i]]);
    EncodeConcat(a + [recs[i]], b);
  }

  lemma Ends(recs: seq<Record>)
    requires AreRecords(recs)
    ensures Offset(recs, 0) == 0 && Offset(recs, |recs|) == |EncodeAll(recs)|
  {
    assert recs[..|recs|] == recs && recs[..0] == [];
  }

  lemma Fields(r: Record)
    requires IsRecord(r)
    ensures Encode(r)[0..4] == Le32(Size(r)) && Encode(r)[4..8] == RESERVED
    ensures Encode(r)[8..24] == r.guid && Encode(r)[24..] == r.data
  {}

  /** Reading the fields at a record's offset. */
  lemma ReadRecord(bytes: seq<byte>, recs: seq<Record>, i: nat)
    requires AreRecords(recs) && i < |recs| && bytes == EncodeAll(recs)
    ensures var o := Offset(recs, i);
            && o + Size(recs[i]) == Offset(recs, i + 1) <= |bytes|
            && U32(bytes[o..o + 4]) == Size(recs[i]) && U32(bytes[o + 4..o + 8]) == 0
            && bytes[o + 8..o + 24] == recs[i].guid && bytes[o + 24..o + Size(recs[i])] == recs[i].data
  {
    hide Encode, EncodeAll, Le32, U32;
    Around(recs, i);
    var a, e, b := EncodeAll(recs[..i]), Encode(recs[i]), EncodeAll(recs[i + 1..]);
    var o := |a|;
    Slices(a, e, b);
    Fields(recs[i]);
    U32Le32(Size(recs[i]));
    U32Le32(0);
    Reserved();
  }

  lemma Reserved() ensures Le32(0) == RESERVED {}

  lemma Slices(a: seq<byte>, e: seq<byte>, b: seq<byte>)
    requires |e| >= 24
    ensures var s := a + e + b;
            && s[|a|..|a| + 4] == e[0..4] && s[|a| + 4..|a| + 8] == e[4..8]
            && s[|a| + 8..|a| + 24] == e[8..24] && s[|a| + 24..|a| + |e|] == e[24..]
  {}

  // ------------------------------------------------------------------ the records as a map

  predicate DistinctGuids(recs: seq<Record>) { forall i, j :: 0 <= i < j < |recs| ==> recs[i].guid != recs[j].guid }

  /** The data by GUID. */
  function Contents(recs: seq<Record>): map<seq<byte>, seq<byte>>
    decreases |recs|
  {
    if recs == [] then map[] else Contents(recs[1..])[recs[0].guid := recs[0].data]
  }

  lemma {:induction false} ContentsAt(recs: seq<Record>, i: nat)
    requires DistinctGuids(recs) && i < |recs|
    ensures recs[i].guid in Contents(recs) && Contents(recs)[recs[i].guid] == recs[i].data
    decreases |recs|
  {
    if i > 0 {
      ContentsAt(recs[1..], i - 1);
    }
  }

  lemma {:induction false} ContentsOnly(recs: seq<Record>, g: seq<byte>)
    ensures g in Contents(recs) <==> exists i :: 0 <= i < |recs| && recs[i].guid == g
    decreases |recs|
  {
    if recs != [] {
      ContentsOnly(recs[1..], g);
      if g in Contents(recs[1..]) {
        var i :| 0 <= i < |recs[1..]| && recs[1..][i].guid == g;
        assert recs[i + 1].guid == g;
      }
    }
  }

  /** The position of the record of a GUID, the number of records when there is none. */
  function IndexOf(recs: seq<Record>, g: seq<byte>): (i: nat)
    ensures i <= |recs| && (i < |recs| ==> recs[i].guid == g)
    ensures forall j :: 0 <= j < i ==> recs[j].guid != g
    decreases |recs|
  {
    if recs == [] then 0 else if recs[0].guid == g then 0 else 1 + IndexOf(recs[1..], g)
  }

  /** The records but the one of the GUID. */
  function Without(recs: seq<Record>, g: seq<byte>): seq<Record> {
    var i := IndexOf(recs, g);
    if i < |recs| then recs[..i] + recs[i + 1..] else recs
  }

  function QuadAlign(n: nat): (m: nat)
    ensures n <= m < n + 8 && m % 8 == 0
  {
    (n + 7) / 8 * 8
  }

  /** The data with zeros up to a multiple of eight. */
  function Padded(data: seq<byte>): seq<byte> { data + Zeros(QuadAlign(|data|) - |data|) }

  lemma WithoutShape(recs: seq<Record>, g: seq<byte>)
    requires AreRecords(recs) && DistinctGuids(recs)
    ensures AreRecords(Without(recs, g)) && DistinctGuids(Without(recs, g))
    ensures forall j :: 0 <= j < |Without(recs, g)| ==> Without(recs, g)[j].guid != g && Without(recs, g)[j] in recs
  {}

  /** Leaving out the record of a GUID removes it from the map. */
  lemma WithoutKeeps(recs: seq<Record>, g: seq<byte>)
    requires AreRecords(recs) && DistinctGuids(recs)
    ensures Contents(Without(recs, g)) == Contents(recs) - {g}
  {
    WithoutShape(recs, g);
    var rest := Without(recs, g);
    forall k ensures k in Contents(rest) <==> k in Contents(recs) && k != g {
      ContentsOnly(recs, k);
      ContentsOnly(rest, k);
      WithoutHas(recs, g, k);
    }
    hide Without, IsRecord;
    forall k | k in Contents(rest) ensures Contents(rest)[k] == Contents(recs)[k] {
      ContentsOnly(rest, k);
      var j :| 0 <= j < |rest| && rest[j].guid == k;
      ContentsAt(rest, j);
      var i :| 0 <= i < |recs| && recs[i] == rest[j];
      ContentsAt(recs, i);
    }
  }

  lemma WithoutHas(recs: seq<Record>, g: seq<byte>, k: seq<byte>)
    requires DistinctGuids(recs)
    ensures (exists j :: 0 <= j < |Without(recs, g)| && Without(recs, g)[j].guid == k)
       <==> (exists j :: 0 <= j < |recs| && recs[j].guid == k) && k != g
  {
    var i, rest := IndexOf(recs, g), Without(recs, g);
    if j :| 0 <= j < |recs| && recs[j].guid == k && k != g {
      assert rest[if j < i then j else j - 1].guid == k;
    }
    if j :| 0 <= j < |rest| && rest[j].guid == k {
      assert recs[if j < i then j else j + 1].guid == k;
    }
  }

  /** Adding a record of a new GUID at the end adds it to the map. */
  lemma {:induction false} AddedContents(recs: seq<Record>, r: Record)
    requires DistinctGuids(recs) && forall j :: 0 <= j < |recs| ==> recs[j].guid != r.guid
    ensures DistinctGuids(recs + [r]) && Contents(recs + [r]) == Contents(recs)[r.guid := r.data]
    decreases |recs|
  {
    if recs == [] {
      assert [] + [r] == [r] && [r][1..] == [];
    } else {
      AddedContents(recs[1..], r);
      assert (recs + [r])[1..] == recs[1..] + [r];
    }
  }

  lemma FirstIndex(recs: seq<Record>, g: seq<byte>, i: nat)
    requires i < |recs| && recs[i].guid == g && forall j :: 0 <= j < i ==> recs[j].guid != g
    ensures IndexOf(recs, g) == i
  {}

  lemma ContentsOfIndex(recs: seq<Record>, g: seq<byte>)
    requires DistinctGuids(recs) && IndexOf(recs, g) < |recs|
    ensures g in Contents(recs) && Contents(recs)[g] == recs[IndexOf(recs, g)].data
  {
    ContentsAt(recs, IndexOf(recs, g));
  }

  lemma NoIndex(recs: seq<Record>, g: seq<byte>)
    requires forall j :: 0 <= j < |recs| ==> recs[j].guid != g
    ensures g !in Contents(recs) && IndexOf(recs, g) == |recs|
  {
    ContentsOnly(recs, g);
  }

  lemma Inside(recs: seq<Record>, i: nat)
    requires AreRecords(recs) && i <= |recs| && Offset(recs, i) < |EncodeAll(recs)|
    ensures i < |recs|
  {
    Ends(recs);
  }

  lemma AllPassed(bytes: seq<byte>, recs: seq<Record>, i: nat)
    requires AreRecords(recs) && bytes == EncodeAll(recs) && i <= |recs| && Offset(recs, i) >= |bytes|
    ensures i == |recs|
  {
    if i < |recs| {
      Around(recs, i);
    }
  }
}
