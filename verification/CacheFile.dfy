/**
 The cache file, and how it is cut down to a size limit before it is written.

 What a file takes beyond its records (names, counts, length prefixes) never grows as records are
 dropped. So once the records fit into what the limit leaves for them, the whole file fits, and
 the further rounds and the final error of the shrinking procedure are never reached.
 */
module CacheFile {
  import opened Keys
  import opened Postcard

  datatype SectionType = Input | Derived | Interned

  datatype Section = Section(kindId: nat, kindName: Bytes, sectionType: SectionType, records: seq<Bytes>)

  // ---------------------------------------------------------------------------
  // Encoding and sizes
  // ---------------------------------------------------------------------------

  function Tag(ty: SectionType): nat {
    match ty
    case Input => 0
    case Derived => 1
    case Interned => 2
  }

  function EncodeRecords(records: seq<Bytes>): Bytes {
    Varint(|records|) + EncodeEach(records, BytesField)
  }

  function EncodeSection(s: Section): Bytes {
    Varint(s.kindId) + (BytesField(s.kindName) + (Varint(Tag(s.sectionType)) + EncodeRecords(s.records)))
  }

  function EncodeFile(formatVersion: nat, currentRevision: Revision, sections: seq<Section>): Bytes {
    Varint(formatVersion) + (Varint(currentRevision) + (Varint(|sections|) + EncodeEach(sections, EncodeSection)))
  }

  function TotalLength(records: seq<Bytes>): nat {
    if records == [] then 0 else |records[0]| + TotalLength(records[1..])
  }

  function PrefixLength(records: seq<Bytes>): nat {
    if records == [] then 0 else |Varint(|records[0]|)| + PrefixLength(records[1..])
  }

  function RecordBytes(sections: seq<Section>): nat {
    if sections == [] then 0 else TotalLength(sections[0].records) + RecordBytes(sections[1..])
  }

  /** What a section takes beyond its records. */
  function SectionOverhead(s: Section): nat {
    |Varint(s.kindId)| + |BytesField(s.kindName)| + |Varint(Tag(s.sectionType))| + |Varint(|s.records|)|
    + PrefixLength(s.records)
  }

  function SectionsOverhead(sections: seq<Section>): nat {
    if sections == [] then 0 else SectionOverhead(sections[0]) + SectionsOverhead(sections[1..])
  }

  lemma {:induction false} RecordsSize(records: seq<Bytes>)
    ensures |EncodeEach(records, BytesField)| == PrefixLength(records) + TotalLength(records)
  {
    if records != [] {
      RecordsSize(records[1..]);
    }
  }

  lemma {:induction false} SectionsSize(sections: seq<Section>)
    ensures |EncodeEach(sections, EncodeSection)| == SectionsOverhead(sections) + RecordBytes(sections)
  {
    if sections != [] {
      RecordsSize(sections[0].records);
      SectionsSize(sections[1..]);
    }
  }

  // ---------------------------------------------------------------------------
  // Sorting records by length
  // ---------------------------------------------------------------------------

  function Insert(r: Bytes, records: seq<Bytes>): seq<Bytes> {
    if records == [] || |r| <= |records[0]| then [r] + records else [records[0]] + Insert(r, records[1..])
  }

  function SortedByLength(records: seq<Bytes>): seq<Bytes> {
    if records == [] then [] else Insert(records[0], SortedByLength(records[1..]))
  }

  ghost predicate Sorted(records: seq<Bytes>) {
    forall i, j | 0 <= i < j < |records| :: |records[i]| <= |records[j]|
  }

  function OfLength(n: nat, records: seq<Bytes>): seq<Bytes> {
    if records == [] then []
    else (if |records[0]| == n then [records[0]] else []) + OfLength(n, records[1..])
  }

  lemma {:induction false} InsertKeeps(r: Bytes, records: seq<Bytes>)
    ensures multiset(Insert(r, records)) == multiset{r} + multiset(records)
    ensures |Insert(r, records)| == |records| + 1
    ensures TotalLength(Insert(r, records)) == |r| + TotalLength(records)
    ensures PrefixLength(Insert(r, records)) == |Varint(|r|)| + PrefixLength(records)
  {
    var result := Insert(r, records);
    if records == [] || |r| <= |records[0]| {
      assert result[1..] == records;
    } else {
      InsertKeeps(r, records[1..]);
      assert result[1..] == Insert(r, records[1..]);
      assert records == [records[0]] + records[1..];
    }
  }

  lemma {:induction false} InsertSorted(r: Bytes, records: seq<Bytes>, least: nat)
    requires Sorted(records) && least <= |r| && forall i | 0 <= i < |records| :: least <= |records[i]|
    ensures Sorted(Insert(r, records)) && forall i | 0 <= i < |Insert(r, records)| :: least <= |Insert(r, records)[i]|
    decreases |records|
  {
    if records != [] && |records[0]| < |r| {
      InsertSorted(r, records[1..], |records[0]|);
    }
  }

  lemma {:induction false} InsertStable(r: Bytes, records: seq<Bytes>, n: nat)
    ensures |r| == n ==> OfLength(n, Insert(r, records)) == [r] + OfLength(n, records)
    ensures |r| != n ==> OfLength(n, Insert(r, records)) == OfLength(n, records)
  {
    var result := Insert(r, records);
    if records == [] || |r| <= |records[0]| {
      assert result[1..] == records;
    } else {
      InsertStable(r, records[1..], n);
      assert result[1..] == Insert(r, records[1..]);
      if |r| == n {
        assert OfLength(n, records) == OfLength(n, records[1..]);
      }
    }
  }

  /** The sort is the stable one: records of one length stay in their order. */
  lemma {:induction false} SortKeeps(records: seq<Bytes>)
    ensures Sorted(SortedByLength(records))
    ensures multiset(SortedByLength(records)) == multiset(records)
    ensures |SortedByLength(records)| == |records|
    ensures TotalLength(SortedByLength(records)) == TotalLength(records)
    ensures PrefixLength(SortedByLength(records)) == PrefixLength(records)
    ensures forall n: nat :: OfLength(n, SortedByLength(records)) == OfLength(n, records)
  {
    if records != [] {
      SortKeeps(records[1..]);
      InsertKeeps(records[0], SortedByLength(records[1..]));
      InsertSorted(records[0], SortedByLength(records[1..]), 0);
      assert records == [records[0]] + records[1..];
      forall n: nat ensures OfLength(n, SortedByLength(records)) == OfLength(n, records) {
        InsertStable(records[0], SortedByLength(records[1..]), n);
      }
    }
  }

  function SortedSection(s: Section): Section {
    Section(s.kindId, s.kindName, s.sectionType, SortedByLength(s.records))
  }

  function SortedSections(sections: seq<Section>): (sorted: seq<Section>)
    ensures |sorted| == |sections|
    ensures forall i | 0 <= i < |sections| :: sorted[i] == SortedSection(sections[i])
  {
    if sections == [] then [] else [SortedSection(sections[0])] + SortedSections(sections[1..])
  }

  lemma {:induction false} SortedSectionsSize(sections: seq<Section>)
    ensures SectionsOverhead(SortedSections(sections)) == SectionsOverhead(sections)
    ensures RecordBytes(SortedSections(sections)) == RecordBytes(sections)
    ensures forall i | 0 <= i < |sections| :: Sorted(SortedSections(sections)[i].records)
  {
    forall i | 0 <= i < |sections| ensures Sorted(SortedSections(sections)[i].records) {
      SortKeeps(sections[i].records);
    }
    if sections != [] {
      SortKeeps(sections[0].records);
      SortedSectionsSize(sections[1..]);
    }
  }

  // ---------------------------------------------------------------------------
  // Dropping records
  // ---------------------------------------------------------------------------

  predicate HasRecord(sections: seq<Section>, ty: SectionType) {
    exists i :: 0 <= i < |sections| && sections[i].sectionType == ty && sections[i].records != []
  }

  function LastLength(s: Section): nat
    requires s.records != []
  {
    |s.records[|s.records| - 1]|
  }

  function Popped(sections: seq<Section>, idx: nat): (popped: seq<Section>)
    requires idx < |sections| && sections[idx].records != []
    ensures |popped| == |sections|
  {
    var s := sections[idx];
    sections[idx := Section(s.kindId, s.kindName, s.sectionType, s.records[..|s.records| - 1])]
  }

  /** The first section of the class whose last record is the longest among the last records of the class. */
  predicate IsBest(sections: seq<Section>, ty: SectionType, idx: nat) {
    && idx < |sections| && sections[idx].sectionType == ty && sections[idx].records != []
    && forall j | 0 <= j < |sections| && sections[j].sectionType == ty && sections[j].records != [] ::
         if j < idx then LastLength(sections[j]) < LastLength(sections[idx])
         else LastLength(sections[j]) <= LastLength(sections[idx])
  }

  /** The best of the first `i` sections, if any of them is of the class and has records. */
  predicate BestSoFar(sections: seq<Section>, ty: SectionType, i: nat, best: Option<nat>) {
    && i <= |sections|
    && (best.Some? ==> best.value < i && sections[best.value].sectionType == ty && sections[best.value].records != [])
    && forall j | 0 <= j < i && sections[j].sectionType == ty && sections[j].records != [] ::
         && best.Some?
         && if j < best.value then LastLength(sections[j]) < LastLength(sections[best.value])
            else LastLength(sections[j]) <= LastLength(sections[best.value])
  }

  /** Sections are what they were, except that each may have lost records at its end. */
  ghost predicate Trimmed(was: seq<Section>, now: seq<Section>) {
    && |now| == |was|
    && forall i | 0 <= i < |was| ::
         && now[i].records <= was[i].records
         && now[i] == Section(was[i].kindId, was[i].kindName, was[i].sectionType, now[i].records)
  }

  ghost predicate LostSome(was: seq<Section>, now: seq<Section>, i: nat)
    requires i < |was| == |now|
  {
    |now[i].records| < |was[i].records|
  }

  /** In each class no record that was dropped is shorter than one that was kept. */
  ghost predicate LongestFirst(was: seq<Section>, now: seq<Section>)
    requires |now| == |was|
  {
    forall i, j, a, b |
      && 0 <= i < |was| && 0 <= j < |was| && was[i].sectionType == was[j].sectionType
      && |now[i].records| <= a < |was[i].records| && 0 <= b < |now[j].records| ::
      |now[j].records[b]| <= |was[i].records[a]|
  }

  function DropOrder(ty: SectionType): nat {
    match ty
    case Derived => 0
    case Input => 1
    case Interned => 2
  }

  /** A class loses records only when the classes before it have none left. */
  ghost predicate ClassByClass(was: seq<Section>, now: seq<Section>)
    requires |now| == |was|
  {
    forall i, j | 0 <= i < |was| && 0 <= j < |was| && DropOrder(was[j].sectionType) < DropOrder(was[i].sectionType) ::
      LostSome(was, now, i) ==> now[j].records == []
  }

  /** The record that was dropped last had to go: with it the records exceed the budget. */
  ghost predicate NoneTooMany(was: seq<Section>, now: seq<Section>, budget: nat)
    requires |now| == |was|
  {
    exists i ::
      0 <= i < |was| && LostSome(was, now, i) && RecordBytes(now) + |was[i].records[|now[i].records|]| > budget
  }

  lemma {:induction false} TotalLengthSnoc(records: seq<Bytes>)
    requires records != []
    ensures TotalLength(records) == TotalLength(records[..|records| - 1]) + |records[|records| - 1]|
  {
    if |records| > 1 {
      TotalLengthSnoc(records[1..]);
      assert records[1..][..|records| - 2] == records[..|records| - 1][1..];
    }
  }

  /** The running count of record bytes stays exact. */
  lemma {:induction false} PoppedBytes(sections: seq<Section>, idx: nat)
    requires idx < |sections| && sections[idx].records != []
    ensures RecordBytes(sections) == RecordBytes(Popped(sections, idx)) + LastLength(sections[idx])
  {
    if idx == 0 {
      TotalLengthSnoc(sections[0].records);
      assert Popped(sections, idx)[1..] == sections[1..];
    } else {
      PoppedBytes(sections[1..], idx - 1);
      assert Popped(sections, idx)[1..] == Popped(sections[1..], idx - 1);
    }
  }

  lemma {:induction false} PrefixLengthShrinks(records: seq<Bytes>, n: nat)
    requires n <= |records|
    ensures PrefixLength(records[..n]) <= PrefixLength(records)
  {
    if 0 < n {
      PrefixLengthShrinks(records[1..], n - 1);
      assert records[..n][1..] == records[1..][..n - 1];
    }
  }

  lemma {:induction false} OverheadShrinks(was: seq<Section>, now: seq<Section>)
    requires Trimmed(was, now)
    ensures SectionsOverhead(now) <= SectionsOverhead(was)
    decreases |was|
  {
    if was != [] {
      assert Trimmed(was[1..], now[1..]) by {
        forall i | 0 <= i < |was| - 1 ensures now[1..][i] == now[i + 1] && was[1..][i] == was[i + 1] {}
      }
      OverheadShrinks(was[1..], now[1..]);
      VarintMonotone(|now[0].records|, |was[0].records|);
      PrefixLengthShrinks(was[0].records, |now[0].records|);
      assert now[0].records == was[0].records[..|now[0].records|];
    }
  }

  /** Dropping one record of the first class that has any keeps what shrinking promises. */
  lemma {:induction false} DropKeeps(was: seq<Section>, now: seq<Section>, ty: SectionType, idx: nat)
    requires forall i | 0 <= i < |was| :: Sorted(was[i].records)
    requires Trimmed(was, now) && LongestFirst(was, now) && ClassByClass(was, now)
    requires IsBest(now, ty, idx)
    requires forall other | DropOrder(other) < DropOrder(ty) :: !HasRecord(now, other)
    ensures Trimmed(was, Popped(now, idx)) && LongestFirst(was, Popped(now, idx)) && ClassByClass(was, Popped(now, idx))
    ensures LostSome(was, Popped(now, idx), idx)
    ensures was[idx].records[|Popped(now, idx)[idx].records|] == now[idx].records[|now[idx].records| - 1]
  {
    var next := Popped(now, idx);
    DropKeepsOrder(was, now, ty, idx);
    forall i, j | 0 <= i < |was| && 0 <= j < |was| && DropOrder(was[j].sectionType) < DropOrder(was[i].sectionType)
      ensures LostSome(was, next, i) ==> next[j].records == []
    {
      if i != idx {
        assert LostSome(was, now, i) == LostSome(was, next, i);
      } else {
        assert !HasRecord(now, was[j].sectionType);
        assert now[j].records == [];
      }
    }
  }

  lemma {:induction false} DropKeepsOrder(was: seq<Section>, now: seq<Section>, ty: SectionType, idx: nat)
    requires forall i | 0 <= i < |was| :: Sorted(was[i].records)
    requires Trimmed(was, now) && LongestFirst(was, now) && IsBest(now, ty, idx)
    ensures LongestFirst(was, Popped(now, idx))
  {
    var next := Popped(now, idx);
    forall i, j, a, b |
      && 0 <= i < |was| && 0 <= j < |was| && was[i].sectionType == was[j].sectionType
      && |next[i].records| <= a < |was[i].records| && 0 <= b < |next[j].records|
      ensures |next[j].records[b]| <= |was[i].records[a]|
    {
      assert next[j].records[b] == now[j].records[b];
      if a < |now[i].records| {
        assert i == idx && a == |now[i].records| - 1;
        assert |was[j].records[b]| <= |was[j].records[|now[j].records| - 1]|;
        assert |now[j].records[b]| <= LastLength(now[j]) <= LastLength(now[idx]);
      }
    }
  }

  // ---------------------------------------------------------------------------
  // The file
  // ---------------------------------------------------------------------------

  datatype ShrinkError = OverheadTooLarge(overhead: nat, maxBytes: nat)

  /** What shrinking does to a file that is too large although its overhead is not. */
  ghost predicate Shrunk(was: seq<Section>, now: seq<Section>, budget: nat) {
    var sorted := SortedSections(was);
    && Trimmed(sorted, now)
    && LongestFirst(sorted, now)
    && ClassByClass(sorted, now)
    && RecordBytes(now) <= budget
    && NoneTooMany(sorted, now, budget)
  }

  /** What dropping keeps; the byte count is exact at every moment. */
  ghost predicate Dropping(was: seq<Section>, now: seq<Section>, current: nat, budget: nat) {
    && current == RecordBytes(now)
    && Trimmed(was, now) && LongestFirst(was, now) && ClassByClass(was, now)
    && (current <= budget ==> NoneTooMany(was, now, budget))
  }

  lemma {:induction false} DroppingOne(
    was: seq<Section>, now: seq<Section>, ty: SectionType, idx: nat, current: nat, budget: nat)
    requires forall i | 0 <= i < |was| :: Sorted(was[i].records)
    requires Dropping(was, now, current, budget) && current > budget
    requires IsBest(now, ty, idx)
    requires forall other | DropOrder(other) < DropOrder(ty) :: !HasRecord(now, other)
    ensures LastLength(now[idx]) <= current
    ensures Dropping(was, Popped(now, idx), current - LastLength(now[idx]), budget)
    ensures CountRecords(Popped(now, idx)) < CountRecords(now)
  {
    DropKeeps(was, now, ty, idx);
    PoppedBytes(now, idx);
    PoppedCount(now, idx);
  }

  class CacheFile {
    const formatVersion: nat
    const currentRevision: Revision
    var sections: seq<Section>

    constructor (formatVersion: nat, currentRevision: Revision, sections: seq<Section>)
      ensures this.formatVersion == formatVersion && this.currentRevision == currentRevision
      ensures this.sections == sections
    {
      this.formatVersion, this.currentRevision, this.sections := formatVersion, currentRevision, sections;
    }

    function Encode(): Bytes
      reads this
    {
      EncodeFile(formatVersion, currentRevision, sections)
    }

    /**
     A file that fits is left alone. Otherwise it is an error exactly if what the file takes beyond
     its records already reaches the limit; in all other cases the file fits afterwards, and no
     more records were dropped than the limit asked for.
     */
    method ShrinkToFit(maxBytes: nat) returns (r: Result<(), ShrinkError>)
      modifies this`sections
      ensures var overhead := |old(Encode())| - RecordBytes(old(sections));
              && 0 <= overhead
              && (r == if overhead + RecordBytes(old(sections)) > maxBytes && overhead >= maxBytes
                       then Err(OverheadTooLarge(overhead, maxBytes)) else Ok(()))
              && if |old(Encode())| <= maxBytes || overhead >= maxBytes then sections == old(sections)
                 else Shrunk(old(sections), sections, maxBytes - overhead)
      ensures r.Ok? ==> |Encode()| <= maxBytes
    {
      SectionsSize(sections);
      var length := |Encode()|;
      if length <= maxBytes {
        return Ok(());
      }
      var recordBytes := RecordBytes(sections);
      var overhead := length - recordBytes;
      if overhead >= maxBytes {
        return Err(OverheadTooLarge(overhead, maxBytes));
      }
      var budget := maxBytes - overhead;
      ghost var was := sections;
      SortRecords();
      SortedSectionsSize(was);
      DropUntil(recordBytes, budget);
      OverheadShrinks(SortedSections(was), sections);
      SectionsSize(sections);
      if |Encode()| > maxBytes {
        // Further rounds of dropping would start here, with the final error behind them.
        assert false;
      }
      r := Ok(());
    }

    method SortRecords()
      modifies this`sections
      ensures sections == SortedSections(old(sections))
    {
      ghost var was := sections;
      for i := 0 to |sections|
        invariant |sections| == |was|
        invariant forall j | 0 <= j < |was| :: sections[j] == if j < i then SortedSection(was[j]) else was[j]
      {
        sections := sections[i := SortedSection(sections[i])];
      }
    }

    method DropUntil(recordBytes: nat, budget: nat)
      requires recordBytes == RecordBytes(sections) > budget
      requires forall i | 0 <= i < |sections| :: Sorted(sections[i].records)
      modifies this`sections
      ensures RecordBytes(sections) <= budget
      ensures Dropping(old(sections), sections, RecordBytes(sections), budget)
    {
      ghost var was := sections;
      var current: nat := recordBytes;
      while current > budget
        invariant Dropping(was, sections, current, budget)
        decreases CountRecords(sections)
      {
        current := DropNext(current, budget, was);
      }
    }

    /** One round: a derived record if there is one, or else an input, or else an interned value. */
    method DropNext(current: nat, ghost budget: nat, ghost was: seq<Section>) returns (left: nat)
      requires Dropping(was, sections, current, budget) && current > budget
      requires forall i | 0 <= i < |was| :: Sorted(was[i].records)
      modifies this`sections
      ensures Dropping(was, sections, left, budget)
      ensures CountRecords(sections) < CountRecords(old(sections))
    {
      ghost var before, ty, idx := sections, Derived, 0;
      var dropped;
      dropped, left, idx := DropOneRecord(Derived, current);
      if !dropped {
        ty := Input;
        dropped, left, idx := DropOneRecord(Input, current);
      }
      if !dropped {
        ty := Interned;
        dropped, left, idx := DropOneRecord(Interned, current);
      }
      NonEmptyHasRecord(before);
      DroppingOne(was, before, ty, idx, current, budget);
    }

    /** Pops the last record of the best section of a class, if any section of the class has records. */
    method DropOneRecord(ty: SectionType, currentRecordBytes: nat) returns (dropped: bool, left: nat, ghost idx: nat)
      modifies this`sections
      ensures dropped == HasRecord(old(sections), ty)
      ensures !dropped ==> sections == old(sections) && left == currentRecordBytes
      ensures dropped ==>
                && IsBest(old(sections), ty, idx) && sections == Popped(old(sections), idx)
                && left == if currentRecordBytes >= LastLength(old(sections)[idx])
                           then currentRecordBytes - LastLength(old(sections)[idx]) else 0
    {
      var best: Option<nat> := None;
      for i := 0 to |sections|
        invariant BestSoFar(sections, ty, i, best)
      {
        if sections[i].sectionType == ty && sections[i].records != [] {
          if best.None? || LastLength(sections[i]) > LastLength(sections[best.value]) {
            best := Some(i);
          }
        }
      }
      dropped, left, idx := best.Some?, currentRecordBytes, 0;
      if best.Some? {
        var length := LastLength(sections[best.value]);
        idx := best.value;
        sections := Popped(sections, best.value);
        left := if currentRecordBytes >= length then currentRecordBytes - length else 0;
      }
    }
  }

  ghost function CountRecords(sections: seq<Section>): nat {
    if sections == [] then 0 else |sections[0].records| + CountRecords(sections[1..])
  }

  lemma {:induction false} PoppedCount(sections: seq<Section>, idx: nat)
    requires idx < |sections| && sections[idx].records != []
    ensures CountRecords(Popped(sections, idx)) < CountRecords(sections)
  {
    if idx == 0 {
      assert Popped(sections, idx)[1..] == sections[1..];
    } else {
      PoppedCount(sections[1..], idx - 1);
      assert Popped(sections, idx)[1..] == Popped(sections[1..], idx - 1);
    }
  }

  lemma {:induction false} EmptyTakesNothing(sections: seq<Section>)
    requires forall i | 0 <= i < |sections| :: sections[i].records == []
    ensures RecordBytes(sections) == 0
  {
    if sections != [] {
      EmptyTakesNothing(sections[1..]);
    }
  }

  lemma {:induction false} NonEmptyHasRecord(sections: seq<Section>)
    requires 0 < RecordBytes(sections)
    ensures HasRecord(sections, Derived) || HasRecord(sections, Input) || HasRecord(sections, Interned)
  {
    if !HasRecord(sections, Derived) && !HasRecord(sections, Input) && !HasRecord(sections, Interned) {
      forall i | 0 <= i < |sections| ensures sections[i].records == [] {
        assert !HasRecord(sections, sections[i].sectionType);
      }
      EmptyTakesNothing(sections);
    }
  }

  /** Shrinking never leaves a derived record without an input or an interned value it read. */
  lemma {:induction false} DerivedLeftMeansInputsWhole(was: seq<Section>, now: seq<Section>, budget: nat)
    requires Shrunk(was, now, budget) && HasRecord(now, Derived)
    ensures forall i | 0 <= i < |was| && was[i].sectionType != Derived ::
              multiset(now[i].records) == multiset(was[i].records)
  {
    var j :| 0 <= j < |now| && now[j].sectionType == Derived && now[j].records != [];
    forall i | 0 <= i < |was| && was[i].sectionType != Derived
      ensures multiset(now[i].records) == multiset(was[i].records)
    {
      SortKeeps(was[i].records);
      assert DropOrder(SortedSections(was)[j].sectionType) < DropOrder(SortedSections(was)[i].sectionType);
      assert !LostSome(SortedSections(was), now, i);
      assert now[i].records == SortedSections(was)[i].records;
    }
  }
}
