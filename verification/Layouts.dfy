/**
 Concrete bytes of each kind of record, so that the order of fields and the numbers of variants are
 those of the files on disk, and not just the same in encoder and decoder.
 */
module Layouts {
  import opened Keys
  import opened Postcard
  import opened Cells
  import opened Engine
  import opened CacheFile
  import opened Records
  import Wal

  lemma {:induction false} TwoByteVarint()
    ensures Varint(300) == [172, 2]
  {
    assert Varint(2) == [2];
  }

  /** Revision, kind, variant, key and value; a deletion has no value. */
  lemma {:induction false} EntryBytes()
    ensures Wal.EncodeEntry(Wal.Entry(300, 7, Wal.Set([65], [66, 67]))) == [172, 2, 7, 0, 1, 65, 2, 66, 67]
    ensures Wal.EncodeEntry(Wal.Entry(300, 7, Wal.Delete([65]))) == [172, 2, 7, 1, 1, 65]
  {
    TwoByteVarint();
  }

  /** Key, optional value and `changedAt`. */
  lemma {:induction false} InputBytes()
    ensures EncodeInput(InputRecord(DynKey(7, [65]), InputEntry(Some([66, 67]), 300))) == [1, 65, 1, 2, 66, 67, 172, 2]
    ensures EncodeInput(InputRecord(DynKey(7, [65]), InputEntry(None, 300))) == [1, 65, 0, 172, 2]
  {
    TwoByteVarint();
    assert EncodeValue(Some([66, 67])) == [1, 2, 66, 67];
  }

  /** Key, value, `verifiedAt`, `changedAt`, and the dependencies by kind and key. */
  lemma {:induction false} DerivedBytes()
    ensures EncodeDerived(DerivedRecord(DynKey(7, [65]), [66], 300, 5, [DynKey(8, [68]), DynKey(9, [])]))
            == [1, 65, 1, 66, 172, 2, 5, 2, 8, 1, 68, 9, 0]
  {
    TwoByteVarint();
    var none: seq<Dep> := [];
    var deps := [DynKey(8, [68]), DynKey(9, [])];
    assert EncodeEach(none, EncodeDep) == [];
    assert deps[1..] == [DynKey(9, [])] && deps[1..][1..] == none;
    assert EncodeEach(deps[1..], EncodeDep) == [9, 0];
    assert EncodeEach(deps, EncodeDep) == [8, 1, 68, 9, 0];
  }

  lemma {:induction false} SectionBytes(ty: SectionType)
    ensures EncodeSection(Section(7, [90], ty, [[1, 2]]))
            == [7, 1, 90, if ty == Input then 0 else if ty == Derived then 1 else 2, 1, 2, 1, 2]
  {
    var none: seq<Bytes> := [];
    var records: seq<Bytes> := [[1, 2]];
    assert records[1..] == none && EncodeEach(none, BytesField) == [];
    assert EncodeEach(records, BytesField) == [2, 1, 2];
  }

  /** Version, revision and the counted sections. */
  lemma {:induction false} FileBytes()
    ensures EncodeFile(1, 300, [Section(7, [90], Derived, [[1, 2]])]) == [1, 172, 2, 1, 7, 1, 90, 1, 1, 2, 1, 2]
  {
    TwoByteVarint();
    SectionBytes(Derived);
    var none: seq<Section> := [];
    var sections := [Section(7, [90], Derived, [[1, 2]])];
    assert sections[1..] == none && EncodeEach(none, EncodeSection) == [];
    assert EncodeEach(sections, EncodeSection) == EncodeSection(sections[0]);
  }
}
