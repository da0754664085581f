/**
 The records of a cache file: one input entry or one ready cell each, as its own byte string, with
 keys and values taken as byte strings. And the file around them, read back.
 */
module Records {
  import opened Keys
  import opened Postcard
  import opened Cells
  import opened Engine
  import opened CacheFile

  // ---------------------------------------------------------------------------
  // Input records
  // ---------------------------------------------------------------------------

  function EncodeInput(r: InputRecord): Bytes {
    BytesField(r.key.key) + (EncodeValue(r.entry.value) + Varint(r.entry.changedAt))
  }

  function EncodeValue(value: Option<Value>): Bytes {
    if value.Some? then [1] + BytesField(value.value) else [0]
  }

  function ParseValue(bytes: Bytes): Option<Parsed<Option<Value>>> {
    if bytes == [] then None
    else if bytes[0] == 0 then Some(Parsed(None, bytes[1..]))
    else if bytes[0] == 1 then
      match ParseBytes(bytes[1..])
      case None => None
      case Some(Parsed(v, rest)) => Some(Parsed(Some(v), rest))
    else None
  }

  function DecodeInput(kind: nat, bytes: Bytes): Option<InputRecord> {
    match ParseBytes(bytes)
    case None => None
    case Some(Parsed(key, rest)) =>
      match ParseValue(rest)
      case None => None
      case Some(Parsed(value, rest')) =>
        match ParseVarint(rest')
        case None => None
        case Some(Parsed(changedAt, _)) => Some(InputRecord(DynKey(kind, key), InputEntry(value, changedAt)))
  }

  lemma {:induction false} ValueRoundTrip(value: Option<Value>, rest: Bytes)
    ensures ParseValue(EncodeValue(value) + rest) == Some(Parsed(value, rest))
  {
    var bytes := EncodeValue(value) + rest;
    if value.Some? {
      assert bytes[1..] == BytesField(value.value) + rest;
      BytesRoundTrip(value.value, rest);
    } else {
      assert bytes[1..] == rest;
    }
  }

  lemma {:induction false} InputRoundTrip(r: InputRecord)
    ensures DecodeInput(r.key.kind, EncodeInput(r)) == Some(r)
  {
    var value, last := EncodeValue(r.entry.value), Varint(r.entry.changedAt);
    BytesRoundTrip(r.key.key, value + last);
    ValueRoundTrip(r.entry.value, last);
    VarintRoundTrip(r.entry.changedAt, []);
    NothingAfter(last);
  }

  lemma NothingAfter(bytes: Bytes)
    ensures bytes + [] == bytes
  {}

  // ---------------------------------------------------------------------------
  // Derived records
  // ---------------------------------------------------------------------------

  function EncodeDep(d: Dep): Bytes {
    Varint(d.kind) + BytesField(d.key)
  }

  function ParseDep(bytes: Bytes): Option<Parsed<Dep>> {
    match ParseVarint(bytes)
    case None => None
    case Some(Parsed(kind, rest)) =>
      match ParseBytes(rest)
      case None => None
      case Some(Parsed(key, rest')) => Some(Parsed(DynKey(kind, key), rest'))
  }

  function EncodeDerived(r: DerivedRecord): Bytes {
    BytesField(r.key.key) + (BytesField(r.value) + (Varint(r.verifiedAt) + (Varint(r.changedAt)
    + (Varint(|r.deps|) + EncodeEach(r.deps, EncodeDep)))))
  }

  function DecodeDerived(kind: nat, bytes: Bytes): Option<DerivedRecord> {
    match ParseBytes(bytes)
    case None => None
    case Some(Parsed(key, rest)) =>
      match ParseBytes(rest)
      case None => None
      case Some(Parsed(value, rest)) =>
        match ParseVarint(rest)
        case None => None
        case Some(Parsed(verifiedAt, rest)) =>
          match ParseVarint(rest)
          case None => None
          case Some(Parsed(changedAt, rest)) =>
            match ParseVarint(rest)
            case None => None
            case Some(Parsed(count, rest)) =>
              match ParseEach(count, rest, ParseDep)
              case None => None
              case Some(Parsed(deps, _)) => Some(DerivedRecord(DynKey(kind, key), value, verifiedAt, changedAt, deps))
  }

  lemma {:induction false} DepReadsBack(d: Dep)
    ensures ReadsBack(d, EncodeDep, ParseDep)
  {
    forall rest ensures ParseDep(EncodeDep(d) + rest) == Some(Parsed(d, rest)) {
      RegroupPair(Varint(d.kind), BytesField(d.key), rest);
      VarintRoundTrip(d.kind, BytesField(d.key) + rest);
      BytesRoundTrip(d.key, rest);
    }
  }

  lemma {:induction false} DerivedRoundTrip(r: DerivedRecord)
    ensures DecodeDerived(r.key.kind, EncodeDerived(r)) == Some(r)
  {
    var deps := EncodeEach(r.deps, EncodeDep);
    forall d | d in r.deps ensures ReadsBack(d, EncodeDep, ParseDep) {
      DepReadsBack(d);
    }
    EachRoundTrip(r.deps, EncodeDep, ParseDep, []);
    NothingAfter(deps);
    VarintRoundTrip(|r.deps|, deps);
    VarintRoundTrip(r.changedAt, Varint(|r.deps|) + deps);
    VarintRoundTrip(r.verifiedAt, Varint(r.changedAt) + (Varint(|r.deps|) + deps));
    BytesRoundTrip(r.value, Varint(r.verifiedAt) + (Varint(r.changedAt) + (Varint(|r.deps|) + deps)));
    BytesRoundTrip(r.key.key,
                   BytesField(r.value) + (Varint(r.verifiedAt) + (Varint(r.changedAt) + (Varint(|r.deps|) + deps))));
  }

  // ---------------------------------------------------------------------------
  // The file
  // ---------------------------------------------------------------------------

  datatype File = File(formatVersion: nat, currentRevision: Revision, sections: seq<Section>)

  function TypeOfTag(tag: nat): Option<SectionType> {
    match tag
    case 0 => Some(Input)
    case 1 => Some(Derived)
    case 2 => Some(Interned)
    case _ => None
  }

  function ParseRecords(bytes: Bytes): Option<Parsed<seq<Bytes>>> {
    match ParseVarint(bytes)
    case None => None
    case Some(Parsed(count, rest)) => ParseEach(count, rest, ParseBytes)
  }

  function ParseType(bytes: Bytes): Option<Parsed<SectionType>> {
    match ParseVarint(bytes)
    case None => None
    case Some(Parsed(tag, rest)) =>
      match TypeOfTag(tag)
      case None => None
      case Some(ty) => Some(Parsed(ty, rest))
  }

  function ParseSection(bytes: Bytes): Option<Parsed<Section>> {
    match ParseVarint(bytes)
    case None => None
    case Some(Parsed(kindId, rest)) =>
      match ParseBytes(rest)
      case None => None
      case Some(Parsed(kindName, rest)) =>
        match ParseType(rest)
        case None => None
        case Some(Parsed(ty, rest)) =>
          match ParseRecords(rest)
          case None => None
          case Some(Parsed(records, rest)) => Some(Parsed(Section(kindId, kindName, ty, records), rest))
  }

  function DecodeFile(bytes: Bytes): Option<File> {
    match ParseVarint(bytes)
    case None => None
    case Some(Parsed(version, rest)) =>
      match ParseVarint(rest)
      case None => None
      case Some(Parsed(revision, rest)) =>
        match ParseVarint(rest)
        case None => None
        case Some(Parsed(count, rest)) =>
          match ParseEach(count, rest, ParseSection)
          case None => None
          case Some(Parsed(sections, _)) => Some(File(version, revision, sections))
  }

  lemma {:induction false} BytesReadBack(b: Bytes)
    ensures ReadsBack(b, BytesField, ParseBytes)
  {
    forall rest ensures ParseBytes(BytesField(b) + rest) == Some(Parsed(b, rest)) {
      BytesRoundTrip(b, rest);
    }
  }

  lemma {:induction false} SectionReadsBack(s: Section)
    ensures ReadsBack(s, EncodeSection, ParseSection)
  {
    forall rest ensures ParseSection(EncodeSection(s) + rest) == Some(Parsed(s, rest)) {
      SectionRoundTrip(s, rest);
    }
  }

  lemma {:induction false} RecordsRoundTrip(records: seq<Bytes>, rest: Bytes)
    ensures ParseRecords(EncodeRecords(records) + rest) == Some(Parsed(records, rest))
  {
    forall b | b in records ensures ReadsBack(b, BytesField, ParseBytes) {
      BytesReadBack(b);
    }
    EachRoundTrip(records, BytesField, ParseBytes, rest);
    VarintRoundTrip(|records|, EncodeEach(records, BytesField) + rest);
    RegroupPair(Varint(|records|), EncodeEach(records, BytesField), rest);
  }

  lemma RegroupPair(a: Bytes, b: Bytes, rest: Bytes)
    ensures (a + b) + rest == a + (b + rest)
  {}

  lemma Regroup(a: Bytes, b: Bytes, c: Bytes, d: Bytes, rest: Bytes)
    ensures (a + (b + (c + d))) + rest == a + (b + (c + (d + rest)))
  {}

  lemma {:induction false} TypeRoundTrip(ty: SectionType, rest: Bytes)
    ensures ParseType(Varint(Tag(ty)) + rest) == Some(Parsed(ty, rest))
  {
    VarintRoundTrip(Tag(ty), rest);
  }

  lemma {:induction false} SectionRoundTrip(s: Section, rest: Bytes)
    ensures ParseSection(EncodeSection(s) + rest) == Some(Parsed(s, rest))
  {
    var id, name := Varint(s.kindId), BytesField(s.kindName);
    var tag, records := Varint(Tag(s.sectionType)), EncodeRecords(s.records);
    Regroup(id, name, tag, records, rest);
    RecordsRoundTrip(s.records, rest);
    TypeRoundTrip(s.sectionType, records + rest);
    BytesRoundTrip(s.kindName, tag + (records + rest));
    VarintRoundTrip(s.kindId, name + (tag + (records + rest)));
  }

  /** What is written is what is read. */
  lemma {:induction false} FileRoundTrip(f: File)
    ensures DecodeFile(EncodeFile(f.formatVersion, f.currentRevision, f.sections)) == Some(f)
  {
    var sections := EncodeEach(f.sections, EncodeSection);
    forall s | s in f.sections ensures ReadsBack(s, EncodeSection, ParseSection) {
      SectionReadsBack(s);
    }
    EachRoundTrip(f.sections, EncodeSection, ParseSection, []);
    NothingAfter(sections);
    VarintRoundTrip(|f.sections|, sections);
    VarintRoundTrip(f.currentRevision, Varint(|f.sections|) + sections);
    VarintRoundTrip(f.formatVersion, Varint(f.currentRevision) + (Varint(|f.sections|) + sections));
  }
}
