/**
 Saving a database to the bytes of a cache file under a size limit, and loading it from them.

 A limit may cost records. `Reopen` says what is left: a database in the engine's invariant, whose
 inputs are those of the saved one as soon as it holds any cell at all. This is where the order of
 dropping matters: a cell that outlived an input it read would answer wrongly.
 */
module Persist {
  import opened Keys
  import opened Postcard
  import opened Semantics
  import opened Cells
  import opened Engine
  import opened Runs
  import opened CacheFile
  import opened Records

  const FORMAT_VERSION: nat := 1

  datatype Ingredient = Ingredient(kindId: nat, kindName: Bytes, sectionType: SectionType)

  predicate UniqueKinds(ingredients: seq<Ingredient>) {
    forall i, j | 0 <= i < j < |ingredients| :: ingredients[i].kindId != ingredients[j].kindId
  }

  /** Before it occurs for the second time, no other kind id has. */
  ghost predicate RepeatsFirst(ingredients: seq<Ingredient>, id: nat) {
    exists i, j :: 0 <= i < j < |ingredients| && UniqueKinds(ingredients[..j])
      && ingredients[i].kindId == ingredients[j].kindId == id
  }

  /** The first kind id that occurs a second time, if any does. */
  method FindDuplicateKind(ingredients: seq<Ingredient>) returns (duplicate: Option<nat>)
    ensures duplicate.None? <==> UniqueKinds(ingredients)
    ensures duplicate.Some? ==> RepeatsFirst(ingredients, duplicate.value)
  {
    var seen: set<nat> := {};
    for j := 0 to |ingredients|
      invariant UniqueKinds(ingredients[..j])
      invariant forall id :: id in seen <==> exists i :: 0 <= i < j && ingredients[i].kindId == id
    {
      var id := ingredients[j].kindId;
      if id in seen {
        var i :| 0 <= i < j && ingredients[i].kindId == id;
        return Some(id);
      }
      seen := seen + {id};
    }
    assert ingredients[..|ingredients|] == ingredients;
    duplicate := None;
  }

  // ---------------------------------------------------------------------------
  // Saving
  // ---------------------------------------------------------------------------

  function InputsOfKind(kind: nat, inputs: seq<InputRecord>): (records: seq<Bytes>)
    ensures forall b :: b in records <==> exists r :: r in inputs && r.key.kind == kind && b == EncodeInput(r)
  {
    if inputs == [] then []
    else
      assert inputs == [inputs[0]] + inputs[1..];
      (if inputs[0].key.kind == kind then [EncodeInput(inputs[0])] else []) + InputsOfKind(kind, inputs[1..])
  }

  function DerivedOfKind(kind: nat, derived: seq<DerivedRecord>): (records: seq<Bytes>)
    ensures forall b :: b in records <==> exists r :: r in derived && r.key.kind == kind && b == EncodeDerived(r)
  {
    if derived == [] then []
    else
      assert derived == [derived[0]] + derived[1..];
      (if derived[0].key.kind == kind then [EncodeDerived(derived[0])] else []) + DerivedOfKind(kind, derived[1..])
  }

  /** The section of one ingredient; the records of interned tables are taken as they are. */
  function SectionOf(g: Ingredient, saved: Saved, interned: map<nat, seq<Bytes>>): Section {
    var records :=
      match g.sectionType
      case Input => InputsOfKind(g.kindId, saved.inputs)
      case Derived => DerivedOfKind(g.kindId, saved.derived)
      case Interned => if g.kindId in interned then interned[g.kindId] else [];
    Section(g.kindId, g.kindName, g.sectionType, records)
  }

  // What a section holds, from the database

  ghost function InputTable(kind: nat, entries: Entries): map<DynKey, Bytes> {
    map k | k in entries && k.kind == kind :: EncodeInput(InputRecord(k, entries[k]))
  }

  ghost function CellTable(kind: nat, cells: CellMap): map<DynKey, Bytes> {
    map k | k in cells && cells[k].Ready? && k.kind == kind ::
      EncodeDerived(DerivedRecord(k, cells[k].value, cells[k].verifiedAt, cells[k].changedAt, cells[k].deps))
  }

  /** One record for each key of the table, and no other. */
  ghost predicate OneEach(records: seq<Bytes>, table: map<DynKey, Bytes>) {
    |records| == |table| && forall b :: b in records <==> b in table.Values
  }

  /** The section of an ingredient: its id, name and type, and one record each of what the database holds of it. */
  ghost predicate HoldsAll(
    g: Ingredient, entries: Entries, cells: CellMap, interned: map<nat, seq<Bytes>>, s: Section)
  {
    && s.kindId == g.kindId && SameNameAndType(s, g)
    && match g.sectionType
       case Input => OneEach(s.records, InputTable(g.kindId, entries))
       case Derived => OneEach(s.records, CellTable(g.kindId, cells))
       case Interned => s.records == if g.kindId in interned then interned[g.kindId] else []
  }

  predicate SameNameAndType(s: Section, g: Ingredient) {
    s.kindName == g.kindName && s.sectionType == g.sectionType
  }

  ghost predicate AllHeld(
    ingredients: seq<Ingredient>, entries: Entries, cells: CellMap, interned: map<nat, seq<Bytes>>,
    sections: seq<Section>)
  {
    && |sections| == |ingredients|
    && forall i | 0 <= i < |sections| :: HoldsAll(ingredients[i], entries, cells, interned, sections[i])
  }

  ghost function InputKeys(kind: nat, inputs: seq<InputRecord>): set<DynKey> {
    set r | r in inputs && r.key.kind == kind :: r.key
  }

  lemma {:induction false} InputsCounted(kind: nat, inputs: seq<InputRecord>)
    requires forall i, j | 0 <= i < j < |inputs| :: inputs[i].key != inputs[j].key
    ensures |InputsOfKind(kind, inputs)| == |InputKeys(kind, inputs)|
    decreases |inputs|
  {
    if inputs != [] {
      InputsCounted(kind, inputs[1..]);
      FirstInputKey(kind, inputs);
    }
  }

  lemma {:induction false} FirstInputKey(kind: nat, inputs: seq<InputRecord>)
    requires inputs != [] && forall i, j | 0 <= i < j < |inputs| :: inputs[i].key != inputs[j].key
    ensures |InputKeys(kind, inputs)|
            == |InputKeys(kind, inputs[1..])| + if inputs[0].key.kind == kind then 1 else 0
  {
    var first, rest := inputs[0], inputs[1..];
    assert inputs == [first] + rest;
    assert first.key !in InputKeys(kind, rest);
    assert InputKeys(kind, inputs) == InputKeys(kind, rest) + if first.key.kind == kind then {first.key} else {};
  }

  lemma {:induction false} InputsAreHeld(kind: nat, inputs: seq<InputRecord>, entries: Entries)
    requires ListsInputs(inputs, entries)
    requires forall i, j | 0 <= i < j < |inputs| :: inputs[i].key != inputs[j].key
    ensures OneEach(InputsOfKind(kind, inputs), InputTable(kind, entries))
  {
    var table := InputTable(kind, entries);
    InputsCounted(kind, inputs);
    assert InputKeys(kind, inputs) == table.Keys;
    assert |table| == |table.Keys|;
    forall b | b in InputsOfKind(kind, inputs) ensures b in table.Values {
      var r :| r in inputs && r.key.kind == kind && b == EncodeInput(r);
      assert table[r.key] == b;
    }
    forall b | b in table.Values ensures b in InputsOfKind(kind, inputs) {
      var k :| k in table && table[k] == b;
      assert InputRecord(k, entries[k]) in inputs;
    }
  }

  ghost function DerivedKeys(kind: nat, derived: seq<DerivedRecord>): set<DynKey> {
    set r | r in derived && r.key.kind == kind :: r.key
  }

  lemma {:induction false} DerivedCounted(kind: nat, derived: seq<DerivedRecord>)
    requires forall i, j | 0 <= i < j < |derived| :: derived[i].key != derived[j].key
    ensures |DerivedOfKind(kind, derived)| == |DerivedKeys(kind, derived)|
    decreases |derived|
  {
    if derived != [] {
      DerivedCounted(kind, derived[1..]);
      FirstDerivedKey(kind, derived);
    }
  }

  lemma {:induction false} FirstDerivedKey(kind: nat, derived: seq<DerivedRecord>)
    requires derived != [] && forall i, j | 0 <= i < j < |derived| :: derived[i].key != derived[j].key
    ensures |DerivedKeys(kind, derived)|
            == |DerivedKeys(kind, derived[1..])| + if derived[0].key.kind == kind then 1 else 0
  {
    var first, rest := derived[0], derived[1..];
    assert derived == [first] + rest;
    assert first.key !in DerivedKeys(kind, rest);
    assert DerivedKeys(kind, derived) == DerivedKeys(kind, rest) + if first.key.kind == kind then {first.key} else {};
  }

  lemma {:induction false} CellsAreHeld(kind: nat, derived: seq<DerivedRecord>, cells: CellMap)
    requires ListsEveryReady(derived, cells)
    requires forall i, j | 0 <= i < j < |derived| :: derived[i].key != derived[j].key
    ensures OneEach(DerivedOfKind(kind, derived), CellTable(kind, cells))
  {
    var table := CellTable(kind, cells);
    DerivedCounted(kind, derived);
    forall r | r in derived && r.key.kind == kind ensures r.key in table && table[r.key] == EncodeDerived(r) {
      assert CellAt(cells, r.key) == CellOf(r);
    }
    forall k | k in table
      ensures exists r | r in derived :: r.key == k && k.kind == kind && table[k] == EncodeDerived(r)
    {
      var c := cells[k];
      assert DerivedRecord(k, c.value, c.verifiedAt, c.changedAt, c.deps) in derived;
    }
    assert DerivedKeys(kind, derived) == table.Keys;
    assert |table| == |table.Keys|;
    forall b | b in DerivedOfKind(kind, derived) ensures b in table.Values {
      var r :| r in derived && r.key.kind == kind && b == EncodeDerived(r);
      assert table[r.key] == b;
    }
    forall b | b in table.Values ensures b in DerivedOfKind(kind, derived) {
      var k :| k in table && table[k] == b;
      var r :| r in derived && r.key == k && table[k] == EncodeDerived(r);
    }
  }

  lemma {:induction false} SectionsAreHeld(
    ingredients: seq<Ingredient>, saved: Saved, interned: map<nat, seq<Bytes>>, sections: seq<Section>,
    entries: Entries, cells: CellMap)
    requires AreSections(ingredients, saved, interned, sections) && EachKeyOnce(saved)
    requires ListsInputs(saved.inputs, entries) && ListsEveryReady(saved.derived, cells)
    ensures AllHeld(ingredients, entries, cells, interned, sections)
  {
    forall i | 0 <= i < |sections| ensures HoldsAll(ingredients[i], entries, cells, interned, sections[i]) {
      InputsAreHeld(ingredients[i].kindId, saved.inputs, entries);
      CellsAreHeld(ingredients[i].kindId, saved.derived, cells);
    }
  }

  ghost predicate AreSections(
    ingredients: seq<Ingredient>, saved: Saved, interned: map<nat, seq<Bytes>>, sections: seq<Section>)
  {
    && |sections| == |ingredients|
    && forall i | 0 <= i < |sections| :: sections[i] == SectionOf(ingredients[i], saved, interned)
  }

  /** Everything but derived records is still there. */
  ghost predicate Whole(was: seq<Section>, now: seq<Section>)
    requires |now| == |was|
  {
    forall i, b | 0 <= i < |was| && was[i].sectionType != Derived && b in was[i].records :: b in now[i].records
  }

  /** Sections may have lost records, but others than derived ones only if no derived one is left. */
  ghost predicate Kept(was: seq<Section>, now: seq<Section>) {
    && |now| == |was|
    && (forall i | 0 <= i < |was| ::
          now[i] == Section(was[i].kindId, was[i].kindName, was[i].sectionType, now[i].records))
    && (forall i | 0 <= i < |was| :: multiset(now[i].records) <= multiset(was[i].records))
    && (forall i, b | 0 <= i < |was| && b in now[i].records :: b in was[i].records)
    && (HasRecord(now, Derived) ==> Whole(was, now))
  }

  lemma {:induction false} PrefixIsPart(part: seq<Bytes>, all: seq<Bytes>)
    requires part <= all
    ensures multiset(part) <= multiset(all)
  {
    assert all == part + all[|part|..];
  }

  lemma {:induction false} ShrunkIsKept(was: seq<Section>, now: seq<Section>, budget: nat)
    requires Shrunk(was, now, budget)
    ensures Kept(was, now)
  {
    var sorted := SortedSections(was);
    forall i | 0 <= i < |was| ensures multiset(now[i].records) <= multiset(was[i].records) {
      SortKeeps(was[i].records);
      PrefixIsPart(now[i].records, sorted[i].records);
    }
    forall i, b | 0 <= i < |was| && b in now[i].records ensures b in was[i].records {
      assert b in multiset(now[i].records) && b in multiset(was[i].records);
    }
    if HasRecord(now, Derived) {
      DerivedLeftMeansInputsWhole(was, now, budget);
      forall i, b | 0 <= i < |was| && was[i].sectionType != Derived && b in was[i].records ensures b in now[i].records {
        assert b in multiset(was[i].records);
        assert multiset(now[i].records) == multiset(was[i].records);
      }
    }
  }

  datatype SaveError = DuplicateKind(id: nat) | TooLarge(error: ShrinkError)

  /**
   What a limit does: nothing if the file fits, an error if the rest without the records does not, and
   otherwise just the records are dropped that have to go.
   */
  ghost predicate CutToLimit(
    version: nat, revision: Revision, was: seq<Section>, maxBytes: Option<nat>, now: seq<Section>,
    error: Option<ShrinkError>)
  {
    var full := |EncodeFile(version, revision, was)|;
    var overhead := full - RecordBytes(was);
    && 0 <= overhead
    && if maxBytes.None? || full <= maxBytes.value then error.None? && now == was
       else if overhead >= maxBytes.value then error == Some(OverheadTooLarge(overhead, maxBytes.value))
       else error.None? && Shrunk(was, now, maxBytes.value - overhead)
  }

  method Cut(revision: Revision, was: seq<Section>, maxBytes: Option<nat>)
    returns (r: Result<seq<Section>, ShrinkError>)
    ensures CutToLimit(FORMAT_VERSION, revision, was, maxBytes, if r.Ok? then r.value else [],
                       if r.Ok? then None else Some(r.error))
    ensures r.Ok? ==>
              && Kept(was, r.value)
              && (maxBytes.Some? ==> |EncodeFile(FORMAT_VERSION, revision, r.value)| <= maxBytes.value)
  {
    var cache := new CacheFile(FORMAT_VERSION, revision, was);
    SectionsSize(was);
    if maxBytes.Some? {
      var shrunk := cache.ShrinkToFit(maxBytes.value);
      if shrunk.Err? {
        return Err(shrunk.error);
      }
      if cache.sections != was {
        var overhead := |EncodeFile(FORMAT_VERSION, revision, was)| - RecordBytes(was);
        ShrunkIsKept(was, cache.sections, maxBytes.value - overhead);
      }
    }
    r := Ok(cache.sections);
  }

  method CollectSections(ingredients: seq<Ingredient>, saved: Saved, interned: map<nat, seq<Bytes>>)
    returns (sections: seq<Section>)
    ensures AreSections(ingredients, saved, interned, sections)
  {
    sections := [];
    for i := 0 to |ingredients|
      invariant AreSections(ingredients[..i], saved, interned, sections)
    {
      sections := sections + [SectionOf(ingredients[i], saved, interned)];
    }
    assert ingredients[..|ingredients|] == ingredients;
  }

  /** The bytes of the cache file, cut to the limit if there is one. */
  method SaveCache(db: Database, ingredients: seq<Ingredient>, interned: map<nat, seq<Bytes>>, maxBytes: Option<nat>)
    returns (r: Result<Bytes, SaveError>, ghost saved: Saved, ghost was: seq<Section>, ghost now: seq<Section>)
    requires db.Valid()
    ensures saved.currentRevision == db.runtime.currentRevision
    ensures ListsInputs(saved.inputs, db.entries) && ListsEveryReady(saved.derived, db.cells)
    ensures r.Err? && r.error.DuplicateKind? <==> !UniqueKinds(ingredients)
    ensures r.Err? && r.error.DuplicateKind? ==> RepeatsFirst(ingredients, r.error.id)
    ensures UniqueKinds(ingredients) ==>
              && AreSections(ingredients, saved, interned, was)
              && AllHeld(ingredients, db.entries, db.cells, interned, was)
              && CutToLimit(FORMAT_VERSION, saved.currentRevision, was, maxBytes, now,
                            if r.Ok? then None else Some(r.error.error))
    ensures r.Ok? ==>
              && Kept(was, now) && r.value == EncodeFile(FORMAT_VERSION, saved.currentRevision, now)
              && (maxBytes.Some? ==> |r.value| <= maxBytes.value)
  {
    was, now := [], [];
    var all := db.Save();
    saved := all;
    var duplicate := FindDuplicateKind(ingredients);
    if duplicate.Some? {
      return Err(DuplicateKind(duplicate.value)), saved, was, now;
    }
    var sections := CollectSections(ingredients, all, interned);
    was := sections;
    SectionsAreHeld(ingredients, saved, interned, was, db.entries, db.cells);
    var cut := Cut(all.currentRevision, sections, maxBytes);
    if cut.Err? {
      return Err(TooLarge(cut.error)), saved, was, now;
    }
    now := cut.value;
    r := Ok(EncodeFile(FORMAT_VERSION, all.currentRevision, cut.value));
  }

  // ---------------------------------------------------------------------------
  // Loading
  // ---------------------------------------------------------------------------

  datatype LoadError =
    | DuplicateIngredient(id: nat)
    | FileTooLarge
    | Undecodable
    | UnsupportedVersion(version: nat)
    | NameMismatch(id: nat)
    | TypeMismatch(id: nat)

  datatype Content = Content(inputs: seq<InputRecord>, derived: seq<DerivedRecord>)

  /** The records up to the first that cannot be decoded, and whether there is none. */
  function DecodeEach<T>(records: seq<Bytes>, decode: Bytes -> Option<T>): (r: (seq<T>, bool))
    ensures |r.0| <= |records| && (r.1 <==> |r.0| == |records|)
    ensures forall i | 0 <= i < |r.0| :: decode(records[i]) == Some(r.0[i])
    ensures |r.0| < |records| ==> decode(records[|r.0|]).None?
  {
    if records == [] then ([], true)
    else
      match decode(records[0])
      case None => ([], false)
      case Some(first) =>
        var (others, complete) := DecodeEach(records[1..], decode);
        ([first] + others, complete)
  }

  function InputDecoder(kind: nat): Bytes -> Option<InputRecord> {
    b => DecodeInput(kind, b)
  }

  function DerivedDecoder(kind: nat): Bytes -> Option<DerivedRecord> {
    b => DecodeDerived(kind, b)
  }

  function DecodeInputs(kind: nat, records: seq<Bytes>): (seq<InputRecord>, bool) {
    DecodeEach(records, InputDecoder(kind))
  }

  function DecodeDerivedEach(kind: nat, records: seq<Bytes>): (seq<DerivedRecord>, bool) {
    DecodeEach(records, DerivedDecoder(kind))
  }

  /** The ingredient of a kind, of which there is at most one. */
  function Find(ingredients: seq<Ingredient>, kindId: nat): (g: Option<Ingredient>)
    ensures g.None? <==> forall h | h in ingredients :: h.kindId != kindId
    ensures g.Some? ==> g.value in ingredients && g.value.kindId == kindId
  {
    if ingredients == [] then None
    else
      assert ingredients == [ingredients[0]] + ingredients[1..];
      if ingredients[0].kindId == kindId then Some(ingredients[0]) else Find(ingredients[1..], kindId)
  }

  /** What was loaded so far, and the error that stopped the load, if one did. */
  datatype Loading = Loading(content: Content, refusal: Option<LoadError>)

  /** Adds one section to what was loaded; a section of an unknown kind is ignored. */
  function LoadSection(s: Section, ingredients: seq<Ingredient>, c: Content): Loading {
    match Find(ingredients, s.kindId)
    case None => Loading(c, None)
    case Some(g) =>
      if s.kindName != g.kindName then Loading(c, Some(NameMismatch(s.kindId)))
      else if s.sectionType != g.sectionType then Loading(c, Some(TypeMismatch(s.kindId)))
      else
        match g.sectionType
        case Input =>
          var (inputs, complete) := DecodeInputs(s.kindId, s.records);
          Loading(Content(c.inputs + inputs, c.derived), if complete then None else Some(Undecodable))
        case Derived =>
          var (derived, complete) := DecodeDerivedEach(s.kindId, s.records);
          Loading(Content(c.inputs, c.derived + derived), if complete then None else Some(Undecodable))
        case Interned => Loading(c, None)
  }

  function LoadSections(sections: seq<Section>, ingredients: seq<Ingredient>): Loading
    decreases |sections|
  {
    if sections == [] then Loading(Content([], []), None)
    else
      var before := LoadSections(sections[..|sections| - 1], ingredients);
      if before.refusal.Some? then before
      else LoadSection(sections[|sections| - 1], ingredients, before.content)
  }

  // ---------------------------------------------------------------------------
  // What a load accepts, refuses and keeps
  // ---------------------------------------------------------------------------

  predicate AllDecode(s: Section) {
    match s.sectionType
    case Input => forall b | b in s.records :: InputDecoder(s.kindId)(b).Some?
    case Derived => forall b | b in s.records :: DerivedDecoder(s.kindId)(b).Some?
    case Interned => true
  }

  /** A section of a known kind has the name and the type of its ingredient, and all its records decode. */
  predicate Accepted(s: Section, ingredients: seq<Ingredient>) {
    var g := Find(ingredients, s.kindId);
    g.Some? ==> SameNameAndType(s, g.value) && AllDecode(s)
  }

  /** The error of the first failing test: the name, then the type, then the records. */
  predicate RefusedFor(s: Section, ingredients: seq<Ingredient>, e: LoadError) {
    var g := Find(ingredients, s.kindId);
    g.Some? && RefusedBy(s, g.value, e)
  }

  predicate RefusedBy(s: Section, g: Ingredient, e: LoadError) {
    if s.kindName != g.kindName then e == NameMismatch(s.kindId)
    else if s.sectionType != g.sectionType then e == TypeMismatch(s.kindId)
    else e == Undecodable && !AllDecode(s)
  }

  /** The section is of a given type, and there is an ingredient of its id, name and type. */
  predicate Fits(s: Section, ingredients: seq<Ingredient>, ty: SectionType) {
    s.sectionType == ty && Find(ingredients, s.kindId) == Some(Ingredient(s.kindId, s.kindName, ty))
  }

  /** The records of a section that reach an input ingredient, up to the first that does not decode. */
  function InputsIn(s: Section, ingredients: seq<Ingredient>): seq<InputRecord> {
    if Fits(s, ingredients, Input) then DecodeInputs(s.kindId, s.records).0 else []
  }

  function DerivedIn(s: Section, ingredients: seq<Ingredient>): seq<DerivedRecord> {
    if Fits(s, ingredients, Derived) then DecodeDerivedEach(s.kindId, s.records).0 else []
  }

  /** What is said of one section, for given ingredients. */
  datatype Rules = Rules(
    accepts: Section -> bool,
    refuses: (Section, LoadError) -> bool,
    inputs: Section -> seq<InputRecord>,
    derived: Section -> seq<DerivedRecord>)

  function RulesOf(ingredients: seq<Ingredient>): Rules {
    Rules(s => Accepted(s, ingredients), (s, e) => RefusedFor(s, ingredients, e),
          s => InputsIn(s, ingredients), s => DerivedIn(s, ingredients))
  }

  /** How many sections come before the first that is not accepted. */
  function FirstRefused(sections: seq<Section>, rules: Rules): (n: nat)
    ensures n <= |sections| && (n < |sections| ==> !rules.accepts(sections[n]))
    ensures forall i | 0 <= i < n :: rules.accepts(sections[i])
    decreases |sections|
  {
    if sections == [] then 0
    else
      var init := sections[..|sections| - 1];
      var n := FirstRefused(init, rules);
      assert forall i | 0 <= i < |init| :: init[i] == sections[i];
      if n == |init| && rules.accepts(sections[n]) then n + 1 else n
  }

  function Joined(c: Content, s: Section, rules: Rules): Content {
    Content(c.inputs + rules.inputs(s), c.derived + rules.derived(s))
  }

  /** All records of the sections, in order. */
  function ContentOf(sections: seq<Section>, rules: Rules): Content
    decreases |sections|
  {
    if sections == [] then Content([], [])
    else Joined(ContentOf(sections[..|sections| - 1], rules), sections[|sections| - 1], rules)
  }

  /** A load goes through the sections up to and including the first that is refused. */
  predicate LoadedAll(sections: seq<Section>, rules: Rules, l: Loading) {
    var n := FirstRefused(sections, rules);
    && (l.refusal.None? <==> n == |sections|)
    && (l.refusal.Some? ==> rules.refuses(sections[n], l.refusal.value))
    && l.content == ContentOf(if n < |sections| then sections[..n + 1] else sections, rules)
  }

  lemma {:induction false} LoadSectionMeans(s: Section, ingredients: seq<Ingredient>, c: Content)
    ensures GoesOn(c, s, RulesOf(ingredients), LoadSection(s, ingredients, c))
  {
    AllDecodeMeans(s);
  }

  predicate GoesOn(before: Content, s: Section, rules: Rules, next: Loading) {
    && (next.refusal.None? <==> rules.accepts(s))
    && (next.refusal.Some? ==> rules.refuses(s, next.refusal.value))
    && next.content == Joined(before, s, rules)
  }

  lemma {:induction false} AllDecodeMeans(s: Section)
    ensures s.sectionType == Input ==> (AllDecode(s) <==> DecodeInputs(s.kindId, s.records).1)
    ensures s.sectionType == Derived ==> (AllDecode(s) <==> DecodeDerivedEach(s.kindId, s.records).1)
    ensures s.sectionType == Interned ==> AllDecode(s)
  {
    CompleteMeans(s.records, InputDecoder(s.kindId));
    CompleteMeans(s.records, DerivedDecoder(s.kindId));
  }

  lemma {:induction false} CompleteMeans<T>(records: seq<Bytes>, decode: Bytes -> Option<T>)
    ensures DecodeEach(records, decode).1 <==> forall b | b in records :: decode(b).Some?
  {
    var n := |DecodeEach(records, decode).0|;
    if n < |records| {
      assert records[n] in records;
    }
  }

  lemma {:induction false} LoadSectionsMeans(sections: seq<Section>, ingredients: seq<Ingredient>)
    ensures LoadedAll(sections, RulesOf(ingredients), LoadSections(sections, ingredients))
    decreases |sections|
  {
    if sections != [] {
      var init, last := sections[..|sections| - 1], sections[|sections| - 1];
      LoadSectionsMeans(init, ingredients);
      var before := LoadSections(init, ingredients);
      if before.refusal.Some? {
        RefusedStays(sections, RulesOf(ingredients), before);
      } else {
        LoadSectionMeans(last, ingredients, before.content);
        OneSectionMore(sections, RulesOf(ingredients), before, LoadSection(last, ingredients, before.content));
      }
    }
  }

  lemma {:induction false} RefusedStays(sections: seq<Section>, rules: Rules, l: Loading)
    requires sections != [] && LoadedAll(sections[..|sections| - 1], rules, l) && l.refusal.Some?
    ensures LoadedAll(sections, rules, l)
  {
    var init := sections[..|sections| - 1];
    var n := FirstRefused(init, rules);
    assert sections[..n + 1] == init[..n + 1] && sections[n] == init[n];
  }

  lemma {:induction false} OneSectionMore(sections: seq<Section>, rules: Rules, before: Loading, next: Loading)
    requires sections != [] && LoadedAll(sections[..|sections| - 1], rules, before) && before.refusal.None?
    requires GoesOn(before.content, sections[|sections| - 1], rules, next)
    ensures LoadedAll(sections, rules, next)
  {
    assert sections[..|sections|] == sections;
  }

  /** The first section that is refused decides. */
  lemma {:induction false} RefusalStays(sections: seq<Section>, ingredients: seq<Ingredient>, n: nat)
    requires n <= |sections| && LoadSections(sections[..n], ingredients).refusal.Some?
    ensures LoadSections(sections, ingredients) == LoadSections(sections[..n], ingredients)
    decreases |sections|
  {
    if n == |sections| {
      assert sections[..n] == sections;
    } else {
      assert sections[..|sections| - 1][..n] == sections[..n];
      RefusalStays(sections[..|sections| - 1], ingredients, n);
    }
  }

  /**
   How a load ends: refused before anything was cleared, refused with what came before loaded in
   place of the old content and the revision left alone, or complete.
   */
  datatype LoadOutcome =
    | Untouched(error: LoadError)
    | Partial(content: Content, error: LoadError)
    | Complete(saved: Saved)

  ghost predicate ReadOutcome(bytes: Bytes, ingredients: seq<Ingredient>, r: LoadOutcome) {
    match DecodeFile(bytes)
    case None => r == Untouched(Undecodable)
    case Some(file) =>
      if file.formatVersion != FORMAT_VERSION then r == Untouched(UnsupportedVersion(file.formatVersion))
      else
        var loading := LoadSections(file.sections, ingredients);
        && LoadedAll(file.sections, RulesOf(ingredients), loading)
        && r == if loading.refusal.Some? then Partial(loading.content, loading.refusal.value)
             else Complete(Saved(file.currentRevision, loading.content.inputs, loading.content.derived))
  }

  /** What a cache file holds for the given ingredients, and each reason to refuse it, for any bytes. */
  method ReadCache(bytes: Bytes, ingredients: seq<Ingredient>, maxBytes: Option<nat>) returns (r: LoadOutcome)
    ensures !UniqueKinds(ingredients) ==>
              r.Untouched? && r.error.DuplicateIngredient? && RepeatsFirst(ingredients, r.error.id)
    ensures UniqueKinds(ingredients) && maxBytes.Some? && |bytes| > maxBytes.value ==> r == Untouched(FileTooLarge)
    ensures UniqueKinds(ingredients) && (maxBytes.Some? ==> |bytes| <= maxBytes.value) ==>
              ReadOutcome(bytes, ingredients, r)
  {
    var duplicate := FindDuplicateKind(ingredients);
    if duplicate.Some? {
      return Untouched(DuplicateIngredient(duplicate.value));
    }
    if maxBytes.Some? && |bytes| > maxBytes.value {
      return Untouched(FileTooLarge);
    }
    var decoded := DecodeFile(bytes);
    if decoded.None? {
      return Untouched(Undecodable);
    }
    var file := decoded.value;
    if file.formatVersion != FORMAT_VERSION {
      return Untouched(UnsupportedVersion(file.formatVersion));
    }
    var loading := LoadEach(file.sections, ingredients);
    LoadSectionsMeans(file.sections, ingredients);
    r := if loading.refusal.Some? then Partial(loading.content, loading.refusal.value)
         else Complete(Saved(file.currentRevision, loading.content.inputs, loading.content.derived));
  }

  method LoadEach(sections: seq<Section>, ingredients: seq<Ingredient>) returns (r: Loading)
    ensures r == LoadSections(sections, ingredients)
  {
    r := Loading(Content([], []), None);
    for i := 0 to |sections|
      invariant LoadSections(sections[..i], ingredients) == r && r.refusal.None?
    {
      assert sections[..i + 1][..i] == sections[..i];
      r := LoadSection(sections[i], ingredients, r.content);
      if r.refusal.Some? {
        RefusalStays(sections, ingredients, i + 1);
        return;
      }
    }
    assert sections[..|sections|] == sections;
  }

  // ---------------------------------------------------------------------------
  // Reading back what was saved
  // ---------------------------------------------------------------------------

  lemma {:induction false} InputsReadBack(kind: nat, records: seq<Bytes>, inputs: seq<InputRecord>)
    requires forall b | b in records :: b in InputsOfKind(kind, inputs)
    ensures DecodeInputs(kind, records).1
    ensures forall r | r in DecodeInputs(kind, records).0 :: r in inputs
    ensures forall r | r in inputs && r.key.kind == kind && EncodeInput(r) in records ::
              r in DecodeInputs(kind, records).0
    decreases |records|
  {
    if records != [] {
      assert records == [records[0]] + records[1..];
      assert records[0] in InputsOfKind(kind, inputs);
      var first :| first in inputs && first.key.kind == kind && records[0] == EncodeInput(first);
      InputRoundTrip(first);
      InputsReadBack(kind, records[1..], inputs);
      forall r | r in inputs && r.key.kind == kind && EncodeInput(r) == records[0] ensures r == first {
        InputRoundTrip(r);
      }
    }
  }

  lemma {:induction false} DerivedReadBack(kind: nat, records: seq<Bytes>, derived: seq<DerivedRecord>)
    requires forall b | b in records :: b in DerivedOfKind(kind, derived)
    ensures DecodeDerivedEach(kind, records).1
    ensures |DecodeDerivedEach(kind, records).0| == |records|
    ensures forall r | r in DecodeDerivedEach(kind, records).0 :: r in derived
    ensures forall r | r in derived && r.key.kind == kind && EncodeDerived(r) in records ::
              r in DecodeDerivedEach(kind, records).0
    decreases |records|
  {
    if records != [] {
      assert records == [records[0]] + records[1..];
      assert records[0] in DerivedOfKind(kind, derived);
      var first :| first in derived && first.key.kind == kind && records[0] == EncodeDerived(first);
      DerivedRoundTrip(first);
      DerivedReadBack(kind, records[1..], derived);
      forall r | r in derived && r.key.kind == kind && EncodeDerived(r) == records[0] ensures r == first {
        DerivedRoundTrip(r);
      }
    }
  }

  /** Of a saved file, the first `n` sections: nothing made up, and nothing overlooked. */
  ghost predicate ReadSoFar(ingredients: seq<Ingredient>, saved: Saved, now: seq<Section>, n: nat, c: Content)
    requires n <= |now| == |ingredients|
  {
    && (forall r | r in c.inputs :: r in saved.inputs)
    && (forall r | r in c.derived :: r in saved.derived)
    && (c.derived != [] ==> HasRecord(now, Derived))
    && (forall i, r | 0 <= i < n && ingredients[i].sectionType == Input && r in saved.inputs
                      && r.key.kind == ingredients[i].kindId && EncodeInput(r) in now[i].records :: r in c.inputs)
    && (forall i, r | 0 <= i < n && ingredients[i].sectionType == Derived && r in saved.derived
                      && r.key.kind == ingredients[i].kindId && EncodeDerived(r) in now[i].records :: r in c.derived)
  }

  lemma {:induction false} NextSectionLoads(
    ingredients: seq<Ingredient>, saved: Saved, interned: map<nat, seq<Bytes>>, was: seq<Section>, now: seq<Section>,
    i: nat, c: Content)
    requires AreSections(ingredients, saved, interned, was) && Kept(was, now) && i < |now|
    requires Find(ingredients, ingredients[i].kindId) == Some(ingredients[i])
    requires ReadSoFar(ingredients, saved, now, i, c)
    ensures LoadSection(now[i], ingredients, c).refusal.None?
    ensures ReadSoFar(ingredients, saved, now, i + 1, LoadSection(now[i], ingredients, c).content)
  {
    var g := ingredients[i];
    assert was[i] == SectionOf(g, saved, interned);
    match g.sectionType
    case Input => NextInputsLoad(ingredients, saved, now, i, c);
    case Derived => NextDerivedLoad(ingredients, saved, now, i, c);
    case Interned =>
  }

  lemma {:induction false} NextInputsLoad(
    ingredients: seq<Ingredient>, saved: Saved, now: seq<Section>, i: nat, c: Content)
    requires i < |now| == |ingredients| && ingredients[i].sectionType == Input
    requires forall b | b in now[i].records :: b in InputsOfKind(ingredients[i].kindId, saved.inputs)
    requires ReadSoFar(ingredients, saved, now, i, c)
    ensures var (inputs, complete) := DecodeInputs(ingredients[i].kindId, now[i].records);
            complete && ReadSoFar(ingredients, saved, now, i + 1, Content(c.inputs + inputs, c.derived))
  {
    InputsReadBack(ingredients[i].kindId, now[i].records, saved.inputs);
  }

  lemma {:induction false} NextDerivedLoad(
    ingredients: seq<Ingredient>, saved: Saved, now: seq<Section>, i: nat, c: Content)
    requires i < |now| == |ingredients| && ingredients[i].sectionType == now[i].sectionType == Derived
    requires forall b | b in now[i].records :: b in DerivedOfKind(ingredients[i].kindId, saved.derived)
    requires ReadSoFar(ingredients, saved, now, i, c)
    ensures var (derived, complete) := DecodeDerivedEach(ingredients[i].kindId, now[i].records);
            complete && ReadSoFar(ingredients, saved, now, i + 1, Content(c.inputs, c.derived + derived))
  {
    DerivedReadBack(ingredients[i].kindId, now[i].records, saved.derived);
  }

  lemma {:induction false} FindsItself(ingredients: seq<Ingredient>, i: nat)
    requires UniqueKinds(ingredients) && i < |ingredients|
    ensures Find(ingredients, ingredients[i].kindId) == Some(ingredients[i])
  {
    assert ingredients[i] in ingredients;
  }

  lemma {:induction false} SavedSectionsLoad(
    ingredients: seq<Ingredient>, saved: Saved, interned: map<nat, seq<Bytes>>, was: seq<Section>, now: seq<Section>,
    n: nat)
    requires UniqueKinds(ingredients) && AreSections(ingredients, saved, interned, was) && Kept(was, now) && n <= |now|
    ensures LoadSections(now[..n], ingredients).refusal.None?
    ensures ReadSoFar(ingredients, saved, now, n, LoadSections(now[..n], ingredients).content)
    decreases n
  {
    if 0 < n {
      assert now[..n][..n - 1] == now[..n - 1];
      SavedSectionsLoad(ingredients, saved, interned, was, now, n - 1);
      FindsItself(ingredients, n - 1);
      NextSectionLoads(ingredients, saved, interned, was, now, n - 1, LoadSections(now[..n - 1], ingredients).content);
    }
  }

  /** The inputs a content lists, as entries. */
  ghost function EntriesListed(entries: Entries, inputs: seq<InputRecord>): Entries {
    map k | k in entries && InputRecord(k, entries[k]) in inputs :: entries[k]
  }

  ghost predicate InputsCovered(ingredients: seq<Ingredient>, entries: Entries) {
    forall k | k in entries :: exists i ::
      0 <= i < |ingredients| && ingredients[i].kindId == k.kind && ingredients[i].sectionType == Input
  }

  lemma {:induction false} WholeListsAll(
    ingredients: seq<Ingredient>, saved: Saved, interned: map<nat, seq<Bytes>>, was: seq<Section>, now: seq<Section>,
    entries: Entries, c: Content)
    requires AreSections(ingredients, saved, interned, was) && Kept(was, now) && Whole(was, now)
    requires ReadSoFar(ingredients, saved, now, |now|, c)
    requires ListsInputs(saved.inputs, entries) && InputsCovered(ingredients, entries)
    ensures EntriesListed(entries, c.inputs) == entries
  {
    forall k | k in entries ensures InputRecord(k, entries[k]) in c.inputs {
      var r := InputRecord(k, entries[k]);
      var i :| 0 <= i < |ingredients| && ingredients[i].kindId == k.kind && ingredients[i].sectionType == Input;
      assert was[i] == SectionOf(ingredients[i], saved, interned);
      assert EncodeInput(r) in InputsOfKind(k.kind, saved.inputs);
      assert EncodeInput(r) in was[i].records;
    }
  }

  ghost predicate CellsCovered(ingredients: seq<Ingredient>, cells: CellMap) {
    forall k | k in cells && cells[k].Ready? :: exists i ::
      0 <= i < |ingredients| && ingredients[i].kindId == k.kind && ingredients[i].sectionType == Derived
  }

  /** From a file that was not cut, every ready cell of a covered kind comes back. */
  lemma {:induction false} UncutListsEveryReady(
    ingredients: seq<Ingredient>, saved: Saved, interned: map<nat, seq<Bytes>>, was: seq<Section>, cells: CellMap,
    c: Content)
    requires AreSections(ingredients, saved, interned, was) && ReadSoFar(ingredients, saved, was, |was|, c)
    requires ListsEveryReady(saved.derived, cells) && CellsCovered(ingredients, cells)
    ensures ListsEveryReady(c.derived, cells)
  {
    forall k | k in cells && cells[k].Ready?
      ensures DerivedRecord(k, cells[k].value, cells[k].verifiedAt, cells[k].changedAt, cells[k].deps) in c.derived
    {
      var r := DerivedRecord(k, cells[k].value, cells[k].verifiedAt, cells[k].changedAt, cells[k].deps);
      var i :| 0 <= i < |ingredients| && ingredients[i].kindId == k.kind && ingredients[i].sectionType == Derived;
      assert was[i] == SectionOf(ingredients[i], saved, interned);
      assert EncodeDerived(r) in DerivedOfKind(k.kind, saved.derived);
    }
  }

  /** With no cells, any part of the inputs is a sound state by itself. */
  ghost function Constant(entries: Entries, revision: Revision): History {
    seq(revision + 1, _ => Values(entries))
  }

  lemma {:induction false} ConstantIsRecorded(history: History, all: Entries, entries: Entries)
    requires InputsRecorded(history, all)
    requires forall k | k in entries :: k in all && entries[k] == all[k]
    ensures InputsRecorded(Constant(entries, |history| - 1), entries)
  {
    forall i: DynKey ensures ChangedAt(entries, i) < |history| {
      assert ChangedAt(all, i) < |history|;
    }
  }

  method OpenSaved(
    program: Program, saved: Saved, ghost all: Entries, ghost cells: CellMap, ghost history: History, ghost test: Test)
    returns (db: Database)
    requires |history| == saved.currentRevision + 1 && InputsRecorded(history, all)
    requires CellsSound(test, program, history, cells)
    requires forall r | r in saved.inputs :: r.key in all && all[r.key] == r.entry
    requires ListsSomeReady(saved.derived, cells)
    requires saved.derived != [] ==> EntriesListed(all, saved.inputs) == all
    ensures db.Valid() && fresh(db) && fresh(db.runtime) && db.stack == [] && db.program == program
    ensures db.entries == EntriesListed(all, saved.inputs) && db.runtime.currentRevision == saved.currentRevision
    ensures forall k | k in db.cells :: k in cells && db.cells[k] == cells[k]
    ensures saved.derived == [] ==> db.cells == map[]
    ensures db.runtime.depsByQuery == DepsOfReady(db.cells) && forall r | r in saved.derived :: r.key in db.cells
  {
    ghost var listed := EntriesListed(all, saved.inputs);
    ghost var none: CellMap := map[];
    ghost var past := if saved.derived == [] then Constant(listed, saved.currentRevision) else history;
    ConstantIsRecorded(history, all, listed);
    db := new Database.Load(program, saved, listed, if saved.derived == [] then none else cells, past, test);
  }

  /** The bytes of a saved database, read back for the same ingredients. */
  method SaveAndRead(db: Database, ingredients: seq<Ingredient>, interned: map<nat, seq<Bytes>>, maxBytes: Option<nat>)
    returns (r: Result<Saved, SaveError>, ghost saved: Saved, ghost was: seq<Section>, ghost now: seq<Section>)
    requires db.Valid()
    ensures ListsInputs(saved.inputs, db.entries) && ListsEveryReady(saved.derived, db.cells)
    ensures maxBytes.None? && UniqueKinds(ingredients) ==> r.Ok?
    ensures r.Ok? ==>
              && r.value.currentRevision == db.runtime.currentRevision
              && AreSections(ingredients, saved, interned, was) && Kept(was, now)
              && ReadSoFar(ingredients, saved, now, |now|, Content(r.value.inputs, r.value.derived))
              && (maxBytes.None? ==> now == was)
  {
    var bytes;
    bytes, saved, was, now := SaveCache(db, ingredients, interned, maxBytes);
    if bytes.Err? {
      return Err(bytes.error), saved, was, now;
    }
    var loaded := ReadBack(bytes.value, ingredients, maxBytes, saved, interned, was, now);
    r := Ok(loaded);
  }

  method ReadBack(
    bytes: Bytes, ingredients: seq<Ingredient>, maxBytes: Option<nat>, ghost saved: Saved,
    ghost interned: map<nat, seq<Bytes>>, ghost was: seq<Section>, ghost now: seq<Section>)
    returns (r: Saved)
    requires bytes == EncodeFile(FORMAT_VERSION, saved.currentRevision, now)
    requires UniqueKinds(ingredients) && (maxBytes.Some? ==> |bytes| <= maxBytes.value)
    requires AreSections(ingredients, saved, interned, was) && Kept(was, now)
    ensures r.currentRevision == saved.currentRevision
    ensures ReadSoFar(ingredients, saved, now, |now|, Content(r.inputs, r.derived))
  {
    FileRoundTrip(File(FORMAT_VERSION, saved.currentRevision, now));
    SavedSectionsLoad(ingredients, saved, interned, was, now, |now|);
    assert now[..|now|] == now;
    var loaded := ReadCache(bytes, ingredients, maxBytes);
    r := loaded.saved;
  }

  /**
   Saves under a limit and loads what was written. The loaded database holds part of the inputs,
   all of them if there was no limit or if it holds any cell; its cells are some of those saved, all
   ready ones if there was no limit; and it is in the engine's invariant, so that it answers by naive
   evaluation on its inputs. Without a limit it also announces changes as the saved one did.
   */
  method Reopen(db: Database, ingredients: seq<Ingredient>, interned: map<nat, seq<Bytes>>, maxBytes: Option<nat>)
    returns (r: Result<Database, SaveError>)
    requires db.Valid() && InputsCovered(ingredients, db.entries)
    ensures maxBytes.None? && UniqueKinds(ingredients) ==> r.Ok?
    ensures r.Ok? ==>
              var next := r.value;
              && next.Valid() && fresh(next) && fresh(next.runtime) && next.stack == [] && next.program == db.program
              && next.runtime.currentRevision == db.runtime.currentRevision
              && (forall k | k in next.entries :: k in db.entries && next.entries[k] == db.entries[k])
              && (forall k | k in next.cells :: k in db.cells && next.cells[k] == db.cells[k])
              && (next.cells != map[] || maxBytes.None? ==> next.entries == db.entries)
              && (maxBytes.None? && CellsCovered(ingredients, db.cells) ==>
                    && (forall k | k in db.cells && db.cells[k].Ready? :: k in next.cells)
                    && (db.Untruncated() ==> next.Untruncated()))
  {
    var read, saved, was, now := SaveAndRead(db, ingredients, interned, maxBytes);
    if read.Err? {
      return Err(read.error);
    }
    ghost var content := Content(read.value.inputs, read.value.derived);
    if Whole(was, now) {
      WholeListsAll(ingredients, saved, interned, was, now, db.entries, content);
    }
    var next := OpenSaved(db.program, read.value, db.entries, db.cells, db.history, db.test);
    if maxBytes.None? && CellsCovered(ingredients, db.cells) {
      UncutListsEveryReady(ingredients, saved, interned, was, db.cells, content);
      NoCellLost(db, next, read.value.derived);
    }
    r := Ok(next);
  }

  lemma {:induction false} NoCellLost(db: Database, next: Database, derived: seq<DerivedRecord>)
    requires ListsEveryReady(derived, db.cells) && forall r | r in derived :: r.key in next.cells
    requires forall k | k in next.cells :: k in db.cells && next.cells[k] == db.cells[k]
    requires next.program == db.program && next.runtime.currentRevision == db.runtime.currentRevision
    requires next.runtime.depsByQuery == DepsOfReady(next.cells)
    ensures forall k | k in db.cells && db.cells[k].Ready? :: k in next.cells
    ensures db.Untruncated() ==> next.Untruncated()
  {
    forall k | k in db.cells && db.cells[k].Ready? ensures k in next.cells {
      var c := db.cells[k];
      assert DerivedRecord(k, c.value, c.verifiedAt, c.changedAt, c.deps) in derived;
    }
    if db.Untruncated() {
      AllReadyStayTogether(db.program, derived, db.cells, next.cells, db.runtime.currentRevision);
      LoadedUntruncated(next);
    }
  }

  /** A run that goes on in the reopened database is answered from the inputs that were kept. */
  method RunAcrossFile(program: Program, before: seq<Op>, ingredients: seq<Ingredient>, interned: map<nat, seq<Bytes>>,
                       maxBytes: Option<nat>, after: seq<Op>)
    returns (r: Result<seq<Reply>, SaveError>, kept: Entries)
    requires forall op | op in before + after :: Applicable(program, op)
    requires InputsCovered(ingredients, StoreAfterAll(Store(0, map[]), before).entries)
    ensures var store := StoreAfterAll(Store(0, map[]), before);
            && (maxBytes.None? && UniqueKinds(ingredients) ==> r.Ok?)
            && (r.Ok? ==>
              && (forall k | k in kept :: k in store.entries && kept[k] == store.entries[k])
              && (maxBytes.None? ==> kept == store.entries)
              && r.value == Reference(program, Store(store.revision, kept), after))
  {
    var db := new Database(program);
    var live, _ := RunOn(db, before);
    var reopened := Reopen(live, ingredients, interned, maxBytes);
    kept := map[];
    if reopened.Err? {
      return Err(reopened.error), kept;
    }
    kept := reopened.value.entries;
    var _, replies := RunOn(reopened.value, after);
    r := Ok(replies);
  }
}
