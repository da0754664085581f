/**
 Runs of the engine in which a view takes over a result of another view that has been through the
 same inputs. In the first two the adoption test passes on a record that is wrong for the adopter.
 In the others the record is right, and taking it over lets later answers go wrong.
 */
module AdoptionRuns {
  import opened Keys
  import opened Semantics
  import opened Cells
  import opened Engine
  import opened Adoption
  import opened Copies
  import opened TakingOver
  import SharedCache

  /** The record is what a view in the engine's invariant holds in its cell, and so publishes. */
  ghost predicate Published(publisher: Database, k: DynKey, rec: Record)
    reads publisher, publisher.runtime
  {
    publisher.Valid() && publisher.program == COPIES
    && HeldIn(publisher.cells, publisher.runtime.currentRevision, k, rec)
  }

  predicate HeldIn(cells: CellMap, revision: Revision, k: DynKey, rec: Record) {
    && k in COPIES.queries && rec.verifiedAt == revision
    && CellAt(cells, k) == Ready(rec.value, rec.deps, rec.verifiedAt, rec.changedAt)
  }

  /** Two views of one family: their inputs were the same at every revision both have been through. */
  ghost predicate SharedPast(a: History, b: History) {
    forall r | 0 <= r < |a| && r < |b| :: a[r] == b[r]
  }

  lemma {:induction false} PrefixIsShared(a: History, b: History)
    requires a <= b
    ensures SharedPast(a, b) && SharedPast(b, a)
  {
    assert forall r | 0 <= r < |a| :: a[r] == b[r];
  }

  ghost function MomentOf(db: Database): Moment
    reads db
  {
    Moment(db.history, db.entries, db.cells)
  }

  // ---------------------------------------------------------------------------
  // Steps of the runs
  // ---------------------------------------------------------------------------

  /** The view has been through these inputs, and is between operations. */
  ghost predicate At(db: Database, history: History)
    reads db, db.runtime
  {
    && db.Valid() && db.stack == [] && db.program == COPIES && db.history == history
    && history[|history| - 1].Keys <= {INPUT}
  }

  lemma {:induction false} OnlyInput(entries: Entries, v: Value, revision: Revision)
    requires Values(entries).Keys <= {INPUT}
    ensures Values(entries[INPUT := InputEntry(Some(v), revision)]) == Only(v)
  {
    var now := Values(entries[INPUT := InputEntry(Some(v), revision)]);
    forall i | i in now ensures i == INPUT {
      assert i != INPUT ==> i in Values(entries);
    }
  }

  method Write(db: Database, v: Value, ghost history: History)
    requires At(db, history) && InputAnswer(history[|history| - 1], INPUT) != Outcome.Present(v)
    modifies db`entries, db`history, db.runtime`currentRevision, db.runtime`events
    ensures At(db, history + [Only(v)])
  {
    OnlyInput(db.entries, v, |history|);
    var _, _ := db.Set(INPUT, v);
  }

  method GetCopy(db: Database, k: DynKey, ghost v: Value, ghost history: History) returns (rec: Record)
    requires At(db, history) && Holds(history[|history| - 1], v) && k in COPIES.queries
    modifies db`cells, db`stack, db.runtime`depsByQuery, db.runtime`reverseDeps, db.runtime`events
    ensures At(db, history) && Published(db, k, rec)
    ensures rec.value == v && rec.deps == [CopiedBy(k)] && rec.changedAt <= rec.verifiedAt
    ensures CellAdvances(CellAt(old(db.cells), k), CellAt(db.cells, k), |history| - 1)
  {
    ghost var was := db.cells;
    CopiesEvaluate(Values(db.entries), v, k);
    var _, _ := db.Get(k);
    PublishedCellIsDerived(db, k);
    var c := db.cells[k];
    CopyReadsOne(Values(db.entries), k, c.deps, c.value);
    rec := SharedCache.Record(c.value, c.deps, c.changedAt, c.verifiedAt);
    assert CellAdvances(CellAt(was, k), CellAt(db.cells, k), db.runtime.currentRevision);
  }

  const AFTER_FIRST: History := [NO_INPUTS, Only(FIRST)]

  method StartAtFirst() returns (db: Database)
    ensures fresh(db) && fresh(db.runtime) && At(db, AFTER_FIRST) && db.cells == map[]
  {
    db := new Database(COPIES);
    assert db.history == [NO_INPUTS];
    Write(db, FIRST, [NO_INPUTS]);
  }

  /** All that is held is `COPY` of the first value, verified at some revision and unchanged since 1. */
  predicate OnlyFirstCopy(cells: CellMap, verifiedAt: Revision) {
    && COPY in cells && COPY_OF_COPY !in cells
    && cells[COPY] == CopyCell(COPY, FIRST, verifiedAt, 1)
  }

  method StartWithCopy() returns (db: Database)
    ensures fresh(db) && fresh(db.runtime) && At(db, AFTER_FIRST) && OnlyFirstCopy(db.cells, 1)
  {
    db := StartAtFirst();
    var _ := GetCopy(db, COPY, FIRST, AFTER_FIRST);
    db.Drop({COPY_OF_COPY});
  }

  /** A live view that missed the second value, and a record of a snapshot that did not. */
  method SecondPublished() returns (db: Database, publisher: Database, rec: Record)
    ensures fresh(db) && fresh(db.runtime) && fresh(publisher) && fresh(publisher.runtime)
    ensures db != publisher && db.runtime != publisher.runtime
    ensures At(db, FIRST_THEN_SECOND) && OnlyFirstCopy(db.cells, 1) && At(publisher, FIRST_THEN_SECOND)
    ensures Published(publisher, COPY_OF_COPY, rec) && rec == SharedCache.Record(SECOND, [COPY], 2, 2)
  {
    db := StartWithCopy();
    Write(db, SECOND, AFTER_FIRST);
    assert AFTER_FIRST + [Only(SECOND)] == FIRST_THEN_SECOND;
    publisher, rec := SnapshotPublishes(db);
  }

  method SnapshotPublishes(db: Database) returns (publisher: Database, rec: Record)
    requires At(db, FIRST_THEN_SECOND) && OnlyFirstCopy(db.cells, 1)
    ensures fresh(publisher) && fresh(publisher.runtime) && At(publisher, FIRST_THEN_SECOND)
    ensures Published(publisher, COPY_OF_COPY, rec) && rec == SharedCache.Record(SECOND, [COPY], 2, 2)
  {
    publisher := new Database.Snapshot(db);
    rec := GetCopy(publisher, COPY_OF_COPY, SECOND, FIRST_THEN_SECOND);
  }

  // ---------------------------------------------------------------------------
  // Wrong records that pass the test
  // ---------------------------------------------------------------------------

  lemma {:induction false} WrongRecordPasses(
    entries: Entries, cells: CellMap, revision: Revision, k: DynKey, rec: Record)
    requires k in {COPY, COPY_OF_COPY} && rec == SharedCache.Record(SECOND, [CopiedBy(k)], 2, 2)
    requires Values(entries) == Only(FIRST)
    requires if k == COPY then ChangedAt(entries, INPUT) <= 2 else OnlyFirstCopy(cells, revision)
    ensures TestPasses(COPIES, entries, cells, revision, rec)
    ensures Evaluate(COPIES, Values(entries), {}, k) != Outcome.Present(rec.value)
  {
    CopiesEvaluate(Values(entries), FIRST, k);
    OneDepPasses(entries, cells, CopiedBy(k), 2, revision);
  }

  /** The live view publishes a copy of the second value; a snapshot is still at the first. */
  method LaterPublished(k: DynKey) returns (parent: Database, snapshot: Database, rec: Record)
    requires k == COPY || k == COPY_OF_COPY
    ensures At(parent, FIRST_THEN_SECOND) && At(snapshot, AFTER_FIRST) && k !in snapshot.cells
    ensures k == COPY_OF_COPY ==> OnlyFirstCopy(snapshot.cells, 1)
    ensures Published(parent, k, rec) && rec == SharedCache.Record(SECOND, [CopiedBy(k)], 2, 2)
  {
    parent := StartWithCopy();
    snapshot := SnapshotWithout(parent, k);
    rec := PublishLater(parent, k);
  }

  method SnapshotWithout(db: Database, k: DynKey) returns (snapshot: Database)
    requires At(db, AFTER_FIRST) && OnlyFirstCopy(db.cells, 1)
    ensures fresh(snapshot) && fresh(snapshot.runtime)
    ensures At(snapshot, AFTER_FIRST) && k !in snapshot.cells
    ensures k == COPY_OF_COPY ==> OnlyFirstCopy(snapshot.cells, 1)
  {
    snapshot := new Database.Snapshot(db);
    snapshot.Drop({k});
  }

  method PublishLater(db: Database, k: DynKey) returns (rec: Record)
    requires At(db, AFTER_FIRST) && OnlyFirstCopy(db.cells, 1) && (k == COPY || k == COPY_OF_COPY)
    modifies db, db.runtime
    ensures At(db, FIRST_THEN_SECOND)
    ensures Published(db, k, rec) && rec == SharedCache.Record(SECOND, [CopiedBy(k)], 2, 2)
  {
    Write(db, SECOND, AFTER_FIRST);
    assert AFTER_FIRST + [Only(SECOND)] == FIRST_THEN_SECOND;
    rec := GetCopy(db, k, SECOND, FIRST_THEN_SECOND);
  }

  /**
   The record comes from a later revision: a snapshot taken at revision 1 passes the test on a record
   its parent published at revision 2, although the input it was computed from, directly or through
   another query, has a different value in the snapshot.
   */
  method OlderSnapshotAdoptsLaterRecord(k: DynKey) returns (parent: Database, snapshot: Database, rec: Record)
    requires k == COPY || k == COPY_OF_COPY
    ensures Published(parent, k, rec) && rec.deps == [CopiedBy(k)]
    ensures snapshot.Valid() && snapshot.program == COPIES && !CellAt(snapshot.cells, k).Ready?
    ensures SharedPast(parent.history, snapshot.history)
    ensures rec.verifiedAt > snapshot.runtime.currentRevision
    ensures TestPasses(COPIES, snapshot.entries, snapshot.cells, snapshot.runtime.currentRevision, rec)
    ensures Evaluate(COPIES, Values(snapshot.entries), {}, k) != Outcome.Present(rec.value)
  {
    parent, snapshot, rec := LaterPublished(k);
    WrongRecordPasses(snapshot.entries, snapshot.cells, 1, k, rec);
    PrefixIsShared(AFTER_FIRST, FIRST_THEN_SECOND);
  }

  /** The input gets its first value back, and `COPY` its old `changedAt`. */
  method ReturnToFirst(db: Database)
    requires At(db, FIRST_THEN_SECOND) && OnlyFirstCopy(db.cells, 1)
    modifies db, db.runtime
    ensures At(db, THERE_AND_BACK) && OnlyFirstCopy(db.cells, 3)
  {
    Write(db, FIRST, FIRST_THEN_SECOND);
    var _ := GetCopy(db, COPY, FIRST, THERE_AND_BACK);
    db.Drop({COPY_OF_COPY});
  }

  /**
   The record is older and its dependency is a query: the input goes from one value to another and
   back. The live view, which never saw the middle value, keeps the old `changedAt` of `COPY` and
   passes the test on a record computed from the middle value.
   */
  method BackdatedDepHidesChange() returns (db: Database, publisher: Database, rec: Record)
    ensures Published(publisher, COPY_OF_COPY, rec) && rec.deps == [COPY] && COPY in COPIES.queries
    ensures db.Valid() && db.program == COPIES && COPY_OF_COPY !in db.cells
    ensures SharedPast(publisher.history, db.history)
    ensures rec.verifiedAt < db.runtime.currentRevision
    ensures TestPasses(COPIES, db.entries, db.cells, db.runtime.currentRevision, rec)
    ensures Evaluate(COPIES, Values(db.entries), {}, COPY_OF_COPY) != Outcome.Present(rec.value)
  {
    db, publisher, rec := SecondPublished();
    ReturnToFirst(db);
    assert Published(publisher, COPY_OF_COPY, rec);
    WrongRecordPasses(db.entries, db.cells, 3, COPY_OF_COPY, rec);
    PrefixIsShared(publisher.history, db.history);
  }

  // ---------------------------------------------------------------------------
  // Right records that break what comes later
  // ---------------------------------------------------------------------------

  lemma {:induction false} MisledIsNotValid(db: Database)
    requires CanBeMisled(db.program, MomentOf(db))
    ensures !db.Valid()
  {
    if db.Valid() {
      if db.test == ByVerified {
        SoundByChanged(db.program, db.history, db.cells);
      }
      SoundIsNeverMisled(db.program, MomentOf(db));
    }
  }

  /** The view stores the record, as an adopter does. */
  method TakeOver(db: Database, k: DynKey, rec: Record, ghost v: Value, ghost history: History)
    requires At(db, history) && Holds(history[|history| - 1], v) && k in COPIES.queries
    requires rec.value == v && rec.deps == [CopiedBy(k)] && rec.changedAt <= rec.verifiedAt == |history| - 1
    modifies db`cells, db.runtime`depsByQuery, db.runtime`reverseDeps, db.runtime`events
    ensures db.cells == old(db.cells)[k := Ready(rec.value, rec.deps, rec.verifiedAt, rec.changedAt)]
    ensures InputsRecorded(history, db.entries) && Evaluate(COPIES, Values(db.entries), {}, k) == Outcome.Present(v)
  {
    CopiesEvaluate(Values(db.entries), v, k);
    CopyDerives(Values(db.entries), k, v);
    db.Install(k, rec.value, rec.deps, rec.changedAt, false);
  }

  lemma {:induction false} DependencyMisleads(m: Moment)
    requires m.history == FIRST_THEN_SECOND && InputsRecorded(m.history, m.entries)
    requires CellAt(m.cells, COPY) == CopyCell(COPY, FIRST, 1, 1)
    requires CellAt(m.cells, COPY_OF_COPY) == CopyCell(COPY_OF_COPY, SECOND, 2, 2)
    ensures CanBeMisled(COPIES, m)
  {
    WriteBackMisleads(m, FIRST);
  }

  method TakeSecond(db: Database, rec: Record)
    requires At(db, FIRST_THEN_SECOND) && OnlyFirstCopy(db.cells, 1) && rec == SharedCache.Record(SECOND, [COPY], 2, 2)
    modifies db`cells, db.runtime`depsByQuery, db.runtime`reverseDeps, db.runtime`events
    ensures db.cells == old(db.cells)[COPY_OF_COPY := Ready(rec.value, rec.deps, rec.verifiedAt, rec.changedAt)]
    ensures Evaluate(COPIES, Values(db.entries), {}, COPY_OF_COPY) == Outcome.Present(rec.value)
    ensures CanBeMisled(COPIES, MomentOf(db)) && !db.Valid()
  {
    TakeOver(db, COPY_OF_COPY, rec, SECOND, FIRST_THEN_SECOND);
    DependencyMisleads(MomentOf(db));
    MisledIsNotValid(db);
  }

  /**
   A record of the adopter's own revision, and right. The adopter still holds the old value of
   `COPY`, which the record did not read: when the input goes back to its first value, `COPY` keeps
   its `changedAt` and the revalidation of what was taken over passes.
   */
  method EqualRevisionAdoptionBreaks() returns (db: Database, publisher: Database, rec: Record)
    ensures Published(publisher, COPY_OF_COPY, rec) && rec.deps == [COPY] && COPY in COPIES.queries
    ensures publisher.history == db.history && db.program == COPIES
    ensures rec.verifiedAt == |db.history| - 1
    ensures Evaluate(COPIES, Values(db.entries), {}, COPY_OF_COPY) == Outcome.Present(rec.value)
    ensures CellAt(db.cells, COPY_OF_COPY) == Ready(rec.value, rec.deps, rec.verifiedAt, rec.changedAt)
    ensures CanBeMisled(COPIES, MomentOf(db)) && !db.Valid()
  {
    db, publisher, rec := SecondPublished();
    assert publisher.history == db.history == FIRST_THEN_SECOND;
    TakeSecond(db, rec);
    assert Published(publisher, COPY_OF_COPY, rec);
  }

  /** A view that has `COPY` of the first value, unchanged through there and back. */
  method KeptThroughout() returns (db: Database, rec: Record)
    ensures fresh(db) && fresh(db.runtime) && At(db, THERE_AND_BACK)
    ensures Published(db, COPY, rec) && rec == SharedCache.Record(FIRST, [INPUT], 1, 3)
  {
    db := StartWithCopy();
    Write(db, SECOND, AFTER_FIRST);
    assert AFTER_FIRST + [Only(SECOND)] == FIRST_THEN_SECOND;
    Write(db, FIRST, FIRST_THEN_SECOND);
    rec := GetCopy(db, COPY, FIRST, THERE_AND_BACK);
  }

  /** A view that computed a copy of the copy in the middle, and has lost `COPY` itself. */
  method CopyLost() returns (db: Database)
    ensures fresh(db) && fresh(db.runtime) && At(db, THERE_AND_BACK) && COPY !in db.cells
    ensures CellAt(db.cells, COPY_OF_COPY) == CopyCell(COPY_OF_COPY, SECOND, 2, 2)
  {
    db := StartAtFirst();
    Write(db, SECOND, AFTER_FIRST);
    assert AFTER_FIRST + [Only(SECOND)] == FIRST_THEN_SECOND;
    var _ := GetCopy(db, COPY_OF_COPY, SECOND, FIRST_THEN_SECOND);
    db.Drop({COPY});
    Write(db, FIRST, FIRST_THEN_SECOND);
  }

  lemma {:induction false} ReaderMisled(m: Moment)
    requires m.history == THERE_AND_BACK && InputsRecorded(m.history, m.entries)
    requires CellAt(m.cells, COPY) == CopyCell(COPY, FIRST, 3, 1)
    requires CellAt(m.cells, COPY_OF_COPY) == CopyCell(COPY_OF_COPY, SECOND, 2, 2)
    ensures Misled(COPIES, m, COPY_OF_COPY) && CanBeMisled(COPIES, m)
  {
    CopyMisled(m, COPY_OF_COPY, FIRST);
    MisledAtOnce(COPIES, m, COPY_OF_COPY);
  }

  method TakeWithoutCopy(rec: Record) returns (db: Database)
    requires rec == SharedCache.Record(FIRST, [INPUT], 1, 3)
    ensures fresh(db) && fresh(db.runtime) && db.program == COPIES && db.history == THERE_AND_BACK
    ensures CellAt(db.cells, COPY) == Ready(rec.value, rec.deps, rec.verifiedAt, rec.changedAt)
    ensures Evaluate(COPIES, Values(db.entries), {}, COPY) == Outcome.Present(rec.value)
    ensures Misled(COPIES, MomentOf(db), COPY_OF_COPY) && !db.Valid()
  {
    db := CopyLost();
    TakeOver(db, COPY, rec, FIRST, THERE_AND_BACK);
    ReaderMisled(MomentOf(db));
    MisledIsNotValid(db);
  }

  /**
   A right record of the adopter's own revision again, and no dependency is held that could be old.
   A reader is: it read another value of `COPY` than the one taken over, which looks older than the
   reader, and the reader's revalidation passes at once.
   */
  method OlderChangeMisleadsReader() returns (db: Database, publisher: Database, rec: Record)
    ensures Published(publisher, COPY, rec) && rec.deps == [INPUT]
    ensures publisher.history == db.history && db.program == COPIES
    ensures rec.verifiedAt == |db.history| - 1
    ensures Evaluate(COPIES, Values(db.entries), {}, COPY) == Outcome.Present(rec.value)
    ensures CellAt(db.cells, COPY) == Ready(rec.value, rec.deps, rec.verifiedAt, rec.changedAt)
    ensures Misled(COPIES, MomentOf(db), COPY_OF_COPY) && !db.Valid()
  {
    publisher, rec := KeptThroughout();
    db := TakeWithoutCopy(rec);
  }
}
