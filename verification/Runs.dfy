/**
 Whole runs. `Reference` answers a sequence of operations with no cache at all: it keeps the input
 entries and evaluates queries naively. `Run` performs the same operations on databases, in any
 order, dropping cells, reloading truncated saves and moving to snapshots on the way. Its contract
 says that the two give the same replies.
 */
module Runs {
  import opened Keys
  import opened Semantics
  import opened Cells
  import opened Engine

  datatype Op =
    | SetInput(key: DynKey, value: Value)
    | RemoveInput(key: DynKey)
    | GetQuery(key: DynKey)
    | TouchQuery(key: DynKey)
    | DropCells(keys: set<DynKey>)
    | SaveAndLoad(lost: set<DynKey>)
    | TakeSnapshot

  /** What the caller of an operation sees. A touch shows only whether and how it failed. */
  datatype Reply =
    | Written(revision: Revision)
    | Evaluated(outcome: Outcome)
    | Touched(failure: Option<Outcome>)
    | Silent

  /** Operations after which no query has lost its cell. */
  predicate KeepsCells(op: Op) {
    match op
    case DropCells(_) => false
    case SaveAndLoad(lost) => lost == {}
    case TakeSnapshot => false
    case _ => true
  }

  predicate Applicable(p: Program, op: Op) {
    match op
    case SetInput(k, _) => k !in p.queries
    case RemoveInput(k) => k !in p.queries
    case GetQuery(k) => k in p.queries
    case TouchQuery(k) => k in p.queries
    case _ => true
  }

  // ---------------------------------------------------------------------------
  // The reference: input entries and naive evaluation
  // ---------------------------------------------------------------------------

  datatype Store = Store(revision: Revision, entries: Entries)

  function WriteEntry(s: Store, k: DynKey, value: Option<Value>): Store {
    Store(s.revision + 1, s.entries[k := InputEntry(value, s.revision + 1)])
  }

  function StoreAfter(s: Store, op: Op): Store {
    match op
    case SetInput(k, v) => if InputAnswer(Values(s.entries), k) == Present(v) then s else WriteEntry(s, k, Some(v))
    case RemoveInput(k) => if InputAnswer(Values(s.entries), k) == Absent then s else WriteEntry(s, k, None)
    case _ => s
  }

  function ReplyOf(p: Program, s: Store, op: Op): Reply
    requires Applicable(p, op)
  {
    match op
    case SetInput(k, _) => Written(ChangedAt(StoreAfter(s, op).entries, k))
    case RemoveInput(k) => Written(ChangedAt(StoreAfter(s, op).entries, k))
    case GetQuery(k) => Evaluated(Evaluate(p, Values(s.entries), {}, k))
    case TouchQuery(k) =>
      var o := Evaluate(p, Values(s.entries), {}, k);
      Touched(if o.Present? then None else Some(o))
    case _ => Silent
  }

  function Reference(p: Program, s: Store, ops: seq<Op>): (replies: seq<Reply>)
    requires forall op | op in ops :: Applicable(p, op)
    ensures |replies| == |ops|
    decreases |ops|
  {
    if ops == [] then [] else [ReplyOf(p, s, ops[0])] + Reference(p, StoreAfter(s, ops[0]), ops[1..])
  }

  function StoreAfterAll(s: Store, ops: seq<Op>): Store
    decreases |ops|
  {
    if ops == [] then s else StoreAfterAll(StoreAfter(s, ops[0]), ops[1..])
  }

  lemma {:induction false} ReferenceExtend(p: Program, s: Store, ops: seq<Op>, op: Op)
    requires forall o | o in ops + [op] :: Applicable(p, o)
    ensures StoreAfterAll(s, ops + [op]) == StoreAfter(StoreAfterAll(s, ops), op)
    ensures Reference(p, s, ops + [op]) == Reference(p, s, ops) + [ReplyOf(p, StoreAfterAll(s, ops), op)]
    decreases |ops|
  {
    var all := ops + [op];
    if ops == [] {
      assert all[1..] == [];
    } else {
      assert all[1..] == ops[1..] + [op];
      ReferenceExtend(p, StoreAfter(s, ops[0]), ops[1..], op);
    }
  }

  // ---------------------------------------------------------------------------
  // The engine
  // ---------------------------------------------------------------------------

  /**
   Saves a database, loses the records of some cells, and loads the rest into a fresh one. If no
   cell was lost, later writes announce changes as they would have before.
   */
  method Reload(db: Database, lost: set<DynKey>) returns (next: Database)
    requires db.Valid() && db.stack == []
    ensures next.Valid() && fresh(next) && fresh(next.runtime) && next.stack == [] && next.program == db.program
    ensures next.entries == db.entries && next.runtime.currentRevision == db.runtime.currentRevision
    ensures forall k | k in db.cells && db.cells[k].Ready? && k !in lost ::
              k in next.cells && next.cells[k] == db.cells[k]
    ensures forall k | k in next.cells :: k in db.cells && next.cells[k] == db.cells[k]
    ensures db.Untruncated() && (forall k | k in lost :: !CellAt(db.cells, k).Ready?) ==> next.Untruncated()
  {
    var saved := db.Save();
    var kept := WithoutRecords(saved.derived, lost);
    var records := Saved(saved.currentRevision, saved.inputs, kept);
    next := new Database.Load(db.program, records, db.entries, db.cells, db.history, db.test);
    if db.Untruncated() && forall k | k in lost :: !CellAt(db.cells, k).Ready? {
      NoneLost(saved.derived, lost, db.cells);
      AllReadyStayTogether(db.program, kept, db.cells, next.cells, saved.currentRevision);
      LoadedUntruncated(next);
    }
  }

  lemma {:induction false} NoneLost(derived: seq<DerivedRecord>, lost: set<DynKey>, cells: CellMap)
    requires ListsEveryReady(derived, cells) && forall k | k in lost :: !CellAt(cells, k).Ready?
    ensures ListsEveryReady(WithoutRecords(derived, lost), cells)
  {
    forall k | k in cells && cells[k].Ready?
      ensures DerivedRecord(k, cells[k].value, cells[k].verifiedAt, cells[k].changedAt, cells[k].deps)
              in WithoutRecords(derived, lost)
    {
      assert k in lost ==> !CellAt(cells, k).Ready?;
    }
  }

  method SnapshotOf(db: Database) returns (next: Database)
    requires db.Valid() && db.stack == []
    ensures next.Valid() && fresh(next) && fresh(next.runtime) && next.stack == [] && next.program == db.program
    ensures next.entries == db.entries && next.runtime.currentRevision == db.runtime.currentRevision
    ensures forall k | k in next.cells :: k in db.cells && next.cells[k] == db.cells[k]
  {
    next := new Database.Snapshot(db);
  }

  method WriteStep(db: Database, op: Op) returns (reply: Reply)
    requires db.Valid() && db.stack == [] && Applicable(db.program, op)
    requires op.SetInput? || op.RemoveInput?
    modifies db`entries, db`history, db.runtime`currentRevision, db.runtime`events
    ensures db.Valid() && (old(db.Untruncated()) ==> db.Untruncated())
    ensures Store(db.runtime.currentRevision, db.entries)
            == StoreAfter(Store(old(db.runtime.currentRevision), old(db.entries)), op)
    ensures reply == ReplyOf(db.program, Store(old(db.runtime.currentRevision), old(db.entries)), op)
  {
    if op.SetInput? {
      var revision, _ := db.Set(op.key, op.value);
      reply := Written(revision);
    } else {
      var revision, _ := db.Remove(op.key);
      reply := Written(revision);
    }
  }

  method Step(db: Database, op: Op) returns (next: Database, reply: Reply)
    requires db.Valid() && db.stack == [] && Applicable(db.program, op)
    modifies db, db.runtime
    ensures next.Valid() && next.stack == [] && next.program == db.program
    ensures (next == db && next.runtime == db.runtime) || (fresh(next) && fresh(next.runtime))
    ensures Store(next.runtime.currentRevision, next.entries)
            == StoreAfter(Store(old(db.runtime.currentRevision), old(db.entries)), op)
    ensures reply == ReplyOf(db.program, Store(old(db.runtime.currentRevision), old(db.entries)), op)
    ensures NeverOlder(old(db.cells), old(db.runtime.currentRevision), next.cells)
    ensures old(db.Untruncated()) && KeepsCells(op) ==> next.Untruncated()
  {
    next, reply := db, Silent;
    ghost var was, rev := db.cells, db.runtime.currentRevision;
    match op
    case SetInput(_, _) =>
      reply := WriteStep(db, op);
    case RemoveInput(_) =>
      reply := WriteStep(db, op);
    case GetQuery(k) =>
      var r, _ := db.Get(k);
      AdvancesNeverOlder(was, db.cells, rev);
      reply := Evaluated(GetOutcome(r));
    case TouchQuery(k) =>
      var r, _ := db.TouchQuery(k);
      AdvancesNeverOlder(was, db.cells, rev);
      reply := Touched(if r.Ok? then None else Some(ErrorOutcome(r.error)));
    case DropCells(keys) =>
      db.Drop(keys);
    case SaveAndLoad(lost) =>
      next := Reload(db, lost);
    case TakeSnapshot =>
      next := SnapshotOf(db);
  }

  /** Truncation of the derived records of a save. */
  function WithoutRecords(records: seq<DerivedRecord>, lost: set<DynKey>): (kept: seq<DerivedRecord>)
    ensures forall r :: r in kept <==> r in records && r.key !in lost
  {
    if records == [] then []
    else (if records[0].key in lost then [] else [records[0]]) + WithoutRecords(records[1..], lost)
  }

  /** No operation makes an input's `changedAt` smaller. */
  lemma {:induction false} InputsNeverOlder(s: Store, op: Op)
    requires forall k: DynKey :: ChangedAt(s.entries, k) <= s.revision
    ensures s.revision <= StoreAfter(s, op).revision
    ensures forall k: DynKey ::
              ChangedAt(s.entries, k) <= ChangedAt(StoreAfter(s, op).entries, k) <= StoreAfter(s, op).revision
  {
    forall k: DynKey
      ensures ChangedAt(s.entries, k) <= ChangedAt(StoreAfter(s, op).entries, k) <= StoreAfter(s, op).revision
    {
      assert ChangedAt(s.entries, k) <= s.revision;
    }
  }

  /** What every run keeps of `changedAt`, of inputs and of cells. */
  ghost predicate ChangesKept(was: Store, wasCells: CellMap, now: Store, cells: CellMap) {
    && was.revision <= now.revision
    && (forall k: DynKey :: ChangedAt(was.entries, k) <= ChangedAt(now.entries, k) <= now.revision)
    && NeverOlder(wasCells, was.revision, cells)
  }

  lemma {:induction false} ChangesKeptStep(
    start: Store, startCells: CellMap, s: Store, cells: CellMap, op: Op, after: CellMap)
    requires ChangesKept(start, startCells, s, cells) && NeverOlder(cells, s.revision, after)
    ensures ChangesKept(start, startCells, StoreAfter(s, op), after)
  {
    InputsNeverOlder(s, op);
    NeverOlderTransitive(startCells, start.revision, cells, s.revision, after);
  }

  /**
   A run from any reachable state. The replies are those of the reference, and between its two ends
   no `changedAt` goes back, of an input or of a query that holds a value at both.
   */
  method RunOn(db: Database, ops: seq<Op>) returns (next: Database, replies: seq<Reply>)
    requires db.Valid() && db.stack == [] && forall op | op in ops :: Applicable(db.program, op)
    modifies db, db.runtime
    ensures next.Valid() && next.stack == [] && next.program == db.program
    ensures (next == db && next.runtime == db.runtime) || (fresh(next) && fresh(next.runtime))
    ensures Store(next.runtime.currentRevision, next.entries)
            == StoreAfterAll(Store(old(db.runtime.currentRevision), old(db.entries)), ops)
    ensures replies == Reference(db.program, Store(old(db.runtime.currentRevision), old(db.entries)), ops)
    ensures forall k: DynKey :: ChangedAt(old(db.entries), k) <= ChangedAt(next.entries, k)
    ensures forall k: DynKey | CellAt(old(db.cells), k).Ready? && CellAt(next.cells, k).Ready? ::
              CellAt(old(db.cells), k).changedAt <= CellAt(next.cells, k).changedAt
    ensures old(db.Untruncated()) && (forall op | op in ops :: KeepsCells(op)) ==> next.Untruncated()
  {
    next, replies := db, [];
    ghost var start, startCells, history := Store(db.runtime.currentRevision, db.entries), db.cells, db.history;
    for i := 0 to |ops|
      invariant next.Valid() && next.stack == [] && next.program == db.program
      invariant (next == db && next.runtime == db.runtime) || (fresh(next) && fresh(next.runtime))
      invariant Store(next.runtime.currentRevision, next.entries) == StoreAfterAll(start, ops[..i])
      invariant replies == Reference(db.program, start, ops[..i])
      invariant ChangesKept(start, startCells, StoreAfterAll(start, ops[..i]), next.cells)
      invariant old(db.Untruncated()) && (forall op | op in ops :: KeepsCells(op)) ==> next.Untruncated()
    {
      assert ops[i] in ops && ops[..i + 1] == ops[..i] + [ops[i]];
      ReferenceExtend(db.program, start, ops[..i], ops[i]);
      ghost var cells := next.cells;
      var reply;
      next, reply := Step(next, ops[i]);
      ChangesKeptStep(start, startCells, StoreAfterAll(start, ops[..i]), cells, ops[i], next.cells);
      replies := replies + [reply];
    }
    assert ops[..|ops|] == ops;
    forall k: DynKey | CellAt(startCells, k).Ready? && CellAt(next.cells, k).Ready?
      ensures CellAt(startCells, k).changedAt <= CellAt(next.cells, k).changedAt
    {
      ChangedAtNeverDecreases(db.program, history, startCells, next.cells, k);
    }
  }

  /** The engine's replies over any run are those of naive evaluation. */
  method Run(program: Program, ops: seq<Op>) returns (replies: seq<Reply>)
    requires forall op | op in ops :: Applicable(program, op)
    ensures replies == Reference(program, Store(0, map[]), ops)
  {
    var db := new Database(program);
    var _, all := RunOn(db, ops);
    replies := all;
  }
}
