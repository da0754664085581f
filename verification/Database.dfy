/**
 One view of a database: inputs, memo cells, the stack of active frames, and the runtime.

 One top-level operation runs at a time, so the revision cannot move while a query is accessed:
 the re-checks the engine makes before it returns always pass, and its retry loop never repeats.
 Adoption of results from other views is the subject of module `Adoption`.
 */
module Engine {
  import opened Keys
  import opened Semantics
  import opened Chains
  import opened Cells
  import opened RuntimeState

  /** What an access gives its caller: a touch asks for no value. */
  datatype Accessed = Accessed(value: Option<Value>, changedAt: Revision)

  /** An access reports the settled cell of `k`, or the failure of its from-scratch evaluation. */
  ghost predicate Answered(p: Program, inputs: Inputs, cells: CellMap, rev: Revision, k: DynKey, wantValue: bool,
                           r: Result<Accessed, Error>)
    requires k in p.queries
  {
    match r
    case Err(e) => FailsBy(p, inputs, k, e)
    case Ok(a) =>
      && VerifiedAt(CellAt(cells, k), rev)
      && a.changedAt == CellAt(cells, k).changedAt
      && a.value == (if wantValue then Some(CellAt(cells, k).value) else None)
      && Scratch(p, inputs, k) == Present(CellAt(cells, k).value)
  }

  /** Where an access leaves the stack: as it was, with the read recorded if a value was asked for. */
  function Recorded(stack: seq<Frame>, k: DynKey): seq<Frame>
    requires stack != []
  {
    var top := stack[|stack| - 1];
    stack[..|stack| - 1] + [top.(deps := top.deps + [k])]
  }

  function StackAfter(stack: seq<Frame>, k: DynKey, wantValue: bool): seq<Frame> {
    if wantValue && stack != [] && !OnStack(stack, k) then Recorded(stack, k) else stack
  }

  lemma {:induction false} RecordedKeepsStack(p: Program, inputs: Inputs, stack: seq<Frame>, k: DynKey)
    requires stack != []
    ensures |Recorded(stack, k)| == |stack|
    ensures forall i | 0 <= i < |stack| :: Recorded(stack, k)[i].dynKey == stack[i].dynKey
    ensures Busy(Recorded(stack, k)) == Busy(stack)
    ensures StackOk(p, inputs, stack) ==> StackOk(p, inputs, Recorded(stack, k))
    ensures forall q | q in p.queries && Above(p, inputs, stack, q) :: Above(p, inputs, Recorded(stack, k), q)
  {
    var after := Recorded(stack, k);
    assert forall i | 0 <= i < |stack| :: after[i].dynKey == stack[i].dynKey;
    assert Busy(after) == Busy(stack);
  }

  // ---------------------------------------------------------------------------
  // Saved state
  // ---------------------------------------------------------------------------

  datatype InputRecord = InputRecord(key: DynKey, entry: InputEntry)

  datatype DerivedRecord =
    DerivedRecord(key: DynKey, value: Value, verifiedAt: Revision, changedAt: Revision, deps: seq<Dep>)

  datatype Saved = Saved(currentRevision: Revision, inputs: seq<InputRecord>, derived: seq<DerivedRecord>)

  function CellOf(r: DerivedRecord): Cell {
    Ready(r.value, r.deps, r.verifiedAt, r.changedAt)
  }

  ghost predicate ListsInputs(inputs: seq<InputRecord>, entries: Entries) {
    && (forall r | r in inputs :: r.key in entries && entries[r.key] == r.entry)
    && (forall k | k in entries :: InputRecord(k, entries[k]) in inputs)
  }

  /** No key has two records. */
  ghost predicate EachKeyOnce(saved: Saved) {
    && (forall i, j | 0 <= i < j < |saved.inputs| :: saved.inputs[i].key != saved.inputs[j].key)
    && (forall i, j | 0 <= i < j < |saved.derived| :: saved.derived[i].key != saved.derived[j].key)
  }

  /** Every record is a ready cell; some ready cells may have no record. */
  ghost predicate ListsSomeReady(derived: seq<DerivedRecord>, cells: CellMap) {
    forall r | r in derived :: CellAt(cells, r.key) == CellOf(r)
  }

  ghost predicate ListsEveryReady(derived: seq<DerivedRecord>, cells: CellMap) {
    && ListsSomeReady(derived, cells)
    && forall k | k in cells && cells[k].Ready? ::
         DerivedRecord(k, cells[k].value, cells[k].verifiedAt, cells[k].changedAt, cells[k].deps) in derived
  }

  /** A loaded database announces changes again if the cells verified at its revision came all together. */
  lemma {:induction false} LoadedUntruncated(db: Database)
    requires db.runtime.depsByQuery == DepsOfReady(db.cells)
    ensures db.Untruncated() <==> VerifiedTogether(db.program, db.cells, db.runtime.currentRevision)
  {
    LinkedToOwnDeps(db.program, db.cells, db.runtime.currentRevision);
  }

  lemma {:induction false} LinkedToOwnDeps(p: Program, cells: CellMap, rev: Revision)
    ensures Linked(p, cells, DepsOfReady(cells), rev) <==> VerifiedTogether(p, cells, rev)
  {
    forall k: DynKey | CellAt(cells, k).Ready?
      ensures k in DepsOfReady(cells) && DepsOfReady(cells)[k] == CellAt(cells, k).deps
    {
    }
  }

  /** Ready cells that were verified together still are when all of them are kept, and nothing else. */
  lemma {:induction false} AllReadyStayTogether(
    p: Program, derived: seq<DerivedRecord>, was: CellMap, now: CellMap, rev: Revision)
    requires ListsEveryReady(derived, was) && VerifiedTogether(p, was, rev)
    requires forall k | k in now :: k in was && now[k] == was[k]
    requires forall r | r in derived :: r.key in now
    ensures VerifiedTogether(p, now, rev)
  {
    forall k | VerifiedAt(CellAt(now, k), rev) ensures DepsVerified(p, now, CellAt(now, k).deps, rev) {
      assert CellAt(was, k) == CellAt(now, k) && DepsVerified(p, was, CellAt(was, k).deps, rev);
      forall d | d in CellAt(now, k).deps && d in p.queries ensures VerifiedAt(CellAt(now, d), rev) {
        var c := was[d];
        assert VerifiedAt(CellAt(was, d), rev);
        assert DerivedRecord(d, c.value, c.verifiedAt, c.changedAt, c.deps) in derived;
      }
    }
  }

  method LoadInputs(inputs: seq<InputRecord>, ghost origin: Entries) returns (entries: Entries)
    requires ListsInputs(inputs, origin)
    ensures entries == origin
  {
    entries := map[];
    for i := 0 to |inputs|
      invariant forall k | k in entries :: k in origin && entries[k] == origin[k]
      invariant forall j | 0 <= j < i :: inputs[j].key in entries
    {
      assert inputs[i] in inputs;
      entries := entries[inputs[i].key := inputs[i].entry];
    }
    assert forall k | k in origin :: InputRecord(k, origin[k]) in inputs;
  }

  method LoadDerived(derived: seq<DerivedRecord>, ghost origin: CellMap) returns (cells: CellMap)
    requires ListsSomeReady(derived, origin)
    ensures forall k | k in cells :: k in origin && cells[k] == origin[k] && cells[k].Ready?
    ensures forall r | r in derived :: r.key in cells
  {
    cells := map[];
    for i := 0 to |derived|
      invariant forall k | k in cells :: k in origin && cells[k] == origin[k] && cells[k].Ready?
      invariant forall j | 0 <= j < i :: derived[j].key in cells
    {
      assert derived[i] in derived;
      cells := cells[derived[i].key := CellOf(derived[i])];
    }
  }

  /** Early cutoff in events: exactly the queries whose value changed are announced, as they finish. */
  function ChangeEvents(rev: Revision, ran: seq<DynKey>, cells: CellMap): (events: seq<Event>) {
    var changed := ChangedAmong(ran, cells, rev);
    seq(|changed|, i requires 0 <= i < |changed| => QueryChanged(rev, changed[i]))
  }

  /** The revision revalidation compares: when an input, or the value of a cell, last changed. */
  function LastChange(p: Program, entries: Entries, cells: CellMap, d: Dep): Revision {
    if d !in p.queries then ChangedAt(entries, d)
    else if CellAt(cells, d).Ready? then CellAt(cells, d).changedAt else 0
  }

  /** The dependency cannot be looked up, or has changed after `limit`, as a touch at `rev` showed. */
  ghost predicate Moved(p: Program, entries: Entries, cells: CellMap, d: Dep, limit: Revision, rev: Revision) {
    || d.kind !in p.registered
    || (limit < LastChange(p, entries, cells, d) && (d in p.queries ==> VerifiedAt(CellAt(cells, d), rev)))
  }

  /** A body had cause to run: its cell held no value, or one of the dependencies recorded there has moved. */
  ghost predicate HadCause(p: Program, entries: Entries, was: Cell, cells: CellMap, rev: Revision) {
    was.Ready? ==> exists d :: d in was.deps && Moved(p, entries, cells, d, was.changedAt, rev)
  }

  ghost predicate AllHadCause(
    p: Program, entries: Entries, was: CellMap, cells: CellMap, rev: Revision, ran: seq<DynKey>)
  {
    forall k | k in ran :: HadCause(p, entries, CellAt(was, k), cells, rev)
  }

  /** The bodies that ran, each once and with cause, and what was announced of them. */
  ghost predicate Worked(
    p: Program, entries: Entries, was: CellMap, sent: seq<Event>, cells: CellMap, events: seq<Event>, rev: Revision,
    ran: seq<DynKey>)
  {
    && Ran(was, cells, rev, ran)
    && AllHadCause(p, entries, was, cells, rev, ran)
    && events == sent + ChangeEvents(rev, ran, cells)
  }

  lemma WorkedNothing(p: Program, entries: Entries, cells: CellMap, events: seq<Event>, rev: Revision)
    ensures Worked(p, entries, cells, events, cells, events, rev, [])
  {}

  lemma {:induction false} CauseStays(
    p: Program, entries: Entries, was: Cell, mid: CellMap, now: CellMap, rev: Revision)
    requires HadCause(p, entries, was, mid, rev)
    requires forall d: DynKey | VerifiedAt(CellAt(mid, d), rev) :: CellAt(now, d) == CellAt(mid, d)
    ensures HadCause(p, entries, was, now, rev)
  {
    if was.Ready? {
      var d :| d in was.deps && Moved(p, entries, mid, d, was.changedAt, rev);
      assert Moved(p, entries, now, d, was.changedAt, rev);
    }
  }

  lemma {:induction false} VerifiedStay(mid: CellMap, now: CellMap, rev: Revision)
    requires Advances(mid, now, rev)
    ensures forall d: DynKey | VerifiedAt(CellAt(mid, d), rev) :: CellAt(now, d) == CellAt(mid, d)
  {
    forall d: DynKey | VerifiedAt(CellAt(mid, d), rev) ensures CellAt(now, d) == CellAt(mid, d) {
      assert CellAdvances(CellAt(mid, d), CellAt(now, d), rev);
    }
  }

  lemma {:induction false} CauseTransitive(
    p: Program, entries: Entries, a: CellMap, b: CellMap, c: CellMap, rev: Revision, r1: seq<DynKey>, r2: seq<DynKey>)
    requires AllHadCause(p, entries, a, b, rev, r1) && AllHadCause(p, entries, b, c, rev, r2)
    requires Ran(a, b, rev, r1) && Ran(b, c, rev, r2) && Advances(b, c, rev)
    ensures AllHadCause(p, entries, a, c, rev, r1 + r2)
  {
    VerifiedStay(b, c, rev);
    forall k | k in r1 + r2 ensures HadCause(p, entries, CellAt(a, k), c, rev) {
      if k in r1 {
        CauseStays(p, entries, CellAt(a, k), b, c, rev);
      } else {
        assert RanCell(CellAt(a, k), CellAt(b, k), rev, k in r1) && RanCell(CellAt(b, k), CellAt(c, k), rev, k in r2);
        assert CellAt(a, k) == CellAt(b, k);
      }
    }
  }

  lemma {:induction false} WorkedTransitive(
    p: Program, entries: Entries, a: CellMap, ea: seq<Event>, b: CellMap, eb: seq<Event>, c: CellMap, ec: seq<Event>,
    rev: Revision, busy: set<DynKey>, r1: seq<DynKey>, r2: seq<DynKey>)
    requires Worked(p, entries, a, ea, b, eb, rev, r1) && Progress(a, b, rev, busy)
    requires Worked(p, entries, b, eb, c, ec, rev, r2) && Progress(b, c, rev, busy)
    ensures Worked(p, entries, a, ea, c, ec, rev, r1 + r2) && Progress(a, c, rev, busy)
  {
    ProgressTransitive(a, b, c, rev, busy);
    RanTransitive(a, b, c, rev, r1, r2);
    CauseTransitive(p, entries, a, b, c, rev, r1, r2);
  }

  /** Moving `verifiedAt` of one cell is progress without a body run. */
  lemma {:induction false} ReverifiedWorked(
    p: Program, entries: Entries, was: CellMap, sent: seq<Event>, mid: CellMap, events: seq<Event>, rev: Revision,
    busy: set<DynKey>, ran: seq<DynKey>, k: DynKey, c: Cell)
    requires Worked(p, entries, was, sent, mid, events, rev, ran) && Progress(was, mid, rev, busy)
    requires k !in busy && Reverified(CellAt(mid, k), c, rev) && CellAt(mid, k).verifiedAt != rev
    ensures Worked(p, entries, was, sent, mid[k := c], events, rev, ran) && Progress(was, mid[k := c], rev, busy)
  {
    assert Progress(mid, mid[k := c], rev, busy);
    assert Worked(p, entries, mid, events, mid[k := c], events, rev, []);
    WorkedTransitive(p, entries, was, sent, mid, events, mid[k := c], events, rev, busy, ran, []);
    assert ran + [] == ran;
  }

  lemma {:induction false} CauseAround(
    p: Program, entries: Entries, was: CellMap, mid: CellMap, k: DynKey, running: Cell, c: Cell, rev: Revision,
    ran: seq<DynKey>)
    requires AllHadCause(p, entries, was[k := running], mid, rev, ran) && HadCause(p, entries, CellAt(was, k), was, rev)
    requires Advances(was[k := running], mid, rev) && CellAt(mid, k) == running && !SettledAt(running, rev)
    requires Ran(was[k := running], mid, rev, ran) && !SettledAt(CellAt(was, k), rev)
    ensures AllHadCause(p, entries, was, mid[k := c], rev, ran + [k])
  {
    var now := mid[k := c];
    VerifiedStay(was[k := running], mid, rev);
    assert RanCell(running, running, rev, k in ran);
    forall q | q in ran + [k] ensures HadCause(p, entries, CellAt(was, q), now, rev) {
      if q == k {
        forall d: DynKey | VerifiedAt(CellAt(was, d), rev) ensures CellAt(now, d) == CellAt(was, d) {
          assert CellAt(was[k := running], d) == CellAt(was, d);
        }
        CauseStays(p, entries, CellAt(was, k), was, now, rev);
      } else {
        assert CellAt(was[k := running], q) == CellAt(was, q);
        CauseStays(p, entries, CellAt(was, q), mid, now, rev);
      }
    }
  }

  /** Around an evaluation of `k`: what its reads did, and then its own change, if any. */
  lemma {:induction false} WorkedAround(
    p: Program, entries: Entries, was: CellMap, sent: seq<Event>, mid: CellMap, midEvents: seq<Event>, k: DynKey,
    running: Cell, c: Cell, rev: Revision, busy: set<DynKey>, ran: seq<DynKey>)
    requires Worked(p, entries, was[k := running], sent, mid, midEvents, rev, ran)
    requires Progress(was[k := running], mid, rev, busy + {k})
    requires k !in busy && CellAdvances(CellAt(was, k), c, rev) && HadCause(p, entries, CellAt(was, k), was, rev)
    requires !SettledAt(running, rev) && !SettledAt(CellAt(was, k), rev) && SettledAt(c, rev)
    ensures var announced := if c.Ready? && c.changedAt == rev then [QueryChanged(rev, k)] else [];
            Worked(p, entries, was, sent, mid[k := c], midEvents + announced, rev, ran + [k])
    ensures Progress(was, mid[k := c], rev, busy)
  {
    assert CellAt(mid, k) == CellAt(was[k := running], k) == running;
    ProgressAround(was, mid, k, running, c, rev, busy);
    RanAround(was, mid, k, running, c, rev, ran);
    CauseAround(p, entries, was, mid, k, running, c, rev, ran);
    OneEventMore(sent, midEvents, ran, mid, ran + [k], mid[k := c], rev,
                 if c.Ready? && c.changedAt == rev then [k] else []);
  }

  lemma {:induction false} OneEventMore(
    sent: seq<Event>, events: seq<Event>, ran: seq<DynKey>, cells: CellMap, more: seq<DynKey>, now: CellMap,
    rev: Revision, changed: seq<DynKey>)
    requires events == sent + ChangeEvents(rev, ran, cells) && |changed| <= 1
    requires ChangedAmong(more, now, rev) == ChangedAmong(ran, cells, rev) + changed
    ensures sent + ChangeEvents(rev, more, now)
            == events + if changed == [] then [] else [QueryChanged(rev, changed[0])]
  {}

  /** Only queries under evaluation are running. */
  ghost predicate RunningBusy(cells: CellMap, stack: seq<Frame>) {
    forall k | k in cells && cells[k].Running? :: k in Busy(stack)
  }

  class Database {
    const program: Program
    const runtime: Runtime
    var entries: Entries
    var cells: CellMap
    var stack: seq<Frame>
    ghost var history: History
    ghost var test: Test

    constructor (program: Program)
      ensures Valid() && fresh(runtime) && this.program == program
      ensures entries == map[] && cells == map[] && stack == [] && runtime.currentRevision == 0
      ensures Untruncated()
    {
      this.program := program;
      runtime := new Runtime();
      entries, cells, stack := map[], map[], [];
      history, test := [map[]], ByVerified;
      new;
      assert Values(entries) == map[];
    }

    /**
     Loads saved state into a fresh database. Records of some ready cells may be missing, as when
     a size limit truncated them; the dependency graph is rebuilt from the records there are.
     */
    constructor Load(
      program: Program, saved: Saved, ghost wasEntries: Entries, ghost wasCells: CellMap, ghost history: History,
      ghost test: Test)
      requires |history| == saved.currentRevision + 1
      requires InputsRecorded(history, wasEntries) && CellsSound(test, program, history, wasCells)
      requires ListsInputs(saved.inputs, wasEntries) && ListsSomeReady(saved.derived, wasCells)
      ensures Valid() && fresh(runtime) && this.program == program
      ensures entries == wasEntries && stack == [] && runtime.currentRevision == saved.currentRevision
      ensures forall k | k in cells :: k in wasCells && cells[k] == wasCells[k] && cells[k].Ready?
      ensures forall r | r in saved.derived :: r.key in cells
      ensures this.history == history && this.test == test && runtime.depsByQuery == DepsOfReady(cells)
    {
      this.program := program;
      var loaded := LoadInputs(saved.inputs, wasEntries);
      var ready := LoadDerived(saved.derived, wasCells);
      var rt := new Runtime();
      RestoreGraph(rt, ready);
      assert map[] + DepsOfReady(ready) == DepsOfReady(ready);
      rt.SetCurrentRevision(saved.currentRevision);
      runtime, entries, cells, stack := rt, loaded, ready, [];
      this.history, this.test := history, test;
      new;
      SoundAfterDrop(test, program, history, wasCells, cells, history);
    }

    /** A snapshot view: the inputs, the ready cells and the revision of `db`, with an empty graph. */
    constructor Snapshot(db: Database)
      requires db.Valid()
      ensures Valid() && fresh(runtime) && program == db.program
      ensures entries == db.entries && stack == [] && runtime.currentRevision == db.runtime.currentRevision
      ensures cells == map k | k in db.cells && db.cells[k].Ready? :: db.cells[k]
      ensures history == db.history && test == db.test && runtime.depsByQuery == map[]
    {
      program := db.program;
      var rt := new Runtime();
      rt.SetCurrentRevision(db.runtime.currentRevision);
      runtime, entries, stack, history, test := rt, db.entries, [], db.history, db.test;
      cells := map k | k in db.cells && db.cells[k].Ready? :: db.cells[k];
      new;
      SoundAfterDrop(test, program, history, db.cells, cells, history);
    }

    ghost predicate Valid()
      reads this, runtime
    {
      && runtime.Valid()
      && |history| == runtime.currentRevision + 1
      && InputsRecorded(history, entries)
      && CellsSound(test, program, history, cells)
      && StackOk(program, Values(entries), stack)
      && RunningBusy(cells, stack)
    }

    ghost predicate Untruncated()
      reads this, runtime
    {
      Linked(program, cells, runtime.depsByQuery, runtime.currentRevision)
    }

    // -------------------------------------------------------------------------
    // Access, revalidation and recomputation
    // -------------------------------------------------------------------------

    method Access(k: DynKey, wantValue: bool) returns (r: Result<Accessed, Error>, ghost ran: seq<DynKey>)
      requires Valid() && k in program.queries && Above(program, Values(entries), stack, k)
      modifies this`cells, this`stack, runtime`depsByQuery, runtime`reverseDeps, runtime`events
      ensures Valid()
      ensures stack == StackAfter(old(stack), k, wantValue)
      ensures Answered(program, Values(entries), cells, runtime.currentRevision, k, wantValue, r)
      ensures SettledAt(CellAt(old(cells), k), runtime.currentRevision) ==> ran == []
      ensures Progress(old(cells), cells, runtime.currentRevision, Busy(old(stack)))
      ensures Worked(program, entries, old(cells), old(runtime.events), cells, runtime.events, runtime.currentRevision,
                     ran)
      ensures old(Untruncated()) ==> Untruncated()
      decreases program.queries - Busy(stack), 4
    {
      if OnStack(stack, k) {
        CycleIsReal(program, Values(entries), stack, k);
        StackIsChain(program, Values(entries), stack, StackKeys(stack));
        ReportIsReal(program, Values(entries), stack, k, StackKeys(stack));
        WorkedNothing(program, entries, cells, runtime.events, runtime.currentRevision);
        return Err(Cycle(k, StackKeys(stack))), [];
      }
      if wantValue && stack != [] {
        RecordedKeepsStack(program, Values(entries), stack, k);
        stack := Recorded(stack, k);
      }
      r, ran := AccessEntry(k, wantValue);
    }

    /** Creates the cell if there is none yet. */
    method AccessEntry(k: DynKey, wantValue: bool) returns (r: Result<Accessed, Error>, ghost ran: seq<DynKey>)
      requires Valid() && k in program.queries && Above(program, Values(entries), stack, k) && !OnStack(stack, k)
      modifies this`cells, this`stack, runtime`depsByQuery, runtime`reverseDeps, runtime`events
      ensures Valid() && stack == old(stack)
      ensures Answered(program, Values(entries), cells, runtime.currentRevision, k, wantValue, r)
      ensures Progress(old(cells), cells, runtime.currentRevision, Busy(old(stack)))
      ensures Worked(program, entries, old(cells), old(runtime.events), cells, runtime.events, runtime.currentRevision,
                     ran)
      ensures SettledAt(CellAt(old(cells), k), runtime.currentRevision) ==> ran == []
      ensures old(Untruncated()) ==> Untruncated()
      decreases program.queries - Busy(stack), 3
    {
      EnsureCell(k);
      ghost var before := cells;
      r, ran := AccessCell(k, wantValue);
      WorkedTransitive(program, entries, old(cells), old(runtime.events), before, old(runtime.events), cells,
                       runtime.events, runtime.currentRevision, Busy(stack), [], ran);
      assert [] + ran == ran;
    }

    /** The state machine of one cell. */
    method AccessCell(k: DynKey, wantValue: bool) returns (r: Result<Accessed, Error>, ghost ran: seq<DynKey>)
      requires Valid() && k in program.queries && Above(program, Values(entries), stack, k) && !OnStack(stack, k)
      requires k in cells
      modifies this`cells, this`stack, runtime`depsByQuery, runtime`reverseDeps, runtime`events
      ensures Valid() && stack == old(stack)
      ensures Answered(program, Values(entries), cells, runtime.currentRevision, k, wantValue, r)
      ensures Progress(old(cells), cells, runtime.currentRevision, Busy(old(stack)))
      ensures Worked(program, entries, old(cells), old(runtime.events), cells, runtime.events, runtime.currentRevision,
                     ran)
      ensures SettledAt(old(cells)[k], runtime.currentRevision) ==> ran == [] && cells == old(cells)
      ensures old(Untruncated()) ==> Untruncated()
      decreases program.queries - Busy(stack), 2
    {
      WorkedNothing(program, entries, cells, runtime.events, runtime.currentRevision);
      match cells[k]
      case Ready(value, _, verifiedAt, changedAt) =>
        if verifiedAt == runtime.currentRevision {
          VerifiedIsScratch(program, history, cells, k);
          return Ok(Accessed(if wantValue then Some(value) else None, changedAt)), [];
        }
        r, ran := AccessStale(k, wantValue);
      case Poisoned(e, verifiedAt) =>
        if verifiedAt == runtime.currentRevision {
          assert CellSound(program, history, k, CellAt(cells, k));
          return Err(e), [];
        }
        r, ran := Recompute(k, wantValue);
      case Running(_) =>
        // Only keys on the stack are running, and those were reported as a cycle.
        assert false;
      case Vacant =>
        r, ran := Recompute(k, wantValue);
    }

    method EnsureCell(k: DynKey)
      requires Valid() && k in program.queries
      modifies this`cells
      ensures Valid() && k in cells && CellAt(cells, k) == CellAt(old(cells), k)
      ensures Progress(old(cells), cells, runtime.currentRevision, Busy(stack))
      ensures Worked(program, entries, old(cells), runtime.events, cells, runtime.events, runtime.currentRevision, [])
      ensures old(Untruncated()) ==> Untruncated()
    {
      WorkedNothing(program, entries, cells, runtime.events, runtime.currentRevision);
      if k !in cells {
        SoundWithoutValue(test, program, history, cells, k, Vacant);
        cells := cells[k := Vacant];
        assert forall q: DynKey :: CellAt(cells, q) == CellAt(old(cells), q);
        assert forall deps, rev ::
            DepsVerified(program, old(cells), deps, rev) ==> DepsVerified(program, cells, deps, rev);
      }
    }

    /** A cell that was verified at an earlier revision: revalidate it, or else recompute it. */
    method AccessStale(k: DynKey, wantValue: bool) returns (r: Result<Accessed, Error>, ghost ran: seq<DynKey>)
      requires Valid() && k in program.queries && Above(program, Values(entries), stack, k) && !OnStack(stack, k)
      requires k in cells && cells[k].Ready? && cells[k].verifiedAt != runtime.currentRevision
      modifies this`cells, this`stack, runtime`depsByQuery, runtime`reverseDeps, runtime`events
      ensures Valid() && stack == old(stack)
      ensures Answered(program, Values(entries), cells, runtime.currentRevision, k, wantValue, r)
      ensures Progress(old(cells), cells, runtime.currentRevision, Busy(old(stack)))
      ensures Worked(program, entries, old(cells), old(runtime.events), cells, runtime.events, runtime.currentRevision,
                     ran)
      ensures old(Untruncated()) ==> Untruncated()
      decreases program.queries - Busy(stack), 1
    {
      var rev := runtime.currentRevision;
      var c := cells[k];
      var valid, touched, checkRan := TryRevalidate(k, c.deps, c.changedAt);
      ghost var checked, sent := cells, runtime.events;
      match valid
      case Err(e) =>
        r, ran := Err(e), checkRan;
      case Ok(true) =>
        ran := checkRan;
        r := MarkVerified(k, wantValue, old(cells), old(runtime.events), checkRan);
      case Ok(false) =>
        StoppedIsCause(program, entries, cells, c, touched, rev);
        ghost var more;
        r, more := Recompute(k, wantValue);
        ran := checkRan + more;
        WorkedTransitive(program, entries, old(cells), old(runtime.events), checked, sent, cells, runtime.events,
                         rev, Busy(stack), checkRan, more);
    }

    /** A revalidated cell answers with the value it holds, and no body runs beyond those of the check. */
    method MarkVerified(
      k: DynKey, wantValue: bool, ghost was: CellMap, ghost sent: seq<Event>, ghost ran: seq<DynKey>)
      returns (r: Result<Accessed, Error>)
      requires Valid() && k in program.queries && k in cells && cells[k].Ready? && k !in Busy(stack)
      requires cells[k].verifiedAt != runtime.currentRevision
      requires Derives(program, Values(entries), k, cells[k].deps, cells[k].value)
      requires DepsVerified(program, cells, cells[k].deps, runtime.currentRevision)
      requires Progress(was, cells, runtime.currentRevision, Busy(stack))
      requires Worked(program, entries, was, sent, cells, runtime.events, runtime.currentRevision, ran)
      modifies this`cells
      ensures Valid()
      ensures Reverified(old(cells)[k], CellAt(cells, k), runtime.currentRevision)
      ensures Answered(program, Values(entries), cells, runtime.currentRevision, k, wantValue, r)
      ensures Progress(was, cells, runtime.currentRevision, Busy(stack))
      ensures Worked(program, entries, was, sent, cells, runtime.events, runtime.currentRevision, ran)
      ensures old(Untruncated()) ==> Untruncated()
    {
      var rev := runtime.currentRevision;
      var c := Ready(cells[k].value, cells[k].deps, rev, cells[k].changedAt);
      ReverifiedWorked(program, entries, was, sent, cells, runtime.events, rev, Busy(stack), ran, k, c);
      ReverifySound(test, program, history, cells, k, c);
      LinkedAfterReverify(program, cells, runtime.depsByQuery, rev, k, c);
      cells := cells[k := c];
      assert Valid();
      r := Ok(Accessed(if wantValue then Some(c.value) else None, c.changedAt));
    }

    /** The revision at which a dependency last changed, bringing a derived one up to date first. */
    method Touch(d: Dep) returns (r: Result<Revision, Error>, ghost ran: seq<DynKey>)
      requires Valid() && (d in program.queries ==> Above(program, Values(entries), stack, d))
      modifies this`cells, this`stack, runtime`depsByQuery, runtime`reverseDeps, runtime`events
      ensures Valid() && stack == old(stack)
      ensures d in program.queries ==> match r
              case Err(e) => FailsBy(program, Values(entries), d, e)
              case Ok(changedAt) =>
                && VerifiedAt(CellAt(cells, d), runtime.currentRevision)
                && changedAt == CellAt(cells, d).changedAt
                && Scratch(program, Values(entries), d) == Present(CellAt(cells, d).value)
      ensures d !in program.queries ==> r == Ok(ChangedAt(entries, d)) && cells == old(cells)
      ensures SettledAt(CellAt(old(cells), d), runtime.currentRevision) ==> ran == []
      ensures Progress(old(cells), cells, runtime.currentRevision, Busy(old(stack)))
      ensures Worked(program, entries, old(cells), old(runtime.events), cells, runtime.events, runtime.currentRevision,
                     ran)
      ensures old(Untruncated()) ==> Untruncated()
      decreases program.queries - Busy(stack), 5
    {
      if d in program.queries {
        var a, accessRan := Access(d, false);
        ran := accessRan;
        match a
        case Err(e) => r := Err(e);
        case Ok(accessed) => r := Ok(accessed.changedAt);
      } else {
        WorkedNothing(program, entries, cells, runtime.events, runtime.currentRevision);
        r, ran := Ok(ChangedAt(entries, d)), [];
      }
    }

    /**
     Checks the stored dependencies in order, up to the first one changed after `selfChangedAt`.
     The dependencies touched are the first reads a fresh evaluation would make.
     */
    method TryRevalidate(k: DynKey, deps: seq<Dep>, selfChangedAt: Revision)
      returns (r: Result<bool, Error>, ghost touched: nat, ghost ran: seq<DynKey>)
      requires Valid() && k in program.queries && Above(program, Values(entries), stack, k) && !OnStack(stack, k)
      requires CellAt(cells, k).Ready? && CellAt(cells, k).deps == deps && CellAt(cells, k).changedAt == selfChangedAt
      modifies this`cells, this`stack, runtime`depsByQuery, runtime`reverseDeps, runtime`events
      ensures Valid() && stack == old(stack) && CellAt(cells, k) == CellAt(old(cells), k)
      ensures touched <= |deps|
      ensures ReadsFresh(program, Values(entries), k, deps, touched)
      ensures r.Err? ==> FailsBy(program, Values(entries), k, r.error)
      ensures r == Ok(true) ==>
                && touched == |deps|
                && Derives(program, Values(entries), k, deps, CellAt(cells, k).value)
                && DepsVerified(program, cells, deps, runtime.currentRevision)
      ensures r == Ok(true) ==> NoneChanged(program, entries, cells, deps, selfChangedAt)
      ensures r == Ok(false) ==>
                StoppedAt(program, entries, cells, deps, touched, selfChangedAt, runtime.currentRevision)
      ensures Progress(old(cells), cells, runtime.currentRevision, Busy(old(stack)))
      ensures Worked(program, entries, old(cells), old(runtime.events), cells, runtime.events, runtime.currentRevision,
                     ran)
      ensures old(Untruncated()) ==> Untruncated()
      decreases program.queries - Busy(stack), 0
    {
      ghost var c := CellAt(cells, k);
      assert CellSound(program, history, k, c);
      var base := stack;
      var frame := Frame(k, runtime.currentRevision, []);
      StackOkPush(program, Values(entries), stack, frame);
      stack := stack + [frame];
      r, touched, ran := CheckDeps(k, deps, selfChangedAt, base);
      if r == Ok(true) {
        assert deps[..|deps|] == deps;
        TraceCarriesOver(program, history[c.verifiedAt], Values(entries), k, deps);
      }
      BusyPop(stack, base);
      stack := base;
    }

    /** The loop of a revalidation, under its frame. */
    method CheckDeps(k: DynKey, deps: seq<Dep>, selfChangedAt: Revision, ghost base: seq<Frame>)
      returns (r: Result<bool, Error>, ghost touched: nat, ghost ran: seq<DynKey>)
      requires Valid() && k in program.queries && stack == base + [Frame(k, runtime.currentRevision, [])]
      requires CellAt(cells, k).Ready? && CellAt(cells, k).deps == deps && CellAt(cells, k).changedAt == selfChangedAt
      modifies this`cells, this`stack, runtime`depsByQuery, runtime`reverseDeps, runtime`events
      ensures Valid() && stack == old(stack) && CellAt(cells, k) == CellAt(old(cells), k)
      ensures touched <= |deps| && ReadsFresh(program, Values(entries), k, deps, touched)
      ensures r.Err? ==> FailsBy(program, Values(entries), k, r.error)
      ensures r == Ok(true) ==>
                && touched == |deps|
                && SoFar(program, history[CellAt(old(cells), k).verifiedAt], Values(entries), k, deps, |deps|)
                && DepsVerified(program, cells, deps, runtime.currentRevision)
      ensures r == Ok(true) ==> NoneChanged(program, entries, cells, deps, selfChangedAt)
      ensures r == Ok(false) ==>
                StoppedAt(program, entries, cells, deps, touched, selfChangedAt, runtime.currentRevision)
      ensures Progress(old(cells), cells, runtime.currentRevision, Busy(old(stack)))
      ensures Worked(program, entries, old(cells), old(runtime.events), cells, runtime.events, runtime.currentRevision,
                     ran)
      ensures old(Untruncated()) ==> Untruncated()
      decreases program.queries - Busy(stack), 9
    {
      ghost var c := CellAt(cells, k);
      assert CellSound(program, history, k, c);
      ghost var was := history[c.verifiedAt];
      ghost var busy, frames := Busy(stack), stack;
      r, touched, ran := Ok(true), 0, [];
      WorkedNothing(program, entries, cells, runtime.events, runtime.currentRevision);
      var i := 0;
      while i < |deps| && r == Ok(true)
        invariant Valid() && stack == frames
        invariant i <= |deps| && CellAt(cells, k) == c
        invariant Checking(program, was, entries, cells, k, deps, i, selfChangedAt, runtime.currentRevision, r, touched)
        invariant Progress(old(cells), cells, runtime.currentRevision, busy)
        invariant Worked(program, entries, old(cells), old(runtime.events), cells, runtime.events,
                         runtime.currentRevision, ran)
        invariant old(Untruncated()) ==> Untruncated()
        decreases |deps| - i, r == Ok(true)
      {
        r, touched, ran := CheckStep(k, deps, i, selfChangedAt, base, old(cells), old(runtime.events), ran);
        if r == Ok(true) {
          i := i + 1;
        }
      }
      CheckingEnds(program, was, entries, cells, k, deps, i, selfChangedAt, runtime.currentRevision, r, touched);
    }

    /** One round of the loop, with what has been done since it started. */
    method CheckStep(k: DynKey, deps: seq<Dep>, i: nat, selfChangedAt: Revision, ghost base: seq<Frame>,
                     ghost startCells: CellMap, ghost startEvents: seq<Event>, ghost done: seq<DynKey>)
      returns (r: Result<bool, Error>, ghost touched: nat, ghost ran: seq<DynKey>)
      requires Valid() && k in program.queries && stack == base + [Frame(k, runtime.currentRevision, [])]
      requires CellAt(cells, k).Ready? && CellAt(cells, k).deps == deps && CellAt(cells, k).changedAt == selfChangedAt
      requires i < |deps|
      requires Checked(program, history[CellAt(cells, k).verifiedAt], entries, cells, k, deps, i, selfChangedAt,
                       runtime.currentRevision)
      requires Worked(program, entries, startCells, startEvents, cells, runtime.events, runtime.currentRevision, done)
      requires Progress(startCells, cells, runtime.currentRevision, Busy(stack))
      modifies this`cells, this`stack, runtime`depsByQuery, runtime`reverseDeps, runtime`events
      ensures Valid() && stack == old(stack)
      ensures CellAt(cells, k) == CellAt(old(cells), k)
      ensures Checking(program, history[CellAt(old(cells), k).verifiedAt], entries, cells, k, deps,
                       if r == Ok(true) then i + 1 else i, selfChangedAt, runtime.currentRevision, r, touched)
      ensures Progress(startCells, cells, runtime.currentRevision, Busy(stack))
      ensures Worked(program, entries, startCells, startEvents, cells, runtime.events, runtime.currentRevision, ran)
      ensures old(Untruncated()) ==> Untruncated()
      decreases program.queries - Busy(stack), 8
    {
      ghost var before, sent, more := cells, runtime.events, [];
      r, touched, more := CheckDep(k, deps, i, selfChangedAt, base);
      WorkedTransitive(program, entries, startCells, startEvents, before, sent, cells, runtime.events,
                       runtime.currentRevision, Busy(stack), done, more);
      ran := done + more;
    }

    /** Looks at one stored dependency; `Ok(true)` means it can be looked up and has not changed since. */
    method CheckDep(k: DynKey, deps: seq<Dep>, i: nat, selfChangedAt: Revision, ghost base: seq<Frame>)
      returns (r: Result<bool, Error>, ghost touched: nat, ghost ran: seq<DynKey>)
      requires Valid() && k in program.queries && stack == base + [Frame(k, runtime.currentRevision, [])]
      requires CellAt(cells, k).Ready? && CellAt(cells, k).deps == deps && CellAt(cells, k).changedAt == selfChangedAt
      requires i < |deps|
      requires Checked(program, history[CellAt(cells, k).verifiedAt], entries, cells, k, deps, i, selfChangedAt,
                       runtime.currentRevision)
      modifies this`cells, this`stack, runtime`depsByQuery, runtime`reverseDeps, runtime`events
      ensures Valid() && stack == old(stack)
      ensures CellAt(cells, k) == CellAt(old(cells), k)
      ensures Checking(program, history[CellAt(old(cells), k).verifiedAt], entries, cells, k, deps,
                       if r == Ok(true) then i + 1 else i, selfChangedAt, runtime.currentRevision, r, touched)
      ensures Progress(old(cells), cells, runtime.currentRevision, Busy(old(stack)))
      ensures Worked(program, entries, old(cells), old(runtime.events), cells, runtime.events, runtime.currentRevision,
                     ran)
      ensures old(Untruncated()) ==> Untruncated()
      decreases program.queries - Busy(stack), 7
    {
      var d := deps[i];
      ghost var was := history[CellAt(cells, k).verifiedAt];
      BeforeTouch(program, was, entries, cells, base, Frame(k, runtime.currentRevision, []), deps, i, selfChangedAt,
                  runtime.currentRevision);
      if d.kind !in program.registered {
        WorkedNothing(program, entries, cells, runtime.events, runtime.currentRevision);
        return Ok(false), i, [];
      }
      touched := i + 1;
      var t, touchRan := TouchDep(k, deps, i, selfChangedAt, base);
      ran := touchRan;
      r := if t.Err? then Err(t.error) else Ok(t.value <= selfChangedAt);
      AfterTouch(test, program, history, entries, cells, k, i, t);
    }

    /** The touch of a stored dependency; what was checked before it stays checked. */
    method TouchDep(k: DynKey, deps: seq<Dep>, i: nat, selfChangedAt: Revision, ghost base: seq<Frame>)
      returns (t: Result<Revision, Error>, ghost ran: seq<DynKey>)
      requires Valid() && k in program.queries && stack == base + [Frame(k, runtime.currentRevision, [])]
      requires CellAt(cells, k).Ready? && i < |deps| && k in Busy(stack)
      requires deps[i] in program.queries ==> Above(program, Values(entries), stack, deps[i])
      requires Checked(program, history[CellAt(cells, k).verifiedAt], entries, cells, k, deps, i, selfChangedAt,
                       runtime.currentRevision)
      modifies this`cells, this`stack, runtime`depsByQuery, runtime`reverseDeps, runtime`events
      ensures Valid() && stack == old(stack) && CellAt(cells, k) == CellAt(old(cells), k)
      ensures Checked(program, history[CellAt(old(cells), k).verifiedAt], entries, cells, k, deps, i, selfChangedAt,
                      runtime.currentRevision)
      ensures Touched(program, entries, cells, runtime.currentRevision, deps[i], t)
      ensures Progress(old(cells), cells, runtime.currentRevision, Busy(old(stack)))
      ensures Worked(program, entries, old(cells), old(runtime.events), cells, runtime.events, runtime.currentRevision,
                     ran)
      ensures old(Untruncated()) ==> Untruncated()
      decreases program.queries - Busy(stack), 6
    {
      ghost var was, before := history[CellAt(cells, k).verifiedAt], cells;
      t, ran := Touch(deps[i]);
      CheckedStays(program, was, entries, before, cells, k, deps, i, selfChangedAt, runtime.currentRevision);
    }

    /** Runs the body of `k` under a frame and stores what it gives. */
    method Recompute(k: DynKey, wantValue: bool) returns (r: Result<Accessed, Error>, ghost ran: seq<DynKey>)
      requires Valid() && k in program.queries && Above(program, Values(entries), stack, k) && !OnStack(stack, k)
      requires !SettledAt(CellAt(cells, k), runtime.currentRevision)
      requires HadCause(program, entries, CellAt(cells, k), cells, runtime.currentRevision)
      modifies this`cells, this`stack, runtime`depsByQuery, runtime`reverseDeps, runtime`events
      ensures Valid() && stack == old(stack)
      ensures Answered(program, Values(entries), cells, runtime.currentRevision, k, wantValue, r)
      ensures Progress(old(cells), cells, runtime.currentRevision, Busy(old(stack)))
      ensures Worked(program, entries, old(cells), old(runtime.events), cells, runtime.events, runtime.currentRevision,
                     ran)
      ensures old(Untruncated()) ==> Untruncated()
      decreases program.queries - Busy(stack), 0
    {
      var rev := runtime.currentRevision;
      var base := stack;
      var prev := CellAt(cells, k);
      Start(k);
      ghost var started := cells;
      var result, deps, bodyRan := RunBody(k, base);
      ghost var mid, midSent := cells, runtime.events;
      if prev.Ready? {
        ReadersSawStays(test, program, history, started, cells, k, prev.value, prev.changedAt);
      }
      r := Finish(k, result, deps, prev, base, wantValue);
      WorkedAround(program, entries, old(cells), old(runtime.events), mid, midSent, k, Running(rev), cells[k], rev,
                   Busy(base), bodyRan);
      ran := bodyRan + [k];
    }

    /** Stores the outcome of a body. Early cutoff: an equal value keeps the revision at which it last changed. */
    method Finish(
      k: DynKey, result: Result<Value, Error>, deps: seq<Dep>, prev: Cell, base: seq<Frame>, wantValue: bool)
      returns (r: Result<Accessed, Error>)
      requires Valid() && k in program.queries
      requires |stack| == |base| + 1 && stack[..|base|] == base && stack[|base|].dynKey == k
      requires !VerifiedAt(CellAt(cells, k), runtime.currentRevision)
      requires prev.Ready? ==>
                 && prev.changedAt <= runtime.currentRevision
                 && ReadersSaw(test, program, history, cells, k, prev.value, prev.changedAt)
      requires !SettledAt(prev, runtime.currentRevision)
      requires match result
               case Ok(v) => Derives(program, Values(entries), k, deps, v)
                             && DepsVerified(program, cells, deps, runtime.currentRevision)
               case Err(e) => FailsBy(program, Values(entries), k, e)
      modifies this`cells, this`stack, runtime`depsByQuery, runtime`reverseDeps, runtime`events
      ensures Valid() && stack == base
      ensures k in cells && cells == old(cells)[k := cells[k]]
      ensures SettledAt(cells[k], runtime.currentRevision) && CellAdvances(prev, cells[k], runtime.currentRevision)
      ensures runtime.events == old(runtime.events) +
                if cells[k].Ready? && cells[k].changedAt == runtime.currentRevision
                then [QueryChanged(runtime.currentRevision, k)] else []
      ensures Answered(program, Values(entries), cells, runtime.currentRevision, k, wantValue, r)
      ensures old(Untruncated()) ==> Untruncated()
    {
      match result {
        case Ok(v) =>
          var changedAt := if prev.Ready? && prev.value == v then prev.changedAt else runtime.currentRevision;
          FinishReady(k, v, deps, changedAt, base);
          r := Ok(Accessed(if wantValue then Some(v) else None, changedAt));
        case Err(e) =>
          FinishPoisoned(k, e, base);
          r := Err(e);
      }
    }

    method FinishReady(k: DynKey, v: Value, deps: seq<Dep>, changedAt: Revision, base: seq<Frame>)
      requires Valid() && k in program.queries
      requires |stack| == |base| + 1 && stack[..|base|] == base && stack[|base|].dynKey == k
      requires changedAt <= runtime.currentRevision
      requires Derives(program, Values(entries), k, deps, v)
      requires DepsVerified(program, cells, deps, runtime.currentRevision)
      requires ReadersSaw(test, program, history, cells, k, v, changedAt)
      modifies this`cells, this`stack, runtime`depsByQuery, runtime`reverseDeps, runtime`events
      ensures Valid() && stack == base
      ensures cells == old(cells)[k := Ready(v, deps, runtime.currentRevision, changedAt)]
      ensures runtime.events == old(runtime.events) +
                if changedAt == runtime.currentRevision then [QueryChanged(runtime.currentRevision, k)] else []
      ensures Scratch(program, Values(entries), k) == Present(v)
      ensures old(Untruncated()) ==> Untruncated()
    {
      var rev := runtime.currentRevision;
      var c := Ready(v, deps, rev, changedAt);
      SoundAfterVerify(test, program, history, cells, k, c);
      LinkedAfterVerify(program, cells, runtime.depsByQuery, rev, k, c);
      BusyPop(stack, base);
      RecordQuery(runtime, k, deps, changedAt == rev);
      cells := cells[k := c];
      stack := base;
      assert Valid();
    }

    method FinishPoisoned(k: DynKey, e: Error, base: seq<Frame>)
      requires Valid() && k in program.queries
      requires |stack| == |base| + 1 && stack[..|base|] == base && stack[|base|].dynKey == k
      requires !VerifiedAt(CellAt(cells, k), runtime.currentRevision)
      requires FailsBy(program, Values(entries), k, e)
      modifies this`cells, this`stack
      ensures Valid() && stack == base
      ensures cells == old(cells)[k := Poisoned(e, runtime.currentRevision)]
      ensures old(Untruncated()) ==> Untruncated()
    {
      var c := Poisoned(e, runtime.currentRevision);
      SoundWithoutValue(test, program, history, cells, k, c);
      if Untruncated() {
        LinkedWithoutValue(program, cells, runtime.depsByQuery, runtime.currentRevision, k, c);
      }
      BusyPop(stack, base);
      cells := cells[k := c];
      stack := base;
    }

    method Start(k: DynKey)
      requires Valid() && k in program.queries && Above(program, Values(entries), stack, k) && !OnStack(stack, k)
      requires !SettledAt(CellAt(cells, k), runtime.currentRevision)
      modifies this`cells, this`stack
      ensures Valid() && stack == old(stack) + [Frame(k, runtime.currentRevision, [])]
      ensures cells == old(cells)[k := Running(runtime.currentRevision)]
      ensures Busy(stack) == Busy(old(stack)) + {k} && k !in Busy(old(stack))
      ensures old(Untruncated()) ==> Untruncated()
      ensures var prev := CellAt(old(cells), k);
              prev.Ready? ==> ReadersSaw(test, program, history, cells, k, prev.value, prev.changedAt)
    {
      var rev := runtime.currentRevision;
      var prev := CellAt(cells, k);
      StackOkPush(program, Values(entries), stack, Frame(k, rev, []));
      SoundWithoutValue(test, program, history, cells, k, Running(rev));
      if prev.Ready? {
        ReadersSawReady(test, program, history, cells, k);
        ReadersSawStays(test, program, history, cells, cells[k := Running(rev)], k, prev.value, prev.changedAt);
      }
      if Untruncated() {
        LinkedWithoutValue(program, cells, runtime.depsByQuery, rev, k, Running(rev));
      }
      cells := cells[k := Running(rev)];
      stack := stack + [Frame(k, rev, [])];
    }

    /** Interprets the body of the innermost frame, reading through the cache. */
    method RunBody(k: DynKey, ghost base: seq<Frame>)
      returns (result: Result<Value, Error>, deps: seq<Dep>, ghost ran: seq<DynKey>)
      requires Valid() && k in program.queries
      requires stack == base + [Frame(k, runtime.currentRevision, [])]
      modifies this`cells, this`stack, runtime`depsByQuery, runtime`reverseDeps, runtime`events
      ensures Valid() && stack == base + [Frame(k, runtime.currentRevision, deps)]
      ensures match result
              case Ok(v) =>
                && Derives(program, Values(entries), k, deps, v)
                && DepsVerified(program, cells, deps, runtime.currentRevision)
              case Err(e) => FailsBy(program, Values(entries), k, e)
      ensures Progress(old(cells), cells, runtime.currentRevision, Busy(old(stack)))
      ensures Worked(program, entries, old(cells), old(runtime.events), cells, runtime.events, runtime.currentRevision,
                     ran)
      ensures old(Untruncated()) ==> Untruncated()
      decreases program.queries - Busy(stack), 6
    {
      ghost var now := Values(entries);
      ghost var busy := Busy(stack);
      var answers := [];
      deps, ran := [], [];
      WorkedNothing(program, entries, cells, runtime.events, runtime.currentRevision);
      TraceDecides(program, now, k, deps);
      while true
        invariant Valid() && stack == base + [Frame(k, runtime.currentRevision, deps)] && Busy(stack) == busy
        invariant Follows(program, now, k, deps) && answers == Answers(program, now, deps)
        invariant |answers| <= program.maxReads
        invariant DepsVerified(program, cells, deps, runtime.currentRevision)
        invariant Progress(old(cells), cells, runtime.currentRevision, busy)
        invariant Worked(program, entries, old(cells), old(runtime.events), cells, runtime.events,
                         runtime.currentRevision, ran)
        invariant old(Untruncated()) ==> Untruncated()
        decreases program.maxReads - |answers|
      {
        TraceDecides(program, now, k, deps);
        match program.body(k, answers)
        case Return(v) =>
          return Ok(v), deps, ran;
        case Fail(e) =>
          return Err(Query(e)), deps, ran;
        case Read(d) =>
          TraceReadsNext(program, now, k, deps, d);
          ghost var before, sent := cells, runtime.events;
          var a, read, more := ReadDep(k, d, base, deps);
          WorkedTransitive(program, entries, old(cells), old(runtime.events), before, sent, cells, runtime.events,
                           runtime.currentRevision, busy, ran, more);
          ran := ran + more;
          if a.Err? {
            return Err(a.error), read, ran;
          }
          FollowsExtend(program, now, k, deps, d);
          DepsStayVerified(program, before, cells, deps, runtime.currentRevision);
          deps := read;
          answers := answers + [a.value];
          TraceDecides(program, now, k, deps);
      }
    }

    /** One read made by the body of the innermost frame. */
    method ReadDep(k: DynKey, d: Dep, ghost base: seq<Frame>, ghost deps: seq<Dep>)
      returns (a: Result<Outcome, Error>, read: seq<Dep>, ghost ran: seq<DynKey>)
      requires Valid() && k in program.queries && stack == base + [Frame(k, runtime.currentRevision, deps)]
      requires ReadsNext(program, Values(entries), k, d)
      modifies this`cells, this`stack, runtime`depsByQuery, runtime`reverseDeps, runtime`events
      ensures Valid() && Busy(stack) == Busy(old(stack))
      ensures stack == base + [Frame(k, runtime.currentRevision, read)]
      ensures match a
              case Err(e) => FailsBy(program, Values(entries), k, e)
              case Ok(answer) =>
                && read == deps + [d]
                && Readable(answer) && answer == AnswerOf(program, Values(entries), d)
                && (d in program.queries ==> VerifiedAt(CellAt(cells, d), runtime.currentRevision))
      ensures Progress(old(cells), cells, runtime.currentRevision, Busy(old(stack)))
      ensures Worked(program, entries, old(cells), old(runtime.events), cells, runtime.events, runtime.currentRevision,
                     ran)
      ensures old(Untruncated()) ==> Untruncated()
      decreases program.queries - Busy(stack), 5
    {
      ghost var top := stack[|stack| - 1];
      assert top.dynKey == k && stack[..|stack| - 1] == base;
      RecordedKeepsStack(program, Values(entries), stack, d);
      if d in program.queries {
        AboveRead(program, Values(entries), base, top, d);
        var r, accessRan := Access(d, true);
        ran := accessRan;
        if OnStack(old(stack), d) {
          CycleIsReal(program, Values(entries), old(stack), d);
        }
        match r {
          case Err(e) =>
            FailsByRead(program, Values(entries), k, d, e);
            a := Err(e);
          case Ok(accessed) => a := Ok(Present(accessed.value.value));
        }
      } else {
        WorkedNothing(program, entries, cells, runtime.events, runtime.currentRevision);
        var answer := ReadInput(d);
        a, ran := Ok(answer), [];
      }
      read := stack[|stack| - 1].deps;
    }

    /** Reads an input, recording the dependency in the innermost frame if there is one. */
    method ReadInput(d: DynKey) returns (answer: Outcome)
      requires Valid()
      modifies this`stack
      ensures Valid()
      ensures stack == if old(stack) == [] then [] else Recorded(old(stack), d)
      ensures answer == InputAnswer(Values(entries), d)
    {
      if stack != [] {
        RecordedKeepsStack(program, Values(entries), stack, d);
        stack := Recorded(stack, d);
      }
      answer := if d in entries && entries[d].value.Some? then Present(entries[d].value.value) else Absent;
    }

    // -------------------------------------------------------------------------
    // Top-level operations
    // -------------------------------------------------------------------------

    /** Reading a query through the cache gives exactly what naive evaluation gives. */
    method Get(k: DynKey) returns (r: Result<Value, Error>, ghost ran: seq<DynKey>)
      requires Valid() && stack == [] && k in program.queries
      modifies this`cells, this`stack, runtime`depsByQuery, runtime`reverseDeps, runtime`events
      ensures Valid() && stack == []
      ensures GetOutcome(r) == Evaluate(program, Values(entries), {}, k)
      ensures r.Err? ==> FailsBy(program, Values(entries), k, r.error)
      ensures r.Ok? ==> VerifiedAt(CellAt(cells, k), runtime.currentRevision) && CellAt(cells, k).value == r.value
      ensures Advances(old(cells), cells, runtime.currentRevision)
      ensures Worked(program, entries, old(cells), old(runtime.events), cells, runtime.events, runtime.currentRevision,
                     ran)
      ensures SettledAt(CellAt(old(cells), k), runtime.currentRevision) ==> ran == []
      ensures old(Untruncated()) ==> Untruncated()
    {
      EvaluateIsScratch(program, Values(entries), k);
      var a, accessRan := Access(k, true);
      ran := accessRan;
      match a
      case Err(e) => r := Err(e);
      case Ok(accessed) => r := Ok(accessed.value.value);
    }

    /** A touch succeeds exactly when naive evaluation does, and answers the cell's `changedAt`. */
    method TouchQuery(k: DynKey) returns (r: Result<Revision, Error>, ghost ran: seq<DynKey>)
      requires Valid() && stack == [] && k in program.queries
      modifies this`cells, this`stack, runtime`depsByQuery, runtime`reverseDeps, runtime`events
      ensures Valid() && stack == []
      ensures match r
              case Err(e) =>
                && Evaluate(program, Values(entries), {}, k) == ErrorOutcome(e)
                && FailsBy(program, Values(entries), k, e)
              case Ok(changedAt) =>
                && VerifiedAt(CellAt(cells, k), runtime.currentRevision)
                && changedAt == CellAt(cells, k).changedAt
                && Evaluate(program, Values(entries), {}, k) == Present(CellAt(cells, k).value)
      ensures Advances(old(cells), cells, runtime.currentRevision)
      ensures Worked(program, entries, old(cells), old(runtime.events), cells, runtime.events, runtime.currentRevision,
                     ran)
      ensures SettledAt(CellAt(old(cells), k), runtime.currentRevision) ==> ran == []
      ensures old(Untruncated()) ==> Untruncated()
    {
      EvaluateIsScratch(program, Values(entries), k);
      r, ran := Touch(k);
    }

    /**
     Writes an input, unless it already holds an equal value. When no cell was dropped, every
     query that was verified just before and now evaluates differently is announced.
     */
    method Set(key: DynKey, value: Value) returns (revision: Revision, ghost emitted: seq<DynKey>)
      requires Valid() && stack == [] && key !in program.queries
      modifies this`entries, this`history, runtime`currentRevision, runtime`events
      ensures Valid()
      ensures InputAnswer(Values(old(entries)), key) == Present(value) ==>
                && entries == old(entries) && revision == ChangedAt(entries, key)
                && runtime.currentRevision == old(runtime.currentRevision) && runtime.events == old(runtime.events)
                && history == old(history)
      ensures InputAnswer(Values(old(entries)), key) != Present(value) ==>
                && revision == runtime.currentRevision == old(runtime.currentRevision) + 1
                && entries == old(entries)[key := InputEntry(Some(value), revision)]
                && history == old(history) + [Values(entries)]
                && runtime.events == old(runtime.events) + [RevisionBumped(revision), InputSet(revision, key)]
                                     + Invalidations(revision, key, emitted)
                && Invalidates(runtime.reverseDeps, key, emitted)
                && (old(Untruncated()) ==>
                      AnnouncesChanges(program, Values(old(entries)), Values(entries), cells, revision - 1, emitted))
      ensures old(Untruncated()) ==> Untruncated()
    {
      emitted := [];
      if key in entries && entries[key].value == Some(value) {
        return entries[key].changedAt, emitted;
      }
      revision, emitted := Write(key, Some(value), InputSet(runtime.currentRevision + 1, key));
    }

    /** Removes an input, unless it is already missing or removed. */
    method Remove(key: DynKey) returns (revision: Revision, ghost emitted: seq<DynKey>)
      requires Valid() && stack == [] && key !in program.queries
      modifies this`entries, this`history, runtime`currentRevision, runtime`events
      ensures Valid()
      ensures InputAnswer(Values(old(entries)), key) == Absent ==>
                && entries == old(entries) && revision == ChangedAt(entries, key)
                && runtime.currentRevision == old(runtime.currentRevision) && runtime.events == old(runtime.events)
                && history == old(history)
      ensures InputAnswer(Values(old(entries)), key) != Absent ==>
                && revision == runtime.currentRevision == old(runtime.currentRevision) + 1
                && entries == old(entries)[key := InputEntry(None, revision)]
                && history == old(history) + [Values(entries)]
                && runtime.events == old(runtime.events) + [RevisionBumped(revision), InputRemoved(revision, key)]
                                     + Invalidations(revision, key, emitted)
                && Invalidates(runtime.reverseDeps, key, emitted)
                && (old(Untruncated()) ==>
                      AnnouncesChanges(program, Values(old(entries)), Values(entries), cells, revision - 1, emitted))
      ensures old(Untruncated()) ==> Untruncated()
    {
      emitted := [];
      if key !in entries {
        return 0, emitted;
      }
      if entries[key].value.None? {
        return entries[key].changedAt, emitted;
      }
      revision, emitted := Write(key, None, InputRemoved(runtime.currentRevision + 1, key));
    }

    /** The common tail of a set and a remove: bump, store, announce. */
    method Write(key: DynKey, value: Option<Value>, event: Event) returns (revision: Revision, emitted: seq<DynKey>)
      requires Valid() && stack == [] && key !in program.queries
      requires event == (if value.Some? then InputSet(runtime.currentRevision + 1, key)
                         else InputRemoved(runtime.currentRevision + 1, key))
      modifies this`entries, this`history, runtime`currentRevision, runtime`events
      ensures Valid()
      ensures revision == runtime.currentRevision == old(runtime.currentRevision) + 1
      ensures entries == old(entries)[key := InputEntry(value, revision)]
      ensures history == old(history) + [Values(entries)]
      ensures runtime.events == old(runtime.events) + [RevisionBumped(revision), event]
                                + Invalidations(revision, key, emitted)
      ensures Invalidates(runtime.reverseDeps, key, emitted)
      ensures old(Untruncated()) ==>
                AnnouncesChanges(program, Values(old(entries)), Values(entries), cells, revision - 1, emitted)
      ensures old(Untruncated()) ==> Untruncated()
    {
      ghost var was, before := Values(entries), history;
      ghost var sent := runtime.events;
      revision := runtime.BumpRevision();
      InputsRecordedAfterWrite(history, entries, key, value);
      entries := entries[key := InputEntry(value, revision)];
      history := history + [Values(entries)];
      SoundAfterDrop(test, program, before, cells, cells, history);
      if value.Some? {
        emitted := runtime.NotifyInputSet(revision, key);
      } else {
        emitted := runtime.NotifyInputRemoved(revision, key);
      }
      assert sent + [RevisionBumped(revision)] + [event] == sent + [RevisionBumped(revision), event];
      if old(Untruncated()) {
        ChangesAreAnnounced(program, before, Values(entries), key, cells, runtime.depsByQuery, runtime.reverseDeps,
                            emitted);
        NothingVerifiedYet(program, before, cells);
      }
    }

    /** From here on only what the code's own test relies on is kept. */
    ghost method Relax()
      requires Valid()
      modifies this`test
      ensures Valid() && test == ByChanged
    {
      if test == ByVerified {
        SoundByChanged(program, history, cells);
      }
      test := ByChanged;
    }

    /**
     Stores a result that another view computed: adopted from the shared cache, or followed, in
     which case a change is announced. The value is right; the view stays in the invariant exactly if
     it is `Installable`, for which it is enough that dependencies and readers are clear.
     */
    method Install(k: DynKey, value: Value, deps: seq<Dep>, changedAt: Revision, followed: bool)
      requires Valid() && k in program.queries && k !in Busy(stack) && changedAt <= runtime.currentRevision
      requires Derives(program, Values(entries), k, deps, value)
      modifies this`cells, runtime`depsByQuery, runtime`reverseDeps, runtime`events
      ensures Scratch(program, Values(entries), k) == Present(value)
      ensures cells == old(cells)[k := Ready(value, deps, runtime.currentRevision, changedAt)]
      ensures runtime.Valid() && runtime.depsByQuery == old(runtime.depsByQuery)[k := deps]
      ensures runtime.events == old(runtime.events) +
                if followed && changedAt == runtime.currentRevision then [QueryChanged(runtime.currentRevision, k)]
                else []
      ensures EachSound(program, history, old(cells))
      ensures Valid() <==> Installable(test, program, history, old(cells), k, cells[k])
      ensures test == ByChanged && BothClear(program, old(cells), k, cells[k], runtime.currentRevision) ==> Valid()
      ensures old(Untruncated()) && DepsVerified(program, old(cells), deps, runtime.currentRevision) ==> Untruncated()
    {
      var rev := runtime.currentRevision;
      var c := Ready(value, deps, rev, changedAt);
      WhenTaken(test, program, history, cells, k, c);
      LinkedAfterVerify(program, cells, runtime.depsByQuery, rev, k, c);
      RecordQuery(runtime, k, deps, followed && changedAt == rev);
      assert Valid();
      cells := cells[k := c];
      assert RunningBusy(cells, stack);
      assert Valid() <==> CellsSound(test, program, history, cells);
    }

    /** Lists every input entry, tombstones included, and every ready cell. */
    method Save() returns (saved: Saved)
      requires Valid()
      ensures saved.currentRevision == runtime.currentRevision
      ensures ListsInputs(saved.inputs, entries) && ListsEveryReady(saved.derived, cells) && EachKeyOnce(saved)
    {
      var inputs: seq<InputRecord>, derived: seq<DerivedRecord> := [], [];
      var rest := entries.Keys;
      while rest != {}
        invariant rest <= entries.Keys
        invariant forall r | r in inputs :: r.key in entries && entries[r.key] == r.entry && r.key !in rest
        invariant forall i, j | 0 <= i < j < |inputs| :: inputs[i].key != inputs[j].key
        invariant forall k | k in entries && k !in rest :: InputRecord(k, entries[k]) in inputs
        decreases rest
      {
        var k :| k in rest;
        inputs := inputs + [InputRecord(k, entries[k])];
        rest := rest - {k};
      }
      rest := cells.Keys;
      while rest != {}
        invariant rest <= cells.Keys
        invariant ListsSomeReady(derived, cells) && forall r | r in derived :: r.key !in rest
        invariant forall i, j | 0 <= i < j < |derived| :: derived[i].key != derived[j].key
        invariant forall k | k in cells && k !in rest && cells[k].Ready? ::
                    DerivedRecord(k, cells[k].value, cells[k].verifiedAt, cells[k].changedAt, cells[k].deps) in derived
        decreases rest
      {
        var k :| k in rest;
        if cells[k].Ready? {
          var c := cells[k];
          derived := derived + [DerivedRecord(k, c.value, c.verifiedAt, c.changedAt, c.deps)];
        }
        rest := rest - {k};
      }
      saved := Saved(runtime.currentRevision, inputs, derived);
    }

    /** Removes derived cells, as replaying a deletion does. */
    method Drop(keys: set<DynKey>)
      requires Valid() && stack == []
      modifies this`cells
      ensures Valid() && cells == old(cells) - keys
    {
      SoundAfterDrop(test, program, history, cells, cells - keys, history);
      cells := cells - keys;
    }
  }

  /** What the runtime learns of a query that was computed. */
  method RecordQuery(runtime: Runtime, k: DynKey, deps: seq<Dep>, changed: bool)
    requires runtime.Valid()
    modifies runtime`depsByQuery, runtime`reverseDeps, runtime`events
    ensures runtime.Valid() && runtime.depsByQuery == old(runtime.depsByQuery)[k := deps]
    ensures runtime.events == old(runtime.events) + if changed then [QueryChanged(runtime.currentRevision, k)] else []
  {
    runtime.UpdateQueryDeps(k, deps);
    if changed {
      runtime.NotifyQueryChanged(runtime.currentRevision, k);
    }
  }

  function DepsOfReady(cells: CellMap): map<DynKey, seq<Dep>> {
    map k | k in cells && cells[k].Ready? :: cells[k].deps
  }

  /** Records the dependencies of every ready cell in the graph. */
  method RestoreGraph(runtime: Runtime, cells: CellMap)
    requires runtime.Valid()
    modifies runtime`depsByQuery, runtime`reverseDeps
    ensures runtime.Valid()
    ensures runtime.depsByQuery == old(runtime.depsByQuery) + DepsOfReady(cells)
  {
    var rest := cells.Keys;
    while rest != {}
      invariant rest <= cells.Keys && runtime.Valid()
      invariant runtime.depsByQuery ==
                old(runtime.depsByQuery) + map k | k in cells && k !in rest && cells[k].Ready? :: cells[k].deps
      decreases rest
    {
      var k :| k in rest;
      if cells[k].Ready? {
        runtime.UpdateQueryDeps(k, cells[k].deps);
      }
      rest := rest - {k};
    }
  }

  function GetOutcome(r: Result<Value, Error>): Outcome {
    match r
    case Ok(v) => Present(v)
    case Err(e) => ErrorOutcome(e)
  }

  // ---------------------------------------------------------------------------
  // Invalidation reaches every query whose value changes
  // ---------------------------------------------------------------------------

  /** Queries verified at `rev` that evaluate differently on the new inputs are all in `emitted`. */
  ghost predicate AnnouncesChanges(
    p: Program, was: Inputs, now: Inputs, cells: CellMap, rev: Revision, emitted: seq<DynKey>)
  {
    forall k | k in p.queries && VerifiedAt(CellAt(cells, k), rev) ::
      Evaluate(p, was, {}, k) != Evaluate(p, now, {}, k) ==> k in emitted
  }

  /** A write to `i`, seen with the cells and the graph as they were before it. */
  ghost predicate WrittenOver(p: Program, history: History, now: Inputs, i: DynKey, cells: CellMap,
                              forward: Forward, reverse: Reverse) {
    && 0 < |history|
    && i !in p.queries
    && (forall j: DynKey | j != i :: InputAnswer(history[|history| - 1], j) == InputAnswer(now, j))
    && EachSound(p, history, cells)
    && Transposed(forward, reverse)
    && Linked(p, cells, forward, |history| - 1)
  }

  /** A dependency of a query out of reach of the written input is out of reach itself. */
  lemma {:induction false} DepOutOfReach(
    p: Program, history: History, now: Inputs, i: DynKey, cells: CellMap, forward: Forward, reverse: Reverse, k: DynKey,
    d: DynKey)
    requires WrittenOver(p, history, now, i, cells, forward, reverse)
    requires k in p.queries && VerifiedAt(CellAt(cells, k), |history| - 1) && !Reaches(reverse, i, k)
    requires d in CellAt(cells, k).deps
    ensures d != i && !Reaches(reverse, i, d)
    ensures d in p.queries ==> VerifiedAt(CellAt(cells, d), |history| - 1)
  {
    assert k in Readers(forward, d);
    assert k in Dependents(reverse, d);
    if Reaches(reverse, i, d) {
      ReachesNext(reverse, i, d, k);
    }
    ReachesSelf(reverse, i);
    assert DepsVerified(p, cells, CellAt(cells, k).deps, |history| - 1);
  }

  /** Queries whose derivations read only unchanged inputs and one another. */
  ghost predicate Steady(p: Program, was: Inputs, now: Inputs, cells: CellMap, calm: set<DynKey>) {
    && (forall k | k in calm ::
          && k in p.queries && CellAt(cells, k).Ready?
          && Derives(p, was, k, CellAt(cells, k).deps, CellAt(cells, k).value))
    && (forall k, d | k in calm && CellAt(cells, k).Ready? && d in CellAt(cells, k).deps ::
          CalmRead(p, was, now, calm, d))
  }

  ghost predicate CalmRead(p: Program, was: Inputs, now: Inputs, calm: set<DynKey>, d: Dep) {
    if d in p.queries then d in calm else InputAnswer(was, d) == InputAnswer(now, d)
  }

  lemma {:induction false} SteadyIsUnchanged(
    p: Program, was: Inputs, now: Inputs, cells: CellMap, calm: set<DynKey>, k: DynKey)
    requires Steady(p, was, now, cells, calm) && k in calm && k in p.queries && Settles(p, was, k)
    ensures Scratch(p, now, k) == Scratch(p, was, k)
    decreases Rank(p, was, k)
  {
    var deps, v := CellAt(cells, k).deps, CellAt(cells, k).value;
    DerivesDecides(p, was, k, deps, v);
    forall d | d in deps ensures AnswerOf(p, was, d) == AnswerOf(p, now, d) {
      assert CalmRead(p, was, now, calm, d);
      if d in p.queries {
        assert Below(p, was, k, d);
        SteadyIsUnchanged(p, was, now, cells, calm, d);
      }
    }
    TraceCarriesOver(p, was, now, k, deps);
    DerivesDecides(p, now, k, deps, v);
  }

  /** The queries verified before a write and out of its reach. */
  ghost predicate OutOfReach(
    p: Program, rev: Revision, i: DynKey, cells: CellMap, reverse: Reverse, calm: set<DynKey>)
  {
    forall k :: k in calm <==> k in p.queries && VerifiedAt(CellAt(cells, k), rev) && !Reaches(reverse, i, k)
  }

  lemma {:induction false} ReadOutOfReach(
    p: Program, history: History, now: Inputs, i: DynKey, cells: CellMap, forward: Forward, reverse: Reverse,
    calm: set<DynKey>, k: DynKey, d: DynKey)
    requires WrittenOver(p, history, now, i, cells, forward, reverse)
    requires OutOfReach(p, |history| - 1, i, cells, reverse, calm)
    requires k in calm && d in CellAt(cells, k).deps
    ensures CalmRead(p, history[|history| - 1], now, calm, d)
  {
    DepOutOfReach(p, history, now, i, cells, forward, reverse, k, d);
    assert d in p.queries ==> d in calm;
  }

  lemma {:induction false} VerifiedIsDerived(
    p: Program, history: History, cells: CellMap, calm: set<DynKey>)
    requires 0 < |history| && EachSound(p, history, cells)
    requires forall k | k in calm :: k in p.queries && VerifiedAt(CellAt(cells, k), |history| - 1)
    ensures forall k | k in calm && CellAt(cells, k).Ready? ::
              Derives(p, history[|history| - 1], k, CellAt(cells, k).deps, CellAt(cells, k).value)
  {
    forall k | k in calm && CellAt(cells, k).Ready?
      ensures Derives(p, history[|history| - 1], k, CellAt(cells, k).deps, CellAt(cells, k).value)
    {
      assert CellSound(p, history, k, CellAt(cells, k));
    }
  }

  lemma {:induction false} OutOfReachIsSteady(
    p: Program, history: History, now: Inputs, i: DynKey, cells: CellMap, forward: Forward, reverse: Reverse,
    calm: set<DynKey>)
    requires WrittenOver(p, history, now, i, cells, forward, reverse)
    requires OutOfReach(p, |history| - 1, i, cells, reverse, calm)
    ensures Steady(p, history[|history| - 1], now, cells, calm)
  {
    VerifiedIsDerived(p, history, cells, calm);
    forall k, d | k in calm && CellAt(cells, k).Ready? && d in CellAt(cells, k).deps
      ensures CalmRead(p, history[|history| - 1], now, calm, d)
    {
      ReadOutOfReach(p, history, now, i, cells, forward, reverse, calm, k, d);
    }
  }

  lemma {:induction false} ChangesAreAnnounced(
    p: Program, history: History, now: Inputs, i: DynKey, cells: CellMap, forward: Forward, reverse: Reverse,
    emitted: seq<DynKey>)
    requires WrittenOver(p, history, now, i, cells, forward, reverse)
    requires Invalidates(reverse, i, emitted)
    ensures AnnouncesChanges(p, history[|history| - 1], now, cells, |history| - 1, emitted)
  {
    var was, rev := history[|history| - 1], |history| - 1;
    var calm := set k | k in p.queries && VerifiedAt(CellAt(cells, k), rev) && !Reaches(reverse, i, k);
    OutOfReachIsSteady(p, history, now, i, cells, forward, reverse, calm);
    SteadyIsUnannounced(p, was, now, cells, calm, rev, emitted);
  }

  lemma {:induction false} SteadyIsUnannounced(
    p: Program, was: Inputs, now: Inputs, cells: CellMap, calm: set<DynKey>, rev: Revision, emitted: seq<DynKey>)
    requires Steady(p, was, now, cells, calm)
    requires forall k | k in p.queries && VerifiedAt(CellAt(cells, k), rev) && k !in emitted :: k in calm
    ensures AnnouncesChanges(p, was, now, cells, rev, emitted)
  {
    forall k | k in p.queries && VerifiedAt(CellAt(cells, k), rev) && k !in emitted
      ensures Evaluate(p, was, {}, k) == Evaluate(p, now, {}, k)
    {
      EvaluateIsScratch(p, was, k);
      EvaluateIsScratch(p, now, k);
      DerivesDecides(p, was, k, CellAt(cells, k).deps, CellAt(cells, k).value);
      SteadyIsUnchanged(p, was, now, cells, calm, k);
    }
  }

  /** At a revision that has just begun, no cell is verified. */
  lemma {:induction false} NothingVerifiedYet(p: Program, history: History, cells: CellMap)
    requires EachSound(p, history, cells)
    ensures forall k: DynKey :: !VerifiedAt(CellAt(cells, k), |history|)
  {
    forall k: DynKey ensures !VerifiedAt(CellAt(cells, k), |history|) {
      if k in cells {
        assert CellSound(p, history, k, CellAt(cells, k));
      }
    }
  }

  // ---------------------------------------------------------------------------
  // Stack bookkeeping and revalidation steps
  // ---------------------------------------------------------------------------

  /** The next read of the innermost frame may be accessed, and its failure is the frame's. */
  lemma {:induction false} InnermostRead(p: Program, inputs: Inputs, base: seq<Frame>, f: Frame, deps: seq<Dep>, d: Dep)
    requires StackOk(p, inputs, base + [f]) && f.dynKey in p.queries
    requires Follows(p, inputs, f.dynKey, deps) && p.body(f.dynKey, Answers(p, inputs, deps)) == Read(d)
    ensures f.dynKey in Busy(base + [f])
    ensures ReadsNext(p, inputs, f.dynKey, d)
    ensures d in p.queries ==> Above(p, inputs, base + [f], d)
  {
    assert (base + [f])[|base|] == f;
    TraceReadsNext(p, inputs, f.dynKey, deps, d);
    if d in p.queries {
      AboveRead(p, inputs, base, f, d);
    }
  }

  lemma {:induction false} BusyPop(stack: seq<Frame>, base: seq<Frame>)
    requires |stack| == |base| + 1 && stack[..|base|] == base
    ensures Busy(stack) == Busy(base) + {stack[|base|].dynKey}
    ensures forall p: Program, inputs :: StackOk(p, inputs, stack) ==> StackOk(p, inputs, base)
  {
    assert forall i | 0 <= i < |base| :: base[i] == stack[i];
  }

  /** The first `i` stored dependencies are answered as they were, so a fresh evaluation reads them. */
  ghost predicate SoFar(p: Program, was: Inputs, now: Inputs, k: DynKey, deps: seq<Dep>, i: nat)
    requires i <= |deps|
  {
    && Follows(p, was, k, deps)
    && Follows(p, now, k, deps[..i])
    && forall j | 0 <= j < i :: AnswerOf(p, was, deps[j]) == AnswerOf(p, now, deps[j])
  }

  /** The first `n` stored dependencies are the first `n` reads of a fresh evaluation. */
  ghost predicate ReadsFresh(p: Program, now: Inputs, k: DynKey, deps: seq<Dep>, n: nat)
    requires n <= |deps|
  {
    forall i | 0 <= i < n :: ReadAt(p, now, k, deps, i)
  }

  /** After the answers to the earlier dependencies, a fresh evaluation reads the `i`th. */
  ghost predicate ReadAt(p: Program, now: Inputs, k: DynKey, deps: seq<Dep>, i: nat)
    requires i < |deps|
  {
    p.body(k, Answers(p, now, deps[..i])) == Read(deps[i])
  }

  /** Revalidation stopped at a kind it cannot look up, or right after a dependency that changed. */
  ghost predicate StoppedAt(
    p: Program, entries: Entries, cells: CellMap, deps: seq<Dep>, touched: nat, limit: Revision, rev: Revision)
    requires touched <= |deps|
  {
    || (touched < |deps| && deps[touched].kind !in p.registered)
    || (0 < touched && Moved(p, entries, cells, deps[touched - 1], limit, rev)
        && limit < LastChange(p, entries, cells, deps[touched - 1]))
  }

  lemma {:induction false} StoppedIsCause(
    p: Program, entries: Entries, cells: CellMap, c: Cell, touched: nat, rev: Revision)
    requires c.Ready? && touched <= |c.deps| && StoppedAt(p, entries, cells, c.deps, touched, c.changedAt, rev)
    ensures HadCause(p, entries, c, cells, rev)
  {
    if touched < |c.deps| && c.deps[touched].kind !in p.registered {
      assert Moved(p, entries, cells, c.deps[touched], c.changedAt, rev);
    }
  }

  ghost predicate NoneChanged(p: Program, entries: Entries, cells: CellMap, deps: seq<Dep>, limit: Revision) {
    forall d | d in deps :: d.kind in p.registered && LastChange(p, entries, cells, d) <= limit
  }

  lemma {:induction false} NoneChangedStays(
    p: Program, entries: Entries, was: CellMap, now: CellMap, deps: seq<Dep>, limit: Revision, rev: Revision)
    requires NoneChanged(p, entries, was, deps, limit) && DepsVerified(p, was, deps, rev) && Advances(was, now, rev)
    ensures NoneChanged(p, entries, now, deps, limit)
  {
    forall d | d in deps ensures LastChange(p, entries, now, d) <= limit {
      assert CellAdvances(CellAt(was, d), CellAt(now, d), rev);
      assert LastChange(p, entries, was, d) <= limit;
    }
  }

  lemma {:induction false} SoFarReads(p: Program, was: Inputs, now: Inputs, k: DynKey, deps: seq<Dep>, i: nat)
    requires i <= |deps| && SoFar(p, was, now, k, deps, i)
    ensures ReadsFresh(p, now, k, deps, i)
    ensures i < |deps| ==> ReadsFresh(p, now, k, deps, i + 1)
  {
    forall j | 0 <= j <= i && j < |deps| ensures ReadAt(p, now, k, deps, j) {
      NextReadIsStored(p, was, now, k, deps, j);
    }
  }

  lemma {:induction false} SoFarExtend(p: Program, was: Inputs, now: Inputs, k: DynKey, deps: seq<Dep>, i: nat)
    requires i < |deps| && SoFar(p, was, now, k, deps, i)
    requires AnswerOf(p, was, deps[i]) == AnswerOf(p, now, deps[i])
    ensures SoFar(p, was, now, k, deps, i + 1)
  {
    NextReadIsStored(p, was, now, k, deps, i);
    FollowsExtend(p, now, k, deps[..i], deps[i]);
    assert deps[..i + 1] == deps[..i] + [deps[i]];
  }

  /** The first `i` stored dependencies were checked: registered, unchanged, and answered as they were. */
  ghost predicate Checked(p: Program, was: Inputs, entries: Entries, cells: CellMap, k: DynKey, deps: seq<Dep>,
                          i: nat, limit: Revision, rev: Revision)
    requires i <= |deps|
  {
    && SoFar(p, was, Values(entries), k, deps, i)
    && DepsVerified(p, cells, deps[..i], rev)
    && NoneChanged(p, entries, cells, deps[..i], limit)
  }

  /** What is known when revalidation is about to touch the `i`th dependency under frame `f`. */
  lemma {:induction false} BeforeTouch(
    p: Program, was: Inputs, entries: Entries, cells: CellMap, base: seq<Frame>, f: Frame, deps: seq<Dep>, i: nat,
    limit: Revision, rev: Revision)
    requires i < |deps| && Checked(p, was, entries, cells, f.dynKey, deps, i, limit, rev)
    requires f.dynKey in p.queries && StackOk(p, Values(entries), base + [f])
    ensures ReadsFresh(p, Values(entries), f.dynKey, deps, i) && ReadsFresh(p, Values(entries), f.dynKey, deps, i + 1)
    ensures f.dynKey in Busy(base + [f])
    ensures deps[i] in p.queries ==> Above(p, Values(entries), base + [f], deps[i])
    ensures ReadsNext(p, Values(entries), f.dynKey, deps[i])
  {
    SoFarReads(p, was, Values(entries), f.dynKey, deps, i);
    assert ReadAt(p, Values(entries), f.dynKey, deps, i);
    InnermostRead(p, Values(entries), base, f, deps[..i], deps[i]);
  }

  /** Of a revalidation that has checked `i` stored dependencies, touched `touched`, and stands at `r`. */
  ghost predicate Checking(p: Program, was: Inputs, entries: Entries, cells: CellMap, k: DynKey, deps: seq<Dep>, i: nat,
                           limit: Revision, rev: Revision, r: Result<bool, Error>, touched: nat)
    requires k in p.queries
  {
    && i <= |deps| && Checked(p, was, entries, cells, k, deps, i, limit, rev)
    && touched <= |deps| && ReadsFresh(p, Values(entries), k, deps, touched)
    && (r.Err? ==> FailsBy(p, Values(entries), k, r.error))
    && (r == Ok(true) ==> touched == i)
    && (r == Ok(false) ==> StoppedAt(p, entries, cells, deps, touched, limit, rev))
  }

  /** What a touch of `d` gave: a from-scratch error, or the revision at which it last changed. */
  ghost predicate Touched(
    p: Program, entries: Entries, cells: CellMap, rev: Revision, d: Dep, t: Result<Revision, Error>)
  {
    match t
    case Err(e) => d in p.queries && FailsBy(p, Values(entries), d, e)
    case Ok(changedAt) =>
      && (d in p.queries ==> VerifiedAt(CellAt(cells, d), rev))
      && changedAt == LastChange(p, entries, cells, d)
  }

  lemma {:induction false} AfterTouch(
    test: Test, p: Program, history: History, entries: Entries, cells: CellMap, k: DynKey, i: nat,
    t: Result<Revision, Error>)
    requires InputsRecorded(history, entries) && CellsSound(test, p, history, cells)
    requires k in p.queries && CellAt(cells, k).Ready? && i < |CellAt(cells, k).deps|
    requires CellAt(cells, k).verifiedAt < |history|
    requires var c := CellAt(cells, k);
             && Checked(p, history[c.verifiedAt], entries, cells, k, c.deps, i, c.changedAt, |history| - 1)
             && c.deps[i].kind in p.registered && ReadsFresh(p, Values(entries), k, c.deps, i + 1)
    requires var d := CellAt(cells, k).deps[i];
             && ReadsNext(p, Values(entries), k, d)
             && Touched(p, entries, cells, |history| - 1, d, t)
    ensures var c := CellAt(cells, k);
            var r := if t.Err? then Err(t.error) else Ok(t.value <= c.changedAt);
            Checking(p, history[c.verifiedAt], entries, cells, k, c.deps, if r == Ok(true) then i + 1 else i,
                     c.changedAt, |history| - 1, r, i + 1)
  {
    if t.Err? {
      FailsByRead(p, Values(entries), k, CellAt(cells, k).deps[i], t.error);
    } else if t.value <= CellAt(cells, k).changedAt {
      CheckedNext(test, p, history, entries, cells, k, i);
    }
  }

  lemma {:induction false} CheckedStays(
    p: Program, was: Inputs, entries: Entries, before: CellMap, cells: CellMap, k: DynKey, deps: seq<Dep>, i: nat,
    limit: Revision, rev: Revision)
    requires i <= |deps| && Checked(p, was, entries, before, k, deps, i, limit, rev) && Advances(before, cells, rev)
    ensures Checked(p, was, entries, cells, k, deps, i, limit, rev)
  {
    DepsStayVerified(p, before, cells, deps[..i], rev);
    NoneChangedStays(p, entries, before, cells, deps[..i], limit, rev);
  }

  lemma {:induction false} CheckingEnds(
    p: Program, was: Inputs, entries: Entries, cells: CellMap, k: DynKey, deps: seq<Dep>, i: nat, limit: Revision,
    rev: Revision, r: Result<bool, Error>, touched: nat)
    requires k in p.queries && Checking(p, was, entries, cells, k, deps, i, limit, rev, r, touched)
    requires r == Ok(true) ==> i == |deps|
    ensures touched <= |deps| && ReadsFresh(p, Values(entries), k, deps, touched)
    ensures r.Err? ==> FailsBy(p, Values(entries), k, r.error)
    ensures r == Ok(true) ==> touched == |deps| && SoFar(p, was, Values(entries), k, deps, |deps|)
    ensures r == Ok(true) ==> DepsVerified(p, cells, deps, rev) && NoneChanged(p, entries, cells, deps, limit)
    ensures r == Ok(false) ==> StoppedAt(p, entries, cells, deps, touched, limit, rev)
  {
    assert deps[..|deps|] == deps;
  }

  /** A dependency that passes the test extends what was checked. */
  lemma {:induction false} CheckedNext(
    test: Test, p: Program, history: History, entries: Entries, cells: CellMap, k: DynKey, i: nat)
    requires InputsRecorded(history, entries) && CellsSound(test, p, history, cells)
    requires k in p.queries && CellAt(cells, k).Ready? && i < |CellAt(cells, k).deps|
    requires CellAt(cells, k).verifiedAt < |history|
    requires var c := CellAt(cells, k);
             var d := c.deps[i];
             && Checked(p, history[c.verifiedAt], entries, cells, k, c.deps, i, c.changedAt, |history| - 1)
             && d.kind in p.registered && LastChange(p, entries, cells, d) <= c.changedAt
             && (d in p.queries ==> VerifiedAt(CellAt(cells, d), |history| - 1))
    ensures var c := CellAt(cells, k);
            Checked(p, history[c.verifiedAt], entries, cells, k, c.deps, i + 1, c.changedAt, |history| - 1)
  {
    var c := CellAt(cells, k);
    assert CellSound(p, history, k, c);
    UnchangedDepAnswersTheSame(test, p, history, entries, cells, k, c.deps[i]);
    SoFarExtend(p, history[c.verifiedAt], Values(entries), k, c.deps, i);
    assert c.deps[..i + 1] == c.deps[..i] + [c.deps[i]];
  }

  /** While answers agree, the next read of a fresh evaluation is the next stored dependency. */
  lemma {:induction false} NextReadIsStored(p: Program, was: Inputs, now: Inputs, k: DynKey, deps: seq<Dep>, i: nat)
    requires Follows(p, was, k, deps) && i < |deps|
    requires forall j | 0 <= j < i :: AnswerOf(p, was, deps[j]) == AnswerOf(p, now, deps[j])
    ensures p.body(k, Answers(p, now, deps[..i])) == Read(deps[i])
    ensures Readable(AnswerOf(p, was, deps[i]))
  {
    assert Answers(p, now, deps[..i]) == Answers(p, was, deps[..i]);
  }
}
