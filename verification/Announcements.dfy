/**
 Invalidation over whole runs, as a subscriber sees it: a query that was read successfully, and whose
 from-scratch value a later write changes, is among the queries announced with that write, unless
 another write came in between.
 */
module Announcements {
  import opened Keys
  import opened Semantics
  import opened RuntimeState
  import opened Cells
  import opened Engine
  import opened Runs

  /** The queries announced as invalidated in a piece of the event stream. */
  function InvalidatedIn(events: seq<Event>): (queries: seq<DynKey>)
    ensures forall e | e in events && e.QueryInvalidated? :: e.query in queries
  {
    if events == [] then []
    else
      assert events == [events[0]] + events[1..];
      (if events[0].QueryInvalidated? then [events[0].query] else []) + InvalidatedIn(events[1..])
  }

  lemma {:induction false} AllInvalidationsIn(
    before: seq<Event>, revision: Revision, source: DynKey, emitted: seq<DynKey>)
    ensures forall k | k in emitted :: k in InvalidatedIn(before + Invalidations(revision, source, emitted))
  {
    forall k | k in emitted ensures k in InvalidatedIn(before + Invalidations(revision, source, emitted)) {
      var i :| 0 <= i < |emitted| && emitted[i] == k;
      assert Invalidations(revision, source, emitted)[i] in before + Invalidations(revision, source, emitted);
    }
  }

  /** A write, and what the events it sent announce. */
  method AnnouncedWrite(db: Database, op: Op) returns (reply: Reply, announced: seq<DynKey>)
    requires db.Valid() && db.stack == [] && db.Untruncated() && Applicable(db.program, op)
    requires op.SetInput? || op.RemoveInput?
    modifies db`entries, db`history, db.runtime`currentRevision, db.runtime`events
    ensures db.Valid() && db.Untruncated()
    ensures Store(db.runtime.currentRevision, db.entries)
            == StoreAfter(Store(old(db.runtime.currentRevision), old(db.entries)), op)
    ensures reply == ReplyOf(db.program, Store(old(db.runtime.currentRevision), old(db.entries)), op)
    ensures db.runtime.currentRevision != old(db.runtime.currentRevision) ==>
              AnnouncesChanges(db.program, Values(old(db.entries)), Values(db.entries), db.cells,
                               old(db.runtime.currentRevision), announced)
  {
    var sent := |db.runtime.events|;
    ghost var was, before := db.runtime.events, Store(db.runtime.currentRevision, db.entries);
    var revision;
    ghost var emitted;
    if op.SetInput? {
      revision, emitted := db.Set(op.key, op.value);
    } else {
      revision, emitted := db.Remove(op.key);
    }
    reply := Written(revision);
    announced := InvalidatedIn(db.runtime.events[sent..]);
    if db.runtime.currentRevision != before.revision {
      ghost var written := if op.SetInput? then InputSet(revision, op.key) else InputRemoved(revision, op.key);
      assert db.runtime.events[sent..]
             == [RevisionBumped(revision), written] + Invalidations(revision, op.key, emitted);
      AllInvalidationsIn([RevisionBumped(revision), written], revision, op.key, emitted);
    }
  }

  /** The query of a read, which a success verifies at the present revision. */
  predicate Reads(op: Op) {
    op.GetQuery? || op.TouchQuery?
  }

  /** Queries that were verified still are, unless the revision moved on. */
  ghost predicate StillVerified(was: CellMap, now: CellMap, rev: Revision) {
    forall k: DynKey | VerifiedAt(CellAt(was, k), rev) :: VerifiedAt(CellAt(now, k), rev)
  }

  method AnnouncedStep(db: Database, op: Op) returns (next: Database, reply: Reply, announced: seq<DynKey>)
    requires db.Valid() && db.stack == [] && db.Untruncated() && Applicable(db.program, op) && KeepsCells(op)
    modifies db, db.runtime
    ensures next.Valid() && next.stack == [] && next.program == db.program && next.Untruncated()
    ensures (next == db && next.runtime == db.runtime) || (fresh(next) && fresh(next.runtime))
    ensures Store(next.runtime.currentRevision, next.entries)
            == StoreAfter(Store(old(db.runtime.currentRevision), old(db.entries)), op)
    ensures reply == ReplyOf(db.program, Store(old(db.runtime.currentRevision), old(db.entries)), op)
    ensures next.runtime.currentRevision == old(db.runtime.currentRevision) ==>
              StillVerified(old(db.cells), next.cells, next.runtime.currentRevision)
    ensures Reads(op) && Evaluate(db.program, Values(next.entries), {}, op.key).Present? ==>
              VerifiedAt(CellAt(next.cells, op.key), next.runtime.currentRevision)
    ensures next.runtime.currentRevision != old(db.runtime.currentRevision) ==>
              AnnouncesChanges(db.program, Values(old(db.entries)), Values(next.entries), old(db.cells),
                               old(db.runtime.currentRevision), announced)
  {
    next, reply, announced := db, Silent, [];
    ghost var was, rev := db.cells, db.runtime.currentRevision;
    match op
    case SetInput(_, _) =>
      reply, announced := AnnouncedWrite(db, op);
    case RemoveInput(_) =>
      reply, announced := AnnouncedWrite(db, op);
    case GetQuery(k) =>
      var r, _ := db.Get(k);
      reply := Evaluated(GetOutcome(r));
      AdvancesStillVerified(was, db.cells, rev);
    case TouchQuery(k) =>
      var r, _ := db.TouchQuery(k);
      reply := Touched(if r.Ok? then None else Some(ErrorOutcome(r.error)));
      AdvancesStillVerified(was, db.cells, rev);
    case SaveAndLoad(lost) =>
      next := Reload(db, lost);
  }

  lemma {:induction false} AdvancesStillVerified(was: CellMap, now: CellMap, rev: Revision)
    requires Advances(was, now, rev)
    ensures StillVerified(was, now, rev)
  {
    forall k: DynKey | VerifiedAt(CellAt(was, k), rev) ensures VerifiedAt(CellAt(now, k), rev) {
      assert CellAdvances(CellAt(was, k), CellAt(now, k), rev);
    }
  }

  function StoreAt(ops: seq<Op>, i: nat): Store
    requires i <= |ops|
  {
    StoreAfterAll(Store(0, map[]), ops[..i])
  }

  predicate AllApplicable(p: Program, ops: seq<Op>) {
    forall i | 0 <= i < |ops| :: Applicable(p, ops[i])
  }

  /** Operation `i` read a query, and operation `j` is the first write since and changes its value. */
  ghost predicate ReadThenChanged(p: Program, ops: seq<Op>, i: nat, j: nat)
    requires i < j < |ops| && AllApplicable(p, ops)
  {
    && Reads(ops[i])
    && StoreAt(ops, i) == StoreAt(ops, j) != StoreAt(ops, j + 1)
    && Evaluate(p, Values(StoreAt(ops, i).entries), {}, ops[i].key).Present?
    && Evaluate(p, Values(StoreAt(ops, j + 1).entries), {}, ops[i].key)
       != Evaluate(p, Values(StoreAt(ops, i).entries), {}, ops[i].key)
  }

  /** Every successful read since the last write is of a query that is verified now. */
  ghost predicate ReadsVerified(p: Program, ops: seq<Op>, n: nat, cells: CellMap)
    requires n <= |ops| && AllApplicable(p, ops)
  {
    forall i | 0 <= i < n && Reads(ops[i]) && StoreAt(ops, i).revision == StoreAt(ops, n).revision ::
      Evaluate(p, Values(StoreAt(ops, i).entries), {}, ops[i].key).Present? ==>
        VerifiedAt(CellAt(cells, ops[i].key), StoreAt(ops, n).revision)
  }

  lemma {:induction false} StoreAtNext(ops: seq<Op>, i: nat)
    requires i < |ops|
    ensures StoreAt(ops, i + 1) == StoreAfter(StoreAt(ops, i), ops[i])
    decreases |ops|
  {
    StoreAfterLast(Store(0, map[]), ops[..i], ops[i]);
    assert ops[..i + 1] == ops[..i] + [ops[i]];
  }

  lemma {:induction false} StoreAfterLast(s: Store, ops: seq<Op>, op: Op)
    ensures StoreAfterAll(s, ops + [op]) == StoreAfter(StoreAfterAll(s, ops), op)
    decreases |ops|
  {
    var all := ops + [op];
    if ops == [] {
      assert all[1..] == [];
    } else {
      assert all[1..] == ops[1..] + [op];
      StoreAfterLast(StoreAfter(s, ops[0]), ops[1..], op);
    }
  }

  lemma {:induction false} RevisionsGrow(ops: seq<Op>, i: nat, j: nat)
    requires i <= j <= |ops|
    ensures StoreAt(ops, i).revision <= StoreAt(ops, j).revision
    decreases j - i
  {
    if i < j {
      RevisionsGrow(ops, i, j - 1);
      StoreAtNext(ops, j - 1);
    }
  }

  lemma {:induction false} ReadsVerifiedNext(p: Program, ops: seq<Op>, n: nat, was: CellMap, now: CellMap)
    requires n < |ops| && AllApplicable(p, ops)
    requires ReadsVerified(p, ops, n, was)
    requires StoreAt(ops, n + 1).revision == StoreAt(ops, n).revision ==>
               StillVerified(was, now, StoreAt(ops, n).revision)
    requires Reads(ops[n]) && Evaluate(p, Values(StoreAt(ops, n + 1).entries), {}, ops[n].key).Present? ==>
               VerifiedAt(CellAt(now, ops[n].key), StoreAt(ops, n + 1).revision)
    ensures ReadsVerified(p, ops, n + 1, now)
  {
    StoreAtNext(ops, n);
    forall i | 0 <= i < n + 1 && Reads(ops[i]) && StoreAt(ops, i).revision == StoreAt(ops, n + 1).revision
               && Evaluate(p, Values(StoreAt(ops, i).entries), {}, ops[i].key).Present?
      ensures VerifiedAt(CellAt(now, ops[i].key), StoreAt(ops, n + 1).revision)
    {
      if i < n {
        RevisionsGrow(ops, i, n);
      }
    }
  }

  /** What a write announces covers every query read since the write before and changed by it. */
  lemma {:induction false} AnnouncesReads(
    p: Program, ops: seq<Op>, j: nat, cells: CellMap, announced: seq<DynKey>)
    requires j < |ops| && AllApplicable(p, ops)
    requires ReadsVerified(p, ops, j, cells)
    requires StoreAt(ops, j + 1).revision != StoreAt(ops, j).revision ==>
               AnnouncesChanges(p, Values(StoreAt(ops, j).entries), Values(StoreAt(ops, j + 1).entries), cells,
                                StoreAt(ops, j).revision, announced)
    ensures forall i | 0 <= i < j && ReadThenChanged(p, ops, i, j) :: ops[i].key in announced
  {
    StoreAtNext(ops, j);
    forall i | 0 <= i < j && ReadThenChanged(p, ops, i, j) ensures ops[i].key in announced {
      assert ops[i] in ops;
      assert VerifiedAt(CellAt(cells, ops[i].key), StoreAt(ops, j).revision);
    }
  }

  ghost predicate ReadsAnnounced(p: Program, ops: seq<Op>, announced: seq<seq<DynKey>>)
    requires |announced| <= |ops| && AllApplicable(p, ops)
  {
    forall i, j | 0 <= i < j < |announced| && ReadThenChanged(p, ops, i, j) :: ops[i].key in announced[j]
  }

  lemma {:induction false} ReadsAnnouncedNext(p: Program, ops: seq<Op>, announced: seq<seq<DynKey>>, sent: seq<DynKey>)
    requires |announced| < |ops| && AllApplicable(p, ops) && ReadsAnnounced(p, ops, announced)
    requires forall i | 0 <= i < |announced| && ReadThenChanged(p, ops, i, |announced|) :: ops[i].key in sent
    ensures ReadsAnnounced(p, ops, announced + [sent])
  {
    var more := announced + [sent];
    forall i, j | 0 <= i < j < |more| && ReadThenChanged(p, ops, i, j) ensures ops[i].key in more[j] {
      if j < |announced| {
        assert ops[i].key in announced[j];
      }
    }
  }

  /** A run, with what the events of each operation announce. */
  method RunAnnounced(program: Program, ops: seq<Op>) returns (replies: seq<Reply>, announced: seq<seq<DynKey>>)
    requires AllApplicable(program, ops) && forall i | 0 <= i < |ops| :: KeepsCells(ops[i])
    ensures replies == Reference(program, Store(0, map[]), ops)
    ensures |announced| == |ops| && ReadsAnnounced(program, ops, announced)
  {
    var db := new Database(program);
    replies, announced := [], [];
    ghost var start := Store(0, map[]);
    for n := 0 to |ops|
      invariant db.Valid() && db.stack == [] && db.program == program && db.Untruncated()
      invariant fresh(db) && fresh(db.runtime)
      invariant Store(db.runtime.currentRevision, db.entries) == StoreAt(ops, n)
      invariant replies == Reference(program, start, ops[..n]) && |announced| == n
      invariant ReadsVerified(program, ops, n, db.cells)
      invariant ReadsAnnounced(program, ops, announced)
    {
      assert ops[n] in ops && ops[..n + 1] == ops[..n] + [ops[n]];
      ReferenceExtend(program, start, ops[..n], ops[n]);
      ghost var cells := db.cells;
      var reply, sent;
      db, reply, sent := AnnouncedStep(db, ops[n]);
      StoreAtNext(ops, n);
      ReadsVerifiedNext(program, ops, n, cells, db.cells);
      AnnouncesReads(program, ops, n, cells, sent);
      ReadsAnnouncedNext(program, ops, announced, sent);
      replies, announced := replies + [reply], announced + [sent];
    }
    assert ops[..|ops|] == ops;
  }
}
