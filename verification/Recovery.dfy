/**
 Recovery from a base snapshot and a log. After any writes and any number of appends, replaying the
 log on the base gives the inputs as they were at the last append; and a database recovered that
 way, from a base whose derived records may be truncated, answers every later run as naive
 evaluation on those inputs does.
 */
module Recovery {
  import opened Keys
  import opened Semantics
  import opened Cells
  import opened Engine
  import opened Runs
  import opened Replay
  import Wal

  // ---------------------------------------------------------------------------
  // What a log of repeated appends says
  // ---------------------------------------------------------------------------

  /** How the live inputs relate to the base and to a log that was appended to since. */
  ghost predicate LogFollows(base: Store, live: Store, log: seq<Wal.Entry>, kinds: set<nat>) {
    && base.revision <= live.revision
    && base.entries.Keys <= live.entries.Keys
    && (forall k | k in live.entries ::
          && live.entries[k].changedAt <= live.revision
          && if live.entries[k].changedAt <= base.revision
             then k in base.entries && base.entries[k] == live.entries[k]
             else k.kind in kinds)
    && (base.revision < live.revision ==> exists k :: k in live.entries && live.entries[k].changedAt == live.revision)
    && (forall e | e in log ::
          && e.kindId in kinds && KeyOf(e) in live.entries
          && base.revision < e.revision <= live.entries[KeyOf(e)].changedAt)
  }

  lemma {:induction false} LogFollowsWrite(
    base: Store, live: Store, log: seq<Wal.Entry>, kinds: set<nat>, k: DynKey, value: Option<Value>)
    requires LogFollows(base, live, log, kinds) && k.kind in kinds
    ensures LogFollows(base, WriteEntry(live, k, value), log, kinds)
  {
    var now := WriteEntry(live, k, value);
    assert now.entries[k].changedAt == now.revision;
  }

  lemma {:induction false} LogFollowsOp(base: Store, live: Store, log: seq<Wal.Entry>, kinds: set<nat>, op: Op)
    requires LogFollows(base, live, log, kinds) && WritesKinds(op, kinds)
    ensures LogFollows(base, StoreAfter(live, op), log, kinds)
  {
    match op
    case SetInput(k, v) => LogFollowsWrite(base, live, log, kinds, k, Some(v));
    case RemoveInput(k) => LogFollowsWrite(base, live, log, kinds, k, None);
    case _ =>
  }

  lemma {:induction false} ReplayedElsewhere(entries: Entries, log: seq<Wal.Entry>, kinds: set<nat>, k: DynKey)
    requires forall e | e in log :: KeyOf(e) != k
    ensures k in Replayed(entries, log, kinds) <==> k in entries
    ensures k in entries ==> Replayed(entries, log, kinds)[k] == entries[k]
    decreases |log|
  {
    if log != [] {
      ReplayedElsewhere(entries, log[..|log| - 1], kinds, k);
    }
  }

  /** The last entry of a key decides, however many came before. */
  lemma {:induction false} ReplayedLast(
    entries: Entries, before: seq<Wal.Entry>, tail: seq<Wal.Entry>, kinds: set<nat>, last: Wal.Entry)
    requires last in tail && last.kindId in kinds
    requires forall e | e in tail :: KeyOf(e) == KeyOf(last) ==> e == last
    ensures KeyOf(last) in Replayed(entries, before + tail, kinds)
    ensures Replayed(entries, before + tail, kinds)[KeyOf(last)] == EntryOf(last)
    decreases |tail|
  {
    var front, e := tail[..|tail| - 1], tail[|tail| - 1];
    assert tail == front + [e];
    assert (before + tail)[..|before + tail| - 1] == before + front;
    if e != last {
      ReplayedLast(entries, before, front, kinds, last);
    }
  }

  lemma {:induction false} ReplayedKeys(base: Store, live: Store, log: seq<Wal.Entry>, kinds: set<nat>)
    requires base.entries.Keys <= live.entries.Keys
    requires forall e | e in log :: KeyOf(e) in live.entries && e.revision <= live.revision
    requires base.revision <= live.revision
    ensures Replayed(base.entries, log, kinds).Keys <= live.entries.Keys
    ensures base.revision <= LatestRevision(base.revision, log, kinds) <= live.revision
    ensures forall e | e in log && e.kindId in kinds :: e.revision <= LatestRevision(base.revision, log, kinds)
    decreases |log|
  {
    if log != [] {
      assert log[|log| - 1] in log;
      ReplayedKeys(base, live, log[..|log| - 1], kinds);
      assert log == log[..|log| - 1] + [log[|log| - 1]];
    }
  }

  /** One more append keeps the relation, and makes the log restore the present. */
  lemma {:induction false} AppendRestores(
    base: Store, live: Store, log: seq<Wal.Entry>, kinds: seq<nat>, tail: seq<Wal.Entry>)
    requires LogFollows(base, live, log, Kinds(kinds)) && ListsChanges(live.entries, base.revision, kinds, tail)
    ensures LogFollows(base, live, log + tail, Kinds(kinds))
    ensures Restores(base, log + tail, Kinds(kinds), live)
  {
    var all := Kinds(kinds);
    forall k | k in live.entries
      ensures k in Replayed(base.entries, log + tail, all)
      ensures Replayed(base.entries, log + tail, all)[k] == live.entries[k]
    {
      RestoresKey(base, live, log, kinds, tail, k);
    }
    ReplayedKeys(base, live, log + tail, all);
    assert Replayed(base.entries, log + tail, all) == live.entries;
    if base.revision < live.revision {
      var k :| k in live.entries && live.entries[k].changedAt == live.revision;
      assert ChangedSince(live.entries, base.revision, k) && k.kind in kinds;
      assert RecordOf(k, live.entries[k]) in log + tail;
    }
  }

  lemma {:induction false} RestoresKey(
    base: Store, live: Store, log: seq<Wal.Entry>, kinds: seq<nat>, tail: seq<Wal.Entry>, k: DynKey)
    requires LogFollows(base, live, log, Kinds(kinds)) && ListsChanges(live.entries, base.revision, kinds, tail)
    requires k in live.entries
    ensures k in Replayed(base.entries, log + tail, Kinds(kinds))
    ensures Replayed(base.entries, log + tail, Kinds(kinds))[k] == live.entries[k]
  {
    if live.entries[k].changedAt <= base.revision {
      ReplayedElsewhere(base.entries, log + tail, Kinds(kinds), k);
    } else {
      assert ChangedSince(live.entries, base.revision, k);
      var last := RecordOf(k, live.entries[k]);
      assert KeyOf(last) == k && EntryOf(last) == live.entries[k];
      ReplayedLast(base.entries, log, tail, Kinds(kinds), last);
    }
  }

  function Kinds(kinds: seq<nat>): set<nat> {
    set kind | kind in kinds
  }

  /** Replaying the log on the base gives exactly this store: values, tombstones and revisions. */
  ghost predicate Restores(base: Store, log: seq<Wal.Entry>, kinds: set<nat>, store: Store) {
    && Replayed(base.entries, log, kinds) == store.entries
    && LatestRevision(base.revision, log, kinds) == store.revision
  }

  // ---------------------------------------------------------------------------
  // A run with appends
  // ---------------------------------------------------------------------------

  datatype LogOp = Do(op: Op) | AppendAll

  predicate WritesKinds(op: Op, kinds: set<nat>) {
    op.SetInput? || op.RemoveInput? ==> op.key.kind in kinds
  }

  function LiveAfter(s: Store, ops: seq<LogOp>): Store
    decreases |ops|
  {
    if ops == [] then s
    else
      var before := LiveAfter(s, ops[..|ops| - 1]);
      if ops[|ops| - 1].Do? then StoreAfter(before, ops[|ops| - 1].op) else before
  }

  /** The store at the last append, or the base if there was none. */
  function LastAppended(s: Store, ops: seq<LogOp>): Store
    decreases |ops|
  {
    if ops == [] then s
    else if ops[|ops| - 1].Do? then LastAppended(s, ops[..|ops| - 1])
    else LiveAfter(s, ops)
  }

  /** If no input was written since the last append, what that append saw is the present. */
  lemma {:induction false} NothingWrittenSince(s: Store, ops: seq<LogOp>, since: seq<LogOp>)
    requires forall o | o in since :: o.Do? && !o.op.SetInput? && !o.op.RemoveInput?
    ensures LastAppended(s, ops + [AppendAll] + since) == LiveAfter(s, ops + [AppendAll] + since)
    decreases |since|
  {
    var all := ops + [AppendAll] + since;
    if since == [] {
      assert all == ops + [AppendAll];
    } else {
      assert all[..|all| - 1] == ops + [AppendAll] + since[..|since| - 1];
      NothingWrittenSince(s, ops, since[..|since| - 1]);
    }
  }

  /** Every input of the store is short enough for the log. */
  ghost predicate EntriesFit(s: Store) {
    forall k | k in s.entries :: Wal.Fits(Wal.EncodeEntry(RecordOf(k, s.entries[k])))
  }

  /** Everything the run with appends keeps; `appended` is the store at the last append. */
  ghost predicate LogState(base: Store, live: Store, log: seq<Wal.Entry>, kinds: set<nat>, appended: Store) {
    && LogFollows(base, live, log, kinds)
    && Restores(base, log, kinds, appended)
    && Wal.AllFit(log)
  }

  lemma {:induction false} LogStateAfterAppend(
    base: Store, live: Store, log: seq<Wal.Entry>, kinds: seq<nat>, appended: Store, tail: seq<Wal.Entry>)
    requires LogState(base, live, log, Kinds(kinds), appended) && EntriesFit(live)
    requires ListsChanges(live.entries, base.revision, kinds, tail)
    ensures LogState(base, live, log + tail, Kinds(kinds), live)
  {
    AppendRestores(base, live, log, kinds, tail);
    forall e | e in log + tail ensures Wal.Fits(Wal.EncodeEntry(e)) {
      assert e in tail ==> IsChange(live.entries, base.revision, e);
    }
  }

  lemma {:induction false} OpsOneMore(s: Store, ops: seq<LogOp>, i: nat)
    requires i < |ops|
    ensures LiveAfter(s, ops[..i + 1]) ==
            if ops[i].Do? then StoreAfter(LiveAfter(s, ops[..i]), ops[i].op) else LiveAfter(s, ops[..i])
    ensures LastAppended(s, ops[..i + 1]) == if ops[i].Do? then LastAppended(s, ops[..i]) else LiveAfter(s, ops[..i])
    ensures ops[i] in ops
  {
    assert ops[..i + 1][..i] == ops[..i];
  }

  method LogStep(db: Database, wal: Wal.WalWriter, kinds: seq<nat>, o: LogOp, ghost base: Store, ghost appended: Store)
    returns (next: Database)
    requires db.Valid() && db.stack == [] && wal.Valid() && wal.baseRevision == base.revision
    requires o.Do? ==> Applicable(db.program, o.op) && WritesKinds(o.op, Kinds(kinds))
    requires LogState(base, Store(db.runtime.currentRevision, db.entries), wal.entries, Kinds(kinds), appended)
    requires EntriesFit(Store(db.runtime.currentRevision, db.entries))
    modifies db, db.runtime, wal
    ensures next.Valid() && next.stack == [] && next.program == db.program
    ensures (next == db && next.runtime == db.runtime) || (fresh(next) && fresh(next.runtime))
    ensures wal.Valid()
    ensures var (live, now) := (Store(old(db.runtime.currentRevision), old(db.entries)),
                                Store(next.runtime.currentRevision, next.entries));
            && now == (if o.Do? then StoreAfter(live, o.op) else live)
            && LogState(base, now, wal.entries, Kinds(kinds), if o.Do? then appended else live)
  {
    ghost var live, log := Store(db.runtime.currentRevision, db.entries), wal.entries;
    match o
    case Do(op) =>
      var after, _ := Step(db, op);
      next := after;
      LogFollowsOp(base, live, log, Kinds(kinds), op);
    case AppendAll =>
      next := db;
      var _, tail := AppendToWal(wal, db.entries, kinds);
      LogStateAfterAppend(base, live, log, kinds, appended, tail);
  }

  /** Performs operations and appends; what was not flushed automatically is still in the buffer. */
  method RunLogged(db: Database, wal: Wal.WalWriter, kinds: seq<nat>, ops: seq<LogOp>)
    returns (next: Database)
    requires db.Valid() && db.stack == [] && wal.Valid() && wal.entries == []
    requires wal.baseRevision == db.runtime.currentRevision
    requires forall o | o in ops && o.Do? :: Applicable(db.program, o.op) && WritesKinds(o.op, Kinds(kinds))
    requires LogFollowsStart(Store(db.runtime.currentRevision, db.entries))
    requires AlwaysFit(Store(db.runtime.currentRevision, db.entries), ops)
    modifies db, db.runtime, wal
    ensures var base := Store(old(db.runtime.currentRevision), old(db.entries));
            && LogState(base, LiveAfter(base, ops), wal.entries, Kinds(kinds), LastAppended(base, ops))
            && Store(next.runtime.currentRevision, next.entries) == LiveAfter(base, ops)
    ensures wal.Valid()
  {
    next := db;
    ghost var base := Store(db.runtime.currentRevision, db.entries);
    LogStateAtStart(base, Kinds(kinds));
    for i := 0 to |ops|
      invariant next.Valid() && next.stack == [] && next.program == db.program
      invariant (next == db && next.runtime == db.runtime) || (fresh(next) && fresh(next.runtime))
      invariant wal.Valid()
      invariant Store(next.runtime.currentRevision, next.entries) == LiveAfter(base, ops[..i])
      invariant LogState(base, LiveAfter(base, ops[..i]), wal.entries, Kinds(kinds), LastAppended(base, ops[..i]))
    {
      OpsOneMore(base, ops, i);
      next := LogStep(next, wal, kinds, ops[i], base, LastAppended(base, ops[..i]));
    }
    WholePrefix(ops);
  }

  lemma WholePrefix<T>(s: seq<T>)
    ensures s[..|s|] == s
  {}

  ghost predicate LogFollowsStart(base: Store) {
    forall k | k in base.entries :: base.entries[k].changedAt <= base.revision
  }

  ghost predicate AlwaysFit(base: Store, ops: seq<LogOp>) {
    forall i | 0 <= i <= |ops| :: EntriesFit(LiveAfter(base, ops[..i]))
  }

  lemma LogStateAtStart(base: Store, kinds: set<nat>)
    requires LogFollowsStart(base)
    ensures LogState(base, base, [], kinds, base)
  {}

  // ---------------------------------------------------------------------------
  // Recovery
  // ---------------------------------------------------------------------------

  /** A history that ends in the replayed inputs; what they were between the base and now does not matter. */
  ghost function Extended(history: History, entries: Entries, revision: Revision): History
    requires |history| <= revision + 1
  {
    history + seq(revision + 1 - |history|, _ => Values(entries))
  }

  /** The store has grown from the base: what did not change since is as it was. */
  ghost predicate GrownFrom(base: Store, now: Store) {
    && base.revision <= now.revision
    && base.entries.Keys <= now.entries.Keys
    && forall k | k in now.entries ::
         && now.entries[k].changedAt <= now.revision
         && (now.entries[k].changedAt <= base.revision ==> k in base.entries && base.entries[k] == now.entries[k])
  }

  /** The entries of a log are later than the base. */
  ghost predicate LogStarts(base: Store, log: seq<Wal.Entry>) {
    LogFollowsStart(base) && forall e | e in log :: base.revision < e.revision
  }

  ghost function ReplayedStore(base: Store, log: seq<Wal.Entry>, kinds: set<nat>): Store {
    Store(LatestRevision(base.revision, log, kinds), Replayed(base.entries, log, kinds))
  }

  /** Replaying any part of a log from its start gives a store that has grown from the base. */
  lemma {:induction false} ReplayGrows(base: Store, log: seq<Wal.Entry>, kinds: set<nat>)
    requires LogStarts(base, log)
    ensures GrownFrom(base, ReplayedStore(base, log, kinds))
    ensures CountKnown(log, kinds) == 0 ==> ReplayedStore(base, log, kinds) == base
    ensures CountKnown(log, kinds) > 0 ==>
              exists k :: base.revision < ChangedAt(Replayed(base.entries, log, kinds), k)
    decreases |log|
  {
    if log != [] {
      var before, e := log[..|log| - 1], log[|log| - 1];
      assert e in log;
      ReplayGrows(base, before, kinds);
      if e.kindId in kinds {
        assert ChangedAt(Replayed(base.entries, log, kinds), KeyOf(e)) == e.revision;
      }
    }
  }

  lemma {:induction false} ReplayKeepsInputsRecorded(history: History, base: Store, now: Store)
    requires InputsRecorded(history, base.entries) && |history| == base.revision + 1
    requires GrownFrom(base, now)
    ensures InputsRecorded(Extended(history, now.entries, now.revision), now.entries)
  {
    var longer := Extended(history, now.entries, now.revision);
    if base.revision == now.revision {
      assert base.entries == now.entries;
      assert longer == history;
    }
    forall i: DynKey
      ensures ChangedAt(now.entries, i) < |longer|
      ensures forall r | ChangedAt(now.entries, i) <= r < |longer| ::
                InputAnswer(longer[r], i) == InputAnswer(Values(now.entries), i)
    {
      forall r | ChangedAt(now.entries, i) <= r < |longer|
        ensures InputAnswer(longer[r], i) == InputAnswer(Values(now.entries), i)
      {
        if r < |history| {
          assert longer[r] == history[r];
          assert ChangedAt(base.entries, i) == ChangedAt(now.entries, i);
        }
      }
    }
  }

  // ---------------------------------------------------------------------------
  // What a crash leaves on disk
  // ---------------------------------------------------------------------------

  /** How many entries are whole on a disk that holds only the beginning of a log. */
  ghost function Survivors(base: Revision, log: seq<Wal.Entry>, disk: Bytes): (n: nat)
    ensures n <= |log|
  {
    var header := |Wal.Preamble(base)|;
    if |disk| < header then 0 else Wal.WholeFrames(Wal.Payloads(log), |disk| - header)
  }

  /** The header is there, and what is left over after the whole entries looks like the end of the log. */
  ghost predicate EndsCleanly(base: Revision, log: seq<Wal.Entry>, disk: Bytes) {
    var header := |Wal.Preamble(base)|;
    header <= |disk| && Wal.LeftOver(Wal.Payloads(log), disk[header..]) == None
  }

  /** Reading a disk that holds the beginning of a log, cut anywhere. */
  lemma {:induction false} CutDiskReads(base: Revision, log: seq<Wal.Entry>, disk: Bytes)
    requires base < 0x1_0000_0000_0000_0000 && Wal.AllFit(log) && disk <= Wal.Log(base, log)
    ensures |disk| < |Wal.Preamble(base)| ==> Wal.HeaderOf(disk) == Err(Wal.Truncated)
    ensures |Wal.Preamble(base)| <= |disk| ==>
              && Wal.HeaderOf(disk).Ok?
              && Wal.HeaderOf(disk).value.header.baseRevision == base
              && Wal.ReadLog(disk[Wal.HeaderOf(disk).value.start..]) ==
                 (log[..Survivors(base, log, disk)], if EndsCleanly(base, log, disk) then None else Some(Wal.Truncated))
  {
    var preamble := Wal.Preamble(base);
    SplitPrefix(preamble, Wal.Frames(Wal.Payloads(log)), disk);
    if |disk| < |preamble| {
      Wal.CutHeaderIsRefused(base, disk);
    } else {
      Wal.HeaderReadsBack(base, disk[|preamble|..]);
      Wal.CutLogReads(disk[|preamble|..], log);
    }
  }

  lemma {:induction false} SplitPrefix(a: Bytes, b: Bytes, s: Bytes)
    requires s <= a + b
    ensures |s| < |a| ==> s <= a
    ensures |a| <= |s| ==> s == a + s[|a|..] && s[|a|..] <= b
  {
    assert s == (a + b)[..|s|];
  }

  /** What is on disk beyond the flushed entries' bytes loses no flushed entry. */
  lemma {:induction false} FlushedSurvive(base: Revision, log: seq<Wal.Entry>, flushed: nat, disk: Bytes)
    requires flushed <= |log| && |Wal.Log(base, log[..flushed])| <= |disk|
    ensures flushed <= Survivors(base, log, disk)
  {
    PayloadsPrefix(log, flushed);
    if Survivors(base, log, disk) < flushed {
      Wal.FramesPrefix(Wal.Payloads(log), Survivors(base, log, disk) + 1, flushed);
    }
  }

  lemma {:induction false} PayloadsPrefix(log: seq<Wal.Entry>, n: nat)
    requires n <= |log|
    ensures Wal.Payloads(log[..n]) == Wal.Payloads(log)[..n]
  {
    forall i | 0 <= i < n ensures Wal.Payloads(log[..n])[i] == Wal.Payloads(log)[..n][i] {
    }
  }

  // ---------------------------------------------------------------------------
  // Loading and replaying
  // ---------------------------------------------------------------------------

  /**
   What is left after a replay of a disk that holds the beginning of a log. The whole entries are
   applied, always; an error leaves the revision of the base.
   */
  ghost predicate RecoveredTo(
    base: Store, log: seq<Wal.Entry>, kinds: set<nat>, disk: Bytes, now: Store, r: Result<nat, ReplayError>)
  {
    var n := Survivors(base.revision, log, disk);
    var replayed := ReplayedStore(base, log[..n], kinds);
    && now.entries == replayed.entries
    && now.revision == (if EndsCleanly(base.revision, log, disk) then replayed.revision else base.revision)
    && r == if EndsCleanly(base.revision, log, disk) then Ok(CountKnown(log[..n], kinds))
            else Err(Unreadable(Wal.Truncated))
  }

  lemma {:induction false} CutDiskReplays(
    base: Store, log: seq<Wal.Entry>, kinds: set<nat>, disk: Bytes, now: Store, r: Result<nat, ReplayError>)
    requires base.revision < 0x1_0000_0000_0000_0000
    requires disk <= Wal.Log(base.revision, log) && Wal.AllFit(log) && LogStarts(base, log)
    requires ReplayOutcome(disk, kinds, base, now, r)
    ensures RecoveredTo(base, log, kinds, disk, now, r)
  {
    var n := Survivors(base.revision, log, disk);
    CutDiskReads(base.revision, log, disk);
    assert log[..0] == [];
    ReplayGrows(base, log[..n], kinds);
  }

  /** A replay without an error gives sound inputs; one with an error does only if it applied nothing. */
  lemma {:induction false} RecoveredInputs(
    base: Store, log: seq<Wal.Entry>, kinds: set<nat>, disk: Bytes, now: Store, r: Result<nat, ReplayError>,
    history: History)
    requires RecoveredTo(base, log, kinds, disk, now, r) && LogStarts(base, log)
    requires InputsRecorded(history, base.entries) && |history| == base.revision + 1
    ensures r.Ok? ==>
              base.revision <= now.revision && InputsRecorded(Extended(history, now.entries, now.revision), now.entries)
    ensures var applied := CountKnown(log[..Survivors(base.revision, log, disk)], kinds);
            && (r.Err? && applied == 0 ==> now == base)
            && (r.Err? && applied > 0 ==>
                  forall h: History :: |h| == now.revision + 1 ==> !InputsRecorded(h, now.entries))
  {
    var survived := log[..Survivors(base.revision, log, disk)];
    ReplayGrows(base, survived, kinds);
    if r.Ok? {
      ReplayKeepsInputsRecorded(history, base, now);
    } else if CountKnown(survived, kinds) > 0 {
      var k :| base.revision < ChangedAt(now.entries, k);
      assert forall h: History | InputsRecorded(h, now.entries) :: ChangedAt(now.entries, k) < |h|;
    }
  }

  /**
   Loads the base and replays what is on disk. If the disk ends cleanly the database is in the
   engine's invariant; if it does not, then only if no entry of a known kind was whole.
   */
  method Recover(program: Program, saved: Saved, disk: Bytes, kinds: seq<nat>, ghost base: Store, ghost cells: CellMap,
                 ghost history: History, ghost test: Test, ghost log: seq<Wal.Entry>)
    returns (db: Database, r: Result<nat, ReplayError>)
    requires saved.currentRevision == base.revision < 0x1_0000_0000_0000_0000 && |history| == base.revision + 1
    requires InputsRecorded(history, base.entries) && CellsSound(test, program, history, cells)
    requires ListsInputs(saved.inputs, base.entries) && ListsSomeReady(saved.derived, cells)
    requires disk <= Wal.Log(base.revision, log) && Wal.AllFit(log) && LogStarts(base, log)
    ensures fresh(db) && fresh(db.runtime) && db.stack == [] && db.program == program
    ensures RecoveredTo(base, log, Kinds(kinds), disk, Store(db.runtime.currentRevision, db.entries), r)
    ensures db.Valid() <==> Usable(base, log, Kinds(kinds), disk, r)
  {
    db := new Database.Load(program, saved, base.entries, cells, history, test);
    ghost var loaded := db.cells;
    r := ReplayWal(db, disk, Kinds(kinds));
    ghost var now := Store(db.runtime.currentRevision, db.entries);
    CutDiskReplays(base, log, Kinds(kinds), disk, now, r);
    ghost var longer := ResumedHistory(program, base, log, Kinds(kinds), disk, now, r, history, test, loaded);
    if Usable(base, log, Kinds(kinds), disk, r) {
      Resume(db, longer);
    }
  }

  /** There was no error, or nothing was applied before it. */
  ghost predicate Usable(
    base: Store, log: seq<Wal.Entry>, kinds: set<nat>, disk: Bytes, r: Result<nat, ReplayError>)
  {
    r.Ok? || CountKnown(log[..Survivors(base.revision, log, disk)], kinds) == 0
  }

  lemma {:induction false} ResumedHistory(
    p: Program, base: Store, log: seq<Wal.Entry>, kinds: set<nat>, disk: Bytes, now: Store, r: Result<nat, ReplayError>,
    history: History, test: Test, cells: CellMap)
    returns (longer: History)
    requires RecoveredTo(base, log, kinds, disk, now, r) && LogStarts(base, log)
    requires InputsRecorded(history, base.entries) && |history| == base.revision + 1
    requires CellsSound(test, p, history, cells)
    ensures Usable(base, log, kinds, disk, r) ==>
              && |longer| == now.revision + 1
              && InputsRecorded(longer, now.entries) && CellsSound(test, p, longer, cells)
    ensures !Usable(base, log, kinds, disk, r) ==>
              forall h: History :: |h| == now.revision + 1 ==> !InputsRecorded(h, now.entries)
  {
    RecoveredInputs(base, log, kinds, disk, now, r, history);
    longer := if r.Ok? then Extended(history, now.entries, now.revision) else history;
    SoundAfterDrop(test, p, history, cells, cells, longer);
  }

  /** A database is in the engine's invariant with any history that its inputs and its cells are sound for. */
  ghost method Resume(db: Database, history: History)
    requires db.runtime.Valid() && db.stack == [] && |history| == db.runtime.currentRevision + 1
    requires InputsRecorded(history, db.entries) && CellsSound(db.test, db.program, history, db.cells)
    requires forall k | k in db.cells :: !db.cells[k].Running?
    modifies db`history
    ensures db.Valid()
  {
    db.history := history;
  }

  // ---------------------------------------------------------------------------
  // A run with a crash
  // ---------------------------------------------------------------------------

  /**
   On disk is some beginning of what was written: `cut` bytes, or all of it. What the buffer kept
   back is fewer entries than the flush threshold, and no cut beyond the flushed bytes loses one.
   */
  ghost predicate CrashedDisk(
    base: Store, log: seq<Wal.Entry>, threshold: nat, cut: nat, disk: Bytes, flushed: nat)
  {
    var written := Wal.Log(base.revision, log);
    && disk == written[..if cut < |written| then cut else |written|]
    && flushed <= |log| && (flushed == |log| || |log| - flushed < threshold)
    && (|Wal.Log(base.revision, log[..flushed])| <= |disk| ==> flushed <= Survivors(base.revision, log, disk))
  }

  lemma {:induction false} WrittenReadsBack(base: Revision, log: seq<Wal.Entry>, written: Bytes)
    requires Wal.AllFit(log) && written == Wal.Log(base, log)
    ensures |Wal.Preamble(base)| <= |written| && Wal.ReadLog(written[|Wal.Preamble(base)|..]) == (log, None)
  {
    assert written[|Wal.Preamble(base)|..] == Wal.Frames(Wal.Payloads(log));
    Wal.WholeLogReads(log);
  }

  /**
   Runs with appends until the crash, which takes the database and whatever was not on disk. `log` is
   all that was written, `flushed` how many entries of it were no longer in the buffer.
   */
  method RunUntilCrash(db: Database, kinds: seq<nat>, autoFlushThreshold: nat, logged: seq<LogOp>, cut: nat)
    returns (disk: Bytes, log: seq<Wal.Entry>, flushed: nat)
    requires db.Valid() && db.stack == []
    requires forall o | o in logged && o.Do? :: Applicable(db.program, o.op) && WritesKinds(o.op, Kinds(kinds))
    requires AlwaysFit(Store(db.runtime.currentRevision, db.entries), logged)
    modifies db, db.runtime
    ensures var base := Store(old(db.runtime.currentRevision), old(db.entries));
            && LogStarts(base, log) && Wal.AllFit(log)
            && ReplayedStore(base, log, Kinds(kinds)) == LastAppended(base, logged)
            && CrashedDisk(base, log, autoFlushThreshold, cut, disk, flushed)
  {
    ghost var base := Store(db.runtime.currentRevision, db.entries);
    BaseStarts(db.history, base);
    var wal := new Wal.WalWriter(db.runtime.currentRevision, autoFlushThreshold);
    var gone := RunLogged(db, wal, kinds, logged);
    var written := wal.file + wal.buffer;
    disk := written[..if cut < |written| then cut else |written|];
    Wal.FileAndBuffer(wal);
    WrittenReadsBack(base.revision, wal.entries, written);
    log := Wal.ReadLog(written[|Wal.Preamble(wal.baseRevision)|..]).0;
    flushed := |log| - wal.entriesSinceFlush;
    LogStateStarts(base, log, Kinds(kinds), LiveAfter(base, logged), LastAppended(base, logged));
    if |Wal.Log(base.revision, log[..flushed])| <= |disk| {
      FlushedSurvive(base.revision, log, flushed, disk);
    }
  }

  lemma {:induction false} BaseStarts(history: History, base: Store)
    requires InputsRecorded(history, base.entries) && |history| == base.revision + 1
    ensures LogFollowsStart(base)
  {
    assert forall k | k in base.entries :: ChangedAt(base.entries, k) <= base.revision;
  }

  lemma {:induction false} LogStateStarts(
    base: Store, log: seq<Wal.Entry>, kinds: set<nat>, live: Store, appended: Store)
    requires LogFollowsStart(base) && LogState(base, live, log, kinds, appended)
    ensures LogStarts(base, log) && ReplayedStore(base, log, kinds) == appended
  {}

  lemma {:induction false} WholeDiskSurvives(base: Revision, log: seq<Wal.Entry>, disk: Bytes)
    requires disk == Wal.Log(base, log)
    ensures EndsCleanly(base, log, disk) && Survivors(base, log, disk) == |log| && log[..|log|] == log
  {
    WholePrefix(log);
    FlushedSurvive(base, log, |log|, disk);
    AllFramesFill(base, log, disk);
  }

  lemma {:induction false} AllFramesFill(base: Revision, log: seq<Wal.Entry>, disk: Bytes)
    requires disk == Wal.Log(base, log) && Survivors(base, log, disk) == |log|
    ensures EndsCleanly(base, log, disk)
  {
    WholePrefix(Wal.Payloads(log));
  }

  /** What a run after a crash replies: an error, or the replies on what survived. */
  ghost predicate AnsweredAfterCrash(
    p: Program, base: Store, log: seq<Wal.Entry>, kinds: set<nat>, disk: Bytes, after: seq<Op>,
    r: Result<seq<Reply>, ReplayError>)
    requires forall op | op in after :: Applicable(p, op)
  {
    var survived := ReplayedStore(base, log[..Survivors(base.revision, log, disk)], kinds);
    r == if EndsCleanly(base.revision, log, disk) then Ok(Reference(p, survived, after))
         else Err(Unreadable(Wal.Truncated))
  }

  /**
   A crash and a recovery. Operations run, the database is saved and loses some derived records; more
   operations and appends run, and then memory is gone and the log is cut anywhere. What is loaded
   and replayed answers any further run as naive evaluation does on the inputs that the whole entries
   give, or reports that the log does not end cleanly; if all that was written is there, those are
   the inputs of the last append.
   */
  method RunWithCrash(program: Program, before: seq<Op>, lost: set<DynKey>, kinds: seq<nat>, autoFlushThreshold: nat,
                      logged: seq<LogOp>, cut: nat, after: seq<Op>)
    returns (r: Result<seq<Reply>, ReplayError>, disk: Bytes, log: seq<Wal.Entry>, flushed: nat)
    requires forall op | op in before + after :: Applicable(program, op)
    requires forall o | o in logged && o.Do? :: Applicable(program, o.op) && WritesKinds(o.op, Kinds(kinds))
    requires var base := StoreAfterAll(Store(0, map[]), before);
             base.revision < 0x1_0000_0000_0000_0000 && AlwaysFit(base, logged)
    ensures var base := StoreAfterAll(Store(0, map[]), before);
            && ReplayedStore(base, log, Kinds(kinds)) == LastAppended(base, logged)
            && CrashedDisk(base, log, autoFlushThreshold, cut, disk, flushed)
            && AnsweredAfterCrash(program, base, log, Kinds(kinds), disk, after, r)
            && (|Wal.Log(base.revision, log)| <= cut ==>
                  r == Ok(Reference(program, LastAppended(base, logged), after)))
  {
    var db := new Database(program);
    var live, _ := RunOn(db, before);
    var saved := live.Save();
    var kept := Saved(saved.currentRevision, saved.inputs, WithoutRecords(saved.derived, lost));
    ghost var base, cells := Store(live.runtime.currentRevision, live.entries), live.cells;
    ghost var history, test := live.history, live.test;
    disk, log, flushed := RunUntilCrash(live, kinds, autoFlushThreshold, logged, cut);
    if |Wal.Log(base.revision, log)| <= cut {
      WholeDiskSurvives(base.revision, log, disk);
    }
    var recovered, replayed := Recover(program, kept, disk, kinds, base, cells, history, test, log);
    if replayed.Err? {
      return Err(replayed.error), disk, log, flushed;
    }
    var _, all := RunOn(recovered, after);
    r := Ok(all);
  }
}
