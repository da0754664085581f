/**
 Incremental persistence: the input changes since a base snapshot are appended to a log, and
 replaying the log on top of the snapshot brings the inputs back.

 Every append re-emits all changes since the base, so the log holds superseded entries and the
 same entry many times over, in no particular order within one append.
 */
module Replay {
  import opened Keys
  import opened Semantics
  import opened Cells
  import opened Engine
  import opened Runs
  import Wal

  // ---------------------------------------------------------------------------
  // Log entries of inputs
  // ---------------------------------------------------------------------------

  datatype Change = Change(revision: Revision, key: Bytes, value: Option<Value>)

  function RecordOf(k: DynKey, e: InputEntry): Wal.Entry {
    Wal.Entry(e.changedAt, k.kind, if e.value.Some? then Wal.Set(k.key, e.value.value) else Wal.Delete(k.key))
  }

  function KeyOf(e: Wal.Entry): DynKey {
    DynKey(e.kindId, e.operation.key)
  }

  function EntryOf(e: Wal.Entry): InputEntry {
    InputEntry(if e.operation.Set? then Some(e.operation.value) else None, e.revision)
  }

  predicate ChangedSince(entries: Entries, since: Revision, k: DynKey) {
    k in entries && since < entries[k].changedAt
  }

  ghost predicate IsChange(entries: Entries, since: Revision, e: Wal.Entry) {
    ChangedSince(entries, since, KeyOf(e)) && e == RecordOf(KeyOf(e), entries[KeyOf(e)])
  }

  ghost predicate ListsChanges(entries: Entries, since: Revision, kinds: seq<nat>, log: seq<Wal.Entry>) {
    && (forall e | e in log :: e.kindId in kinds && IsChange(entries, since, e))
    && (forall k: DynKey | k.kind in kinds && ChangedSince(entries, since, k) :: RecordOf(k, entries[k]) in log)
  }

  // ---------------------------------------------------------------------------
  // Appending
  // ---------------------------------------------------------------------------

  function ChangedKeys(entries: Entries, kind: nat, since: Revision): set<DynKey> {
    set k | k in entries && k.kind == kind && since < entries[k].changedAt
  }

  function ChangeOf(k: DynKey, e: InputEntry): Change {
    Change(e.changedAt, k.key, e.value)
  }

  /** The changes of these keys of one kind, each once, in any order. */
  ghost predicate ListsKeys(entries: Entries, kind: nat, keys: set<DynKey>, changes: seq<Change>) {
    && |changes| == |keys|
    && (forall k | k in keys :: k in entries && ChangeOf(k, entries[k]) in changes)
    && (forall c | c in changes ::
          var k := DynKey(kind, c.key);
          k in keys && k in entries && c == ChangeOf(k, entries[k]))
    && (forall i, j | 0 <= i < j < |changes| :: changes[i].key != changes[j].key)
  }

  lemma {:induction false} ListsOneMore(
    entries: Entries, kind: nat, keys: set<DynKey>, changes: seq<Change>, k: DynKey)
    requires ListsKeys(entries, kind, keys, changes) && k in entries && k.kind == kind && k !in keys
    ensures ListsKeys(entries, kind, keys + {k}, changes + [ChangeOf(k, entries[k])])
  {
    var more := changes + [ChangeOf(k, entries[k])];
    assert more[|changes|] == ChangeOf(k, entries[k]);
    forall i, j | 0 <= i < j < |more| ensures more[i].key != more[j].key {
      assert changes[i] in changes;
      assert DynKey(kind, changes[i].key) in keys && DynKey(kind, k.key) == k;
    }
  }

  /** The changes of one ingredient, each once, in the order its table happens to have. */
  method IncrementalRecords(entries: Entries, kind: nat, since: Revision) returns (changes: seq<Change>)
    ensures ListsKeys(entries, kind, ChangedKeys(entries, kind, since), changes)
  {
    changes := [];
    var rest := set k | k in entries && k.kind == kind;
    ghost var seen: set<DynKey> := {};
    while rest != {}
      invariant rest <= set k | k in entries && k.kind == kind
      invariant seen == ChangedKeys(entries, kind, since) - rest
      invariant ListsKeys(entries, kind, seen, changes)
      decreases rest
    {
      var k :| k in rest;
      rest := rest - {k};
      if entries[k].changedAt > since {
        ListsOneMore(entries, kind, seen, changes, k);
        changes := changes + [Change(entries[k].changedAt, k.key, entries[k].value)];
        seen := seen + {k};
      }
    }
  }

  function EntriesOf(kind: nat, changes: seq<Change>): (log: seq<Wal.Entry>)
    ensures |log| == |changes|
  {
    seq(|changes|, i requires 0 <= i < |changes| =>
      var c := changes[i];
      Wal.Entry(c.revision, kind, if c.value.Some? then Wal.Set(c.key, c.value.value) else Wal.Delete(c.key)))
  }

  /** Appends the changes of one ingredient. */
  method AppendChanges(wal: Wal.WalWriter, kind: nat, changes: seq<Change>)
    requires wal.Valid()
    modifies wal
    ensures wal.Valid()
    ensures wal.entries == old(wal.entries) + EntriesOf(kind, changes)
  {
    ghost var was := wal.entries;
    for i := 0 to |changes|
      invariant wal.Valid()
      invariant wal.entries == was + EntriesOf(kind, changes[..i])
    {
      EntriesOfOneMore(was, kind, changes, i);
      var c := changes[i];
      var operation := if c.value.Some? then Wal.Set(c.key, c.value.value) else Wal.Delete(c.key);
      wal.Append(Wal.Entry(c.revision, kind, operation));
    }
    assert changes[..|changes|] == changes;
  }

  lemma {:induction false} EntriesOfOneMore(was: seq<Wal.Entry>, kind: nat, changes: seq<Change>, i: nat)
    requires i < |changes|
    ensures was + EntriesOf(kind, changes[..i + 1]) ==
            was + EntriesOf(kind, changes[..i]) + [EntriesOf(kind, changes)[i]]
  {
    assert EntriesOf(kind, changes[..i + 1]) == EntriesOf(kind, changes[..i]) + [EntriesOf(kind, changes)[i]];
  }

  predicate DistinctKinds(kinds: seq<nat>) {
    forall i, j | 0 <= i < j < |kinds| :: kinds[i] != kinds[j]
  }

  function ChangedIn(entries: Entries, kinds: seq<nat>, since: Revision): set<DynKey> {
    set k | k in entries && k.kind in kinds && since < entries[k].changedAt
  }

  /** No key has two entries, and there are as many as keys that changed. */
  ghost predicate ListsOnce(entries: Entries, since: Revision, kinds: seq<nat>, log: seq<Wal.Entry>) {
    && |log| == |ChangedIn(entries, kinds, since)|
    && forall i, j | 0 <= i < j < |log| :: KeyOf(log[i]) != KeyOf(log[j])
  }

  lemma {:induction false} OneKindOnce(
    entries: Entries, since: Revision, kinds: seq<nat>, i: nat, tail: seq<Wal.Entry>, changes: seq<Change>)
    requires DistinctKinds(kinds) && i < |kinds|
    requires ListsOnce(entries, since, kinds[..i], tail) && forall e | e in tail :: e.kindId in kinds[..i]
    requires ListsKeys(entries, kinds[i], ChangedKeys(entries, kinds[i], since), changes)
    ensures ListsOnce(entries, since, kinds[..i + 1], tail + EntriesOf(kinds[i], changes))
  {
    var kind, before, here := kinds[i], ChangedIn(entries, kinds[..i], since), ChangedKeys(entries, kinds[i], since);
    assert kinds[..i + 1] == kinds[..i] + [kind] && kind !in kinds[..i];
    assert before !! here && ChangedIn(entries, kinds[..i + 1], since) == before + here;
    var more := EntriesOf(kind, changes);
    forall a, b | 0 <= a < |tail| && 0 <= b < |more| ensures KeyOf(tail[a]) != KeyOf(more[b]) {
      assert tail[a] in tail;
    }
    forall a, b | 0 <= a < b < |more| ensures KeyOf(more[a]) != KeyOf(more[b]) {
      assert changes[a].key != changes[b].key;
    }
    NoRepeatsJoined(tail, more);
  }

  lemma {:induction false} NoRepeatsJoined(a: seq<Wal.Entry>, b: seq<Wal.Entry>)
    requires forall i, j | 0 <= i < j < |a| :: KeyOf(a[i]) != KeyOf(a[j])
    requires forall i, j | 0 <= i < j < |b| :: KeyOf(b[i]) != KeyOf(b[j])
    requires forall i, j | 0 <= i < |a| && 0 <= j < |b| :: KeyOf(a[i]) != KeyOf(b[j])
    ensures forall i, j | 0 <= i < j < |a + b| :: KeyOf((a + b)[i]) != KeyOf((a + b)[j])
  {}

  /** Appends every change since the base revision of the log, ingredient by ingredient. */
  method AppendToWal(wal: Wal.WalWriter, entries: Entries, kinds: seq<nat>)
    returns (count: nat, ghost tail: seq<Wal.Entry>)
    requires wal.Valid()
    modifies wal
    ensures wal.Valid() && wal.entries == old(wal.entries) + tail && count == |tail|
    ensures ListsChanges(entries, wal.baseRevision, kinds, tail)
    ensures DistinctKinds(kinds) ==> ListsOnce(entries, wal.baseRevision, kinds, tail)
    ensures DistinctKinds(kinds) ==> count == |ChangedIn(entries, kinds, wal.baseRevision)|
  {
    count, tail := 0, [];
    ghost var was := wal.entries;
    for i := 0 to |kinds|
      invariant wal.Valid() && wal.entries == was + tail && count == |tail|
      invariant ListsSoFar(entries, wal.baseRevision, kinds, i, tail)
    {
      var changes := IncrementalRecords(entries, kinds[i], wal.baseRevision);
      AppendChanges(wal, kinds[i], changes);
      ListsOneKindMore(entries, wal.baseRevision, kinds, i, was, tail, changes);
      tail, count := tail + EntriesOf(kinds[i], changes), count + |changes|;
    }
    assert kinds[..|kinds|] == kinds;
  }

  /** The changes of the first `n` kinds, each once if no kind is repeated. */
  ghost predicate ListsSoFar(entries: Entries, since: Revision, kinds: seq<nat>, n: nat, log: seq<Wal.Entry>)
    requires n <= |kinds|
  {
    && ListsChanges(entries, since, kinds[..n], log)
    && (DistinctKinds(kinds) ==> ListsOnce(entries, since, kinds[..n], log))
  }

  lemma {:induction false} ListsOneKindMore(
    entries: Entries, since: Revision, kinds: seq<nat>, i: nat, was: seq<Wal.Entry>, tail: seq<Wal.Entry>,
    changes: seq<Change>)
    requires i < |kinds| && ListsSoFar(entries, since, kinds, i, tail)
    requires ListsKeys(entries, kinds[i], ChangedKeys(entries, kinds[i], since), changes)
    ensures ListsSoFar(entries, since, kinds, i + 1, tail + EntriesOf(kinds[i], changes))
    ensures was + tail + EntriesOf(kinds[i], changes) == was + (tail + EntriesOf(kinds[i], changes))
  {
    var kind, more := kinds[i], EntriesOf(kinds[i], changes);
    if DistinctKinds(kinds) {
      OneKindOnce(entries, since, kinds, i, tail, changes);
    }
    assert kinds[..i + 1] == kinds[..i] + [kind];
    forall e | e in more ensures e.kindId == kind && IsChange(entries, since, e) {
      var j :| 0 <= j < |more| && more[j] == e;
      assert changes[j] in changes;
    }
    forall k: DynKey | k.kind == kind && ChangedSince(entries, since, k) ensures RecordOf(k, entries[k]) in more {
      var c := ChangeOf(k, entries[k]);
      assert k in ChangedKeys(entries, kind, since);
      var j :| 0 <= j < |changes| && changes[j] == c;
      assert more[j] == RecordOf(k, entries[k]);
    }
  }

  // ---------------------------------------------------------------------------
  // Replaying
  // ---------------------------------------------------------------------------

  /** Entries are applied in order; those of unknown kinds are skipped. */
  function Replayed(entries: Entries, log: seq<Wal.Entry>, kinds: set<nat>): Entries
    decreases |log|
  {
    if log == [] then entries
    else
      var before, e := Replayed(entries, log[..|log| - 1], kinds), log[|log| - 1];
      if e.kindId in kinds then before[KeyOf(e) := EntryOf(e)] else before
  }

  function LatestRevision(base: Revision, log: seq<Wal.Entry>, kinds: set<nat>): Revision
    decreases |log|
  {
    if log == [] then base
    else
      var before, e := LatestRevision(base, log[..|log| - 1], kinds), log[|log| - 1];
      if e.kindId in kinds && e.revision > before then e.revision else before
  }

  function CountKnown(log: seq<Wal.Entry>, kinds: set<nat>): nat
    decreases |log|
  {
    if log == [] then 0
    else CountKnown(log[..|log| - 1], kinds) + if log[|log| - 1].kindId in kinds then 1 else 0
  }

  datatype ReplayError = Unreadable(error: Wal.ReadError) | BaseMismatch(wal: Revision, runtime: Revision)

  /** What a replay does with the bytes of a log, whatever they are. An error leaves what was applied before it. */
  ghost predicate ReplayOutcome(
    data: Bytes, kinds: set<nat>, was: Store, now: Store, r: Result<nat, ReplayError>)
  {
    match Wal.HeaderOf(data)
    case Err(e) => r == Err(Unreadable(e)) && now == was
    case Ok(Opened(header, start)) =>
      if header.baseRevision != was.revision then
        r == Err(BaseMismatch(header.baseRevision, was.revision)) && now == was
      else
        var (log, error) := Wal.ReadLog(data[start..]);
        && now.entries == Replayed(was.entries, log, kinds)
        && now.revision == (if error.Some? then was.revision else LatestRevision(was.revision, log, kinds))
        && r == if error.Some? then Err(Unreadable(error.value)) else Ok(CountKnown(log, kinds))
  }

  method ReplayWal(db: Database, data: Bytes, kinds: set<nat>) returns (r: Result<nat, ReplayError>)
    requires db.runtime.Valid()
    modifies db`entries, db.runtime`currentRevision, db.runtime`events, db.runtime`depsByQuery, db.runtime`reverseDeps
    ensures db.runtime.Valid()
    ensures ReplayOutcome(data, kinds, Store(old(db.runtime.currentRevision), old(db.entries)),
                          Store(db.runtime.currentRevision, db.entries), r)
    ensures r.Ok? ==> db.runtime.depsByQuery == old(db.runtime.depsByQuery) + DepsOfReady(db.cells)
  {
    var opening := Wal.OpenWal(data);
    if opening.Err? {
      return Err(Unreadable(opening.error));
    }
    var reader := opening.value;
    var base := reader.header.baseRevision;
    if db.runtime.currentRevision != base {
      return Err(BaseMismatch(base, db.runtime.currentRevision));
    }
    var latest, count, error := ApplyLog(db, reader, kinds, base);
    if error.Some? {
      return Err(Unreadable(error.value));
    }
    if latest > base {
      db.runtime.SetCurrentRevision(latest);
    }
    RestoreGraph(db.runtime, db.cells);
    r := Ok(count);
  }

  /** All entries that can be read were applied in order, and the error is what stopped the reading. */
  ghost predicate LogApplied(
    bytes: Bytes, kinds: set<nat>, was: Entries, base: Revision, now: Entries, latest: Revision, count: nat,
    error: Option<Wal.ReadError>)
  {
    var (log, end) := Wal.ReadLog(bytes);
    error == end && Applied(was, base, log, kinds, now, latest, count)
  }

  method ApplyLog(db: Database, reader: Wal.WalReader, kinds: set<nat>, base: Revision)
    returns (latest: Revision, count: nat, error: Option<Wal.ReadError>)
    requires reader.Valid()
    modifies db`entries, reader`position
    ensures LogApplied(reader.data[old(reader.position)..], kinds, old(db.entries), base, db.entries, latest, count,
                       error)
    ensures base <= latest
  {
    latest, count := base, 0;
    ghost var bytes, done := reader.data[reader.position..], [];
    ghost var rest := bytes;
    var next := reader.NextEntry();
    while next.Ok? && next.value.Some?
      invariant reader.Valid() && base <= latest && next == Wal.Decoded(Wal.NextOf(rest))
      invariant next.Ok? && next.value.Some? ==> reader.data[reader.position..] == Wal.AfterFirst(rest)
      invariant AppliedSoFar(bytes, rest, done, kinds, old(db.entries), base, db.entries, latest, count)
      decreases |rest|
    {
      AppliedNext(bytes, rest, done, kinds, old(db.entries), base, db.entries, latest, count, next.value.value);
      latest, count := ApplyEntry(db, next.value.value, kinds, latest, count);
      done, rest := done + [next.value.value], Wal.AfterFirst(rest);
      next := reader.NextEntry();
    }
    error := if next.Err? then Some(next.error) else None;
    AppliedAll(bytes, rest, done, kinds, old(db.entries), base, db.entries, latest, count);
  }

  /** The entries `done` were applied; those of `rest` are still to be read. */
  ghost predicate AppliedSoFar(
    bytes: Bytes, rest: Bytes, done: seq<Wal.Entry>, kinds: set<nat>, was: Entries, base: Revision, now: Entries,
    latest: Revision, count: nat)
  {
    && Wal.ReadLog(bytes).0 == done + Wal.ReadLog(rest).0
    && Wal.ReadLog(bytes).1 == Wal.ReadLog(rest).1
    && Applied(was, base, done, kinds, now, latest, count)
  }

  lemma {:induction false} AppliedNext(
    bytes: Bytes, rest: Bytes, done: seq<Wal.Entry>, kinds: set<nat>, was: Entries, base: Revision, now: Entries,
    latest: Revision, count: nat, e: Wal.Entry)
    requires AppliedSoFar(bytes, rest, done, kinds, was, base, now, latest, count)
    requires Wal.Decoded(Wal.NextOf(rest)) == Ok(Some(e))
    ensures var known := e.kindId in kinds;
            AppliedSoFar(bytes, Wal.AfterFirst(rest), done + [e], kinds, was, base,
                         if known then now[KeyOf(e) := EntryOf(e)] else now,
                         if known && e.revision > latest then e.revision else latest,
                         if known then count + 1 else count)
  {
    AppliedOneMore(was, base, done, e, kinds);
    Regroup(done, [e], Wal.ReadLog(Wal.AfterFirst(rest)).0);
  }

  lemma {:induction false} AppliedAll(
    bytes: Bytes, rest: Bytes, done: seq<Wal.Entry>, kinds: set<nat>, was: Entries, base: Revision, now: Entries,
    latest: Revision, count: nat)
    requires AppliedSoFar(bytes, rest, done, kinds, was, base, now, latest, count)
    requires var next := Wal.Decoded(Wal.NextOf(rest)); next.Err? || next.value.None?
    ensures var next := Wal.Decoded(Wal.NextOf(rest));
            LogApplied(bytes, kinds, was, base, now, latest, count, if next.Err? then Some(next.error) else None)
  {
    assert Wal.ReadLog(rest).0 == [] && done + [] == done;
  }

  lemma {:induction false} Regroup(a: seq<Wal.Entry>, b: seq<Wal.Entry>, c: seq<Wal.Entry>)
    ensures a + (b + c) == a + b + c
  {}

  /** Applies one entry, with the exact revision it carries, unless its kind is unknown. */
  method ApplyEntry(db: Database, e: Wal.Entry, kinds: set<nat>, latest: Revision, count: nat)
    returns (latest': Revision, count': nat)
    modifies db`entries
    ensures db.entries == if e.kindId in kinds then old(db.entries)[KeyOf(e) := EntryOf(e)] else old(db.entries)
    ensures latest' == if e.kindId in kinds && e.revision > latest then e.revision else latest
    ensures count' == if e.kindId in kinds then count + 1 else count
  {
    latest', count' := latest, count;
    if e.kindId in kinds {
      db.entries := db.entries[KeyOf(e) := EntryOf(e)];
      latest' := if e.revision > latest then e.revision else latest;
      count' := count + 1;
    }
  }

  ghost predicate Applied(
    was: Entries, base: Revision, log: seq<Wal.Entry>, kinds: set<nat>, entries: Entries, latest: Revision, count: nat)
  {
    && entries == Replayed(was, log, kinds)
    && latest == LatestRevision(base, log, kinds)
    && count == CountKnown(log, kinds)
  }

  lemma {:induction false} AppliedOneMore(
    was: Entries, base: Revision, log: seq<Wal.Entry>, e: Wal.Entry, kinds: set<nat>)
    ensures var (entries, latest) := (Replayed(was, log, kinds), LatestRevision(base, log, kinds));
            var count := CountKnown(log, kinds);
            if e.kindId in kinds then
              Applied(was, base, log + [e], kinds, entries[KeyOf(e) := EntryOf(e)],
                      if e.revision > latest then e.revision else latest, count + 1)
            else Applied(was, base, log + [e], kinds, entries, latest, count)
  {
    assert (log + [e])[..|log|] == log;
  }
}
