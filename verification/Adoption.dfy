/**
 Results of another view of the same family: a record of the shared cache, or the outcome of a leader
 that was followed.

 A record is adopted when it was verified at the adopter's own revision, or when the test of
 revalidation passes on its dependencies in the adopting view. `AdoptedDerives` gives the kinds of
 records for which that makes it right, provided the record is right for its label, that is, derived
 on the inputs of the revision it says it was verified at. `Sharing` asks when records are.
 */
module Adoption {
  import opened Keys
  import opened Semantics
  import opened Cells
  import opened Engine
  import SharedCache
  import InFlight
  import Family

  type Record = SharedCache.Record

  /** The record is a derivation made on the publisher's inputs at `verifiedAt`. */
  ghost predicate PublishedBy(p: Program, view: Family.View, k: DynKey, rec: Record) {
    && rec.changedAt <= rec.verifiedAt < |view.past|
    && Derives(p, Values(view.past[rec.verifiedAt]), k, rec.deps, rec.value)
  }

  /** The adoption test, once the dependencies have been touched. */
  ghost predicate TestPasses(p: Program, entries: Entries, cells: CellMap, revision: Revision, rec: Record) {
    || rec.verifiedAt == revision
    || (DepsVerified(p, cells, rec.deps, revision) && NoneChanged(p, entries, cells, rec.deps, rec.changedAt))
  }

  // ---------------------------------------------------------------------------
  // The kinds of records, and which of them are safe
  // ---------------------------------------------------------------------------

  /** When a record was verified, as seen from the adopter's revision. */
  datatype Age = Earlier | Same | Later

  datatype Reads = Nothing | InputsOnly | SomeQuery

  datatype Kind = Kind(age: Age, readSet: Reads)

  function AgeOf(verifiedAt: Revision, revision: int): Age {
    if verifiedAt < revision then Earlier else if verifiedAt == revision then Same else Later
  }

  function ReadsOf(p: Program, deps: seq<Dep>): Reads {
    if deps == [] then Nothing
    else if exists d :: d in deps && d in p.queries then SomeQuery
    else InputsOnly
  }

  /** What an adopter can see of a record before it looks at any dependency. */
  predicate SafeKind(x: Kind) {
    x.readSet == Nothing || x.age == Same || (x.age == Earlier && x.readSet == InputsOnly)
  }

  /** The kind of a record, for a view at some revision. */
  function KindOf(p: Program, rec: Record, revision: Revision): Kind {
    Kind(AgeOf(rec.verifiedAt, revision), ReadsOf(p, rec.deps))
  }

  /**
   A record that was derived on some inputs, and on the adopter's own if the adopter has been through
   its revision, is derived on the adopter's present inputs if its kind is safe and the test passes.
   */
  lemma {:induction false} AdoptedDerives(
    p: Program, adopter: Family.View, was: Inputs, k: DynKey, rec: Record, cells: CellMap)
    requires adopter.past != [] && InputsRecorded(Family.PastValues(adopter), Family.Present(adopter))
    requires k in p.queries && rec.changedAt <= rec.verifiedAt && Derives(p, was, k, rec.deps, rec.value)
    requires rec.verifiedAt < |adopter.past| ==> was == Values(adopter.past[rec.verifiedAt])
    requires SafeKind(KindOf(p, rec, |adopter.past| - 1))
    requires TestPasses(p, Family.Present(adopter), cells, |adopter.past| - 1, rec)
    ensures Derives(p, Values(Family.Present(adopter)), k, rec.deps, rec.value)
    ensures Evaluate(p, Values(Family.Present(adopter)), {}, k) == Present(rec.value)
  {
    var now := Values(Family.Present(adopter));
    forall i | 0 <= i < |rec.deps| ensures AnswerOf(p, was, rec.deps[i]) == AnswerOf(p, now, rec.deps[i]) {
      assert rec.deps[i] in rec.deps;
      if rec.verifiedAt < |adopter.past| - 1 {
        UnchangedInputAnswers(p, adopter, rec, rec.deps[i]);
      }
    }
    TraceCarriesOver(p, was, now, k, rec.deps);
    DerivesDecides(p, now, k, rec.deps, rec.value);
    EvaluateIsScratch(p, now, k);
  }

  /**
   A record of another view under the same scope is a derivation on the adopter's present inputs, if
   it read nothing, is of the adopter's revision, or is earlier and read only inputs that have not
   changed since.
   */
  lemma {:induction false} AdoptedIsCorrect(
    p: Program, states: seq<Family.State>, steps: seq<Family.Step>, m: nat, n: nat, v: nat, w: nat, k: DynKey,
    rec: Record, cells: CellMap)
    requires Family.IsRun(states, steps) && m <= n < |states|
    requires v < |states[m].views| && w < |states[n].views|
    requires Family.CacheScopeId(states[m].views[v]) == Family.CacheScopeId(states[n].views[w])
    requires k in p.queries && PublishedBy(p, states[m].views[v], k, rec)
    requires var past := states[n].views[w].past;
             && past != []
             && SafeKind(KindOf(p, rec, |past| - 1))
             && TestPasses(p, past[|past| - 1], cells, |past| - 1, rec)
    ensures Derives(p, Values(Family.Present(states[n].views[w])), k, rec.deps, rec.value)
    ensures Evaluate(p, Values(Family.Present(states[n].views[w])), {}, k) == Present(rec.value)
  {
    var adopter := states[n].views[w];
    Family.RunKeepsInv(states, steps, n);
    assert Family.ViewOk(states[n], w);
    if rec.verifiedAt < |adopter.past| {
      Family.SameScopeSamePast(states, steps, m, n, v, w, rec.verifiedAt);
    }
    AdoptedDerives(p, adopter, Values(states[m].views[v].past[rec.verifiedAt]), k, rec, cells);
  }

  lemma {:induction false} UnchangedInputAnswers(p: Program, adopter: Family.View, rec: Record, d: Dep)
    requires adopter.past != [] && rec.changedAt <= rec.verifiedAt < |adopter.past|
    requires InputsRecorded(Family.PastValues(adopter), Family.Present(adopter))
    requires d in rec.deps && d !in p.queries && ChangedAt(Family.Present(adopter), d) <= rec.changedAt
    ensures AnswerOf(p, Values(adopter.past[rec.verifiedAt]), d) == AnswerOf(p, Values(Family.Present(adopter)), d)
  {
    assert Family.PastValues(adopter)[rec.verifiedAt] == Values(adopter.past[rec.verifiedAt]);
  }

  // ---------------------------------------------------------------------------
  // Following a leader
  // ---------------------------------------------------------------------------

  /** The outcome is that of an evaluation of `k` on these inputs. A dropped leader says nothing. */
  ghost predicate SettledRightly(p: Program, inputs: Inputs, k: DynKey, outcome: InFlight.EntryState)
    requires k in p.queries
  {
    match outcome
    case Done(value, deps, _) => Derives(p, inputs, k, deps, value)
    case Failed(e) => FailsBy(p, inputs, k, e)
    case _ => true
  }

  /** What the leader puts into the entry is what its own cell holds. */
  function OutcomeOf(c: Cell): InFlight.EntryState {
    match c
    case Ready(value, deps, _, changedAt) => InFlight.Done(value, deps, changedAt)
    case Poisoned(e, _) => InFlight.EntryState.Failed(e)
    case _ => InFlight.Cancelled
  }

  lemma {:induction false} LeaderSettlesRightly(db: Database, k: DynKey)
    requires db.Valid() && k in db.program.queries && SettledAt(CellAt(db.cells, k), db.runtime.currentRevision)
    ensures SettledRightly(db.program, Values(db.entries), k, OutcomeOf(CellAt(db.cells, k)))
  {
    assert CellSound(db.program, db.history, k, CellAt(db.cells, k));
    EvaluateIsScratch(db.program, Values(db.entries), k);
  }

  /**
   What a follower finds in an entry of the in-flight registry is right for its own view. In a run of
   the registry, step `a` settles the entry that task `t` has observed by moment `b`. The entry's key
   names a scope, a revision and a query; leader and follower are views of that scope in a run of the
   family, and the leader evaluated on its inputs at that revision.
   */
  lemma {:induction false} FollowedIsCorrect(
    p: Program, moments: seq<InFlight.State>, actions: seq<InFlight.Step>, a: nat, b: nat, t: InFlight.TaskId,
    states: seq<Family.State>, steps: seq<Family.Step>, m: nat, n: nat, leader: nat, follower: nat)
    requires InFlight.IsRun(moments, actions) && a < |actions| && b < |moments|
    requires actions[a].Settle? && InFlight.TaskAt(moments[b], t).Observed?
    requires InFlight.TaskAt(moments[a], actions[a].task) == InFlight.Leading(InFlight.TaskAt(moments[b], t).entry)
    requires Family.IsRun(states, steps) && m <= n < |states|
    requires leader < |states[m].views| && follower < |states[n].views|
    requires InFlight.TaskAt(moments[b], t).entry < |moments[b].entries|
    requires var key := moments[b].entries[InFlight.TaskAt(moments[b], t).entry].key;
             var from, to := states[m].views[leader], states[n].views[follower];
             && key.scope == Family.CacheScopeId(from) == Family.CacheScopeId(to)
             && key.revision < |from.past| && key.revision < |to.past|
             && key.dynKey in p.queries
             && SettledRightly(p, Values(from.past[key.revision]), key.dynKey, actions[a].outcome)
    ensures var task := InFlight.TaskAt(moments[b], t);
            var key := moments[b].entries[task.entry].key;
            var inputs := Values(states[n].views[follower].past[key.revision]);
            match task.state
            case Done(value, deps, _) =>
              && Derives(p, inputs, key.dynKey, deps, value)
              && Evaluate(p, inputs, {}, key.dynKey) == Outcome.Present(value)
            case Failed(e) =>
              && FailsBy(p, inputs, key.dynKey, e)
              && Evaluate(p, inputs, {}, key.dynKey) == ErrorOutcome(e)
            case Cancelled => actions[a].outcome.Cancelled?
            case Running => false
  {
    var task := InFlight.TaskAt(moments[b], t);
    var key := moments[b].entries[task.entry].key;
    InFlight.ObservedIsSettled(moments, actions, a, b, t);
    Family.SameScopeSamePast(states, steps, m, n, leader, follower, key.revision);
    var inputs := Values(states[n].views[follower].past[key.revision]);
    EvaluateIsScratch(p, inputs, key.dynKey);
    match task.state
    case Done(value, deps, _) => DerivesDecides(p, inputs, key.dynKey, deps, value);
    case _ =>
  }

  /** What a database publishes from a verified cell is a derivation on its inputs at that revision. */
  lemma {:induction false} PublishedCellIsDerived(db: Database, k: DynKey)
    requires db.Valid() && k in db.program.queries && VerifiedAt(CellAt(db.cells, k), db.runtime.currentRevision)
    ensures var c := CellAt(db.cells, k);
            Derives(db.program, Values(db.entries), k, c.deps, c.value) && c.changedAt <= c.verifiedAt
  {
    assert CellSound(db.program, db.history, k, CellAt(db.cells, k));
  }
}
