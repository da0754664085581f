/**
 The shared cache among the views of all families, as a transition system: views are created,
 snapshotted and written to; their engines work; what they hold verified is published; records are
 adopted, which puts them back under the adopter's own revision; and records are evicted.

 A record's label is the revision it says it was verified at. Putting an adopted record back gives it
 a new label, so a wrong adoption does not stay in one view. `SafeRunIsRight` says that a run in which
 every adoption so far was safe keeps every view sound and every record right for its label.
 `KindIsSafe` says which kinds of records are always right to adopt in such a run, and
 `KindIsSafeAfterOneUnsafe` which are after a single unsafe adoption.

 Following an in-flight leader at the same revision is publishing and adopting in one.
 */
module Sharing {
  import opened Keys
  import opened Semantics
  import opened Cells
  import opened Engine
  import opened Adoption
  import opened Copies
  import opened SharedCache
  import Family

  type Shared = map<CacheKey, Adoption.Record>

  datatype State = State(family: Family.State, cells: seq<CellMap>, cache: Shared)

  const INITIAL: State := State(Family.INITIAL, [], map[])

  datatype Step =
    | Views(step: Family.Step)
    | Work(view: nat, now: CellMap)
    | Publish(view: nat, key: DynKey)
    | Adopt(view: nat, key: DynKey)
    | Evict(cacheKey: CacheKey)

  ghost predicate WellFormed(s: State) {
    && |s.cells| == |s.family.views|
    && forall v | 0 <= v < |s.family.views| :: s.family.views[v].past != []
  }

  function RevisionOf(view: Family.View): Keys.Revision
    requires view.past != []
  {
    |view.past| - 1
  }

  function KeyFor(s: State, v: nat, k: DynKey): CacheKey
    requires v < |s.family.views|
  {
    CacheKey(Family.CacheScopeId(s.family.views[v]), k)
  }

  /** The cell an adopter stores: the record, marked as verified at the adopter's revision. */
  function AdoptedCell(rec: Adoption.Record, revision: Keys.Revision): Cell {
    Ready(rec.value, rec.deps, revision, rec.changedAt)
  }

  /** View `v` finds a record of `k` that passes the test, and has no settled cell of its own. */
  ghost predicate CanAdopt(p: Program, s: State, v: nat, k: DynKey)
    requires WellFormed(s)
  {
    && v < |s.family.views| && k in p.queries && KeyFor(s, v, k) in s.cache
    && var view := s.family.views[v];
    && !SettledAt(CellAt(s.cells[v], k), RevisionOf(view))
    && TestPasses(p, Family.Present(view), s.cells[v], RevisionOf(view), s.cache[KeyFor(s, v, k)])
  }

  /** Of an engine only its contract is used: from sound cells it gets to sound cells. */
  ghost predicate Enabled(p: Program, s: State, step: Step)
    requires WellFormed(s)
  {
    match step
    case Views(step) => Family.Enabled(s.family, step)
    case Work(v, now) =>
      && v < |s.family.views|
      && var past := Family.PastValues(s.family.views[v]);
      (CellsSound(ByChanged, p, past, s.cells[v]) ==> CellsSound(ByChanged, p, past, now))
    case Publish(v, k) =>
      && v < |s.family.views| && k in p.queries
      && VerifiedAt(CellAt(s.cells[v], k), RevisionOf(s.family.views[v]))
    case Adopt(v, k) => CanAdopt(p, s, v, k)
    case Evict(_) => true
  }

  function ReadyCells(cells: CellMap): CellMap {
    map k | k in cells && cells[k].Ready? :: cells[k]
  }

  ghost function Apply(p: Program, s: State, step: Step): State
    requires WellFormed(s) && Enabled(p, s, step)
  {
    match step
    case Views(step) =>
      var cells := match step
                   case CreateDatabase => s.cells + [map[]]
                   case TakeSnapshot(v) => s.cells + [ReadyCells(s.cells[v])]
                   case _ => s.cells;
      State(Family.Apply(s.family, step), cells, s.cache)
    case Work(v, now) => s.(cells := s.cells[v := now])
    case Publish(v, k) =>
      var c := CellAt(s.cells[v], k);
      s.(cache := s.cache[KeyFor(s, v, k) := SharedCache.Record(c.value, c.deps, c.changedAt, c.verifiedAt)])
    case Adopt(v, k) =>
      var rec, revision := s.cache[KeyFor(s, v, k)], RevisionOf(s.family.views[v]);
      s.(cells := s.cells[v := s.cells[v][k := AdoptedCell(rec, revision)]],
         cache := s.cache[KeyFor(s, v, k) := rec.(verifiedAt := revision)])
    case Evict(key) => s.(cache := s.cache - {key})
  }

  // ---------------------------------------------------------------------------
  // What safe runs keep
  // ---------------------------------------------------------------------------

  /** The kind of the record a view would adopt. */
  ghost function AdoptedKind(p: Program, s: State, v: nat, k: DynKey): Kind
    requires WellFormed(s) && CanAdopt(p, s, v, k)
  {
    KindOf(p, s.cache[KeyFor(s, v, k)], RevisionOf(s.family.views[v]))
  }

  /** By what the adopter sees: the record is of a safe kind, not newer, and clear of its cells. */
  ghost predicate SafeToAdopt(p: Program, s: State, v: nat, k: DynKey)
    requires WellFormed(s) && CanAdopt(p, s, v, k)
  {
    var rec, revision := s.cache[KeyFor(s, v, k)], RevisionOf(s.family.views[v]);
    && SafeKind(AdoptedKind(p, s, v, k)) && rec.changedAt <= revision
    && BothClear(p, s.cells[v], k, AdoptedCell(rec, revision), revision)
  }

  ghost predicate SafeStep(p: Program, s: State, step: Step)
    requires WellFormed(s) && Enabled(p, s, step)
  {
    step.Adopt? ==> SafeToAdopt(p, s, step.view, step.key)
  }

  /** The view that is longest in a scope: the live view of a family, or the one view of a private scope. */
  ghost predicate OwnerOf(f: Family.State, scope: nat, o: nat) {
    && o < |f.views| && scope != 0
    && (f.views[o].divergentScope == scope || (!f.views[o].isSnapshot && f.views[o].family == scope))
  }

  /** The record was derived on the inputs of its label's revision, as the owner of the scope had them. */
  ghost predicate RightForLabel(p: Program, f: Family.State, scope: nat, k: DynKey, rec: Adoption.Record) {
    exists o: nat :: OwnerOf(f, scope, o) && PublishedBy(p, f.views[o], k, rec)
  }

  ghost predicate ViewSound(p: Program, view: Family.View, cells: CellMap) {
    CellsSound(ByChanged, p, Family.PastValues(view), cells)
  }

  ghost predicate ViewsSound(p: Program, views: seq<Family.View>, cells: seq<CellMap>)
    requires |cells| == |views|
  {
    forall v | 0 <= v < |views| :: ViewSound(p, views[v], cells[v])
  }

  ghost predicate RecordsRight(p: Program, f: Family.State, cache: Shared) {
    forall key | key in cache ::
      key.dynKey in p.queries && RightForLabel(p, f, key.scope, key.dynKey, cache[key])
  }

  ghost predicate Inv(p: Program, s: State) {
    && WellFormed(s) && Family.Inv(s.family)
    && ViewsSound(p, s.family.views, s.cells) && RecordsRight(p, s.family, s.cache)
  }

  lemma {:induction false} RecordsRightAfterPut(
    p: Program, f: Family.State, cache: Shared, key: CacheKey, rec: Adoption.Record)
    requires RecordsRight(p, f, cache)
    requires key.dynKey in p.queries && RightForLabel(p, f, key.scope, key.dynKey, rec)
    ensures RecordsRight(p, f, cache[key := rec])
  {
    assert forall other | other in cache && other != key :: cache[key := rec][other] == cache[other];
  }

  lemma {:induction false} OwnerShares(f: Family.State, v: nat, o: nat, r: nat)
    requires Family.Inv(f) && v < |f.views| && OwnerOf(f, Family.CacheScopeId(f.views[v]), o)
    requires r < |f.views[v].past| && r < |f.views[o].past|
    ensures f.views[v].past[r] == f.views[o].past[r]
  {
    var a, b := f.views[v], f.views[o];
    assert Family.ViewOk(f, v) && Family.ViewOk(f, o);
    if v != o {
      assert Family.PairOk(f, v, o) && Family.PairOk(f, o, v);
      assert a.home != o ==> Family.PairOk(f, o, a.home);
      Family.PrefixesAgree(a.past, b.past, b.past, r);
    }
  }

  lemma {:induction false} ScopeHasOwner(f: Family.State, v: nat) returns (o: nat)
    requires Family.Inv(f) && v < |f.views|
    ensures OwnerOf(f, Family.CacheScopeId(f.views[v]), o) && |f.views[v].past| <= |f.views[o].past|
  {
    assert Family.ViewOk(f, v);
    o := if f.views[v].divergentScope != 0 then v else f.views[v].home;
  }

  lemma {:induction false} OwnerStays(f: Family.State, step: Family.Step, scope: nat, o: nat)
    requires Family.Inv(f) && Family.Enabled(f, step) && OwnerOf(f, scope, o)
    ensures OwnerOf(Family.Apply(f, step), scope, o)
    ensures Family.IsPrefix(f.views[o].past, Family.Apply(f, step).views[o].past)
  {
    Family.HomeKept(f, step, o);
    assert Family.ViewOk(f, o);
    if step.SwapScope? {
      assert Family.DrawnOk(f, step.caller);
    }
  }

  lemma {:induction false} RecordStays(
    p: Program, f: Family.State, step: Family.Step, scope: nat, k: DynKey, rec: Adoption.Record)
    requires Family.Inv(f) && Family.Enabled(f, step) && RightForLabel(p, f, scope, k, rec)
    ensures RightForLabel(p, Family.Apply(f, step), scope, k, rec)
  {
    var o: nat :| OwnerOf(f, scope, o) && PublishedBy(p, f.views[o], k, rec);
    OwnerStays(f, step, scope, o);
    var was, now := f.views[o].past, Family.Apply(f, step).views[o].past;
    assert now[..|was|][rec.verifiedAt] == now[rec.verifiedAt];
  }

  /** A view that took a step with its family, or was created by it, is sound. */
  lemma {:induction false} ViewStays(p: Program, s: State, step: Family.Step, v: nat)
    requires Inv(p, s) && Family.Enabled(s.family, step) && v < |Family.Apply(s.family, step).views|
    ensures |Apply(p, s, Views(step)).cells| == |Family.Apply(s.family, step).views|
    ensures ViewSound(p, Family.Apply(s.family, step).views[v], Apply(p, s, Views(step)).cells[v])
  {
    var now, cells := Family.Apply(s.family, step).views, Apply(p, s, Views(step)).cells;
    if v < |s.family.views| {
      Family.HomeKept(s.family, step, v);
      assert ViewSound(p, s.family.views[v], s.cells[v]);
      PastExtends(s.family.views[v], now[v]);
      SoundAfterDrop(ByChanged, p, Family.PastValues(s.family.views[v]), s.cells[v], cells[v],
                     Family.PastValues(now[v]));
    } else if step.TakeSnapshot? {
      var home := s.family.views[step.view];
      assert ViewSound(p, home, s.cells[step.view]);
      PastExtends(home, now[v]);
      SoundAfterDrop(ByChanged, p, Family.PastValues(home), s.cells[step.view], cells[v], Family.PastValues(now[v]));
    }
  }

  lemma {:induction false} PastExtends(a: Family.View, b: Family.View)
    requires Family.IsPrefix(a.past, b.past)
    ensures Family.PastValues(a) <= Family.PastValues(b)
  {
    forall r | 0 <= r < |a.past| ensures Family.PastValues(a)[r] == Family.PastValues(b)[r] {
      assert b.past[..|a.past|][r] == b.past[r];
    }
  }

  lemma {:induction false} ViewsKeepInv(p: Program, s: State, step: Family.Step)
    requires Inv(p, s) && Family.Enabled(s.family, step)
    ensures Inv(p, Apply(p, s, Views(step)))
  {
    var now := Apply(p, s, Views(step));
    Family.StepKeepsInv(s.family, step);
    forall v | 0 <= v < |now.family.views| ensures ViewSound(p, now.family.views[v], now.cells[v]) {
      ViewStays(p, s, step, v);
    }
    forall v | 0 <= v < |now.family.views| ensures now.family.views[v].past != [] {
      assert Family.ViewOk(now.family, v);
    }
    forall key | key in now.cache ensures RightForLabel(p, now.family, key.scope, key.dynKey, now.cache[key]) {
      RecordStays(p, s.family, step, key.scope, key.dynKey, s.cache[key]);
    }
  }

  /** What a view holds verified is right for its revision, also in the longest view of the scope. */
  lemma {:induction false} PresentIsRight(p: Program, s: State, v: nat, k: DynKey, rec: Adoption.Record)
    requires Inv(p, s) && v < |s.family.views| && k in p.queries
    requires rec.changedAt <= rec.verifiedAt == RevisionOf(s.family.views[v])
    requires Derives(p, Values(Family.Present(s.family.views[v])), k, rec.deps, rec.value)
    ensures RightForLabel(p, s.family, Family.CacheScopeId(s.family.views[v]), k, rec)
  {
    var o := ScopeHasOwner(s.family, v);
    OwnerShares(s.family, v, o, rec.verifiedAt);
    assert PublishedBy(p, s.family.views[o], k, rec);
  }

  lemma {:induction false} PublishKeepsInv(p: Program, s: State, v: nat, k: DynKey)
    requires Inv(p, s) && Enabled(p, s, Publish(v, k))
    ensures Inv(p, Apply(p, s, Publish(v, k)))
  {
    var view, c := s.family.views[v], CellAt(s.cells[v], k);
    assert ViewSound(p, view, s.cells[v]);
    assert CellSound(p, Family.PastValues(view), k, c);
    var rec := SharedCache.Record(c.value, c.deps, c.changedAt, c.verifiedAt);
    PresentIsRight(p, s, v, k, rec);
    RecordsRightAfterPut(p, s.family, s.cache, KeyFor(s, v, k), rec);
  }

  /** In a state of a safe run, a record of a safe kind is what the adopter would compute. */
  lemma {:induction false} SafeKindIsRight(p: Program, s: State, v: nat, k: DynKey)
    requires Inv(p, s) && CanAdopt(p, s, v, k) && SafeKind(AdoptedKind(p, s, v, k))
    ensures var rec := s.cache[KeyFor(s, v, k)];
            && Derives(p, Values(Family.Present(s.family.views[v])), k, rec.deps, rec.value)
            && Evaluate(p, Values(Family.Present(s.family.views[v])), {}, k) == Present(rec.value)
  {
    var view, rec := s.family.views[v], s.cache[KeyFor(s, v, k)];
    var scope := Family.CacheScopeId(view);
    assert Family.ViewOk(s.family, v) && RightForLabel(p, s.family, scope, k, rec);
    var o: nat :| OwnerOf(s.family, scope, o) && PublishedBy(p, s.family.views[o], k, rec);
    if rec.verifiedAt < |view.past| {
      OwnerShares(s.family, v, o, rec.verifiedAt);
    }
    AdoptedDerives(p, view, Values(s.family.views[o].past[rec.verifiedAt]), k, rec, s.cells[v]);
  }

  lemma {:induction false} AdopterStaysSound(p: Program, s: State, v: nat, k: DynKey)
    requires Inv(p, s) && CanAdopt(p, s, v, k) && SafeToAdopt(p, s, v, k)
    ensures var revision := RevisionOf(s.family.views[v]);
            ViewSound(p, s.family.views[v], s.cells[v][k := AdoptedCell(s.cache[KeyFor(s, v, k)], revision)])
  {
    var view, rec := s.family.views[v], s.cache[KeyFor(s, v, k)];
    var history, c := Family.PastValues(view), AdoptedCell(rec, RevisionOf(view));
    assert ViewSound(p, view, s.cells[v]);
    SafeKindIsRight(p, s, v, k);
    ClearStaysSound(ByChanged, p, history, s.cells[v], k, c);
  }

  lemma {:induction false} StoredKeepsInv(
    p: Program, s: State, v: nat, now: CellMap, key: CacheKey, rec: Adoption.Record)
    requires Inv(p, s) && v < |s.family.views| && ViewSound(p, s.family.views[v], now)
    requires key.dynKey in p.queries && RightForLabel(p, s.family, key.scope, key.dynKey, rec)
    ensures Inv(p, s.(cells := s.cells[v := now], cache := s.cache[key := rec]))
  {
    RecordsRightAfterPut(p, s.family, s.cache, key, rec);
  }

  /** Put back under the adopter's revision, the record is right for its new label. */
  lemma {:induction false} AdoptedRecordIsRight(p: Program, s: State, v: nat, k: DynKey)
    requires Inv(p, s) && CanAdopt(p, s, v, k) && SafeToAdopt(p, s, v, k)
    ensures var revision := RevisionOf(s.family.views[v]);
            RightForLabel(p, s.family, KeyFor(s, v, k).scope, k, s.cache[KeyFor(s, v, k)].(verifiedAt := revision))
  {
    var rec, revision := s.cache[KeyFor(s, v, k)], RevisionOf(s.family.views[v]);
    SafeKindIsRight(p, s, v, k);
    PresentIsRight(p, s, v, k, rec.(verifiedAt := revision));
  }

  lemma {:induction false} AdoptKeepsInv(p: Program, s: State, v: nat, k: DynKey)
    requires Inv(p, s) && CanAdopt(p, s, v, k) && SafeToAdopt(p, s, v, k)
    ensures Inv(p, Apply(p, s, Adopt(v, k)))
  {
    AdopterStaysSound(p, s, v, k);
    AdoptedRecordIsRight(p, s, v, k);
    var rec, revision := s.cache[KeyFor(s, v, k)], RevisionOf(s.family.views[v]);
    var now, record := s.cells[v][k := AdoptedCell(rec, revision)], rec.(verifiedAt := revision);
    StoredKeepsInv(p, s, v, now, KeyFor(s, v, k), record);
    assert Apply(p, s, Adopt(v, k)) == s.(cells := s.cells[v := now], cache := s.cache[KeyFor(s, v, k) := record]);
  }

  lemma {:induction false} SafeStepKeepsInv(p: Program, s: State, step: Step)
    requires Inv(p, s) && Enabled(p, s, step) && SafeStep(p, s, step)
    ensures Inv(p, Apply(p, s, step))
  {
    match step
    case Views(step) => ViewsKeepInv(p, s, step);
    case Work(v, now) => assert ViewSound(p, s.family.views[v], s.cells[v]);
    case Publish(v, k) => PublishKeepsInv(p, s, v, k);
    case Adopt(v, k) => AdoptKeepsInv(p, s, v, k);
    case Evict(_) =>
  }

  // ---------------------------------------------------------------------------
  // Runs
  // ---------------------------------------------------------------------------

  /** A run in which every adoption is safe. */
  ghost predicate IsSafeRun(p: Program, states: seq<State>, steps: seq<Step>) {
    && |states| == |steps| + 1
    && states[0] == INITIAL
    && forall i | 0 <= i < |steps| ::
         && WellFormed(states[i]) && Enabled(p, states[i], steps[i]) && SafeStep(p, states[i], steps[i])
         && states[i + 1] == Apply(p, states[i], steps[i])
  }

  /** All views stay sound, so all that their engines answer is right, and all records right for their labels. */
  lemma {:induction false} SafeRunIsRight(p: Program, states: seq<State>, steps: seq<Step>, n: nat)
    requires IsSafeRun(p, states, steps) && n < |states|
    ensures Inv(p, states[n])
    decreases n
  {
    if 0 < n {
      SafeRunIsRight(p, states, steps, n - 1);
      SafeStepKeepsInv(p, states[n - 1], steps[n - 1]);
    } else {
      Family.InitialInv();
    }
  }

  ghost predicate SafelyReached(p: Program, s: State) {
    exists states: seq<State>, steps: seq<Step> :: IsSafeRun(p, states, steps) && states[|steps|] == s
  }

  lemma {:induction false} SafelyReachedInv(p: Program, s: State)
    requires SafelyReached(p, s)
    ensures Inv(p, s)
  {
    var states: seq<State>, steps: seq<Step> :| IsSafeRun(p, states, steps) && states[|steps|] == s;
    SafeRunIsRight(p, states, steps, |steps|);
  }

  /** Reached by a run in which every adoption but the last step was safe. */
  ghost predicate ReachedByOneUnsafe(p: Program, s: State) {
    || SafelyReached(p, s)
    || exists before: State, v: nat, k: DynKey ::
         SafelyReached(p, before) && WellFormed(before) && CanAdopt(p, before, v, k)
         && s == Apply(p, before, Adopt(v, k))
  }

  ghost predicate AdoptsRight(p: Program, s: State, v: nat, k: DynKey)
    requires WellFormed(s) && CanAdopt(p, s, v, k)
  {
    Evaluate(p, Values(Family.Present(s.family.views[v])), {}, k) == Present(s.cache[KeyFor(s, v, k)].value)
  }

  /** An adoption about to happen. */
  datatype Candidate = Candidate(p: Program, s: State, v: nat, k: DynKey)

  ghost predicate IsOfKind(a: Candidate, x: Kind) {
    WellFormed(a.s) && CanAdopt(a.p, a.s, a.v, a.k) && AdoptedKind(a.p, a.s, a.v, a.k) == x
  }

  ghost predicate AlwaysRight(x: Kind) {
    forall a: Candidate | SafelyReached(a.p, a.s) && IsOfKind(a, x) :: AdoptsRight(a.p, a.s, a.v, a.k)
  }

  ghost predicate AlwaysRightAfterOneUnsafe(x: Kind) {
    forall a: Candidate | ReachedByOneUnsafe(a.p, a.s) && IsOfKind(a, x) :: AdoptsRight(a.p, a.s, a.v, a.k)
  }
}
