/**
 Which kinds of records are right to adopt: exactly three kinds while every adoption was safe, and
 only those that read nothing once a single one was not. The states that show the other kinds wrong
 are reached step by step with the copies of one input.
 */
module SharedKinds {
  import opened Keys
  import opened Semantics
  import opened Cells
  import opened Engine
  import opened Adoption
  import opened Copies
  import opened Sharing
  import SharedCache
  import Family

  // ---------------------------------------------------------------------------
  // Reaching a state step by step
  // ---------------------------------------------------------------------------

  lemma {:induction false} InitialReached(p: Program)
    ensures SafelyReached(p, INITIAL)
  {
    var states: seq<State>, steps: seq<Step> := [INITIAL], [];
    assert IsSafeRun(p, states, steps) && states[|steps|] == INITIAL;
  }

  lemma {:induction false} NextReached(p: Program, s: State, step: Step)
    requires SafelyReached(p, s) && WellFormed(s) && Enabled(p, s, step) && SafeStep(p, s, step)
    ensures SafelyReached(p, Apply(p, s, step)) && WellFormed(Apply(p, s, step))
  {
    var states: seq<State>, steps: seq<Step> :| IsSafeRun(p, states, steps) && states[|steps|] == s;
    var longer, more := states + [Apply(p, s, step)], steps + [step];
    forall i | 0 <= i < |more|
      ensures WellFormed(longer[i]) && Enabled(p, longer[i], more[i]) && SafeStep(p, longer[i], more[i])
      ensures longer[i + 1] == Apply(p, longer[i], more[i])
    {
      assert i < |steps| ==> longer[i] == states[i] && longer[i + 1] == states[i + 1] && more[i] == steps[i];
    }
    assert IsSafeRun(p, longer, more) && longer[|more|] == Apply(p, s, step);
    SafelyReachedInv(p, Apply(p, s, step));
  }

  ghost predicate Reached(s: State) {
    SafelyReached(COPIES, s) && WellFormed(s)
  }

  /** The live view of the family 1, of which all others are snapshots. */
  function Live(past: seq<Entries>): Family.View {
    Family.View(1, 0, false, 0, past)
  }

  function Taken(past: seq<Entries>): Family.View {
    Family.View(1, 0, true, 0, past)
  }

  lemma {:induction false} CreateLive() returns (s: State)
    ensures Reached(s) && s.family.views == [Live(AT_START)] && s.cells == [map[]] && s.cache == map[]
  {
    InitialReached(COPIES);
    NextReached(COPIES, INITIAL, Views(Family.CreateDatabase));
    s := Apply(COPIES, INITIAL, Views(Family.CreateDatabase));
  }

  lemma {:induction false} WriteLive(s: State, past: seq<Entries>, v: Value) returns (now: State)
    requires Reached(s) && s.family.views != [] && s.family.views[0] == Live(past) && past != []
    requires past[|past| - 1].Keys <= {INPUT} && InputAnswer(Values(past[|past| - 1]), INPUT) != Present(v)
    ensures Reached(now) && now.cells == s.cells && now.cache == s.cache
    ensures now.family.views == s.family.views[0 := Live(past + [Holding(v, |past|)])]
  {
    var step := Views(Family.Write(0, INPUT, Some(v)));
    assert past[|past| - 1][INPUT := InputEntry(Some(v), |past|)] == Holding(v, |past|);
    NextReached(COPIES, s, step);
    now := Apply(COPIES, s, step);
  }

  lemma {:induction false} TakeOne(s: State, past: seq<Entries>) returns (now: State)
    requires Reached(s) && s.family.views != [] && s.family.views[0] == Live(past) && past != []
    ensures Reached(now) && now.cells == s.cells + [ReadyCells(s.cells[0])] && now.cache == s.cache
    ensures now.family.views == s.family.views + [Taken(past)]
  {
    NextReached(COPIES, s, Views(Family.TakeSnapshot(0)));
    now := Apply(COPIES, s, Views(Family.TakeSnapshot(0)));
  }

  /** The view evaluates some of the copies. */
  lemma {:induction false} Copy(s: State, v: nat, cells: CellMap, value: Value) returns (now: State)
    requires Reached(s) && v < |s.family.views|
    requires Holds(Values(Family.Present(s.family.views[v])), value)
    requires CopiesAt(cells, value, RevisionOf(s.family.views[v]))
    ensures Reached(now) && now == s.(cells := s.cells[v := cells])
  {
    var view := s.family.views[v];
    CopiesSound(ByChanged, Family.PastValues(view), RevisionOf(view), value, cells);
    NextReached(COPIES, s, Work(v, cells));
    now := Apply(COPIES, s, Work(v, cells));
  }

  lemma {:induction false} PublishCopy(s: State, v: nat, k: DynKey, value: Value, changedAt: Keys.Revision)
    returns (now: State)
    requires Reached(s) && v < |s.family.views| && k in COPIES.queries
    requires CellAt(s.cells[v], k) == CopyCell(k, value, RevisionOf(s.family.views[v]), changedAt)
    ensures Reached(now)
    ensures var rec := CopyRecord(k, value, RevisionOf(s.family.views[v]), changedAt);
            now == s.(cache := s.cache[KeyFor(s, v, k) := rec])
  {
    NextReached(COPIES, s, Publish(v, k));
    now := Apply(COPIES, s, Publish(v, k));
  }

  function CopyRecord(k: DynKey, value: Value, verifiedAt: Keys.Revision, changedAt: Keys.Revision): Record {
    SharedCache.Record(value, [CopiedBy(k)], changedAt, verifiedAt)
  }

  /** What a view holds that has just evaluated both copies, with no value before. */
  function BothCopies(value: Value, revision: Keys.Revision): CellMap {
    map[COPY := CopyCell(COPY, value, revision, revision),
        COPY_OF_COPY := CopyCell(COPY_OF_COPY, value, revision, revision)]
  }

  /** `COPY` alone, unchanged since revision 1. */
  function FirstCopy(revision: Keys.Revision): CellMap {
    map[COPY := CopyCell(COPY, FIRST, revision, 1)]
  }

  /** What a view holds that needs the dependency of `k`, but not `k`. */
  function BeforeCopy(k: DynKey): CellMap {
    if k == COPY then map[] else FirstCopy(1)
  }

  // ---------------------------------------------------------------------------
  // The states
  // ---------------------------------------------------------------------------

  ghost predicate Is(s: State, views: seq<Family.View>, cells: seq<CellMap>, cache: Shared) {
    Reached(s) && s.family.views == views && s.cells == cells && s.cache == cache
  }

  lemma {:induction false} TakeFirst() returns (s: State)
    ensures Is(s, [Live(AT_FIRST), Taken(AT_FIRST)], [map[], map[]], map[])
  {
    s := CreateLive();
    s := WriteLive(s, AT_START, FIRST);
    s := TakeOne(s, AT_FIRST);
  }

  lemma {:induction false} TakeTwo() returns (s: State)
    ensures Is(s, [Live(AT_FIRST), Taken(AT_FIRST), Taken(AT_FIRST)], [map[], map[], map[]], map[])
  {
    s := TakeFirst();
    s := TakeOne(s, AT_FIRST);
  }

  /** Two snapshots at the first value, and then the live view goes on to the second. */
  lemma {:induction false} TwoSnapshots(held: CellMap) returns (s: State)
    requires CopiesAt(held, FIRST, 1)
    ensures Is(s, [Live(AT_SECOND), Taken(AT_FIRST), Taken(AT_FIRST)], [map[], held, held], map[])
  {
    HoldingHolds(FIRST, 1);
    s := TakeTwo();
    s := Copy(s, 1, held, FIRST);
    s := Copy(s, 2, held, FIRST);
    assert Is(s, [Live(AT_FIRST), Taken(AT_FIRST), Taken(AT_FIRST)], [map[], held, held], map[]);
    s := WriteLive(s, AT_FIRST, SECOND);
  }

  /** The live view published a later record; two snapshots are still at the first value. */
  lemma {:induction false} LaterRecord(k: DynKey) returns (s: State)
    requires k == COPY || k == COPY_OF_COPY
    ensures Is(s, [Live(AT_SECOND), Taken(AT_FIRST), Taken(AT_FIRST)],
               [BothCopies(SECOND, 2), BeforeCopy(k), BeforeCopy(k)],
               map[SharedCache.CacheKey(1, k) := CopyRecord(k, SECOND, 2, 2)])
  {
    HoldingHolds(SECOND, 2);
    s := TwoSnapshots(BeforeCopy(k));
    s := Copy(s, 0, BothCopies(SECOND, 2), SECOND);
    assert s.cells == [BothCopies(SECOND, 2), BeforeCopy(k), BeforeCopy(k)];
    s := PublishCopy(s, 0, k, SECOND, 2);
  }

  lemma {:induction false} TakeSecond() returns (s: State)
    ensures Is(s, [Live(AT_SECOND), Taken(AT_SECOND)], [map[], map[]], map[])
  {
    HoldingHolds(FIRST, 1);
    s := CreateLive();
    s := WriteLive(s, AT_START, FIRST);
    s := WriteLive(s, AT_FIRST, SECOND);
    s := TakeOne(s, AT_SECOND);
  }

  /** A snapshot at the second value that published a copy of the copy. */
  lemma {:induction false} SecondPublished() returns (s: State)
    ensures Is(s, [Live(AT_SECOND), Taken(AT_SECOND)], [map[], BothCopies(SECOND, 2)],
               map[SharedCache.CacheKey(1, COPY_OF_COPY) := CopyRecord(COPY_OF_COPY, SECOND, 2, 2)])
  {
    HoldingHolds(SECOND, 2);
    s := TakeSecond();
    s := Copy(s, 1, BothCopies(SECOND, 2), SECOND);
    s := PublishCopy(s, 1, COPY_OF_COPY, SECOND, 2);
  }

  /** A snapshot published the second value; the live view, back at the first, never saw it. */
  lemma {:induction false} EarlierRecord() returns (s: State)
    ensures Is(s, [Live(BACK_AT_FIRST), Taken(AT_SECOND)], [FirstCopy(3), BothCopies(SECOND, 2)],
               map[SharedCache.CacheKey(1, COPY_OF_COPY) := CopyRecord(COPY_OF_COPY, SECOND, 2, 2)])
  {
    HoldingHolds(SECOND, 2);
    HoldingHolds(FIRST, 3);
    s := SecondPublished();
    s := WriteLive(s, AT_SECOND, FIRST);
    assert s.family.views == [Live(BACK_AT_FIRST), Taken(AT_SECOND)];
    s := Copy(s, 0, FirstCopy(3), FIRST);
  }

  /** Snapshots at revisions 1 and 2, with different values, and the live view at revision 3. */
  lemma {:induction false} ThreeRevisions() returns (s: State)
    ensures Is(s, [Live(THIRD_THEN_SECOND), Taken(AT_FIRST), Taken(AT_THIRD)], [map[], map[], map[]], map[])
  {
    HoldingHolds(FIRST, 1);
    HoldingHolds(THIRD, 2);
    s := TakeFirst();
    s := WriteLive(s, AT_FIRST, THIRD);
    assert Is(s, [Live(AT_THIRD), Taken(AT_FIRST)], [map[], map[]], map[]);
    s := TakeOne(s, AT_THIRD);
    assert Is(s, [Live(AT_THIRD), Taken(AT_FIRST), Taken(AT_THIRD)], [map[], map[], map[]], map[]);
    s := WriteLive(s, AT_THIRD, SECOND);
  }

  /** The live view published a record at revision 3; snapshots are at revisions 1 and 2, with other values. */
  lemma {:induction false} LateRecord() returns (s: State)
    ensures Is(s, [Live(THIRD_THEN_SECOND), Taken(AT_FIRST), Taken(AT_THIRD)],
               [BothCopies(SECOND, 3), map[], map[]],
               map[SharedCache.CacheKey(1, COPY) := CopyRecord(COPY, SECOND, 3, 3)])
  {
    HoldingHolds(SECOND, 3);
    s := ThreeRevisions();
    s := Copy(s, 0, BothCopies(SECOND, 3), SECOND);
    assert s.cells == [BothCopies(SECOND, 3), map[], map[]];
    s := PublishCopy(s, 0, COPY, SECOND, 3);
  }

  // ---------------------------------------------------------------------------
  // Wrong adoptions
  // ---------------------------------------------------------------------------

  lemma {:induction false} CopyReads(k: DynKey)
    requires k in COPIES.queries
    ensures ReadsOf(COPIES, [CopiedBy(k)]) == if k == COPY then InputsOnly else SomeQuery
  {
    assert CopiedBy(k) in [CopiedBy(k)];
  }

  /** A record of one value, for a view that holds another: it passes the test, and is wrong. */
  lemma {:induction false} CopyGoesWrong(
    s: State, v: nat, k: DynKey, changedAt: Keys.Revision, verifiedAt: Keys.Revision, value: Value)
    requires WellFormed(s) && v < |s.family.views| && k in COPIES.queries && KeyFor(s, v, k) in s.cache
    requires s.cache[KeyFor(s, v, k)] == CopyRecord(k, SECOND, verifiedAt, changedAt)
    requires Holds(Values(Family.Present(s.family.views[v])), value) && value != SECOND
    requires !SettledAt(CellAt(s.cells[v], k), RevisionOf(s.family.views[v]))
    requires var (d, revision) := (CopiedBy(k), RevisionOf(s.family.views[v]));
             || verifiedAt == revision
             || (&& (d in COPIES.queries ==> VerifiedAt(CellAt(s.cells[v], d), revision))
                 && LastChange(COPIES, Family.Present(s.family.views[v]), s.cells[v], d) <= changedAt)
    ensures CanAdopt(COPIES, s, v, k) && !AdoptsRight(COPIES, s, v, k)
    ensures AdoptedKind(COPIES, s, v, k) ==
            Kind(AgeOf(verifiedAt, RevisionOf(s.family.views[v])), if k == COPY then InputsOnly else SomeQuery)
  {
    var view := s.family.views[v];
    if verifiedAt != RevisionOf(view) {
      OneDepPasses(Family.Present(view), s.cells[v], CopiedBy(k), changedAt, RevisionOf(view));
    }
    CopyReads(k);
    CopiesEvaluate(Values(Family.Present(view)), value, k);
  }

  lemma {:induction false} LaterGoesWrong(k: DynKey) returns (a: Candidate)
    requires k == COPY || k == COPY_OF_COPY
    ensures SafelyReached(a.p, a.s)
    ensures IsOfKind(a, Kind(Later, if k == COPY then InputsOnly else SomeQuery)) && !AdoptsRight(a.p, a.s, a.v, a.k)
  {
    HoldingHolds(FIRST, 1);
    var s := LaterRecord(k);
    a := Candidate(COPIES, s, 1, k);
    CopyGoesWrong(a.s, 1, k, 2, 2, FIRST);
  }

  lemma {:induction false} EarlierGoesWrong() returns (a: Candidate)
    ensures SafelyReached(a.p, a.s)
    ensures IsOfKind(a, Kind(Earlier, SomeQuery)) && !AdoptsRight(a.p, a.s, a.v, a.k)
  {
    HoldingHolds(FIRST, 3);
    var s := EarlierRecord();
    a := Candidate(COPIES, s, 0, COPY_OF_COPY);
    CopyGoesWrong(a.s, 0, COPY_OF_COPY, 2, 2, FIRST);
  }

  /** Every unsafe kind goes wrong although every adoption before it was safe. */
  lemma {:induction false} UnsafeKindGoesWrong(x: Kind) returns (a: Candidate)
    requires !SafeKind(x)
    ensures SafelyReached(a.p, a.s) && IsOfKind(a, x) && !AdoptsRight(a.p, a.s, a.v, a.k)
  {
    if x.age == Later {
      a := LaterGoesWrong(if x.readSet == InputsOnly then COPY else COPY_OF_COPY);
    } else {
      a := EarlierGoesWrong();
    }
  }

  /** As long as every adoption is safe, a kind is always right to adopt if and only if it is a safe one. */
  lemma {:induction false} KindIsSafe(x: Kind)
    ensures AlwaysRight(x) <==> SafeKind(x)
  {
    if SafeKind(x) {
      forall a: Candidate | SafelyReached(a.p, a.s) && IsOfKind(a, x) ensures AdoptsRight(a.p, a.s, a.v, a.k) {
        SafelyReachedInv(a.p, a.s);
        SafeKindIsRight(a.p, a.s, a.v, a.k);
      }
    } else {
      var a := UnsafeKindGoesWrong(x);
      assert !AlwaysRight(x);
    }
  }

  /** One adoption changes the label of the record, and nothing of it in other views. */
  lemma {:induction false} Relabels(s: State, v: nat, w: nat, k: DynKey)
    requires Reached(s) && CanAdopt(COPIES, s, v, k) && w < |s.family.views| && w != v
    requires KeyFor(s, v, k) == KeyFor(s, w, k)
    ensures var now := Apply(COPIES, s, Adopt(v, k));
            && WellFormed(now) && ReachedByOneUnsafe(COPIES, now)
            && now.family == s.family && now.cells[w] == s.cells[w]
            && KeyFor(now, w, k) in now.cache
            && now.cache[KeyFor(now, w, k)] ==
               s.cache[KeyFor(s, w, k)].(verifiedAt := RevisionOf(s.family.views[v]))
  {}

  lemma {:induction false} LooksCurrent(k: DynKey) returns (a: Candidate)
    requires k == COPY || k == COPY_OF_COPY
    ensures ReachedByOneUnsafe(a.p, a.s)
    ensures IsOfKind(a, Kind(Same, if k == COPY then InputsOnly else SomeQuery)) && !AdoptsRight(a.p, a.s, a.v, a.k)
  {
    HoldingHolds(FIRST, 1);
    var s := LaterRecord(k);
    CopyGoesWrong(s, 1, k, 2, 2, FIRST);
    Relabels(s, 1, 2, k);
    a := Candidate(COPIES, Apply(COPIES, s, Adopt(1, k)), 2, k);
    CopyGoesWrong(a.s, 2, k, 2, 1, FIRST);
  }

  lemma {:induction false} LooksOlder() returns (a: Candidate)
    ensures ReachedByOneUnsafe(a.p, a.s)
    ensures IsOfKind(a, Kind(Earlier, InputsOnly)) && !AdoptsRight(a.p, a.s, a.v, a.k)
  {
    HoldingHolds(FIRST, 1);
    HoldingHolds(THIRD, 2);
    var s := LateRecord();
    CopyGoesWrong(s, 1, COPY, 3, 3, FIRST);
    Relabels(s, 1, 2, COPY);
    a := Candidate(COPIES, Apply(COPIES, s, Adopt(1, COPY)), 2, COPY);
    CopyGoesWrong(a.s, 2, COPY, 3, 1, THIRD);
  }

  /** Adopting a record from a later revision in one view makes it look current, or older, to the next. */
  lemma {:induction false} RelabelledGoesWrong(x: Kind) returns (a: Candidate)
    requires SafeKind(x) && x.readSet != Nothing
    ensures ReachedByOneUnsafe(a.p, a.s) && IsOfKind(a, x) && !AdoptsRight(a.p, a.s, a.v, a.k)
  {
    if x.age == Same {
      a := LooksCurrent(if x.readSet == InputsOnly then COPY else COPY_OF_COPY);
    } else {
      a := LooksOlder();
    }
  }

  /** A record of a sound state that read nothing is derived on any inputs. */
  lemma {:induction false} NothingReadDerives(p: Program, s: State, key: SharedCache.CacheKey, inputs: Inputs)
    requires Inv(p, s) && key in s.cache && s.cache[key].deps == []
    ensures key.dynKey in p.queries && Evaluate(p, inputs, {}, key.dynKey) == Present(s.cache[key].value)
  {
    var rec := s.cache[key];
    assert RightForLabel(p, s.family, key.scope, key.dynKey, rec);
    var o: nat :| OwnerOf(s.family, key.scope, o) && PublishedBy(p, s.family.views[o], key.dynKey, rec);
    TraceCarriesOver(p, Values(s.family.views[o].past[rec.verifiedAt]), inputs, key.dynKey, rec.deps);
    DerivesDecides(p, inputs, key.dynKey, rec.deps, rec.value);
    EvaluateIsScratch(p, inputs, key.dynKey);
  }

  /** An adoption changes no record but for its label. */
  lemma {:induction false} OnlyLabelsChange(
    p: Program, s: State, v: nat, k: DynKey, key: SharedCache.CacheKey)
    requires WellFormed(s) && CanAdopt(p, s, v, k) && key in Apply(p, s, Adopt(v, k)).cache
    ensures key in s.cache
    ensures Apply(p, s, Adopt(v, k)).cache[key].value == s.cache[key].value
    ensures Apply(p, s, Adopt(v, k)).cache[key].deps == s.cache[key].deps
  {}

  /** A record that read nothing is right everywhere, whatever its label. */
  lemma {:induction false} NothingReadIsRight(a: Candidate, x: Kind)
    requires ReachedByOneUnsafe(a.p, a.s) && IsOfKind(a, x) && x.readSet == Nothing
    ensures AdoptsRight(a.p, a.s, a.v, a.k)
  {
    var key, now := KeyFor(a.s, a.v, a.k), Values(Family.Present(a.s.family.views[a.v]));
    if SafelyReached(a.p, a.s) {
      SafelyReachedInv(a.p, a.s);
      NothingReadDerives(a.p, a.s, key, now);
    } else {
      var s: State, v: nat, k: DynKey :|
        SafelyReached(a.p, s) && WellFormed(s) && CanAdopt(a.p, s, v, k) && a.s == Apply(a.p, s, Adopt(v, k));
      OnlyLabelsChange(a.p, s, v, k, key);
      SafelyReachedInv(a.p, s);
      NothingReadDerives(a.p, s, key, now);
    }
  }

  /** After one unsafe adoption only records that read nothing are always right to adopt. */
  lemma {:induction false} KindIsSafeAfterOneUnsafe(x: Kind)
    ensures AlwaysRightAfterOneUnsafe(x) <==> x.readSet == Nothing
  {
    if x.readSet == Nothing {
      forall a: Candidate | ReachedByOneUnsafe(a.p, a.s) && IsOfKind(a, x)
        ensures AdoptsRight(a.p, a.s, a.v, a.k)
      {
        NothingReadIsRight(a, x);
      }
    } else if SafeKind(x) {
      var a := RelabelledGoesWrong(x);
      assert !AlwaysRightAfterOneUnsafe(x);
    } else {
      var a := UnsafeKindGoesWrong(x);
      assert ReachedByOneUnsafe(a.p, a.s);
      assert !AlwaysRightAfterOneUnsafe(x);
    }
  }
}
