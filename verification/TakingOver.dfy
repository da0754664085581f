/**
 Taking over a result that is right at the moment, and what comes of it. A view that takes over a
 result has not evaluated its dependencies itself, and may hold older cells that read it. Whether a
 later revalidation can be misled shows in the cells: `ClearIsExact` gives the condition.
 */
module TakingOver {
  import opened Keys
  import opened Semantics
  import opened Cells
  import opened Engine
  import opened Copies

  /** What revalidation in one view looks at, and the inputs the view has been through. */
  datatype Moment = Moment(history: History, entries: Entries, cells: CellMap)

  function Now(m: Moment): Revision
    requires m.history != []
  {
    |m.history| - 1
  }

  ghost predicate Sound(p: Program, m: Moment) {
    InputsRecorded(m.history, m.entries) && CellsSound(ByChanged, p, m.history, m.cells)
  }

  /**
   Revalidation of `q` passes on a value that is not the one of the present inputs. All dependencies
   have been touched, and the code's test compares them with the cell's own `changedAt`.
   */
  ghost predicate Misled(p: Program, m: Moment, q: DynKey)
    requires m.history != []
  {
    var c := CellAt(m.cells, q);
    && q in p.queries && c.Ready? && !VerifiedAt(c, Now(m))
    && DepsVerified(p, m.cells, c.deps, Now(m)) && NoneChanged(p, m.entries, m.cells, c.deps, c.changedAt)
    && Evaluate(p, Values(m.entries), {}, q) != Present(c.value)
  }

  /** A right value that was brought up to date, with the `changedAt` of an equal older one. */
  ghost predicate BroughtUpToDate(p: Program, m: Moment, q: DynKey, was: Cell, c: Cell)
    requires m.history != []
  {
    && CellAdvances(was, c, Now(m)) && VerifiedAt(c, Now(m))
    && Derives(p, Values(m.entries), q, c.deps, c.value)
  }

  /** The view at a later moment: some writes, and some cells brought up to date. */
  ghost predicate Later(p: Program, was: Moment, now: Moment) {
    && 0 < |was.history| && was.history <= now.history && InputsRecorded(now.history, now.entries)
    && (forall q | q in p.queries :: CellAt(now.cells, q) == CellAt(was.cells, q)
          || BroughtUpToDate(p, now, q, CellAt(was.cells, q), CellAt(now.cells, q)))
  }

  ghost predicate CanBeMisled(p: Program, m: Moment) {
    exists now: Moment, q: DynKey :: Later(p, m, now) && Misled(p, now, q)
  }

  /** In sound cells a revalidation that passes is right, now and later. */
  lemma {:induction false} SoundIsNeverMisled(p: Program, m: Moment)
    requires Sound(p, m)
    ensures !CanBeMisled(p, m)
  {
    forall now: Moment, q: DynKey | Later(p, m, now) ensures !Misled(p, now, q) {
      if Misled(p, now, q) {
        PassedIsRight(p, m, now, q);
      }
    }
  }

  lemma {:induction false} PassedIsRight(p: Program, m: Moment, now: Moment, q: DynKey)
    requires Sound(p, m) && Later(p, m, now) && q in p.queries
    requires var c := CellAt(now.cells, q);
             && c.Ready? && !VerifiedAt(c, Now(now)) && DepsVerified(p, now.cells, c.deps, Now(now))
             && NoneChanged(p, now.entries, now.cells, c.deps, c.changedAt)
    ensures Evaluate(p, Values(now.entries), {}, q) == Present(CellAt(now.cells, q).value)
  {
    var c, present := CellAt(now.cells, q), Values(now.entries);
    assert c == CellAt(m.cells, q) && CellSound(p, m.history, q, c);
    var past := m.history[c.verifiedAt];
    assert past == now.history[c.verifiedAt];
    forall i | 0 <= i < |c.deps| ensures AnswerOf(p, past, c.deps[i]) == AnswerOf(p, present, c.deps[i]) {
      assert c.deps[i] in c.deps;
      if c.deps[i] in p.queries {
        DepHoldsWhatWasRead(p, m, now, q, c.deps[i]);
      } else {
        assert ChangedAt(now.entries, c.deps[i]) <= c.verifiedAt;
      }
    }
    TraceCarriesOver(p, past, present, q, c.deps);
    DerivesDecides(p, present, q, c.deps, c.value);
    EvaluateIsScratch(p, present, q);
  }

  lemma {:induction false} DepHoldsWhatWasRead(p: Program, m: Moment, now: Moment, q: DynKey, d: DynKey)
    requires Sound(p, m) && Later(p, m, now) && q in p.queries && d in p.queries
    requires CellAt(now.cells, q) == CellAt(m.cells, q)
    requires var (c, dc) := (CellAt(now.cells, q), CellAt(now.cells, d));
             && c.Ready? && d in c.deps && c.verifiedAt < Now(now) && c.verifiedAt < |m.history|
             && VerifiedAt(dc, Now(now)) && dc.changedAt <= c.changedAt
    ensures Scratch(p, m.history[CellAt(m.cells, q).verifiedAt], d) == Scratch(p, Values(now.entries), d)
  {
    var c, was, dc := CellAt(m.cells, q), CellAt(m.cells, d), CellAt(now.cells, d);
    assert CellSound(p, m.history, q, c) && CellSound(p, m.history, d, was);
    assert AgreesWith(ByChanged, p, m.history, c, d, was);
    if dc == was {
      VerifiedIsScratch(p, m.history, m.cells, d);
      assert m.history[was.verifiedAt] == now.history[Now(now)];
    } else {
      assert BroughtUpToDate(p, now, d, was, dc);
      DerivesDecides(p, Values(now.entries), d, dc.deps, dc.value);
    }
  }

  // ---------------------------------------------------------------------------
  // What is seen in the cells
  // ---------------------------------------------------------------------------

  /**
   Two views that have been through the same inputs, both sound. One of them holds `k` verified, and
   the other, which does not, is about to take it over.
   */
  datatype Taking = Taking(p: Program, view: Moment, k: DynKey, source: CellMap)

  ghost predicate Offered(t: Taking) {
    && Sound(t.p, t.view) && t.k in t.p.queries && !SettledAt(CellAt(t.view.cells, t.k), Now(t.view))
    && CellsSound(ByChanged, t.p, t.view.history, t.source)
    && VerifiedAt(CellAt(t.source, t.k), Now(t.view))
  }

  function Taken(t: Taking): Moment {
    t.view.(cells := t.view.cells[t.k := CellAt(t.source, t.k)])
  }

  datatype Seen = Seen(depsClear: bool, readersClear: bool)

  predicate Sees(t: Taking, x: Seen)
    requires t.view.history != [] && CellAt(t.source, t.k).Ready?
  {
    && x.depsClear == DepsClear(t.p, t.view.cells, CellAt(t.source, t.k), Now(t.view))
    && x.readersClear == ReadersClear(t.p, t.view.cells, t.k, CellAt(t.source, t.k), Now(t.view))
  }

  ghost predicate NeverMisleads(x: Seen) {
    forall t: Taking | Offered(t) && Sees(t, x) :: !CanBeMisled(t.p, Taken(t))
  }

  /** What a view can see of the cells tells whether a right result is always harmless. */
  lemma {:induction false} ClearIsExact(x: Seen)
    ensures NeverMisleads(x) <==> x.depsClear && x.readersClear
  {
    if x.depsClear && x.readersClear {
      forall t: Taking | Offered(t) && Sees(t, x) ensures !CanBeMisled(t.p, Taken(t)) {
        var c := CellAt(t.source, t.k);
        assert CellSound(t.p, t.view.history, t.k, c);
        ClearStaysSound(ByChanged, t.p, t.view.history, t.view.cells, t.k, c);
        SoundIsNeverMisled(t.p, Taken(t));
      }
    } else {
      var t := UnclearMisleads(x);
      assert !NeverMisleads(x);
    }
  }

  // ---------------------------------------------------------------------------
  // What goes wrong otherwise
  // ---------------------------------------------------------------------------

  lemma {:induction false} UnclearMisleads(x: Seen) returns (t: Taking)
    requires !(x.depsClear && x.readersClear)
    ensures Offered(t) && Sees(t, x) && CanBeMisled(t.p, Taken(t))
  {
    if x.readersClear {
      t := DepsUnclear();
      DepsUnclearOffered();
      DepsUnclearMisleads();
    } else if x.depsClear {
      t := ReadersUnclear();
      ReadersUnclearOffered();
      ReadersUnclearMisleads();
    } else {
      t := BothUnclear();
      BothUnclearOffered();
      BothUnclearMisleads();
    }
  }

  function Only(v: Value): Inputs {
    map[INPUT := v]
  }

  const NO_INPUTS: Inputs := map[]
  const FIRST_THEN_SECOND: History := [NO_INPUTS, Only(FIRST), Only(SECOND)]
  const THERE_AND_BACK: History := FIRST_THEN_SECOND + [Only(FIRST)]
  const SECOND_AGAIN: History := THERE_AND_BACK + [Only(SECOND)]

  /** A view whose input was written last at its present revision. */
  function View(history: History, v: Value, cells: CellMap): Moment
    requires history != []
  {
    Moment(history, Holding(v, |history| - 1), cells)
  }

  lemma {:induction false} ViewRecorded(history: History, v: Value, cells: CellMap)
    requires history != [] && history[|history| - 1] == Only(v)
    requires forall r | 0 <= r < |history| :: history[r].Keys <= {INPUT}
    ensures InputsRecorded(history, View(history, v, cells).entries)
  {
    HoldingHolds(v, |history| - 1);
  }

  /** A copy whose dependency was just verified, and changed no later than the copy, is taken as unchanged. */
  lemma {:induction false} CopyMisled(m: Moment, q: DynKey, v: Value)
    requires q in {COPY_OF_COPY, THIRD_COPY} && m.history != [] && Holds(Values(m.entries), v)
    requires VerifiedAt(CellAt(m.cells, CopiedBy(q)), Now(m))
    requires var c := CellAt(m.cells, q);
             && c.Ready? && c.verifiedAt < Now(m) && c.value != v && c.deps == [CopiedBy(q)]
             && CellAt(m.cells, CopiedBy(q)).changedAt <= c.changedAt
    ensures Misled(COPIES, m, q)
  {
    OneDepPasses(m.entries, m.cells, CopiedBy(q), CellAt(m.cells, q).changedAt, Now(m));
    CopiesEvaluate(Values(m.entries), v, q);
  }

  lemma {:induction false} MisledAtOnce(p: Program, m: Moment, q: DynKey)
    requires InputsRecorded(m.history, m.entries) && Misled(p, m, q)
    ensures CanBeMisled(p, m)
  {
    assert Later(p, m, m);
  }

  /** The cells of each of the two views are copies verified at one revision. */
  lemma {:induction false} CopiesOffered(
    history: History, k: DynKey, v: Value, source: CellMap, was: Value, since: Revision, cells: CellMap)
    requires since < |history| - 1 && history[|history| - 1] == Only(v) && history[since] == Only(was)
    requires forall r | 0 <= r < |history| :: history[r].Keys <= {INPUT}
    requires k in COPIES.queries && k in source && CopiesAt(source, v, |history| - 1) && CopiesAt(cells, was, since)
    ensures Offered(Taking(COPIES, View(history, v, cells), k, source))
  {
    ViewRecorded(history, v, cells);
    CopiesSound(ByChanged, history, since, was, cells);
    CopiesSound(ByChanged, history, |history| - 1, v, source);
  }

  /**
   A copy of the copy is taken over at the second value, while `COPY` is still the one of the first.
   The input goes back, `COPY` is recomputed to its old value and keeps its `changedAt`: the copy of
   the copy passes.
   */
  function DepsUnclear(): Taking {
    var cells: CellMap := map[COPY := CopyCell(COPY, FIRST, 1, 1)];
    var source: CellMap := map[COPY_OF_COPY := CopyCell(COPY_OF_COPY, SECOND, 2, 2)];
    Taking(COPIES, View(FIRST_THEN_SECOND, SECOND, cells), COPY_OF_COPY, source)
  }

  lemma {:induction false} DepsUnclearOffered()
    ensures Offered(DepsUnclear()) && Sees(DepsUnclear(), Seen(false, true))
  {
    var t := DepsUnclear();
    assert COPY in t.source[COPY_OF_COPY].deps;
    assert Sees(t, Seen(false, true));
    CopiesOffered(FIRST_THEN_SECOND, COPY_OF_COPY, SECOND, t.source, FIRST, 1, t.view.cells);
  }

  lemma {:induction false} DepsUnclearMisleads()
    ensures CanBeMisled(COPIES, Taken(DepsUnclear()))
  {
    var m := Taken(DepsUnclear());
    ViewRecorded(FIRST_THEN_SECOND, SECOND, m.cells);
    WriteBackMisleads(m, FIRST);
  }

  /** `COPY` gets its old value back, and keeps its `changedAt`. */
  lemma {:induction false} WriteBackMisleads(m: Moment, v: Value)
    requires InputsRecorded(m.history, m.entries)
    requires var c := CellAt(m.cells, COPY); c.Ready? && c.verifiedAt < |m.history| && c.value == v
    requires var c := CellAt(m.cells, COPY_OF_COPY);
             && c.Ready? && c.verifiedAt < |m.history| && c.value != v && c.deps == [COPY]
             && CellAt(m.cells, COPY).changedAt <= c.changedAt
    ensures CanBeMisled(COPIES, m)
  {
    var entries := m.entries[INPUT := InputEntry(Some(v), |m.history|)];
    var backdated := CopyCell(COPY, v, |m.history|, CellAt(m.cells, COPY).changedAt);
    var now := Moment(m.history + [Values(entries)], entries, m.cells[COPY := backdated]);
    InputsRecordedAfterWrite(m.history, m.entries, INPUT, Some(v));
    CopyDerives(Values(entries), COPY, v);
    assert BroughtUpToDate(COPIES, now, COPY, CellAt(m.cells, COPY), backdated);
    assert Later(COPIES, m, now);
    CopyMisled(now, COPY_OF_COPY, v);
  }

  /**
   The view computed a copy of the copy at the second value, and has lost `COPY`. The other view
   kept the first value of `COPY` through there and back: taken over, it looks older than what the
   copy of the copy read.
   */
  function ReadersUnclear(): Taking {
    var cells: CellMap := map[COPY_OF_COPY := CopyCell(COPY_OF_COPY, SECOND, 2, 2)];
    Taking(COPIES, View(THERE_AND_BACK, FIRST, cells), COPY, map[COPY := CopyCell(COPY, FIRST, 3, 1)])
  }

  lemma {:induction false} ReadersUnclearOffered()
    ensures Offered(ReadersUnclear()) && Sees(ReadersUnclear(), Seen(true, false))
  {
    var t := ReadersUnclear();
    assert COPY in t.view.cells[COPY_OF_COPY].deps;
    assert Sees(t, Seen(true, false));
    CopiesOffered(THERE_AND_BACK, COPY, FIRST, t.source, SECOND, 2, t.view.cells);
  }

  lemma {:induction false} ReadersUnclearMisleads()
    ensures CanBeMisled(COPIES, Taken(ReadersUnclear()))
  {
    var m := Taken(ReadersUnclear());
    ViewRecorded(THERE_AND_BACK, FIRST, m.cells);
    HoldingHolds(FIRST, 3);
    CopyMisled(m, COPY_OF_COPY, FIRST);
    MisledAtOnce(COPIES, m, COPY_OF_COPY);
  }

  /** Both at once: `COPY` is not up to date, and the third copy read another value than is taken over. */
  function BothUnclear(): Taking {
    var cells: CellMap := map[COPY := CopyCell(COPY, FIRST, 3, 1), THIRD_COPY := CopyCell(THIRD_COPY, FIRST, 3, 3)];
    var source: CellMap := map[COPY_OF_COPY := CopyCell(COPY_OF_COPY, SECOND, 4, 2)];
    Taking(COPIES, View(SECOND_AGAIN, SECOND, cells), COPY_OF_COPY, source)
  }

  lemma {:induction false} BothUnclearOffered()
    ensures Offered(BothUnclear()) && Sees(BothUnclear(), Seen(false, false))
  {
    var t := BothUnclear();
    assert COPY in t.source[COPY_OF_COPY].deps && COPY_OF_COPY in t.view.cells[THIRD_COPY].deps;
    assert Sees(t, Seen(false, false));
    CopiesOffered(SECOND_AGAIN, COPY_OF_COPY, SECOND, t.source, FIRST, 3, t.view.cells);
  }

  lemma {:induction false} BothUnclearMisleads()
    ensures CanBeMisled(COPIES, Taken(BothUnclear()))
  {
    var m := Taken(BothUnclear());
    ViewRecorded(SECOND_AGAIN, SECOND, m.cells);
    HoldingHolds(SECOND, 4);
    CopyMisled(m, THIRD_COPY, SECOND);
    MisledAtOnce(COPIES, m, THIRD_COPY);
  }
}
