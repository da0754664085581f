/**
 The memo cells of derived queries, the entries of inputs, and what is always true of them.

 `history[r]` is what the inputs held at revision `r`; the last element is the present. The
 central invariant is `Backdated`: a dependency that passes the test of revalidation still holds the
 value the query was verified against. It survives early cutoff, where a recompute that gives an
 equal value keeps its old `changedAt`.
 */
module Cells {
  import opened Keys
  import opened Semantics
  import opened Chains

  datatype Error = Query(error: QueryError) | Cycle(requested: DynKey, stack: seq<DynKey>)

  function ErrorOutcome(e: Error): Outcome {
    match e
    case Query(error) => Failed(error)
    case Cycle(_, _) => Cyclic
  }

  /** `e` is how an evaluation of `k` fails: a cycle is one of actual reads, and `k` leads there. */
  ghost predicate FailsBy(p: Program, inputs: Inputs, k: DynKey, e: Error)
    requires k in p.queries
  {
    && Scratch(p, inputs, k) == ErrorOutcome(e)
    && (e.Cycle? ==> CycleOfReads(p, inputs, e.requested, e.stack) && LeadsTo(p, inputs, k, e.requested))
  }

  /** The failure of a read is the failure of the key that reads. */
  lemma {:induction false} FailsByRead(p: Program, inputs: Inputs, k: DynKey, d: DynKey, e: Error)
    requires k in p.queries && d in p.queries && ReadsNext(p, inputs, k, d) && FailsBy(p, inputs, d, e)
    ensures FailsBy(p, inputs, k, e)
  {
    ReadDecides(p, inputs, k, d);
    if e.Cycle? {
      LeadsFurther(p, inputs, k, d, e.requested);
    }
  }

  // ---------------------------------------------------------------------------
  // Inputs
  // ---------------------------------------------------------------------------

  /** A removed input keeps its entry, without a value. */
  datatype InputEntry = InputEntry(value: Option<Value>, changedAt: Revision)

  type Entries = map<DynKey, InputEntry>
  type History = seq<Inputs>

  function ChangedAt(entries: Entries, i: DynKey): Revision {
    if i in entries then entries[i].changedAt else 0
  }

  function Values(entries: Entries): Inputs {
    map i | i in entries && entries[i].value.Some? :: entries[i].value.value
  }

  /** Since an entry's `changedAt` the input has answered every read the same way. */
  ghost predicate InputsRecorded(history: History, entries: Entries) {
    && 0 < |history|
    && history[|history| - 1] == Values(entries)
    && forall i: DynKey ::
         && ChangedAt(entries, i) < |history|
         && forall r | ChangedAt(entries, i) <= r < |history| ::
              InputAnswer(history[r], i) == InputAnswer(Values(entries), i)
  }

  lemma {:induction false} InputsRecordedAfterWrite(history: History, entries: Entries, i: DynKey, value: Option<Value>)
    requires InputsRecorded(history, entries)
    ensures var now := entries[i := InputEntry(value, |history|)];
            InputsRecorded(history + [Values(now)], now)
  {
    var now := entries[i := InputEntry(value, |history|)];
    var longer := history + [Values(now)];
    forall j: DynKey
      ensures ChangedAt(now, j) < |longer|
      ensures forall r | ChangedAt(now, j) <= r < |longer| :: InputAnswer(longer[r], j) == InputAnswer(Values(now), j)
    {
      if j != i {
        assert ChangedAt(entries, j) == ChangedAt(now, j) < |history|;
        assert InputAnswer(Values(now), j) == InputAnswer(Values(entries), j);
      }
    }
  }

  // ---------------------------------------------------------------------------
  // Cells
  // ---------------------------------------------------------------------------

  datatype Cell =
    | Vacant
    | Running(startedAt: Revision)
    | Ready(value: Value, deps: seq<Dep>, verifiedAt: Revision, changedAt: Revision)
    | Poisoned(error: Error, verifiedAt: Revision)

  type CellMap = map<DynKey, Cell>

  /** A key that was never accessed behaves as a vacant cell. */
  function CellAt(cells: CellMap, k: DynKey): Cell {
    if k in cells then cells[k] else Vacant
  }

  predicate SettledAt(c: Cell, rev: Revision) {
    (c.Ready? || c.Poisoned?) && c.verifiedAt == rev
  }

  predicate VerifiedAt(c: Cell, rev: Revision) {
    c.Ready? && c.verifiedAt == rev
  }

  ghost predicate CellSound(p: Program, history: History, k: DynKey, c: Cell)
    requires k in p.queries
  {
    match c
    case Vacant => true
    case Running(_) => true
    case Ready(v, deps, verifiedAt, changedAt) =>
      changedAt <= verifiedAt < |history| && Derives(p, history[verifiedAt], k, deps, v)
    case Poisoned(e, verifiedAt) =>
      verifiedAt < |history| && FailsBy(p, history[verifiedAt], k, e)
  }

  ghost predicate EachSound(p: Program, history: History, cells: CellMap) {
    && cells.Keys <= p.queries
    && forall k | k in p.queries :: CellSound(p, history, k, CellAt(cells, k))
  }

  /**
   The revision a dependency's `changedAt` is compared with when `k` is revalidated. The code takes
   the cell's own `changedAt`; its documentation speaks of `verifiedAt`, which is never earlier.
   */
  datatype Test = ByChanged | ByVerified

  function Limit(test: Test, k: Cell): Revision
    requires k.Ready?
  {
    if test.ByChanged? then k.changedAt else k.verifiedAt
  }

  /** The dependency `d` of `k` passes the test, so it holds what `k` read. */
  ghost predicate AgreesWith(test: Test, p: Program, history: History, k: Cell, d: DynKey, dc: Cell)
    requires d in p.queries
    requires k.Ready? ==> k.verifiedAt < |history|
  {
    k.Ready? && d in k.deps && dc.Ready? && dc.changedAt <= Limit(test, k) ==>
      Scratch(p, history[k.verifiedAt], d) == Present(dc.value)
  }

  ghost predicate Backdated(test: Test, p: Program, history: History, cells: CellMap)
    requires EachSound(p, history, cells)
  {
    forall k, d | k in p.queries && d in p.queries ::
      AgreesWith(test, p, history, CellAt(cells, k), d, CellAt(cells, d))
  }

  ghost predicate CellsSound(test: Test, p: Program, history: History, cells: CellMap) {
    EachSound(p, history, cells) && Backdated(test, p, history, cells)
  }

  /**
   How one cell may change while the revision stays at `rev`. This is where early cutoff shows: a
   value equal to the one held before keeps its `changedAt`, any other value changed at `rev`.
   */
  ghost predicate CellAdvances(was: Cell, now: Cell, rev: Revision) {
    || now == was
    || (&& !SettledAt(was, rev)
        && SettledAt(now, rev)
        && (now.Ready? ==>
              now.changedAt == if was.Ready? && was.value == now.value then was.changedAt else rev))
  }

  /** Cells settled at `rev` stay, others may only become settled; `changedAt` never goes back. */
  ghost predicate Advances(was: CellMap, now: CellMap, rev: Revision) {
    forall k: DynKey :: CellAdvances(CellAt(was, k), CellAt(now, k), rev)
  }

  /**
   From a moment at revision `since` on, `changedAt` never goes back, even if the cell was lost or
   held no value in between: a value that was computed anew changed at `since` or later.
   */
  ghost predicate NeverOlder(was: CellMap, since: Revision, now: CellMap) {
    forall k: DynKey :: CellAt(now, k).Ready? ==>
      || since <= CellAt(now, k).changedAt
      || (CellAt(was, k).Ready? && CellAt(was, k).changedAt <= CellAt(now, k).changedAt)
  }

  lemma {:induction false} AdvancesNeverOlder(was: CellMap, now: CellMap, rev: Revision)
    requires Advances(was, now, rev)
    ensures NeverOlder(was, rev, now)
  {
    forall k: DynKey | CellAt(now, k).Ready? && CellAt(now, k).changedAt < rev
      ensures CellAt(was, k).Ready? && CellAt(was, k).changedAt <= CellAt(now, k).changedAt
    {
      assert CellAdvances(CellAt(was, k), CellAt(now, k), rev);
    }
  }

  lemma {:induction false} NeverOlderTransitive(a: CellMap, since: Revision, b: CellMap, mid: Revision, c: CellMap)
    requires NeverOlder(a, since, b) && NeverOlder(b, mid, c) && since <= mid
    ensures NeverOlder(a, since, c)
  {
    forall k: DynKey | CellAt(c, k).Ready? && CellAt(c, k).changedAt < since
      ensures CellAt(a, k).Ready? && CellAt(a, k).changedAt <= CellAt(c, k).changedAt
    {
      assert CellAt(b, k).Ready? && CellAt(b, k).changedAt <= CellAt(c, k).changedAt;
    }
  }

  /** Values held at two moments: the later one did not change earlier. */
  lemma {:induction false} ChangedAtNeverDecreases(
    p: Program, history: History, was: CellMap, now: CellMap, k: DynKey)
    requires 0 < |history| && EachSound(p, history, was) && NeverOlder(was, |history| - 1, now)
    requires CellAt(was, k).Ready? && CellAt(now, k).Ready?
    ensures CellAt(was, k).changedAt <= CellAt(now, k).changedAt
  {
    assert CellSound(p, history, k, CellAt(was, k));
  }

  /** What accesses do to the cells: they advance, and those of queries under evaluation are left alone. */
  ghost predicate Progress(was: CellMap, now: CellMap, rev: Revision, busy: set<DynKey>) {
    && Advances(was, now, rev)
    && forall k | k in busy :: CellAt(now, k) == CellAt(was, k)
  }

  lemma {:induction false} ProgressTransitive(a: CellMap, b: CellMap, c: CellMap, rev: Revision, busy: set<DynKey>)
    requires Progress(a, b, rev, busy) && Progress(b, c, rev, busy)
    ensures Progress(a, c, rev, busy)
  {
    forall k: DynKey ensures CellAdvances(CellAt(a, k), CellAt(c, k), rev) {
      assert CellAdvances(CellAt(a, k), CellAt(b, k), rev) && CellAdvances(CellAt(b, k), CellAt(c, k), rev);
    }
  }

  /** Around an evaluation of `k`: nested accesses advance other cells, and `k` itself ends as `c`. */
  lemma {:induction false} ProgressAround(
    was: CellMap, mid: CellMap, k: DynKey, running: Cell, c: Cell, rev: Revision, busy: set<DynKey>)
    requires Progress(was[k := running], mid, rev, busy + {k}) && k !in busy
    requires CellAdvances(CellAt(was, k), c, rev)
    ensures Progress(was, mid[k := c], rev, busy)
  {
    forall q | q in busy ensures CellAt(mid[k := c], q) == CellAt(was, q) {
      assert CellAt(mid, q) == CellAt(was[k := running], q);
    }
    forall q: DynKey ensures CellAdvances(CellAt(was, q), CellAt(mid[k := c], q), rev) {
      assert CellAdvances(CellAt(was[k := running], q), CellAt(mid, q), rev);
    }
  }

  // ---------------------------------------------------------------------------
  // Which bodies ran
  // ---------------------------------------------------------------------------

  ghost predicate Reverified(was: Cell, now: Cell, rev: Revision) {
    was.Ready? && now == Ready(was.value, was.deps, rev, was.changedAt)
  }

  /** A body runs only for an unsettled cell and settles it; any other cell that changed was revalidated. */
  ghost predicate RanCell(was: Cell, now: Cell, rev: Revision, ran: bool) {
    if ran then !SettledAt(was, rev) && SettledAt(now, rev) else now == was || Reverified(was, now, rev)
  }

  ghost predicate NoRepeats(ran: seq<DynKey>) {
    forall i, j | 0 <= i < j < |ran| :: ran[i] != ran[j]
  }

  /** `ran` lists, in the order they finished and each once, the queries whose bodies ran. */
  ghost predicate Ran(was: CellMap, now: CellMap, rev: Revision, ran: seq<DynKey>) {
    && NoRepeats(ran)
    && forall k: DynKey :: RanCell(CellAt(was, k), CellAt(now, k), rev, k in ran)
  }

  /** The finished queries whose value changed at `rev`. */
  function ChangedAmong(ran: seq<DynKey>, cells: CellMap, rev: Revision): seq<DynKey> {
    if ran == [] then []
    else
      var last := ran[|ran| - 1];
      var c := CellAt(cells, last);
      ChangedAmong(ran[..|ran| - 1], cells, rev) + if c.Ready? && c.changedAt == rev then [last] else []
  }

  lemma {:induction false} ChangedAmongStays(was: CellMap, now: CellMap, rev: Revision, ran: seq<DynKey>)
    requires forall k | k in ran :: CellAt(now, k) == CellAt(was, k)
    ensures ChangedAmong(ran, now, rev) == ChangedAmong(ran, was, rev)
    decreases |ran|
  {
    if ran != [] {
      assert ran == ran[..|ran| - 1] + [ran[|ran| - 1]];
      ChangedAmongStays(was, now, rev, ran[..|ran| - 1]);
    }
  }

  lemma {:induction false} ChangedAmongConcat(cells: CellMap, rev: Revision, r1: seq<DynKey>, r2: seq<DynKey>)
    ensures ChangedAmong(r1 + r2, cells, rev) == ChangedAmong(r1, cells, rev) + ChangedAmong(r2, cells, rev)
    decreases |r2|
  {
    if r2 == [] {
      assert r1 + r2 == r1;
    } else {
      assert (r1 + r2)[..|r1 + r2| - 1] == r1 + r2[..|r2| - 1];
      ChangedAmongConcat(cells, rev, r1, r2[..|r2| - 1]);
    }
  }

  lemma {:induction false} RanTransitive(
    a: CellMap, b: CellMap, c: CellMap, rev: Revision, r1: seq<DynKey>, r2: seq<DynKey>)
    requires Ran(a, b, rev, r1) && Advances(a, b, rev)
    requires Ran(b, c, rev, r2) && Advances(b, c, rev)
    ensures Ran(a, c, rev, r1 + r2)
    ensures ChangedAmong(r1 + r2, c, rev) == ChangedAmong(r1, b, rev) + ChangedAmong(r2, c, rev)
  {
    forall k: DynKey
      ensures RanCell(CellAt(a, k), CellAt(c, k), rev, k in r1 + r2)
      ensures !(k in r1 && k in r2)
      ensures k in r1 ==> CellAt(b, k) == CellAt(c, k)
    {
      assert CellAdvances(CellAt(b, k), CellAt(c, k), rev);
      assert RanCell(CellAt(a, k), CellAt(b, k), rev, k in r1);
      assert RanCell(CellAt(b, k), CellAt(c, k), rev, k in r2);
    }
    NoRepeatsConcat(r1, r2);
    ChangedAmongConcat(c, rev, r1, r2);
    ChangedAmongStays(b, c, rev, r1);
  }

  lemma {:induction false} NoRepeatsConcat(r1: seq<DynKey>, r2: seq<DynKey>)
    requires NoRepeats(r1) && NoRepeats(r2) && forall k :: !(k in r1 && k in r2)
    ensures NoRepeats(r1 + r2)
  {
    forall i, j | 0 <= i < j < |r1 + r2| ensures (r1 + r2)[i] != (r1 + r2)[j] {
      assert i < |r1| <= j ==> r1[i] in r1 && r2[j - |r1|] in r2;
    }
  }

  /** Around an evaluation of `k`: the nested runs, and then `k` itself. */
  lemma {:induction false} RanAround(
    was: CellMap, mid: CellMap, k: DynKey, running: Cell, c: Cell, rev: Revision, ran: seq<DynKey>)
    requires Ran(was[k := running], mid, rev, ran) && CellAt(mid, k) == running
    requires !SettledAt(running, rev) && !SettledAt(CellAt(was, k), rev) && SettledAt(c, rev)
    ensures Ran(was, mid[k := c], rev, ran + [k])
    ensures ChangedAmong(ran + [k], mid[k := c], rev)
            == ChangedAmong(ran, mid, rev) + if c.Ready? && c.changedAt == rev then [k] else []
  {
    var now := mid[k := c];
    forall q: DynKey ensures RanCell(CellAt(was, q), CellAt(now, q), rev, q in ran + [k]) {
      assert RanCell(CellAt(was[k := running], q), CellAt(mid, q), rev, q in ran);
    }
    assert RanCell(running, running, rev, k in ran);
    NoRepeatsConcat(ran, [k]);
    assert (ran + [k])[..|ran|] == ran;
    ChangedAmongStays(mid, now, rev, ran);
  }

  /** Every dependency of a derivation made at `rev` is itself verified at `rev`. */
  ghost predicate DepsVerified(p: Program, cells: CellMap, deps: seq<Dep>, rev: Revision) {
    forall d | d in deps && d in p.queries :: VerifiedAt(CellAt(cells, d), rev)
  }

  lemma {:induction false} DepsStayVerified(p: Program, was: CellMap, now: CellMap, deps: seq<Dep>, rev: Revision)
    requires DepsVerified(p, was, deps, rev) && Advances(was, now, rev)
    ensures DepsVerified(p, now, deps, rev)
  {
    forall d | d in deps && d in p.queries ensures VerifiedAt(CellAt(now, d), rev) {
      assert CellAdvances(CellAt(was, d), CellAt(now, d), rev);
    }
  }

  /** Every query verified before the present that read `k` read the value `v`, if `changedAt` says so. */
  ghost predicate ReadersSaw(
    test: Test, p: Program, history: History, cells: CellMap, k: DynKey, v: Value, changedAt: Revision)
    requires EachSound(p, history, cells) && k in p.queries
  {
    forall q | q in p.queries ::
      var c := CellAt(cells, q);
      c.Ready? && k in c.deps && changedAt <= Limit(test, c) && c.verifiedAt < |history| - 1 ==>
        Scratch(p, history[c.verifiedAt], k) == Present(v)
  }

  lemma {:induction false} ReadersSawReady(test: Test, p: Program, history: History, cells: CellMap, k: DynKey)
    requires CellsSound(test, p, history, cells) && k in p.queries && CellAt(cells, k).Ready?
    ensures ReadersSaw(test, p, history, cells, k, CellAt(cells, k).value, CellAt(cells, k).changedAt)
  {
    forall q | q in p.queries ensures
      var c := CellAt(cells, q);
      c.Ready? && k in c.deps && CellAt(cells, k).changedAt <= Limit(test, c) && c.verifiedAt < |history| - 1 ==>
        Scratch(p, history[c.verifiedAt], k) == Present(CellAt(cells, k).value)
    {
      assert CellSound(p, history, q, CellAt(cells, q));
      assert AgreesWith(test, p, history, CellAt(cells, q), k, CellAt(cells, k));
    }
  }

  lemma {:induction false} ReadersSawStays(
    test: Test, p: Program, history: History, was: CellMap, now: CellMap, k: DynKey, v: Value, changedAt: Revision)
    requires EachSound(p, history, was) && EachSound(p, history, now) && k in p.queries && 0 < |history|
    requires ReadersSaw(test, p, history, was, k, v, changedAt)
    requires forall q | q in p.queries && CellAt(now, q).Ready? && CellAt(now, q).verifiedAt < |history| - 1 ::
               CellAt(now, q) == CellAt(was, q)
    ensures ReadersSaw(test, p, history, now, k, v, changedAt)
  {
    forall q | q in p.queries ensures
      var c := CellAt(now, q);
      c.Ready? && k in c.deps && changedAt <= Limit(test, c) && c.verifiedAt < |history| - 1 ==>
        Scratch(p, history[c.verifiedAt], k) == Present(v)
    {
    }
  }

  /** The present value of a verified cell is the from-scratch value. */
  lemma {:induction false} VerifiedIsScratch(p: Program, history: History, cells: CellMap, k: DynKey)
    requires EachSound(p, history, cells) && k in p.queries
    requires CellAt(cells, k).Ready?
    ensures Scratch(p, history[CellAt(cells, k).verifiedAt], k) == Present(CellAt(cells, k).value)
  {
    var c := CellAt(cells, k);
    assert CellSound(p, history, k, c);
    DerivesDecides(p, history[c.verifiedAt], k, c.deps, c.value);
  }

  /**
   What it takes to store a value that is right at the moment without having evaluated it here, as
   when it comes from another view: no dependency and no reader passes the test with a wrong value.
   */
  ghost predicate Installable(test: Test, p: Program, history: History, cells: CellMap, k: DynKey, c: Cell)
    requires 0 < |history| && EachSound(p, history, cells) && k in p.queries && VerifiedAt(c, |history| - 1)
  {
    && (forall d | d in p.queries :: AgreesWith(test, p, history, c, d, CellAt(cells, d)))
    && (forall q | q in p.queries && q != k ::
          AgreesWith(test, p, history, SoundCell(p, history, cells, q), k, c))
  }

  /** The cell of a query, which is never verified beyond the present. */
  ghost function SoundCell(p: Program, history: History, cells: CellMap, q: DynKey): (c: Cell)
    requires EachSound(p, history, cells) && q in p.queries
    ensures c == CellAt(cells, q) && (c.Ready? ==> c.verifiedAt < |history|)
  {
    assert CellSound(p, history, q, CellAt(cells, q));
    CellAt(cells, q)
  }

  /** Storing a right value keeps the invariants if and only if it is installable. */
  lemma {:induction false} SoundIffInstallable(
    test: Test, p: Program, history: History, cells: CellMap, k: DynKey, c: Cell)
    requires CellsSound(test, p, history, cells) && k in p.queries
    requires 0 < |history| && VerifiedAt(c, |history| - 1) && c.changedAt <= c.verifiedAt
    requires Derives(p, history[|history| - 1], k, c.deps, c.value)
    ensures CellsSound(test, p, history, cells[k := c]) <==> Installable(test, p, history, cells, k, c)
  {
    if Installable(test, p, history, cells, k, c) {
      InstallableIsSound(test, p, history, cells, k, c);
    }
    if CellsSound(test, p, history, cells[k := c]) {
      SoundIsInstallable(test, p, history, cells, k, c);
    }
  }

  lemma {:induction false} InstallableIsSound(
    test: Test, p: Program, history: History, cells: CellMap, k: DynKey, c: Cell)
    requires CellsSound(test, p, history, cells) && k in p.queries
    requires 0 < |history| && VerifiedAt(c, |history| - 1) && c.changedAt <= c.verifiedAt
    requires Derives(p, history[|history| - 1], k, c.deps, c.value)
    requires Installable(test, p, history, cells, k, c)
    ensures CellsSound(test, p, history, cells[k := c])
  {
    var now := cells[k := c];
    DerivesDecides(p, history[|history| - 1], k, c.deps, c.value);
    forall q | q in p.queries ensures CellSound(p, history, q, CellAt(now, q)) {
      assert CellSound(p, history, q, CellAt(cells, q));
    }
    forall q, d | q in p.queries && d in p.queries
      ensures AgreesWith(test, p, history, CellAt(now, q), d, CellAt(now, d))
    {
      assert CellSound(p, history, q, CellAt(now, q));
      if q == k {
        assert AgreesWith(test, p, history, c, d, CellAt(cells, d));
      } else if d == k {
        assert AgreesWith(test, p, history, SoundCell(p, history, cells, q), k, c);
      } else {
        assert AgreesWith(test, p, history, CellAt(cells, q), d, CellAt(cells, d));
      }
    }
  }

  lemma {:induction false} SoundIsInstallable(
    test: Test, p: Program, history: History, cells: CellMap, k: DynKey, c: Cell)
    requires CellsSound(test, p, history, cells) && k in p.queries
    requires 0 < |history| && VerifiedAt(c, |history| - 1)
    requires Derives(p, history[|history| - 1], k, c.deps, c.value)
    requires CellsSound(test, p, history, cells[k := c])
    ensures Installable(test, p, history, cells, k, c)
  {
    var now := cells[k := c];
    DerivesDecides(p, history[|history| - 1], k, c.deps, c.value);
    forall d | d in p.queries ensures AgreesWith(test, p, history, c, d, CellAt(cells, d)) {
      assert AgreesWith(test, p, history, CellAt(now, k), d, CellAt(now, d));
    }
    forall q | q in p.queries && q != k
      ensures AgreesWith(test, p, history, SoundCell(p, history, cells, q), k, c)
    {
      assert AgreesWith(test, p, history, CellAt(now, q), k, CellAt(now, k));
    }
  }

  /** No derived dependency held here passes the code's test against `c`, unless it is verified. */
  predicate DepsClear(p: Program, cells: CellMap, c: Cell, rev: Revision)
    requires c.Ready?
  {
    forall d | d in c.deps && d in p.queries && CellAt(cells, d).Ready? ::
      VerifiedAt(CellAt(cells, d), rev) || c.changedAt < CellAt(cells, d).changedAt
  }

  /** To no reader held here does `k` pass the code's test with `c`, unless the reader is verified. */
  predicate ReadersClear(p: Program, cells: CellMap, k: DynKey, c: Cell, rev: Revision)
    requires c.Ready?
  {
    forall q | q in p.queries && q != k && CellAt(cells, q).Ready? && k in CellAt(cells, q).deps ::
      VerifiedAt(CellAt(cells, q), rev) || CellAt(cells, q).changedAt < c.changedAt
  }

  predicate BothClear(p: Program, cells: CellMap, k: DynKey, c: Cell, rev: Revision)
    requires c.Ready?
  {
    DepsClear(p, cells, c, rev) && ReadersClear(p, cells, k, c, rev)
  }

  /** What can be seen in the cells is enough. */
  lemma {:induction false} ClearIsInstallable(p: Program, history: History, cells: CellMap, k: DynKey, c: Cell)
    requires CellsSound(ByChanged, p, history, cells) && k in p.queries
    requires 0 < |history| && VerifiedAt(c, |history| - 1)
    requires Derives(p, history[|history| - 1], k, c.deps, c.value)
    requires BothClear(p, cells, k, c, |history| - 1)
    ensures Installable(ByChanged, p, history, cells, k, c)
  {
    DerivesDecides(p, history[|history| - 1], k, c.deps, c.value);
    forall d | d in p.queries ensures AgreesWith(ByChanged, p, history, c, d, CellAt(cells, d)) {
      if d in c.deps && VerifiedAt(CellAt(cells, d), |history| - 1) {
        VerifiedIsScratch(p, history, cells, d);
      }
    }
  }

  lemma {:induction false} ClearStaysSound(
    test: Test, p: Program, history: History, cells: CellMap, k: DynKey, c: Cell)
    requires CellsSound(test, p, history, cells) && k in p.queries
    requires 0 < |history| && VerifiedAt(c, |history| - 1) && c.changedAt <= c.verifiedAt
    requires Derives(p, history[|history| - 1], k, c.deps, c.value)
    ensures test == ByChanged && BothClear(p, cells, k, c, |history| - 1) ==>
              CellsSound(test, p, history, cells[k := c])
  {
    if test == ByChanged && BothClear(p, cells, k, c, |history| - 1) {
      ClearIsInstallable(p, history, cells, k, c);
      InstallableIsSound(test, p, history, cells, k, c);
    }
  }

  /** A right value is taken over: what it means, and when the view stays sound. */
  lemma {:induction false} WhenTaken(
    test: Test, p: Program, history: History, cells: CellMap, k: DynKey, c: Cell)
    requires CellsSound(test, p, history, cells) && k in p.queries
    requires 0 < |history| && VerifiedAt(c, |history| - 1) && c.changedAt <= c.verifiedAt
    requires Derives(p, history[|history| - 1], k, c.deps, c.value)
    ensures Scratch(p, history[|history| - 1], k) == Present(c.value)
    ensures CellsSound(test, p, history, cells[k := c]) <==> Installable(test, p, history, cells, k, c)
    ensures test == ByChanged && BothClear(p, cells, k, c, |history| - 1) ==>
              CellsSound(test, p, history, cells[k := c])
  {
    DerivesDecides(p, history[|history| - 1], k, c.deps, c.value);
    SoundIffInstallable(test, p, history, cells, k, c);
    ClearStaysSound(test, p, history, cells, k, c);
  }

  /** Storing a value that was evaluated here keeps every invariant, backdated or not. */
  lemma {:induction false} SoundAfterVerify(
    test: Test, p: Program, history: History, cells: CellMap, k: DynKey, c: Cell)
    requires CellsSound(test, p, history, cells) && k in p.queries
    requires 0 < |history| && VerifiedAt(c, |history| - 1) && c.changedAt <= c.verifiedAt
    requires Derives(p, history[c.verifiedAt], k, c.deps, c.value)
    requires DepsVerified(p, cells, c.deps, c.verifiedAt)
    requires ReadersSaw(test, p, history, cells, k, c.value, c.changedAt)
    ensures CellsSound(test, p, history, cells[k := c])
    ensures Scratch(p, history[|history| - 1], k) == Present(c.value)
  {
    DerivesDecides(p, history[c.verifiedAt], k, c.deps, c.value);
    forall d | d in p.queries ensures AgreesWith(test, p, history, c, d, CellAt(cells, d)) {
      if d in c.deps {
        VerifiedIsScratch(p, history, cells, d);
      }
    }
    InstallableIsSound(test, p, history, cells, k, c);
  }

  /** A revalidated cell only moves its `verifiedAt`. */
  lemma {:induction false} ReverifySound(test: Test, p: Program, history: History, cells: CellMap, k: DynKey, c: Cell)
    requires CellsSound(test, p, history, cells) && k in p.queries && 0 < |history|
    requires CellAt(cells, k).Ready? && CellAt(cells, k).verifiedAt != |history| - 1
    requires Reverified(CellAt(cells, k), c, |history| - 1)
    requires Derives(p, history[|history| - 1], k, c.deps, c.value)
    requires DepsVerified(p, cells, c.deps, |history| - 1)
    ensures CellsSound(test, p, history, cells[k := c])
    ensures Scratch(p, history[|history| - 1], k) == Present(c.value)
    ensures Advances(cells, cells[k := c], |history| - 1)
    ensures Ran(cells, cells[k := c], |history| - 1, [])
  {
    ReverifyAdvances(cells, k, c, |history| - 1);
    assert CellSound(p, history, k, CellAt(cells, k));
    ReadersSawReady(test, p, history, cells, k);
    SoundAfterVerify(test, p, history, cells, k, c);
  }

  lemma {:induction false} ReverifyAdvances(cells: CellMap, k: DynKey, c: Cell, rev: Revision)
    requires CellAt(cells, k).Ready? && CellAt(cells, k).verifiedAt != rev && Reverified(CellAt(cells, k), c, rev)
    ensures Advances(cells, cells[k := c], rev) && Ran(cells, cells[k := c], rev, [])
  {
    forall q: DynKey
      ensures CellAdvances(CellAt(cells, q), CellAt(cells[k := c], q), rev)
      ensures RanCell(CellAt(cells, q), CellAt(cells[k := c], q), rev, q in [])
    {
    }
  }

  /** Replacing a cell by one that holds no value keeps every invariant. */
  lemma {:induction false} SoundWithoutValue(
    test: Test, p: Program, history: History, cells: CellMap, k: DynKey, c: Cell)
    requires CellsSound(test, p, history, cells) && k in p.queries
    requires !c.Ready? && CellSound(p, history, k, c)
    ensures CellsSound(test, p, history, cells[k := c])
  {
    var now := cells[k := c];
    forall q | q in p.queries ensures CellSound(p, history, q, CellAt(now, q)) {
      assert CellSound(p, history, q, CellAt(cells, q));
    }
    forall q, d | q in p.queries && d in p.queries
      ensures AgreesWith(test, p, history, CellAt(now, q), d, CellAt(now, d))
    {
      assert AgreesWith(test, p, history, CellAt(cells, q), d, CellAt(cells, d));
    }
  }

  /** What the documentation's test relies on is more than what the code's relies on. */
  lemma {:induction false} SoundByChanged(p: Program, history: History, cells: CellMap)
    requires CellsSound(ByVerified, p, history, cells)
    ensures CellsSound(ByChanged, p, history, cells)
  {
    forall k, d | k in p.queries && d in p.queries
      ensures AgreesWith(ByChanged, p, history, CellAt(cells, k), d, CellAt(cells, d))
    {
      assert CellSound(p, history, k, CellAt(cells, k));
      assert AgreesWith(ByVerified, p, history, CellAt(cells, k), d, CellAt(cells, d));
    }
  }

  /** Any subset of the cells is sound by itself, and stays so whatever the inputs do next. */
  lemma {:induction false} SoundAfterDrop(
    test: Test, p: Program, history: History, cells: CellMap, kept: CellMap, longer: History)
    requires CellsSound(test, p, history, cells)
    requires kept.Keys <= cells.Keys && forall k | k in kept :: kept[k] == cells[k]
    requires history <= longer
    ensures CellsSound(test, p, longer, kept)
  {
    assert forall r | 0 <= r < |history| :: longer[r] == history[r];
    forall q | q in p.queries ensures CellSound(p, longer, q, CellAt(kept, q)) {
      assert CellSound(p, history, q, CellAt(cells, q));
    }
    forall q, d | q in p.queries && d in p.queries
      ensures AgreesWith(test, p, longer, CellAt(kept, q), d, CellAt(kept, d))
    {
      assert AgreesWith(test, p, history, CellAt(cells, q), d, CellAt(cells, d));
      assert CellSound(p, history, q, CellAt(cells, q));
    }
  }

  /** A dependency that passes the test still answers as when `k` read it, by either test. */
  lemma {:induction false} UnchangedDepAnswersTheSame(
    test: Test, p: Program, history: History, entries: Entries, cells: CellMap, k: DynKey, d: Dep)
    requires InputsRecorded(history, entries) && CellsSound(test, p, history, cells)
    requires k in p.queries && CellAt(cells, k).Ready? && d in CellAt(cells, k).deps
    requires d in p.queries ==> VerifiedAt(CellAt(cells, d), |history| - 1)
    requires var changedAt := if d in p.queries then CellAt(cells, d).changedAt else ChangedAt(entries, d);
             changedAt <= Limit(test, CellAt(cells, k))
    ensures AnswerOf(p, history[|history| - 1], d) == AnswerOf(p, history[CellAt(cells, k).verifiedAt], d)
  {
    var c := CellAt(cells, k);
    assert CellSound(p, history, k, c);
    if d in p.queries {
      VerifiedIsScratch(p, history, cells, d);
      assert AgreesWith(test, p, history, c, d, CellAt(cells, d));
    } else {
      assert ChangedAt(entries, d) <= c.verifiedAt < |history|;
    }
  }

  // ---------------------------------------------------------------------------
  // Frames
  // ---------------------------------------------------------------------------

  datatype Frame = Frame(dynKey: DynKey, startedAt: Revision, deps: seq<Dep>)

  ghost function Busy(stack: seq<Frame>): set<DynKey> {
    set i | 0 <= i < |stack| :: stack[i].dynKey
  }

  predicate OnStack(stack: seq<Frame>, k: DynKey)
    ensures OnStack(stack, k) <==> k in Busy(stack)
  {
    exists i | 0 <= i < |stack| :: stack[i].dynKey == k
  }

  function StackKeys(stack: seq<Frame>): (keys: seq<DynKey>)
    ensures |keys| == |stack| && forall i | 0 <= i < |keys| :: keys[i] == stack[i].dynKey
  {
    seq(|stack|, i requires 0 <= i < |stack| => stack[i].dynKey)
  }

  /** The innermost frame reads `k` next, and every frame settles only after `k` does. */
  ghost predicate Above(p: Program, inputs: Inputs, stack: seq<Frame>, k: DynKey)
    requires k in p.queries
  {
    && (forall i | 0 <= i < |stack| :: stack[i].dynKey in p.queries && Below(p, inputs, stack[i].dynKey, k))
    && (stack != [] ==> ReadsNext(p, inputs, stack[|stack| - 1].dynKey, k))
  }

  /** Frames are queries, pairwise distinct, each reads the next one, and needs every later one. */
  ghost predicate StackOk(p: Program, inputs: Inputs, stack: seq<Frame>) {
    && (forall i | 0 <= i < |stack| :: stack[i].dynKey in p.queries)
    && (forall i, j | 0 <= i < j < |stack| ::
          stack[i].dynKey != stack[j].dynKey && Below(p, inputs, stack[i].dynKey, stack[j].dynKey))
    && FramesRead(p, inputs, stack)
  }

  ghost predicate FramesRead(p: Program, inputs: Inputs, stack: seq<Frame>) {
    forall i, j | 0 <= i < j < |stack| && j == i + 1 :: ReadsNext(p, inputs, stack[i].dynKey, stack[j].dynKey)
  }

  lemma {:induction false} FramesReadPush(p: Program, inputs: Inputs, stack: seq<Frame>, f: Frame)
    requires FramesRead(p, inputs, stack)
    requires stack != [] ==> ReadsNext(p, inputs, stack[|stack| - 1].dynKey, f.dynKey)
    ensures FramesRead(p, inputs, stack + [f])
  {
    var longer := stack + [f];
    forall i, j | 0 <= i < j < |longer| && j == i + 1
      ensures ReadsNext(p, inputs, longer[i].dynKey, longer[j].dynKey)
    {
      assert longer[i] == stack[i];
      assert j < |stack| ==> longer[j] == stack[j];
    }
  }

  lemma {:induction false} StackOkPush(p: Program, inputs: Inputs, stack: seq<Frame>, f: Frame)
    requires StackOk(p, inputs, stack) && f.dynKey in p.queries
    requires Above(p, inputs, stack, f.dynKey) && !OnStack(stack, f.dynKey)
    ensures StackOk(p, inputs, stack + [f])
    ensures Busy(stack + [f]) == Busy(stack) + {f.dynKey}
    ensures f.dynKey !in Busy(stack)
  {
    FramesReadPush(p, inputs, stack, f);
    var longer := stack + [f];
    assert longer[|stack|] == f;
    assert forall i | 0 <= i < |stack| :: longer[i] == stack[i];
    assert Busy(longer) == Busy(stack) + {f.dynKey};
  }

  /** What the innermost frame reads next is needed by all frames. */
  lemma {:induction false} AboveRead(p: Program, inputs: Inputs, stack: seq<Frame>, f: Frame, d: DynKey)
    requires StackOk(p, inputs, stack + [f]) && d in p.queries
    requires f.dynKey in p.queries && ReadsNext(p, inputs, f.dynKey, d)
    ensures Above(p, inputs, stack + [f], d)
  {
    var longer := stack + [f];
    ReadDecides(p, inputs, f.dynKey, d);
    forall i | 0 <= i < |longer| ensures longer[i].dynKey in p.queries && Below(p, inputs, longer[i].dynKey, d) {
      if i < |stack| {
        assert longer[i].dynKey != longer[|stack|].dynKey && Below(p, inputs, longer[i].dynKey, longer[|stack|].dynKey);
      }
    }
  }

  /** A key already on the stack cannot settle. */
  lemma {:induction false} CycleIsReal(p: Program, inputs: Inputs, stack: seq<Frame>, k: DynKey)
    requires k in p.queries && Above(p, inputs, stack, k) && OnStack(stack, k)
    ensures Scratch(p, inputs, k) == Cyclic
  {
    var i :| 0 <= i < |stack| && stack[i].dynKey == k;
    assert Below(p, inputs, stack[i].dynKey, k);
  }

  lemma {:induction false} StackIsChain(p: Program, inputs: Inputs, stack: seq<Frame>, keys: seq<DynKey>)
    requires StackOk(p, inputs, stack)
    requires |keys| == |stack| && forall i | 0 <= i < |keys| :: keys[i] == stack[i].dynKey
    ensures IsChain(p, inputs, keys) && forall i, j | 0 <= i < j < |keys| :: keys[i] != keys[j]
  {
    forall i, j | 0 <= i < j < |keys| && j == i + 1 ensures ReadsNext(p, inputs, keys[i], keys[j]) {
      assert ReadsNext(p, inputs, stack[i].dynKey, stack[j].dynKey);
    }
  }

  /** Reporting the requested key and the keys on the stack reports a cycle of reads. */
  lemma {:induction false} ReportIsReal(p: Program, inputs: Inputs, stack: seq<Frame>, k: DynKey, keys: seq<DynKey>)
    requires k in p.queries && Scratch(p, inputs, k) == Cyclic && keys == StackKeys(stack)
    requires IsChain(p, inputs, keys) && forall i, j | 0 <= i < j < |keys| :: keys[i] != keys[j]
    requires OnStack(stack, k) && ReadsNext(p, inputs, stack[|stack| - 1].dynKey, k)
    ensures FailsBy(p, inputs, k, Cycle(k, keys))
  {
    var i :| 0 <= i < |stack| && stack[i].dynKey == k;
    ClosesCycle(p, inputs, k, keys, i);
    LeadsToItself(p, inputs, k);
  }

  // ---------------------------------------------------------------------------
  // Cells and recorded edges
  // ---------------------------------------------------------------------------

  /**
   Holds as long as no cell is dropped: a ready cell's dependencies are the recorded edges, and
   the derived dependencies of a query verified now are verified now.
   */
  ghost predicate Linked(p: Program, cells: CellMap, forward: map<DynKey, seq<Dep>>, rev: Revision) {
    && (forall k: DynKey :: CellAt(cells, k).Ready? ==> k in forward && forward[k] == CellAt(cells, k).deps)
    && VerifiedTogether(p, cells, rev)
  }

  ghost predicate VerifiedTogether(p: Program, cells: CellMap, rev: Revision) {
    forall k: DynKey :: VerifiedAt(CellAt(cells, k), rev) ==> DepsVerified(p, cells, CellAt(cells, k).deps, rev)
  }

  lemma {:induction false} LinkedAfterVerify(
    p: Program, cells: CellMap, forward: map<DynKey, seq<Dep>>, rev: Revision, k: DynKey, c: Cell)
    requires VerifiedAt(c, rev)
    ensures Linked(p, cells, forward, rev) && DepsVerified(p, cells, c.deps, rev) ==>
              Linked(p, cells[k := c], forward[k := c.deps], rev)
  {
    var now := cells[k := c];
    if Linked(p, cells, forward, rev) && DepsVerified(p, cells, c.deps, rev) {
      forall q: DynKey | VerifiedAt(CellAt(now, q), rev) ensures DepsVerified(p, now, CellAt(now, q).deps, rev) {
        if q == k {
          assert CellAt(now, q) == c;
        } else {
          assert CellAt(now, q) == CellAt(cells, q);
          assert VerifiedAt(CellAt(cells, q), rev);
        }
      }
    }
  }

  lemma {:induction false} LinkedAfterReverify(
    p: Program, cells: CellMap, forward: map<DynKey, seq<Dep>>, rev: Revision, k: DynKey, c: Cell)
    requires Reverified(CellAt(cells, k), c, rev) && DepsVerified(p, cells, c.deps, rev)
    ensures Linked(p, cells, forward, rev) ==> Linked(p, cells[k := c], forward, rev)
  {
    LinkedAfterVerify(p, cells, forward, rev, k, c);
    if Linked(p, cells, forward, rev) {
      assert forward[k := c.deps] == forward;
    }
  }

  lemma {:induction false} LinkedWithoutValue(
    p: Program, cells: CellMap, forward: map<DynKey, seq<Dep>>, rev: Revision, k: DynKey, c: Cell)
    requires Linked(p, cells, forward, rev)
    requires !c.Ready? && !VerifiedAt(CellAt(cells, k), rev)
    ensures Linked(p, cells[k := c], forward, rev)
  {
    var now := cells[k := c];
    forall q: DynKey | VerifiedAt(CellAt(now, q), rev) ensures DepsVerified(p, now, CellAt(now, q).deps, rev) {
      assert q != k && CellAt(now, q) == CellAt(cells, q);
      assert DepsVerified(p, cells, CellAt(now, q).deps, rev);
    }
  }
}
