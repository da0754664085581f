/**
 A small program for concrete runs: one input and a chain of queries, each a copy of the one before.
 */
module Copies {
  import opened Keys
  import opened Semantics
  import opened Cells
  import opened Engine

  const INPUT := DynKey(0, [])
  const COPY := DynKey(1, [0])
  const COPY_OF_COPY := DynKey(1, [1])
  const THIRD_COPY := DynKey(1, [2])
  const FIRST: Value := [0]
  const SECOND: Value := [1]
  const THIRD: Value := [2]

  function CopiedBy(k: DynKey): DynKey {
    if k == COPY then INPUT else if k == COPY_OF_COPY then COPY else COPY_OF_COPY
  }

  function CopyBody(k: DynKey, answers: seq<Outcome>): Action {
    if answers == [] then Read(CopiedBy(k))
    else if answers[0].Present? then Return(answers[0].value)
    else Return([])
  }

  const COPIES: Program := ProgramData({COPY, COPY_OF_COPY, THIRD_COPY}, {0, 1}, 1, CopyBody)

  ghost predicate Holds(inputs: Inputs, v: Value) {
    INPUT in inputs && inputs[INPUT] == v
  }

  // ---------------------------------------------------------------------------
  // What the copies evaluate to
  // ---------------------------------------------------------------------------

  lemma {:induction false} CopyAnswers(inputs: Inputs, n: nat, k: DynKey, v: Value)
    requires k in COPIES.queries && AnswerAt(COPIES, inputs, n, CopiedBy(k)) == Present(v)
    ensures Eval(COPIES, inputs, n + 1, k) == Present(v)
  {
    assert [] + [Present(v)] == [Present(v)];
    assert Continue(COPIES, inputs, n, k, [Present(v)]) == Present(v);
    assert Continue(COPIES, inputs, n, k, []) == Present(v);
  }

  lemma {:induction false} CopiesEvaluate(inputs: Inputs, v: Value, k: DynKey)
    requires Holds(inputs, v) && k in COPIES.queries
    ensures Scratch(COPIES, inputs, k) == Present(v)
    ensures Evaluate(COPIES, inputs, {}, k) == Present(v)
  {
    CopyAnswers(inputs, 0, COPY, v);
    CopyAnswers(inputs, 1, COPY_OF_COPY, v);
    CopyAnswers(inputs, 2, THIRD_COPY, v);
    var n := if k == COPY then 1 else if k == COPY_OF_COPY then 2 else 3;
    EvalIsScratch(COPIES, inputs, n, k);
    EvaluateIsScratch(COPIES, inputs, k);
  }

  lemma {:induction false} CopyDerives(inputs: Inputs, k: DynKey, v: Value)
    requires Holds(inputs, v) && k in COPIES.queries
    ensures Derives(COPIES, inputs, k, [CopiedBy(k)], v)
  {
    if CopiedBy(k) in COPIES.queries {
      CopiesEvaluate(inputs, v, CopiedBy(k));
    }
    var deps := [CopiedBy(k)];
    assert deps[..0] == [] && Answers(COPIES, inputs, []) == [];
    assert Answers(COPIES, inputs, deps) == [Present(v)];
  }

  /** A copy reads its one dependency and nothing else. */
  lemma {:induction false} CopyReadsOne(inputs: Inputs, k: DynKey, deps: seq<Dep>, v: Value)
    requires k in COPIES.queries && Derives(COPIES, inputs, k, deps, v)
    ensures deps == [CopiedBy(k)]
  {
    assert Answers(COPIES, inputs, []) == [];
    if deps == [] {
      assert false;
    }
    assert deps[..0] == [];
    assert CopyBody(k, Answers(COPIES, inputs, deps[..0])) == Read(deps[0]);
    assert !CopyBody(k, Answers(COPIES, inputs, deps[..1])).Read?;
  }

  // ---------------------------------------------------------------------------
  // Their cells
  // ---------------------------------------------------------------------------

  function CopyCell(k: DynKey, v: Value, verifiedAt: Revision, changedAt: Revision): Cell {
    Ready(v, [CopiedBy(k)], verifiedAt, changedAt)
  }

  /** Cells of copies, all verified at one revision. */
  ghost predicate CopiesAt(cells: CellMap, v: Value, revision: Revision) {
    && cells.Keys <= COPIES.queries
    && forall k | k in cells ::
         cells[k].Ready? && cells[k].changedAt <= revision && cells[k] == CopyCell(k, v, revision, cells[k].changedAt)
  }

  lemma {:induction false} CopiesSound(test: Test, history: History, revision: Revision, v: Value, cells: CellMap)
    requires revision < |history| && Holds(history[revision], v) && CopiesAt(cells, v, revision)
    ensures CellsSound(test, COPIES, history, cells)
  {
    forall k | k in COPIES.queries ensures CellSound(COPIES, history, k, CellAt(cells, k)) {
      CopyDerives(history[revision], k, v);
    }
    forall k, d | k in COPIES.queries && d in COPIES.queries
      ensures AgreesWith(test, COPIES, history, CellAt(cells, k), d, CellAt(cells, d))
    {
      CopiesEvaluate(history[revision], v, d);
    }
  }

  /** One dependency that is an input or verified, and has not changed since, passes the code's test. */
  lemma {:induction false} OneDepPasses(entries: Entries, cells: CellMap, d: Dep, limit: Revision, rev: Revision)
    requires d == INPUT || (d in COPIES.queries && VerifiedAt(CellAt(cells, d), rev))
    requires LastChange(COPIES, entries, cells, d) <= limit
    ensures DepsVerified(COPIES, cells, [d], rev) && NoneChanged(COPIES, entries, cells, [d], limit)
  {}

  // ---------------------------------------------------------------------------
  // The input over time
  // ---------------------------------------------------------------------------

  function Holding(v: Value, changedAt: Revision): Entries {
    map[INPUT := InputEntry(Some(v), changedAt)]
  }

  lemma HoldingHolds(v: Value, changedAt: Revision)
    ensures Values(Holding(v, changedAt)) == map[INPUT := v]
  {}

  const AT_START: seq<Entries> := [map[]]
  const AT_FIRST: seq<Entries> := AT_START + [Holding(FIRST, 1)]
  const AT_SECOND: seq<Entries> := AT_FIRST + [Holding(SECOND, 2)]
  const BACK_AT_FIRST: seq<Entries> := AT_SECOND + [Holding(FIRST, 3)]
  const AT_THIRD: seq<Entries> := AT_FIRST + [Holding(THIRD, 2)]
  const THIRD_THEN_SECOND: seq<Entries> := AT_THIRD + [Holding(SECOND, 3)]
}
