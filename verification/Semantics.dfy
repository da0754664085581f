/**
 What a query means, independently of any cache.

 A query body is a deterministic function of its key and of the answers it has read so far.
 `Evaluate` runs bodies naively, with no cache at all, and reports a cycle when a key is needed
 while it is being evaluated. `Scratch` gives the same meaning without mentioning a stack: the
 outcome reached at some finite depth, or `Cyclic` when there is none. Theorem
 `EvaluateIsScratch` says the two agree; the engine is proved against them.
 */
module Semantics {
  import opened Keys

  /** Why a body failed by itself: it returned an error or it panicked. */
  datatype QueryError = Failure(message: string) | Panic(message: string)

  /** The answer to a read. Inputs answer `Present` or `Absent`, queries anything but `Absent`. */
  datatype Outcome = Present(value: Value) | Absent | Failed(error: QueryError) | Cyclic

  /** What a body does next. */
  datatype Action = Read(dep: Dep) | Return(result: Value) | Fail(error: QueryError)

  /**
   `queries` are the keys of derived ingredients; every other key is an input.
   `registered` holds the kinds the database can look up when it revalidates.
   */
  datatype ProgramData = ProgramData(
    queries: set<DynKey>,
    registered: set<nat>,
    maxReads: nat,
    body: (DynKey, seq<Outcome>) -> Action)

  ghost predicate Bounded(p: ProgramData) {
    forall k, answers :: k in p.queries && p.maxReads <= |answers| ==> !p.body(k, answers).Read?
  }

  type Program = p: ProgramData | Bounded(p)
    witness ProgramData({}, {}, 0, (k: DynKey, answers: seq<Outcome>) => Return([]))

  /** The input values visible at one revision. */
  type Inputs = map<DynKey, Value>

  function InputAnswer(inputs: Inputs, d: Dep): Outcome {
    if d in inputs then Present(inputs[d]) else Absent
  }

  /** A body goes on after these answers; any other answer becomes its own outcome. */
  predicate Readable(a: Outcome) {
    a.Present? || a.Absent?
  }

  // ---------------------------------------------------------------------------
  // The naive evaluator
  // ---------------------------------------------------------------------------

  /** Evaluates `k` from scratch while the keys in `busy` are being evaluated. */
  function Evaluate(p: Program, inputs: Inputs, busy: set<DynKey>, k: DynKey): Outcome
    requires k in p.queries
    decreases p.queries - busy, 0
  {
    if k in busy then Cyclic else Interpret(p, inputs, busy + {k}, k, [])
  }

  function Interpret(p: Program, inputs: Inputs, busy: set<DynKey>, k: DynKey, answers: seq<Outcome>): Outcome
    requires k in p.queries && |answers| <= p.maxReads
    decreases p.queries - busy, 1 + p.maxReads - |answers|
  {
    match p.body(k, answers)
    case Return(v) => Present(v)
    case Fail(e) => Failed(e)
    case Read(d) =>
      var a := if d in p.queries then Evaluate(p, inputs, busy, d) else InputAnswer(inputs, d);
      if Readable(a) then Interpret(p, inputs, busy, k, answers + [a]) else a
  }

  // ---------------------------------------------------------------------------
  // Evaluation to a bounded depth, and its limit
  // ---------------------------------------------------------------------------

  ghost function Eval(p: Program, inputs: Inputs, n: nat, k: DynKey): Outcome
    requires k in p.queries
    decreases n, 0
  {
    if n == 0 then Cyclic else Continue(p, inputs, n - 1, k, [])
  }

  ghost function AnswerAt(p: Program, inputs: Inputs, n: nat, d: Dep): Outcome
    decreases n, 1
  {
    if d in p.queries then Eval(p, inputs, n, d) else InputAnswer(inputs, d)
  }

  ghost function Continue(p: Program, inputs: Inputs, n: nat, k: DynKey, answers: seq<Outcome>): Outcome
    requires k in p.queries && |answers| <= p.maxReads
    decreases n, 2 + p.maxReads - |answers|
  {
    match p.body(k, answers)
    case Return(v) => Present(v)
    case Fail(e) => Failed(e)
    case Read(d) =>
      var a := AnswerAt(p, inputs, n, d);
      if Readable(a) then Continue(p, inputs, n, k, answers + [a]) else a
  }

  /** More depth never changes an outcome once there is one. */
  lemma {:induction false} ContinueDeeper(p: Program, inputs: Inputs, n: nat, m: nat, k: DynKey, answers: seq<Outcome>)
    requires k in p.queries && |answers| <= p.maxReads && n <= m
    requires Continue(p, inputs, n, k, answers) != Cyclic
    ensures Continue(p, inputs, m, k, answers) == Continue(p, inputs, n, k, answers)
    decreases n, 2 + p.maxReads - |answers|
  {
    var action := p.body(k, answers);
    if action.Read? {
      if action.dep in p.queries {
        EvalDeeper(p, inputs, n, m, action.dep);
      }
      var a := AnswerAt(p, inputs, n, action.dep);
      if Readable(a) {
        ContinueDeeper(p, inputs, n, m, k, answers + [a]);
      }
    }
  }

  lemma {:induction false} EvalDeeper(p: Program, inputs: Inputs, n: nat, m: nat, k: DynKey)
    requires k in p.queries && n <= m
    requires Eval(p, inputs, n, k) != Cyclic
    ensures Eval(p, inputs, m, k) == Eval(p, inputs, n, k)
    decreases n, 0
  {
    ContinueDeeper(p, inputs, n - 1, m - 1, k, []);
  }

  /** The from-scratch meaning of `k` on `inputs`. */
  ghost function Scratch(p: Program, inputs: Inputs, k: DynKey): Outcome
    requires k in p.queries
  {
    if exists n: nat :: Eval(p, inputs, n, k) != Cyclic then
      var n: nat :| Eval(p, inputs, n, k) != Cyclic;
      Eval(p, inputs, n, k)
    else Cyclic
  }

  ghost predicate Settles(p: Program, inputs: Inputs, k: DynKey)
    requires k in p.queries
  {
    Scratch(p, inputs, k) != Cyclic
  }

  ghost function LeastDepth(p: Program, inputs: Inputs, n: nat, k: DynKey): nat
    requires k in p.queries
  {
    if 0 < n && Eval(p, inputs, n - 1, k) != Cyclic then LeastDepth(p, inputs, n - 1, k) else n
  }

  lemma {:induction false} LeastDepthIsLeast(p: Program, inputs: Inputs, n: nat, k: DynKey)
    requires k in p.queries && Eval(p, inputs, n, k) != Cyclic
    ensures Eval(p, inputs, LeastDepth(p, inputs, n, k), k) == Eval(p, inputs, n, k)
    ensures forall m: nat :: Eval(p, inputs, m, k) != Cyclic ==> LeastDepth(p, inputs, n, k) <= m
    decreases n
  {
    if 0 < n && Eval(p, inputs, n - 1, k) != Cyclic {
      LeastDepthIsLeast(p, inputs, n - 1, k);
      EvalDeeper(p, inputs, n - 1, n, k);
    } else {
      forall m: nat | Eval(p, inputs, m, k) != Cyclic ensures n <= m {
        if m < n {
          EvalDeeper(p, inputs, m, n - 1, k);
        }
      }
    }
  }

  /** The least depth at which `k` has an outcome. */
  ghost function Rank(p: Program, inputs: Inputs, k: DynKey): nat
    requires k in p.queries && Settles(p, inputs, k)
  {
    var n: nat :| Eval(p, inputs, n, k) != Cyclic;
    LeastDepth(p, inputs, n, k)
  }

  lemma {:induction false} EvalIsScratch(p: Program, inputs: Inputs, n: nat, k: DynKey)
    requires k in p.queries
    ensures Eval(p, inputs, n, k) != Cyclic ==>
              && Settles(p, inputs, k)
              && Rank(p, inputs, k) <= n
              && Scratch(p, inputs, k) == Eval(p, inputs, n, k)
    ensures Settles(p, inputs, k) && Rank(p, inputs, k) <= n ==> Eval(p, inputs, n, k) == Scratch(p, inputs, k)
  {
    if Settles(p, inputs, k) {
      var s: nat :| Eval(p, inputs, s, k) != Cyclic && Scratch(p, inputs, k) == Eval(p, inputs, s, k);
      var w: nat :| Eval(p, inputs, w, k) != Cyclic && Rank(p, inputs, k) == LeastDepth(p, inputs, w, k);
      LeastDepthIsLeast(p, inputs, w, k);
      var r := Rank(p, inputs, k);
      EvalDeeper(p, inputs, r, s, k);
      if r <= n {
        EvalDeeper(p, inputs, r, n, k);
      }
    }
  }

  // ---------------------------------------------------------------------------
  // Traces of reads
  // ---------------------------------------------------------------------------

  ghost function AnswerOf(p: Program, inputs: Inputs, d: Dep): Outcome {
    if d in p.queries then Scratch(p, inputs, d) else InputAnswer(inputs, d)
  }

  ghost function Answers(p: Program, inputs: Inputs, deps: seq<Dep>): (answers: seq<Outcome>)
    ensures |answers| == |deps|
  {
    seq(|deps|, i requires 0 <= i < |deps| => AnswerOf(p, inputs, deps[i]))
  }

  /** `deps` are the first reads a fresh evaluation of `k` makes, and all of them are answered. */
  ghost predicate Follows(p: Program, inputs: Inputs, k: DynKey, deps: seq<Dep>) {
    forall i | 0 <= i < |deps| ::
      && Readable(AnswerOf(p, inputs, deps[i]))
      && p.body(k, Answers(p, inputs, deps[..i])) == Read(deps[i])
  }

  /** A fresh evaluation of `k` reads exactly `deps`, in this order, and returns `v`. */
  ghost predicate Derives(p: Program, inputs: Inputs, k: DynKey, deps: seq<Dep>, v: Value) {
    Follows(p, inputs, k, deps) && p.body(k, Answers(p, inputs, deps)) == Return(v)
  }

  lemma {:induction false} FollowsPrefix(p: Program, inputs: Inputs, k: DynKey, deps: seq<Dep>, n: nat)
    requires Follows(p, inputs, k, deps) && n <= |deps|
    ensures Follows(p, inputs, k, deps[..n])
  {
    forall i | 0 <= i < n
      ensures Readable(AnswerOf(p, inputs, deps[..n][i]))
      ensures p.body(k, Answers(p, inputs, deps[..n][..i])) == Read(deps[..n][i])
    {
      assert deps[..n][..i] == deps[..i];
    }
  }

  lemma {:induction false} FollowsExtend(p: Program, inputs: Inputs, k: DynKey, deps: seq<Dep>, d: Dep)
    requires Follows(p, inputs, k, deps)
    requires p.body(k, Answers(p, inputs, deps)) == Read(d) && Readable(AnswerOf(p, inputs, d))
    ensures Follows(p, inputs, k, deps + [d])
    ensures Answers(p, inputs, deps + [d]) == Answers(p, inputs, deps) + [AnswerOf(p, inputs, d)]
  {
    var all := deps + [d];
    forall i | 0 <= i < |all|
      ensures Readable(AnswerOf(p, inputs, all[i]))
      ensures p.body(k, Answers(p, inputs, all[..i])) == Read(all[i])
    {
      assert all[..i] == deps[..i];
      assert i == |deps| ==> all[..i] == deps;
    }
  }

  /** A trace carries over to other inputs on which the same reads have the same answers. */
  lemma {:induction false} TraceCarriesOver(p: Program, was: Inputs, now: Inputs, k: DynKey, deps: seq<Dep>)
    requires Follows(p, was, k, deps)
    requires forall i | 0 <= i < |deps| :: AnswerOf(p, was, deps[i]) == AnswerOf(p, now, deps[i])
    ensures Follows(p, now, k, deps)
    ensures Answers(p, now, deps) == Answers(p, was, deps)
  {
    forall i | 0 <= i < |deps|
      ensures p.body(k, Answers(p, now, deps[..i])) == Read(deps[i])
    {
      assert Answers(p, now, deps[..i]) == Answers(p, was, deps[..i]);
    }
  }

  ghost predicate WithinDepth(p: Program, inputs: Inputs, n: nat, deps: seq<Dep>) {
    forall i | 0 <= i < |deps| && deps[i] in p.queries ::
      Settles(p, inputs, deps[i]) && Rank(p, inputs, deps[i]) <= n
  }

  ghost function DepthOf(p: Program, inputs: Inputs, deps: seq<Dep>): (n: nat)
    requires forall i | 0 <= i < |deps| && deps[i] in p.queries :: Settles(p, inputs, deps[i])
    ensures WithinDepth(p, inputs, n, deps)
  {
    if deps == [] then 0 else
      var rest := DepthOf(p, inputs, deps[1..]);
      assert forall i | 1 <= i < |deps| :: deps[i] == deps[1..][i - 1];
      var first := if deps[0] in p.queries then Rank(p, inputs, deps[0]) else 0;
      if first <= rest then rest else first
  }

  /** An evaluation at depth `n` passes through every trace that is known to be answered. */
  lemma {:induction false} ContinueThrough(p: Program, inputs: Inputs, n: nat, k: DynKey, deps: seq<Dep>)
    requires k in p.queries && Follows(p, inputs, k, deps)
    requires WithinDepth(p, inputs, n, deps) || Continue(p, inputs, n, k, []) != Cyclic
    ensures |deps| <= p.maxReads
    ensures Continue(p, inputs, n, k, []) == Continue(p, inputs, n, k, Answers(p, inputs, deps))
    ensures WithinDepth(p, inputs, n, deps)
    decreases |deps|
  {
    if deps == [] {
      assert Answers(p, inputs, deps) == [];
    } else {
      var last := |deps| - 1;
      var init, d := deps[..last], deps[last];
      FollowsPrefix(p, inputs, k, deps, last);
      ContinueThrough(p, inputs, n, k, init);
      assert p.body(k, Answers(p, inputs, init)) == Read(d);
      if d in p.queries {
        EvalIsScratch(p, inputs, n, d);
      }
      assert AnswerAt(p, inputs, n, d) == AnswerOf(p, inputs, d);
      assert Answers(p, inputs, deps) == Answers(p, inputs, init) + [AnswerOf(p, inputs, d)];
      assert forall i | 0 <= i < last :: deps[i] == init[i];
    }
  }

  /** Whatever settles before `a` can settle: needing `b` to evaluate `a`. */
  ghost predicate Below(p: Program, inputs: Inputs, a: DynKey, b: DynKey)
    requires a in p.queries && b in p.queries
  {
    Settles(p, inputs, a) ==> Settles(p, inputs, b) && Rank(p, inputs, b) < Rank(p, inputs, a)
  }

  lemma {:induction false} FollowsWithinDepth(p: Program, inputs: Inputs, k: DynKey, deps: seq<Dep>) returns (n: nat)
    requires k in p.queries && Follows(p, inputs, k, deps)
    ensures WithinDepth(p, inputs, n, deps)
  {
    forall i | 0 <= i < |deps| && deps[i] in p.queries ensures Settles(p, inputs, deps[i]) {
      assert Readable(AnswerOf(p, inputs, deps[i]));
    }
    n := DepthOf(p, inputs, deps);
  }

  /** The next action after an answered trace decides the outcome of the whole evaluation. */
  lemma {:induction false} TraceDecides(p: Program, inputs: Inputs, k: DynKey, deps: seq<Dep>)
    requires k in p.queries && Follows(p, inputs, k, deps)
    ensures |deps| <= p.maxReads
    ensures match p.body(k, Answers(p, inputs, deps))
            case Return(v) => Scratch(p, inputs, k) == Present(v)
            case Fail(e) => Scratch(p, inputs, k) == Failed(e)
            case Read(d) =>
              && (d in p.queries ==> Below(p, inputs, k, d))
              && (!Readable(AnswerOf(p, inputs, d)) ==> Scratch(p, inputs, k) == AnswerOf(p, inputs, d))
  {
    var n := FollowsWithinDepth(p, inputs, k, deps);
    ContinueThrough(p, inputs, n, k, deps);
    EvalIsScratch(p, inputs, n + 1, k);
    var action := p.body(k, Answers(p, inputs, deps));
    if action.Read? && action.dep in p.queries {
      var d := action.dep;
      if Settles(p, inputs, k) {
        ReadIsBelow(p, inputs, k, deps, d);
      }
      if !Readable(AnswerOf(p, inputs, d)) && Settles(p, inputs, d) {
        var m := if n <= Rank(p, inputs, d) then Rank(p, inputs, d) else n;
        ContinueThrough(p, inputs, m, k, deps);
        EvalIsScratch(p, inputs, m, d);
        EvalIsScratch(p, inputs, m + 1, k);
      }
    }
  }

  lemma {:induction false} ReadIsBelow(p: Program, inputs: Inputs, k: DynKey, deps: seq<Dep>, d: Dep)
    requires k in p.queries && d in p.queries && Follows(p, inputs, k, deps)
    requires p.body(k, Answers(p, inputs, deps)) == Read(d) && Settles(p, inputs, k)
    ensures Below(p, inputs, k, d)
  {
    var r := Rank(p, inputs, k);
    EvalIsScratch(p, inputs, r, k);
    ContinueThrough(p, inputs, r - 1, k, deps);
    EvalIsScratch(p, inputs, r - 1, d);
  }

  /** A derivation is the from-scratch outcome, and its reads are below the key. */
  lemma {:induction false} DerivesDecides(p: Program, inputs: Inputs, k: DynKey, deps: seq<Dep>, v: Value)
    requires k in p.queries && Derives(p, inputs, k, deps, v)
    ensures Scratch(p, inputs, k) == Present(v)
    ensures forall d | d in deps && d in p.queries :: Below(p, inputs, k, d)
  {
    TraceDecides(p, inputs, k, deps);
    forall d | d in deps && d in p.queries ensures Below(p, inputs, k, d) {
      var i :| 0 <= i < |deps| && deps[i] == d;
      FollowsPrefix(p, inputs, k, deps, i);
      TraceDecides(p, inputs, k, deps[..i]);
    }
  }

  // ---------------------------------------------------------------------------
  // The naive evaluator computes the from-scratch meaning
  // ---------------------------------------------------------------------------

  lemma {:induction false} InterpretIsScratch(p: Program, inputs: Inputs, busy: set<DynKey>, k: DynKey, deps: seq<Dep>)
    requires k in p.queries && k in busy && busy <= p.queries
    requires forall s | s in busy && s != k :: Below(p, inputs, s, k)
    requires Follows(p, inputs, k, deps) && |deps| <= p.maxReads
    ensures Interpret(p, inputs, busy, k, Answers(p, inputs, deps)) == Scratch(p, inputs, k)
    decreases p.queries - busy, 1 + p.maxReads - |deps|
  {
    TraceDecides(p, inputs, k, deps);
    var action := p.body(k, Answers(p, inputs, deps));
    if action.Read? {
      var d := action.dep;
      if d in p.queries {
        forall s | s in busy ensures Below(p, inputs, s, d) {
          assert s != k ==> Below(p, inputs, s, k);
        }
        EvaluateIsScratchBusy(p, inputs, busy, d);
      }
      if Readable(AnswerOf(p, inputs, d)) {
        FollowsExtend(p, inputs, k, deps, d);
        InterpretIsScratch(p, inputs, busy, k, deps + [d]);
      }
    }
  }

  lemma {:induction false} EvaluateIsScratchBusy(p: Program, inputs: Inputs, busy: set<DynKey>, k: DynKey)
    requires k in p.queries && busy <= p.queries
    requires forall s | s in busy :: Below(p, inputs, s, k)
    ensures Evaluate(p, inputs, busy, k) == Scratch(p, inputs, k)
    decreases p.queries - busy, 0
  {
    if k !in busy {
      assert Answers(p, inputs, []) == [];
      InterpretIsScratch(p, inputs, busy + {k}, k, []);
    }
  }

  /** Naive evaluation from an empty stack is the from-scratch meaning, cycles included. */
  lemma {:induction false} EvaluateIsScratch(p: Program, inputs: Inputs, k: DynKey)
    requires k in p.queries
    ensures Evaluate(p, inputs, {}, k) == Scratch(p, inputs, k)
  {
    EvaluateIsScratchBusy(p, inputs, {}, k);
  }
}
