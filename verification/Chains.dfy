/**
 Chains of reads, and what a reported cycle says: each key on the stack reads the next, and the last
 one reads the requested key, which is on the stack itself.
 */
module Chains {
  import opened Keys
  import opened Semantics

  /** After reading `deps`, all of them answered, a fresh evaluation of `k` reads `d`. */
  ghost predicate ReadsAfter(p: Program, inputs: Inputs, k: DynKey, deps: seq<Dep>, d: Dep) {
    Follows(p, inputs, k, deps) && p.body(k, Answers(p, inputs, deps)) == Read(d)
  }

  ghost predicate ReadsNext(p: Program, inputs: Inputs, k: DynKey, d: Dep) {
    exists deps: seq<Dep> :: ReadsAfter(p, inputs, k, deps, d)
  }

  lemma {:induction false} TraceReadsNext(p: Program, inputs: Inputs, k: DynKey, deps: seq<Dep>, d: Dep)
    requires Follows(p, inputs, k, deps) && p.body(k, Answers(p, inputs, deps)) == Read(d)
    ensures ReadsNext(p, inputs, k, d)
  {
    assert ReadsAfter(p, inputs, k, deps, d);
  }

  lemma {:induction false} ReadDecides(p: Program, inputs: Inputs, k: DynKey, d: Dep)
    requires k in p.queries && ReadsNext(p, inputs, k, d)
    ensures d in p.queries ==> Below(p, inputs, k, d)
    ensures !Readable(AnswerOf(p, inputs, d)) ==> Scratch(p, inputs, k) == AnswerOf(p, inputs, d)
  {
    var deps: seq<Dep> :| ReadsAfter(p, inputs, k, deps, d);
    TraceDecides(p, inputs, k, deps);
  }

  ghost predicate IsChain(p: Program, inputs: Inputs, keys: seq<DynKey>) {
    && (forall i | 0 <= i < |keys| :: keys[i] in p.queries)
    && (forall i, j | 0 <= i < j < |keys| && j == i + 1 :: ReadsNext(p, inputs, keys[i], keys[j]))
  }

  /** Evaluating `k` gets to evaluating `d`. */
  ghost predicate LeadsTo(p: Program, inputs: Inputs, k: DynKey, d: DynKey) {
    exists keys: seq<DynKey> :: IsChain(p, inputs, keys) && keys != [] && keys[0] == k && keys[|keys| - 1] == d
  }

  lemma {:induction false} LeadsToItself(p: Program, inputs: Inputs, k: DynKey)
    requires k in p.queries
    ensures LeadsTo(p, inputs, k, k)
  {
    assert IsChain(p, inputs, [k]) && [k][0] == k;
  }

  lemma {:induction false} LeadsFurther(p: Program, inputs: Inputs, k: DynKey, d: DynKey, e: DynKey)
    requires k in p.queries && ReadsNext(p, inputs, k, d) && LeadsTo(p, inputs, d, e)
    ensures LeadsTo(p, inputs, k, e)
  {
    var keys: seq<DynKey> :| IsChain(p, inputs, keys) && keys != [] && keys[0] == d && keys[|keys| - 1] == e;
    var longer := [k] + keys;
    forall i, j | 0 <= i < j < |longer| && j == i + 1 ensures ReadsNext(p, inputs, longer[i], longer[j]) {
      if 0 < i {
        assert longer[i] == keys[i - 1] && longer[j] == keys[j - 1];
      }
    }
    assert longer[0] == k && longer[|longer| - 1] == e;
  }

  /** The keys of `stack` are distinct, each reads the next, and the last reads `requested`, one of them. */
  ghost predicate CycleOfReads(p: Program, inputs: Inputs, requested: DynKey, stack: seq<DynKey>) {
    && IsChain(p, inputs, stack)
    && (forall i, j | 0 <= i < j < |stack| :: stack[i] != stack[j])
    && requested in stack
    && ReadsNext(p, inputs, stack[|stack| - 1], requested)
  }

  lemma ClosesCycle(p: Program, inputs: Inputs, requested: DynKey, stack: seq<DynKey>, i: nat)
    requires IsChain(p, inputs, stack) && i < |stack| && stack[i] == requested
    requires forall i, j | 0 <= i < j < |stack| :: stack[i] != stack[j]
    requires ReadsNext(p, inputs, stack[|stack| - 1], requested)
    ensures CycleOfReads(p, inputs, requested, stack)
  {}

  /** No key on the stack of a reported cycle has an outcome, and no key that leads there. */
  lemma {:induction false} CycleNeverSettles(
    p: Program, inputs: Inputs, requested: DynKey, stack: seq<DynKey>, k: DynKey)
    requires CycleOfReads(p, inputs, requested, stack)
    requires k in stack || LeadsTo(p, inputs, k, requested)
    ensures k in p.queries && Scratch(p, inputs, k) == Cyclic
  {
    var last := |stack| - 1;
    var r :| 0 <= r < |stack| && stack[r] == requested;
    ChainIsBelow(p, inputs, stack, r, last);
    ReadDecides(p, inputs, stack[last], requested);
    if k in stack {
      var i :| 0 <= i < |stack| && stack[i] == k;
      ChainIsBelow(p, inputs, stack, i, last);
    } else {
      var keys: seq<DynKey> :|
        IsChain(p, inputs, keys) && keys != [] && keys[0] == k && keys[|keys| - 1] == requested;
      ChainIsBelow(p, inputs, keys, 0, |keys| - 1);
    }
  }

  lemma {:induction false} ChainIsBelow(p: Program, inputs: Inputs, keys: seq<DynKey>, i: nat, j: nat)
    requires IsChain(p, inputs, keys) && i <= j < |keys|
    ensures i == j || Below(p, inputs, keys[i], keys[j])
    decreases j
  {
    if i < j {
      ChainIsBelow(p, inputs, keys, i, j - 1);
      ReadDecides(p, inputs, keys[j - 1], keys[j]);
    }
  }
}
