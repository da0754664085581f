/**
 Families of views and the scope under which they share results, as a transition system.

 A live database and its snapshots carry the same family id. A snapshot that is written to moves
 to a private scope. Marking a runtime divergent takes three atomic steps (read the scope, draw a
 fresh id, compare and swap), and any number of callers may be interleaved; a write is one step
 that includes the whole of them when its snapshot has no private scope yet.
 */
module Family {
  import opened Keys
  import opened Semantics
  import opened Cells

  /**
   `past[r]` is what the view's inputs were at its revision `r`; the last one is the present.
   `home` is the live view of the family.
   */
  datatype View = View(family: nat, home: nat, isSnapshot: bool, divergentScope: nat, past: seq<Entries>)

  /** A caller of `mark_divergent` that has read a zero scope, and may have drawn an id. */
  datatype Caller = Resting | Loaded(view: nat) | Drawn(view: nat, id: nat)

  datatype State = State(nextId: nat, views: seq<View>, callers: map<nat, Caller>)

  function CallerAt(s: State, t: nat): Caller {
    if t in s.callers then s.callers[t] else Resting
  }

  /** The id under which a view looks up and publishes results. */
  function CacheScopeId(v: View): nat {
    if v.divergentScope != 0 then v.divergentScope else v.family
  }

  function Revision(v: View): int {
    |v.past| - 1
  }

  function Present(v: View): Entries
    requires v.past != []
  {
    v.past[|v.past| - 1]
  }

  // ---------------------------------------------------------------------------
  // Steps
  // ---------------------------------------------------------------------------

  datatype Step =
    | CreateDatabase
    | TakeSnapshot(view: nat)
    | Write(view: nat, key: DynKey, value: Option<Value>)
    | LoadScope(caller: nat, view: nat)
    | DrawId(caller: nat)
    | SwapScope(caller: nat)

  /** A write of the value an input already has, or a removal of a missing one, is no step at all. */
  predicate Enabled(s: State, step: Step) {
    match step
    case CreateDatabase => true
    case TakeSnapshot(v) => v < |s.views| && !s.views[v].isSnapshot && s.views[v].past != []
    case Write(v, k, value) =>
      && v < |s.views| && s.views[v].past != []
      && InputAnswer(Values(Present(s.views[v])), k) != (if value.Some? then Outcome.Present(value.value) else Absent)
    case LoadScope(t, v) =>
      CallerAt(s, t).Resting? && v < |s.views| && s.views[v].isSnapshot && s.views[v].divergentScope == 0
    case DrawId(t) => CallerAt(s, t).Loaded?
    case SwapScope(t) => CallerAt(s, t).Drawn? && CallerAt(s, t).view < |s.views|
  }

  function WithView(s: State, v: nat, view: View): State
    requires v < |s.views|
  {
    s.(views := s.views[v := view])
  }

  function Apply(s: State, step: Step): State
    requires Enabled(s, step)
  {
    match step
    case CreateDatabase =>
      s.(nextId := s.nextId + 1, views := s.views + [View(s.nextId, |s.views|, false, 0, [map[]])])
    case TakeSnapshot(v) =>
      s.(views := s.views + [View(s.views[v].family, v, true, 0, s.views[v].past)])
    case Write(v, k, value) =>
      var view := s.views[v];
      var marks := view.isSnapshot && view.divergentScope == 0;
      var entries := Present(view)[k := InputEntry(value, |view.past|)];
      var scope := if marks then s.nextId else view.divergentScope;
      WithView(s, v, view.(divergentScope := scope, past := view.past + [entries]))
        .(nextId := if marks then s.nextId + 1 else s.nextId)
    case LoadScope(t, v) => s.(callers := s.callers[t := Loaded(v)])
    case DrawId(t) =>
      s.(nextId := s.nextId + 1, callers := s.callers[t := Drawn(CallerAt(s, t).view, s.nextId)])
    case SwapScope(t) =>
      var c := CallerAt(s, t);
      var view := s.views[c.view];
      var swapped := if view.divergentScope == 0 then view.(divergentScope := c.id) else view;
      WithView(s, c.view, swapped).(callers := s.callers[t := Resting])
  }

  // ---------------------------------------------------------------------------
  // The invariant
  // ---------------------------------------------------------------------------

  const FIRST_ID: nat := 1

  ghost predicate ViewOk(s: State, v: nat)
    requires v < |s.views|
  {
    var view := s.views[v];
    && view.past != []
    && FIRST_ID <= view.family < s.nextId
    && view.divergentScope < s.nextId && view.divergentScope != view.family
    && (!view.isSnapshot ==> view.divergentScope == 0 && view.home == v)
    && view.home < |s.views| && !s.views[view.home].isSnapshot && s.views[view.home].family == view.family
    && (view.divergentScope == 0 ==> IsPrefix(view.past, s.views[view.home].past))
    && InputsRecorded(PastValues(view), Present(view))
  }

  /** What the view's inputs held at each of its revisions. */
  ghost function PastValues(v: View): History {
    seq(|v.past|, r requires 0 <= r < |v.past| => Values(v.past[r]))
  }

  ghost predicate IsPrefix(a: seq<Entries>, b: seq<Entries>) {
    |a| <= |b| && b[..|a|] == a
  }

  /** How two different views relate: private scopes are nobody else's, and a family has one live view. */
  ghost predicate PairOk(s: State, v: nat, w: nat)
    requires v < |s.views| && w < |s.views|
  {
    var a, b := s.views[v], s.views[w];
    && a.divergentScope != b.family
    && (a.divergentScope != 0 ==> a.divergentScope != b.divergentScope)
    && (a.family == b.family && !a.isSnapshot ==> b.isSnapshot)
  }

  /** An id that was drawn and not yet swapped in belongs to its caller alone. */
  ghost predicate DrawnOk(s: State, t: nat) {
    match CallerAt(s, t)
    case Resting => true
    case Loaded(v) => v < |s.views| && s.views[v].isSnapshot
    case Drawn(v, id) =>
      && v < |s.views| && s.views[v].isSnapshot
      && FIRST_ID <= id < s.nextId
      && (forall w: nat | w < |s.views| :: s.views[w].family != id && s.views[w].divergentScope != id)
      && (forall u: nat | u != t && CallerAt(s, u).Drawn? :: CallerAt(s, u).id != id)
  }

  ghost predicate Inv(s: State) {
    && FIRST_ID <= s.nextId
    && (forall v: nat | v < |s.views| :: ViewOk(s, v))
    && (forall v: nat, w: nat | v < |s.views| && w < |s.views| && v != w :: PairOk(s, v, w))
    && (forall t: nat :: DrawnOk(s, t))
  }

  const INITIAL: State := State(FIRST_ID, [], map[])

  lemma InitialInv()
    ensures Inv(INITIAL)
  {}

  lemma {:induction false} PastAfterWrite(view: View, k: DynKey, value: Option<Value>)
    requires view.past != [] && InputsRecorded(PastValues(view), Present(view))
    ensures var entries := Present(view)[k := InputEntry(value, |view.past|)];
            InputsRecorded(PastValues(view.(past := view.past + [entries])), entries)
  {
    var entries := Present(view)[k := InputEntry(value, |view.past|)];
    InputsRecordedAfterWrite(PastValues(view), Present(view), k, value);
    assert PastValues(view.(past := view.past + [entries])) == PastValues(view) + [Values(entries)];
  }

  /** A view that has not diverged follows its live view, which only ever gets a longer past. */
  lemma {:induction false} HomeKept(s: State, step: Step, v: nat)
    requires Inv(s) && Enabled(s, step) && v < |s.views|
    ensures var view := Apply(s, step).views[v];
            && view.home < |s.views|
            && IsPrefix(s.views[v].past, view.past)
            && (view.divergentScope == 0 ==> IsPrefix(view.past, Apply(s, step).views[view.home].past))
  {
    assert ViewOk(s, v);
    if step.Write? {
      assert ViewOk(s, step.view);
    }
  }

  lemma {:induction false} ViewsKept(s: State, step: Step)
    requires Inv(s) && Enabled(s, step)
    ensures forall v: nat | v < |Apply(s, step).views| :: ViewOk(Apply(s, step), v)
  {
    forall v: nat | v < |Apply(s, step).views| ensures ViewOk(Apply(s, step), v) {
      PastKept(s, step, v);
      if v < |s.views| {
        ViewKept(s, step, v);
      } else {
        NewViewOk(s, step, v);
      }
    }
  }

  /** The inputs of a view, new or old, are recorded in its past. */
  lemma {:induction false} PastKept(s: State, step: Step, v: nat)
    requires Inv(s) && Enabled(s, step) && v < |Apply(s, step).views|
    ensures var view := Apply(s, step).views[v];
            view.past != [] && InputsRecorded(PastValues(view), Present(view))
  {
    var view := Apply(s, step).views[v];
    if v < |s.views| {
      assert ViewOk(s, v);
      if step.Write? && step.view == v {
        PastAfterWrite(s.views[v], step.key, step.value);
        assert PastValues(view) == PastValues(s.views[v].(past := view.past));
      } else {
        assert PastValues(view) == PastValues(s.views[v]);
      }
    } else if step.TakeSnapshot? {
      assert ViewOk(s, step.view);
      assert PastValues(view) == PastValues(s.views[step.view]);
    } else {
      assert PastValues(view) == [map[]];
    }
  }

  lemma {:induction false} ViewKept(s: State, step: Step, v: nat)
    requires Inv(s) && Enabled(s, step) && v < |s.views|
    requires var view := Apply(s, step).views[v];
             view.past != [] && InputsRecorded(PastValues(view), Present(view))
    ensures ViewOk(Apply(s, step), v)
  {
    assert ViewOk(s, v);
    if step.SwapScope? {
      assert DrawnOk(s, step.caller);
    }
    HomeKept(s, step, v);
  }

  lemma {:induction false} NewViewOk(s: State, step: Step, v: nat)
    requires Inv(s) && Enabled(s, step) && |s.views| <= v < |Apply(s, step).views|
    requires var view := Apply(s, step).views[v];
             view.past != [] && InputsRecorded(PastValues(view), Present(view))
    ensures ViewOk(Apply(s, step), v)
  {
    if step.TakeSnapshot? {
      assert ViewOk(s, step.view);
    }
  }

  lemma {:induction false} PairsKept(s: State, step: Step)
    requires Inv(s) && Enabled(s, step)
    ensures var s' := Apply(s, step);
            forall v: nat, w: nat | v < |s'.views| && w < |s'.views| && v != w :: PairOk(s', v, w)
  {
    var s' := Apply(s, step);
    forall v: nat, w: nat | v < |s'.views| && w < |s'.views| && v != w ensures PairOk(s', v, w) {
      PairKept(s, step, v, w);
    }
  }

  lemma {:induction false} PairKept(s: State, step: Step, v: nat, w: nat)
    requires Inv(s) && Enabled(s, step)
    requires v < |Apply(s, step).views| && w < |Apply(s, step).views| && v != w
    ensures PairOk(Apply(s, step), v, w)
  {
    if v < |s.views| {
      assert ViewOk(s, v);
      if w < |s.views| {
        assert PairOk(s, v, w) && PairOk(s, w, v);
      }
    }
    if w < |s.views| {
      assert ViewOk(s, w);
    }
    if step.SwapScope? {
      assert DrawnOk(s, step.caller);
    }
    if step.TakeSnapshot? {
      if v < |s.views| && v != step.view {
        assert PairOk(s, v, step.view) && PairOk(s, step.view, v);
      }
      if w < |s.views| && w != step.view {
        assert PairOk(s, w, step.view) && PairOk(s, step.view, w);
      }
    }
  }

  lemma {:induction false} CallersKept(s: State, step: Step)
    requires Inv(s) && Enabled(s, step)
    ensures forall t: nat :: DrawnOk(Apply(s, step), t)
  {
    var s' := Apply(s, step);
    forall t: nat ensures DrawnOk(s', t) {
      assert DrawnOk(s, t);
      if step.SwapScope? {
        assert DrawnOk(s, step.caller);
      }
      forall u: nat | u != t && CallerAt(s', u).Drawn? && CallerAt(s', t).Drawn?
        ensures CallerAt(s', u).id != CallerAt(s', t).id
      {
        assert DrawnOk(s, u);
      }
      forall w: nat | w < |s'.views| && CallerAt(s', t).Drawn?
        ensures s'.views[w].family != CallerAt(s', t).id && s'.views[w].divergentScope != CallerAt(s', t).id
      {
        if w < |s.views| {
          assert ViewOk(s, w);
        }
      }
    }
  }

  lemma {:induction false} StepKeepsInv(s: State, step: Step)
    requires Inv(s) && Enabled(s, step)
    ensures Inv(Apply(s, step))
  {
    ViewsKept(s, step);
    PairsKept(s, step);
    CallersKept(s, step);
  }

  // ---------------------------------------------------------------------------
  // Runs
  // ---------------------------------------------------------------------------

  ghost predicate IsRun(states: seq<State>, steps: seq<Step>) {
    && |states| == |steps| + 1
    && states[0] == INITIAL
    && forall i | 0 <= i < |steps| :: Enabled(states[i], steps[i]) && states[i + 1] == Apply(states[i], steps[i])
  }

  lemma {:induction false} RunKeepsInv(states: seq<State>, steps: seq<Step>, n: nat)
    requires IsRun(states, steps) && n < |states|
    ensures Inv(states[n])
    decreases n
  {
    if n == 0 {
      InitialInv();
    } else {
      RunKeepsInv(states, steps, n - 1);
      StepKeepsInv(states[n - 1], steps[n - 1]);
    }
  }

  /** A private scope is assigned at most once, and is no other view's family or scope. */
  lemma {:induction false} PrivateScopeIsPrivate(states: seq<State>, steps: seq<Step>, m: nat, n: nat, v: nat)
    requires IsRun(states, steps) && m <= n < |states| && v < |states[m].views|
    ensures v < |states[n].views|
    ensures states[m].views[v].divergentScope != 0 ==>
              states[n].views[v].divergentScope == states[m].views[v].divergentScope
    ensures states[n].views[v].divergentScope != 0 ==>
              forall w: nat | w < |states[n].views| ::
                && states[n].views[v].divergentScope != states[n].views[w].family
                && (w != v ==> CacheScopeId(states[n].views[w]) != states[n].views[v].divergentScope)
    decreases n - m
  {
    if m < n {
      PrivateScopeIsPrivate(states, steps, m, n - 1, v);
    }
    RunKeepsInv(states, steps, n);
    forall w: nat | w < |states[n].views| && states[n].views[v].divergentScope != 0
      ensures states[n].views[v].divergentScope != states[n].views[w].family
      ensures w != v ==> CacheScopeId(states[n].views[w]) != states[n].views[v].divergentScope
    {
      assert ViewOk(states[n], w);
      assert v != w ==> PairOk(states[n], v, w);
    }
  }

  lemma {:induction false} PastGrows(states: seq<State>, steps: seq<Step>, m: nat, n: nat, v: nat)
    requires IsRun(states, steps) && m <= n < |states| && v < |states[m].views|
    ensures v < |states[n].views|
    ensures states[n].views[v].family == states[m].views[v].family && states[n].views[v].home == states[m].views[v].home
    ensures IsPrefix(states[m].views[v].past, states[n].views[v].past)
    decreases n - m
  {
    if m < n {
      PastGrows(states, steps, m, n - 1, v);
      RunKeepsInv(states, steps, n - 1);
      HomeKept(states[n - 1], steps[n - 1], v);
      PrefixTransitive(states[m].views[v].past, states[n - 1].views[v].past, states[n].views[v].past);
    }
  }

  lemma {:induction false} PrefixTransitive(a: seq<Entries>, b: seq<Entries>, c: seq<Entries>)
    requires IsPrefix(a, b) && IsPrefix(b, c)
    ensures IsPrefix(a, c)
  {
    assert c[..|a|] == c[..|b|][..|a|];
  }

  lemma {:induction false} PrefixesAgree(a: seq<Entries>, b: seq<Entries>, c: seq<Entries>, r: nat)
    requires IsPrefix(a, c) && IsPrefix(b, c) && r < |a| && r < |b|
    ensures a[r] == b[r]
  {
    assert c[..|a|][r] == c[r] && c[..|b|][r] == c[r];
  }

  /**
   Views that share a scope, even at different moments of a run, had the same inputs at every
   revision both had been through by then.
   */
  lemma {:induction false} SameScopeSamePast(
    states: seq<State>, steps: seq<Step>, m: nat, n: nat, v: nat, w: nat, r: nat)
    requires IsRun(states, steps) && m <= n < |states| && v < |states[m].views| && w < |states[n].views|
    requires CacheScopeId(states[m].views[v]) == CacheScopeId(states[n].views[w])
    requires r < |states[m].views[v].past| && r < |states[n].views[w].past|
    ensures states[m].views[v].past[r] == states[n].views[w].past[r]
  {
    RunKeepsInv(states, steps, m);
    RunKeepsInv(states, steps, n);
    PastGrows(states, steps, m, n, v);
    PrivateScopeIsPrivate(states, steps, m, n, v);
    var a, b := states[m].views[v], states[n].views[w];
    assert ViewOk(states[m], v) && ViewOk(states[n], v) && ViewOk(states[n], w);
    if a.divergentScope != 0 {
      assert w == v;
      PrefixesAgree(a.past, b.past, b.past, r);
    } else {
      assert w != v ==> PairOk(states[n], w, v);
      assert b.divergentScope == 0 && b.family == a.family;
      assert a.home != b.home ==> PairOk(states[n], a.home, b.home);
      PastGrows(states, steps, m, n, a.home);
      PrefixTransitive(a.past, states[m].views[a.home].past, states[n].views[a.home].past);
      PrefixesAgree(a.past, b.past, states[n].views[a.home].past, r);
    }
  }

  /** Two views with equal scope and equal revision hold equal inputs, in every reachable state. */
  lemma {:induction false} SameScopeAndRevisionSameInputs(states: seq<State>, steps: seq<Step>, n: nat, v: nat, w: nat)
    requires IsRun(states, steps) && n < |states| && v < |states[n].views| && w < |states[n].views|
    requires CacheScopeId(states[n].views[v]) == CacheScopeId(states[n].views[w])
    requires Revision(states[n].views[v]) == Revision(states[n].views[w])
    ensures states[n].views[v].past != [] && states[n].views[w].past != []
    ensures Present(states[n].views[v]) == Present(states[n].views[w])
  {
    RunKeepsInv(states, steps, n);
    assert ViewOk(states[n], v) && ViewOk(states[n], w);
    SameScopeSamePast(states, steps, n, n, v, w, |states[n].views[v].past| - 1);
  }

  /** Different views share a scope if and only if they are of one family and neither has diverged. */
  lemma {:induction false} WhoShares(states: seq<State>, steps: seq<Step>, n: nat, v: nat, w: nat)
    requires IsRun(states, steps) && n < |states| && v < |states[n].views| && w < |states[n].views| && v != w
    ensures var a, b := states[n].views[v], states[n].views[w];
            CacheScopeId(a) == CacheScopeId(b) <==>
            a.family == b.family && a.divergentScope == 0 && b.divergentScope == 0
  {
    RunKeepsInv(states, steps, n);
    assert ViewOk(states[n], v) && ViewOk(states[n], w) && PairOk(states[n], v, w) && PairOk(states[n], w, v);
  }

  /** The step may give a view a private scope: a write to it, or the last step of marking it. */
  predicate MayDiverge(s: State, step: Step, v: nat) {
    || (step.Write? && step.view == v)
    || (step.SwapScope? && CallerAt(s, step.caller).Drawn? && CallerAt(s, step.caller).view == v)
  }

  /** From moment `m` to moment `n` no step may have given the view a private scope. */
  predicate Undisturbed(states: seq<State>, steps: seq<Step>, m: nat, n: nat, v: nat)
    requires m <= n < |states| && |states| == |steps| + 1
  {
    forall i | m <= i < n :: !MayDiverge(states[i], steps[i], v)
  }

  /**
   A snapshot starts with the past of its live view, which goes on. Until it is written to or marked,
   the two share their scope.
   */
  lemma {:induction false} SnapshotShares(states: seq<State>, steps: seq<Step>, m: nat, n: nat)
    requires IsRun(states, steps) && m < n < |states| && steps[m].TakeSnapshot?
    ensures var v, w := steps[m].view, |states[m].views|;
            && v < w < |states[n].views| && states[n].views[w].isSnapshot && !states[n].views[v].isSnapshot
            && IsPrefix(states[m].views[v].past, states[n].views[w].past)
            && IsPrefix(states[m].views[v].past, states[n].views[v].past)
            && (Undisturbed(states, steps, m + 1, n, w) ==>
                  && states[n].views[w].past == states[m].views[v].past
                  && CacheScopeId(states[n].views[w]) == CacheScopeId(states[n].views[v]))
    decreases n
  {
    RunKeepsInv(states, steps, n);
    RunKeepsInv(states, steps, m);
    var v, w := steps[m].view, |states[m].views|;
    assert states[m + 1] == Apply(states[m], steps[m]);
    PastGrows(states, steps, m, n, v);
    PastGrows(states, steps, m + 1, n, w);
    KindsStay(states, steps, m, n, v);
    KindsStay(states, steps, m + 1, n, w);
    if Undisturbed(states, steps, m + 1, n, w) {
      UndisturbedStays(states, steps, m + 1, n, w);
    }
    assert ViewOk(states[n], v) && ViewOk(states[m], v);
  }

  lemma {:induction false} KindsStay(states: seq<State>, steps: seq<Step>, m: nat, n: nat, v: nat)
    requires IsRun(states, steps) && m <= n < |states| && v < |states[m].views|
    ensures v < |states[n].views| && states[n].views[v].isSnapshot == states[m].views[v].isSnapshot
    decreases n
  {
    if m < n {
      KindsStay(states, steps, m, n - 1, v);
      assert states[n] == Apply(states[n - 1], steps[n - 1]);
    }
  }

  lemma {:induction false} UndisturbedStays(states: seq<State>, steps: seq<Step>, m: nat, n: nat, v: nat)
    requires IsRun(states, steps) && m <= n < |states| && v < |states[m].views|
    requires Undisturbed(states, steps, m, n, v)
    ensures v < |states[n].views| && states[n].views[v] == states[m].views[v]
    decreases n
  {
    if m < n {
      UndisturbedStays(states, steps, m, n - 1, v);
      assert !MayDiverge(states[n - 1], steps[n - 1], v);
      assert states[n] == Apply(states[n - 1], steps[n - 1]);
    }
  }

  ghost predicate IsAlone(s: State, v: nat)
    requires v < |s.views|
  {
    forall w: nat | w < |s.views| && w != v :: CacheScopeId(s.views[w]) != CacheScopeId(s.views[v])
  }

  /** A new database shares with nobody that is there. */
  lemma {:induction false} NewDatabaseIsAlone(states: seq<State>, steps: seq<Step>, m: nat)
    requires IsRun(states, steps) && m < |steps| && steps[m].CreateDatabase?
    ensures var v := |states[m].views|;
            v < |states[m + 1].views| && states[m + 1].views[v].past == [map[]] && IsAlone(states[m + 1], v)
  {
    RunKeepsInv(states, steps, m);
    assert states[m + 1] == Apply(states[m], steps[m]);
    var v, s := |states[m].views|, states[m + 1];
    forall w: nat | w < |s.views| && w != v ensures CacheScopeId(s.views[w]) != CacheScopeId(s.views[v]) {
      assert ViewOk(states[m], w);
    }
  }

  /** Once a snapshot has been marked, it shares with no other view. */
  lemma {:induction false} DivergedIsAlone(states: seq<State>, steps: seq<Step>, m: nat, n: nat, v: nat)
    requires IsRun(states, steps) && m < |steps| && m < n < |states|
    requires v < |states[m].views| && states[m].views[v].isSnapshot && MayDiverge(states[m], steps[m], v)
    ensures v < |states[n].views| && IsAlone(states[n], v)
  {
    RunKeepsInv(states, steps, m);
    assert states[m + 1] == Apply(states[m], steps[m]);
    if steps[m].SwapScope? {
      assert DrawnOk(states[m], steps[m].caller);
    }
    PrivateScopeIsPrivate(states, steps, m + 1, n, v);
  }

  /** In particular once it has been written to. */
  lemma {:induction false} WrittenSnapshotIsAlone(states: seq<State>, steps: seq<Step>, m: nat, n: nat)
    requires IsRun(states, steps) && m < |steps| && m < n < |states|
    requires steps[m].Write? && steps[m].view < |states[m].views| && states[m].views[steps[m].view].isSnapshot
    ensures steps[m].view < |states[n].views| && IsAlone(states[n], steps[m].view)
  {
    DivergedIsAlone(states, steps, m, n, steps[m].view);
  }
}
