/**
 The in-flight registry as a transition system over tasks.

 A task is one access of one query. It leads when its key has no registry entry, otherwise it
 follows the entry it finds. Steps are the atomic actions of the code: the registry lookup under
 its shard lock, writing an entry's state under its mutex, notifying, removing the key, taking a
 notification ticket, and inspecting the state. Notification is an epoch counter: a ticket taken
 at an epoch is woken once the epoch has moved on.
 */
module InFlight {
  import opened Keys
  import opened Cells

  datatype InFlightKey = InFlightKey(scope: nat, revision: Revision, dynKey: DynKey)

  datatype EntryState =
    | Running
    | Done(value: Value, deps: seq<Dep>, changedAt: Revision)
    | Failed(error: Error)
    | Cancelled

  /** `key` and `leader` are fixed when the entry is created; `epoch` counts notifications. */
  datatype Entry = Entry(key: InFlightKey, leader: TaskId, state: EntryState, epoch: nat)

  type TaskId = nat
  type EntryId = nat

  datatype Task =
    | Idle
    | Leading(entry: EntryId)
    | Settling(entry: EntryId)
    | Removing(entry: EntryId)
    | Following(entry: EntryId)
    | Ticketed(entry: EntryId, ticket: nat)
    | Sleeping(entry: EntryId, ticket: nat)
    | Observed(entry: EntryId, state: EntryState)

  datatype State = State(registry: map<InFlightKey, EntryId>, entries: seq<Entry>, tasks: map<TaskId, Task>)

  function TaskAt(s: State, t: TaskId): Task {
    if t in s.tasks then s.tasks[t] else Idle
  }

  /** The task owns the guard of an entry: it computes, or has yet to notify or to unregister. */
  predicate HoldsGuard(task: Task) {
    task.Leading? || task.Settling? || task.Removing?
  }

  predicate Follows(task: Task) {
    task.Following? || task.Ticketed? || task.Sleeping? || task.Observed?
  }

  // ---------------------------------------------------------------------------
  // Steps
  // ---------------------------------------------------------------------------

  datatype Step =
    | TryLead(task: TaskId, key: InFlightKey)
    | Settle(task: TaskId, outcome: EntryState)
    | Notify(task: TaskId)
    | Unregister(task: TaskId)
    | TakeTicket(task: TaskId)
    | Inspect(task: TaskId)
    | Wake(task: TaskId)
    | Leave(task: TaskId)

  /** A leader settles by completing, failing, or being dropped; a dropped follower just leaves. */
  predicate Enabled(s: State, step: Step) {
    var task := TaskAt(s, step.task);
    match step
    case TryLead(_, _) => task.Idle?
    case Settle(_, outcome) => task.Leading? && !outcome.Running?
    case Notify(_) => task.Settling?
    case Unregister(_) => task.Removing?
    case TakeTicket(_) => task.Following?
    case Inspect(_) => task.Ticketed?
    case Wake(_) => task.Sleeping? && task.entry < |s.entries| && task.ticket < s.entries[task.entry].epoch
    case Leave(_) => Follows(task)
  }

  function WithTask(s: State, t: TaskId, task: Task): State {
    s.(tasks := s.tasks[t := task])
  }

  function WithEntry(s: State, e: EntryId, entry: Entry): State
    requires e < |s.entries|
  {
    s.(entries := s.entries[e := entry])
  }

  function Apply(s: State, step: Step): State
    requires WellFormed(s) && Enabled(s, step)
  {
    var t := step.task;
    var task := TaskAt(s, t);
    match step
    case TryLead(_, key) =>
      if key in s.registry then WithTask(s, t, Following(s.registry[key]))
      else
        var e := |s.entries|;
        var lead := s.(registry := s.registry[key := e], entries := s.entries + [Entry(key, t, EntryState.Running, 0)]);
        WithTask(lead, t, Leading(e))
    case Settle(_, outcome) =>
      WithTask(WithEntry(s, task.entry, s.entries[task.entry].(state := outcome)), t, Settling(task.entry))
    case Notify(_) =>
      var entry := s.entries[task.entry];
      WithTask(WithEntry(s, task.entry, entry.(epoch := entry.epoch + 1)), t, Removing(task.entry))
    case Unregister(_) =>
      WithTask(s.(registry := s.registry - {s.entries[task.entry].key}), t, Idle)
    case TakeTicket(_) =>
      WithTask(s, t, Ticketed(task.entry, s.entries[task.entry].epoch))
    case Inspect(_) =>
      var state := s.entries[task.entry].state;
      WithTask(s, t, if state.Running? then Sleeping(task.entry, task.ticket) else Observed(task.entry, state))
    case Wake(_) => WithTask(s, t, Following(task.entry))
    case Leave(_) => WithTask(s, t, Idle)
  }

  predicate RefersToEntry(task: Task, count: nat) {
    task.Idle? || task.entry < count
  }

  /** Every task refers to an entry that was created. */
  ghost predicate WellFormed(s: State) {
    && (forall t: TaskId :: RefersToEntry(TaskAt(s, t), |s.entries|))
    && (forall key | key in s.registry :: s.registry[key] < |s.entries|)
  }

  // ---------------------------------------------------------------------------
  // The invariant
  // ---------------------------------------------------------------------------

  /** A live guard belongs to the leader of its entry, and that entry is the registered one. */
  ghost predicate GuardOk(s: State, t: TaskId)
    requires WellFormed(s)
  {
    var task := TaskAt(s, t);
    HoldsGuard(task) ==>
      var entry := s.entries[task.entry];
      && entry.leader == t
      && entry.key in s.registry && s.registry[entry.key] == task.entry
      && (task.Leading? <==> entry.state.Running?)
      && entry.epoch == (if task.Removing? then 1 else 0)
  }

  /** An entry whose leader has let go of it is terminal and was notified once. */
  ghost predicate EntryOk(s: State, e: EntryId)
    requires WellFormed(s) && e < |s.entries|
  {
    var entry := s.entries[e];
    var leader := TaskAt(s, entry.leader);
    (HoldsGuard(leader) && leader.entry == e) || (!entry.state.Running? && entry.epoch == 1)
  }

  /** A registered entry carries its key, and its leader still holds the guard that will remove it. */
  ghost predicate RegisteredOk(s: State, key: InFlightKey)
    requires WellFormed(s) && key in s.registry
  {
    var e := s.registry[key];
    var leader := TaskAt(s, s.entries[e].leader);
    s.entries[e].key == key && HoldsGuard(leader) && leader.entry == e
  }

  /** A sleeper's ticket predates every notification; what a follower observed is the entry's state. */
  ghost predicate FollowerOk(s: State, t: TaskId)
    requires WellFormed(s)
  {
    match TaskAt(s, t)
    case Ticketed(e, ticket) => ticket <= s.entries[e].epoch
    case Sleeping(e, ticket) => ticket == 0
    case Observed(e, state) => state == s.entries[e].state && !state.Running?
    case _ => true
  }

  ghost predicate Inv(s: State) {
    && WellFormed(s)
    && (forall t: TaskId :: GuardOk(s, t))
    && (forall e: EntryId | e < |s.entries| :: EntryOk(s, e))
    && (forall key | key in s.registry :: RegisteredOk(s, key))
    && (forall t: TaskId :: FollowerOk(s, t))
  }

  const INITIAL: State := State(map[], [], map[])

  lemma InitialInv()
    ensures Inv(INITIAL)
  {}

  /** Entries only appear at the end; a step settles a running entry at most, and never unsettles one. */
  ghost predicate EntriesEvolve(s: State, s': State) {
    && |s.entries| <= |s'.entries|
    && forall e | 0 <= e < |s.entries| ::
         && s'.entries[e].key == s.entries[e].key
         && s'.entries[e].leader == s.entries[e].leader
         && s.entries[e].epoch <= s'.entries[e].epoch
         && (!s.entries[e].state.Running? ==> s'.entries[e].state == s.entries[e].state)
  }

  lemma {:induction false} StepEvolves(s: State, step: Step)
    requires Inv(s) && Enabled(s, step)
    ensures WellFormed(Apply(s, step)) && EntriesEvolve(s, Apply(s, step))
    ensures forall u: TaskId | u != step.task :: TaskAt(Apply(s, step), u) == TaskAt(s, u)
  {
    var s' := Apply(s, step);
    assert GuardOk(s, step.task);
    forall u: TaskId ensures RefersToEntry(TaskAt(s', u), |s'.entries|) {
      assert RefersToEntry(TaskAt(s, u), |s.entries|);
      assert RefersToEntry(TaskAt(s, step.task), |s.entries|);
    }
  }

  lemma {:induction false} GuardsKept(s: State, step: Step)
    requires Inv(s) && Enabled(s, step) && WellFormed(Apply(s, step))
    ensures forall u: TaskId :: GuardOk(Apply(s, step), u)
  {
    assert GuardOk(s, step.task);
    forall u: TaskId ensures GuardOk(Apply(s, step), u) {
      assert GuardOk(s, u);
    }
  }

  lemma {:induction false} EntriesKept(s: State, step: Step)
    requires Inv(s) && Enabled(s, step) && WellFormed(Apply(s, step))
    ensures forall e: EntryId | e < |Apply(s, step).entries| :: EntryOk(Apply(s, step), e)
  {
    assert GuardOk(s, step.task);
    forall e: EntryId | e < |Apply(s, step).entries| ensures EntryOk(Apply(s, step), e) {
      if e < |s.entries| {
        assert EntryOk(s, e);
      }
    }
  }

  lemma {:induction false} RegistryKept(s: State, step: Step)
    requires Inv(s) && Enabled(s, step) && WellFormed(Apply(s, step))
    ensures forall key | key in Apply(s, step).registry :: RegisteredOk(Apply(s, step), key)
  {
    assert GuardOk(s, step.task);
    forall key | key in Apply(s, step).registry ensures RegisteredOk(Apply(s, step), key) {
      if key in s.registry {
        assert RegisteredOk(s, key);
      }
    }
  }

  lemma {:induction false} FollowersKept(s: State, step: Step)
    requires Inv(s) && Enabled(s, step) && WellFormed(Apply(s, step)) && EntriesEvolve(s, Apply(s, step))
    ensures forall u: TaskId :: FollowerOk(Apply(s, step), u)
  {
    assert FollowerOk(s, step.task);
    if step.Inspect? {
      // An entry seen running has not been notified, so the ticket is still good.
      var e := TaskAt(s, step.task).entry;
      assert EntryOk(s, e) && GuardOk(s, s.entries[e].leader);
    }
    forall u: TaskId ensures FollowerOk(Apply(s, step), u) {
      assert FollowerOk(s, u);
    }
  }

  /** Every step of every task keeps the invariant. */
  lemma {:induction false} StepKeepsInv(s: State, step: Step)
    requires Inv(s) && Enabled(s, step)
    ensures Inv(Apply(s, step))
  {
    StepEvolves(s, step);
    GuardsKept(s, step);
    EntriesKept(s, step);
    RegistryKept(s, step);
    FollowersKept(s, step);
  }

  // ---------------------------------------------------------------------------
  // Runs
  // ---------------------------------------------------------------------------

  /** An interleaving: states from the initial one on, each reached by an enabled step of some task. */
  ghost predicate IsRun(states: seq<State>, steps: seq<Step>) {
    && |states| == |steps| + 1
    && states[0] == INITIAL
    && forall i | 0 <= i < |steps| ::
         WellFormed(states[i]) && Enabled(states[i], steps[i]) && states[i + 1] == Apply(states[i], steps[i])
  }

  lemma {:induction false} RunKeepsInv(states: seq<State>, steps: seq<Step>, n: nat)
    requires IsRun(states, steps) && n < |states|
    ensures Inv(states[n])
    decreases n
  {
    if n == 0 {
      InitialInv();
    } else {
      RunKeepsInv(states, steps, n - 1);
      StepKeepsInv(states[n - 1], steps[n - 1]);
    }
  }

  lemma {:induction false} EvolveTransitive(a: State, b: State, c: State)
    requires EntriesEvolve(a, b) && EntriesEvolve(b, c)
    ensures EntriesEvolve(a, c)
  {
    forall e | 0 <= e < |a.entries|
      ensures c.entries[e].key == a.entries[e].key && c.entries[e].leader == a.entries[e].leader
      ensures a.entries[e].epoch <= c.entries[e].epoch
      ensures !a.entries[e].state.Running? ==> c.entries[e].state == a.entries[e].state
    {
      assert b.entries[e].key == a.entries[e].key;
    }
  }

  lemma {:induction false} NextEvolves(states: seq<State>, steps: seq<Step>, i: nat)
    requires IsRun(states, steps) && i < |steps|
    ensures EntriesEvolve(states[i], states[i + 1])
  {
    RunKeepsInv(states, steps, i);
    StepEvolves(states[i], steps[i]);
  }

  ghost predicate EachEvolves(states: seq<State>) {
    forall i | 0 <= i < |states| - 1 :: EntriesEvolve(states[i], states[i + 1])
  }

  lemma {:induction false} ChainEvolves(states: seq<State>, m: nat, n: nat)
    requires EachEvolves(states) && m <= n < |states|
    ensures EntriesEvolve(states[m], states[n])
    decreases n - m
  {
    if m < n {
      ChainEvolves(states, m, n - 1);
      EvolveTransitive(states[m], states[n - 1], states[n]);
    }
  }

  lemma {:induction false} EachStepEvolves(states: seq<State>, steps: seq<Step>)
    requires IsRun(states, steps)
    ensures EachEvolves(states)
  {
    forall i | 0 <= i < |steps| ensures EntriesEvolve(states[i], states[i + 1]) {
      NextEvolves(states, steps, i);
    }
  }

  lemma {:induction false} RunEvolves(states: seq<State>, steps: seq<Step>, m: nat, n: nat)
    requires IsRun(states, steps) && m <= n < |states|
    ensures EntriesEvolve(states[m], states[n])
  {
    EachStepEvolves(states, steps);
    ChainEvolves(states, m, n);
  }

  /** At most one live guard per key at any moment, so no two computes for one key overlap. */
  lemma {:induction false} OneGuardPerKey(states: seq<State>, steps: seq<Step>, n: nat, t: TaskId, u: TaskId)
    requires IsRun(states, steps) && n < |states|
    requires HoldsGuard(TaskAt(states[n], t)) && HoldsGuard(TaskAt(states[n], u))
    ensures TaskAt(states[n], t).entry < |states[n].entries| && TaskAt(states[n], u).entry < |states[n].entries|
    ensures states[n].entries[TaskAt(states[n], t).entry].key == states[n].entries[TaskAt(states[n], u).entry].key ==>
              t == u
  {
    RunKeepsInv(states, steps, n);
    assert GuardOk(states[n], t) && GuardOk(states[n], u);
  }

  /** A live guard's entry is the registered one; a terminal entry still registered is about to be removed. */
  lemma {:induction false} RegistryMatchesGuards(states: seq<State>, steps: seq<Step>, n: nat)
    requires IsRun(states, steps) && n < |states|
    ensures WellFormed(states[n])
    ensures forall t: TaskId | HoldsGuard(TaskAt(states[n], t)) ::
              var e := TaskAt(states[n], t).entry;
              var key := states[n].entries[e].key;
              key in states[n].registry && states[n].registry[key] == e
    ensures forall key | key in states[n].registry ::
              var e := states[n].registry[key];
              var leader := TaskAt(states[n], states[n].entries[e].leader);
              && HoldsGuard(leader) && leader.entry == e
              && (!states[n].entries[e].state.Running? ==> leader.Settling? || leader.Removing?)
  {
    RunKeepsInv(states, steps, n);
    var s := states[n];
    forall t: TaskId | HoldsGuard(TaskAt(s, t)) ensures
      var e := TaskAt(s, t).entry;
      s.entries[e].key in s.registry && s.registry[s.entries[e].key] == e
    {
      assert GuardOk(s, t);
    }
    forall key | key in s.registry ensures
      var e := s.registry[key];
      var leader := TaskAt(s, s.entries[e].leader);
      && HoldsGuard(leader) && leader.entry == e
      && (!s.entries[e].state.Running? ==> leader.Settling? || leader.Removing?)
    {
      assert RegisteredOk(s, key) && GuardOk(s, s.entries[s.registry[key]].leader);
    }
  }

  /**
   What any follower observed of an entry, at any moment of a run, is what its leader settled it
   to and what it holds at every other moment after it settled.
   */
  lemma {:induction false} FollowersAgree(states: seq<State>, steps: seq<Step>, m: nat, n: nat, t: TaskId, u: TaskId)
    requires IsRun(states, steps) && m < |states| && n < |states|
    requires TaskAt(states[m], t).Observed? && TaskAt(states[n], u).Observed?
    requires TaskAt(states[m], t).entry == TaskAt(states[n], u).entry
    ensures TaskAt(states[m], t).state == TaskAt(states[n], u).state
  {
    RunKeepsInv(states, steps, m);
    RunKeepsInv(states, steps, n);
    assert FollowerOk(states[m], t) && FollowerOk(states[n], u);
    if m <= n {
      RunEvolves(states, steps, m, n);
    } else {
      RunEvolves(states, steps, n, m);
    }
  }

  lemma {:induction false} ObservedIsSettled(states: seq<State>, steps: seq<Step>, m: nat, n: nat, t: TaskId)
    requires IsRun(states, steps) && m < |steps| && n < |states|
    requires steps[m].Settle? && TaskAt(states[n], t).Observed?
    requires TaskAt(states[m], steps[m].task).Leading?
    requires TaskAt(states[m], steps[m].task).entry == TaskAt(states[n], t).entry
    ensures TaskAt(states[n], t).state == steps[m].outcome
  {
    RunKeepsInv(states, steps, m);
    RunKeepsInv(states, steps, m + 1);
    RunKeepsInv(states, steps, n);
    assert FollowerOk(states[n], t) && GuardOk(states[m], steps[m].task);
    if m + 1 <= n {
      RunEvolves(states, steps, m + 1, n);
    } else {
      RunEvolves(states, steps, n, m);
    }
  }

  /**
   No lost wakeup: once an entry is terminal and its leader is past its notify step, every
   follower asleep on it can wake, whether the leader completed, failed or was dropped.
   */
  lemma {:induction false} NoLostWakeup(states: seq<State>, steps: seq<Step>, n: nat, t: TaskId)
    requires IsRun(states, steps) && n < |states|
    requires TaskAt(states[n], t).Sleeping?
    ensures var e := TaskAt(states[n], t).entry;
            && e < |states[n].entries|
            && var leader := states[n].entries[e].leader;
               if TaskAt(states[n], leader) == Leading(e) then states[n].entries[e].state.Running?
               else if TaskAt(states[n], leader) == Settling(e) then Enabled(states[n], Notify(leader))
               else Enabled(states[n], Wake(t))
  {
    RunKeepsInv(states, steps, n);
    var s := states[n];
    assert FollowerOk(s, t);
    var e := TaskAt(s, t).entry;
    assert EntryOk(s, e);
    assert GuardOk(s, s.entries[e].leader);
  }

  /** After its leader was dropped and the key removed, the next task to ask for it leads. */
  lemma {:induction false} CancelledKeyIsFree(states: seq<State>, steps: seq<Step>, n: nat, e: EntryId, t: TaskId)
    requires IsRun(states, steps) && n < |states| && e < |states[n].entries|
    requires !states[n].entries[e].state.Running?
    requires TaskAt(states[n], states[n].entries[e].leader) != Settling(e)
    requires TaskAt(states[n], states[n].entries[e].leader) != Removing(e)
    requires TaskAt(states[n], t).Idle?
    ensures WellFormed(states[n])
    ensures var key := states[n].entries[e].key;
            var after := TaskAt(Apply(states[n], TryLead(t, key)), t);
            (after.Leading? || after.Following?) && after.entry != e
  {
    RunKeepsInv(states, steps, n);
    var s := states[n];
    var key := s.entries[e].key;
    assert GuardOk(s, s.entries[e].leader);
    if key in s.registry {
      assert RegisteredOk(s, key);
    }
  }
}
