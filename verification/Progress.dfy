/**
 Progress in the in-flight registry: a leader can always finish, and a follower gets the result by
 at most three steps of its own, whatever other tasks do in between.
 */
module Progress {
  import opened Keys
  import opened InFlight

  /** The step by which a task goes on. A leader chooses its outcome. */
  function NextStep(task: Task, t: TaskId, outcome: EntryState): Option<Step> {
    match task
    case Leading(_) => Some(Settle(t, outcome))
    case Settling(_) => Some(Notify(t))
    case Removing(_) => Some(Unregister(t))
    case Following(_) => Some(TakeTicket(t))
    case Ticketed(_, _) => Some(Inspect(t))
    case Sleeping(_, _) => Some(Wake(t))
    case _ => None
  }

  /** A path of steps of one task. */
  ghost predicate IsOwnPath(t: TaskId, states: seq<State>, steps: seq<Step>) {
    && |states| == |steps| + 1
    && forall i | 0 <= i < |steps| ::
         && steps[i].task == t && !steps[i].Leave?
         && WellFormed(states[i]) && Enabled(states[i], steps[i]) && states[i + 1] == Apply(states[i], steps[i])
  }

  // ---------------------------------------------------------------------------
  // Followers
  // ---------------------------------------------------------------------------

  /** How many steps of its own a follower of a settled entry is from the result. */
  function StepsLeft(task: Task): nat {
    match task
    case Sleeping(_, _) => 3
    case Following(_) => 2
    case Ticketed(_, _) => 1
    case _ => 0
  }

  /** The task follows an entry that its leader has settled and notified. */
  ghost predicate FollowsSettled(s: State, t: TaskId, e: EntryId) {
    && e < |s.entries| && !s.entries[e].state.Running? && 0 < s.entries[e].epoch
    && Follows(TaskAt(s, t)) && TaskAt(s, t).entry == e
  }

  lemma {:induction false} SettledIsNotified(s: State, t: TaskId, e: EntryId)
    requires Inv(s) && e < |s.entries| && Follows(TaskAt(s, t)) && TaskAt(s, t).entry == e
    requires !s.entries[e].state.Running? && TaskAt(s, s.entries[e].leader) != Settling(e)
    ensures FollowsSettled(s, t, e)
  {
    assert EntryOk(s, e) && GuardOk(s, s.entries[e].leader);
  }

  /** A follower without a result has a step, and each step of its own brings it nearer. */
  lemma {:induction false} OwnStepNears(s: State, t: TaskId, e: EntryId, step: Step, outcome: EntryState)
    requires Inv(s) && FollowsSettled(s, t, e)
    ensures 0 < StepsLeft(TaskAt(s, t)) || TaskAt(s, t) == Observed(e, s.entries[e].state)
    ensures var next := NextStep(TaskAt(s, t), t, outcome);
            0 < StepsLeft(TaskAt(s, t)) ==> next.Some? && Enabled(s, next.value)
    ensures Enabled(s, step) && step.task == t && !step.Leave? ==>
              && FollowsSettled(Apply(s, step), t, e)
              && StepsLeft(TaskAt(Apply(s, step), t)) == StepsLeft(TaskAt(s, t)) - 1
              && Apply(s, step).entries == s.entries
  {
    assert FollowerOk(s, t);
  }

  /** Steps of other tasks take nothing from a follower. */
  lemma {:induction false} OtherStepKeeps(s: State, t: TaskId, e: EntryId, step: Step)
    requires Inv(s) && FollowsSettled(s, t, e) && Enabled(s, step) && step.task != t
    ensures FollowsSettled(Apply(s, step), t, e) && TaskAt(Apply(s, step), t) == TaskAt(s, t)
    ensures Apply(s, step).entries[e].state == s.entries[e].state
  {
    StepEvolves(s, step);
  }

  lemma {:induction false} OwnPathToResult(s: State, t: TaskId, e: EntryId)
    returns (states: seq<State>, steps: seq<Step>)
    requires Inv(s) && FollowsSettled(s, t, e)
    ensures IsOwnPath(t, states, steps) && states[0] == s && |steps| == StepsLeft(TaskAt(s, t))
    ensures TaskAt(states[|steps|], t) == Observed(e, s.entries[e].state)
    decreases StepsLeft(TaskAt(s, t))
  {
    var next := NextStep(TaskAt(s, t), t, EntryState.Cancelled);
    OwnStepNears(s, t, e, if next.Some? then next.value else Leave(t), EntryState.Cancelled);
    if StepsLeft(TaskAt(s, t)) == 0 {
      states, steps := [s], [];
    } else {
      StepKeepsInv(s, next.value);
      var after, more := OwnPathToResult(Apply(s, next.value), t, e);
      states, steps := [s] + after, [next.value] + more;
      PathExtends(t, s, next.value, after, more);
    }
  }

  lemma {:induction false} PathExtends(t: TaskId, s: State, step: Step, states: seq<State>, steps: seq<Step>)
    requires WellFormed(s) && Enabled(s, step) && step.task == t && !step.Leave?
    requires IsOwnPath(t, states, steps) && states[0] == Apply(s, step)
    ensures IsOwnPath(t, [s] + states, [step] + steps)
  {
    var all, own := [s] + states, [step] + steps;
    forall i | 0 <= i < |own|
      ensures own[i].task == t && !own[i].Leave?
      ensures WellFormed(all[i]) && Enabled(all[i], own[i]) && all[i + 1] == Apply(all[i], own[i])
    {
      if 0 < i {
        assert all[i] == states[i - 1] && all[i + 1] == states[i] && own[i] == steps[i - 1];
      }
    }
  }

  /**
   Once an entry is settled and its leader is past notifying, a task that follows it gets what was
   settled by at most three steps of its own.
   */
  lemma {:induction false} FollowerGetsResult(states: seq<State>, steps: seq<Step>, n: nat, t: TaskId, e: EntryId)
    returns (after: seq<State>, own: seq<Step>)
    requires IsRun(states, steps) && n < |states| && e < |states[n].entries|
    requires Follows(TaskAt(states[n], t)) && TaskAt(states[n], t).entry == e
    requires !states[n].entries[e].state.Running?
    requires TaskAt(states[n], states[n].entries[e].leader) != Settling(e)
    ensures IsOwnPath(t, after, own) && after[0] == states[n] && |own| <= 3
    ensures TaskAt(after[|own|], t) == Observed(e, states[n].entries[e].state)
  {
    RunKeepsInv(states, steps, n);
    SettledIsNotified(states[n], t, e);
    after, own := OwnPathToResult(states[n], t, e);
  }

  /** How many steps task `t` takes from moment `m` to moment `n`. */
  function OwnSteps(steps: seq<Step>, t: TaskId, m: nat, n: nat): nat
    requires m <= n <= |steps|
    decreases n
  {
    if m == n then 0 else OwnSteps(steps, t, m, n - 1) + if steps[n - 1].task == t then 1 else 0
  }

  lemma {:induction false} AnyStepNears(s: State, t: TaskId, e: EntryId, step: Step)
    requires Inv(s) && FollowsSettled(s, t, e) && Enabled(s, step) && step != Leave(t)
    ensures FollowsSettled(Apply(s, step), t, e) && Apply(s, step).entries[e].state == s.entries[e].state
    ensures StepsLeft(TaskAt(Apply(s, step), t)) == StepsLeft(TaskAt(s, t)) - if step.task == t then 1 else 0
  {
    if step.task == t {
      OwnStepNears(s, t, e, step, EntryState.Cancelled);
    } else {
      OtherStepKeeps(s, t, e, step);
    }
  }

  ghost predicate NeverLeaves(steps: seq<Step>, t: TaskId, m: nat, n: nat)
    requires m <= n <= |steps|
  {
    forall i | m <= i < n :: steps[i] != Leave(t)
  }

  /** How far a follower has come by moment `n`. */
  ghost predicate Nearer(s: State, now: State, t: TaskId, e: EntryId, own: nat) {
    && FollowsSettled(s, t, e) && FollowsSettled(now, t, e)
    && now.entries[e].state == s.entries[e].state
    && StepsLeft(TaskAt(now, t)) == StepsLeft(TaskAt(s, t)) - own
  }

  lemma {:induction false} NearerByOne(s: State, now: State, t: TaskId, e: EntryId, own: nat, step: Step)
    requires Nearer(s, now, t, e, own) && Inv(now) && Enabled(now, step) && step != Leave(t)
    ensures Nearer(s, Apply(now, step), t, e, own + if step.task == t then 1 else 0)
  {
    AnyStepNears(now, t, e, step);
  }

  lemma {:induction false} StepsBringNearer(
    states: seq<State>, steps: seq<Step>, m: nat, n: nat, t: TaskId, e: EntryId)
    requires IsRun(states, steps) && m <= n < |states|
    requires FollowsSettled(states[m], t, e) && NeverLeaves(steps, t, m, n)
    ensures Nearer(states[m], states[n], t, e, OwnSteps(steps, t, m, n))
    decreases n
  {
    if m < n {
      StepsBringNearer(states, steps, m, n - 1, t, e);
      RunKeepsInv(states, steps, n - 1);
      NearerByOne(states[m], states[n - 1], t, e, OwnSteps(steps, t, m, n - 1), steps[n - 1]);
      assert states[n] == Apply(states[n - 1], steps[n - 1]);
    }
  }

  /** The follower has the result if no steps are left, and otherwise can take the next one. */
  ghost predicate HasResultOrGoesOn(s: State, t: TaskId, e: EntryId, state: EntryState) {
    var next := NextStep(TaskAt(s, t), t, EntryState.Cancelled);
    if StepsLeft(TaskAt(s, t)) == 0 then TaskAt(s, t) == Observed(e, state)
    else next.Some? && Enabled(s, next.value)
  }

  /** However the steps of others come in between: each step the follower takes counts, and it is never stuck. */
  lemma {:induction false} FollowerNeverStarves(
    states: seq<State>, steps: seq<Step>, m: nat, n: nat, t: TaskId, e: EntryId)
    requires IsRun(states, steps) && m <= n < |states| && e < |states[m].entries|
    requires Follows(TaskAt(states[m], t)) && TaskAt(states[m], t).entry == e
    requires !states[m].entries[e].state.Running?
    requires TaskAt(states[m], states[m].entries[e].leader) != Settling(e)
    requires NeverLeaves(steps, t, m, n)
    ensures StepsLeft(TaskAt(states[n], t)) == StepsLeft(TaskAt(states[m], t)) - OwnSteps(steps, t, m, n)
    ensures HasResultOrGoesOn(states[n], t, e, states[m].entries[e].state)
  {
    RunKeepsInv(states, steps, m);
    SettledIsNotified(states[m], t, e);
    StepsBringNearer(states, steps, m, n, t, e);
    RunKeepsInv(states, steps, n);
    OwnStepNears(states[n], t, e, Leave(t), EntryState.Cancelled);
  }

  // ---------------------------------------------------------------------------
  // Leaders
  // ---------------------------------------------------------------------------

  /** A leader can settle with any outcome, notify, and let go of its key. */
  lemma {:induction false} LeaderCanFinish(s: State, t: TaskId, outcome: EntryState)
    requires Inv(s) && TaskAt(s, t).Leading? && !outcome.Running?
    ensures var e := TaskAt(s, t).entry;
            && Enabled(s, Settle(t, outcome))
            && var settled := Apply(s, Settle(t, outcome));
               && WellFormed(settled) && Enabled(settled, Notify(t))
               && var notified := Apply(settled, Notify(t));
                  && WellFormed(notified) && Enabled(notified, Unregister(t))
                  && var done := Apply(notified, Unregister(t));
                     && Inv(done) && TaskAt(done, t).Idle? && s.entries[e].key !in done.registry
                     && done.entries == s.entries[e := s.entries[e].(state := outcome, epoch := 1)]
  {
    assert GuardOk(s, t);
    StepKeepsInv(s, Settle(t, outcome));
    var settled := Apply(s, Settle(t, outcome));
    StepKeepsInv(settled, Notify(t));
    StepKeepsInv(Apply(settled, Notify(t)), Unregister(t));
  }
}
