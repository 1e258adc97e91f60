// How long a task that suspends itself is passed over, and when it runs again, over whole runs of the kernel.

module Sleeping {
  import opened Kernel

  /** A task in use that waits for something and has not been told to end. */
  predicate Waiting(t: Task) {
    t.present && !t.marked && t.suspended && t.reason != NotSuspended
  }

  /** A task that could run at once. */
  predicate Awake(t: Task) {
    t.present && !t.marked && !t.suspended && t.reason == NotSuspended
  }

  /** The steps that name the task, and those that it would have to take itself while it is still current. */
  predicate Concerns(s: State, step: Step, i: int) {
    || step == Unsuspend(i) || step == EndTask(i)
    || (s.current == i && (step.Suspend? || step.JoinEnter? || step.Mark?))
  }

  /** The sweep before a switch ends marked tasks and takes dying processes apart: whether that wakes task t. */
  predicate SweepWakes(s: State, t: Task)
    requires Shaped(s)
  {
    || (t.reason == TaskExpiry && t.waits.OfTask? && 0 <= t.waits.task < MAX_TASKS && t.waits.task != s.current
        && s.tasks[t.waits.task].marked)
    || (t.reason == ProcessExpiry && t.waits.OfProcess? && IsProcess(t.waits.process) && t.waits.process != Running(s)
        && Dying(s.processes[t.waits.process]) && s.processes[t.waits.process].threads == [])
  }

  /** The steps that end what a waiting task waits for. */
  predicate Wakes(s: State, step: Step, i: int)
    requires Shaped(s) && IsSlot(i)
  {
    || (step.Switch? && SweepWakes(s, s.tasks[i]))
    || (step.EndTask? && s.tasks[i].reason == TaskExpiry && s.tasks[i].waits == OfTask(step.task))
  }

  // ----- one step -----

  lemma {:induction false} ResetMarkedWakes(ts: seq<Task>, k: int, spare: int, i: int)
    requires 0 <= k <= |ts| && 0 <= i < |ts| && Waiting(ts[i])
    ensures var t := ts[i];
      ResetMarked(ts, k, spare)[i] ==
      if t.reason == TaskExpiry && t.waits.OfTask? && k <= t.waits.task < |ts| && t.waits.task != spare && ts[t.waits.task].marked
      then Revive(t) else t
    decreases |ts| - k
  {
    if k < |ts| {
      if ts[k].marked && k != spare {
        var n := ResetTask(ts, k);
        assert n[i] == if ts[i].reason == TaskExpiry && ts[i].waits == OfTask(k) then Revive(ts[i]) else ts[i];
        if n[i] == ts[i] {
          ResetMarkedWakes(n, k + 1, spare, i);
        } else {
          ResetMarkedAwake(n, k + 1, spare, i);
        }
      } else {
        ResetMarkedWakes(ts, k + 1, spare, i);
      }
    }
  }

  lemma {:induction false} ResetMarkedAwake(ts: seq<Task>, k: int, spare: int, i: int)
    requires 0 <= k <= |ts| && 0 <= i < |ts| && Awake(ts[i])
    ensures ResetMarked(ts, k, spare)[i] == ts[i]
    decreases |ts| - k
  {
    if k < |ts| {
      var n := if ts[k].marked && k != spare then ResetTask(ts, k) else ts;
      ResetMarkedAwake(n, k + 1, spare, i);
    }
  }

  lemma SweptTask(s: State, i: int)
    requires Orderly(s) && IsSlot(i) && (Waiting(s.tasks[i]) || Awake(s.tasks[i]))
    ensures Orderly(Swept(s)) && Swept(s).current == s.current
    ensures Swept(s).tasks[i] ==
      if Waiting(s.tasks[i]) && SweepWakes(s, s.tasks[i]) then Revive(s.tasks[i]) else s.tasks[i]
  {
    SweptKeeps(s);
    SweptShape(s);
    if Waiting(s.tasks[i]) {
      ResetMarkedWakes(s.tasks, 0, s.current, i);
    } else {
      ResetMarkedAwake(s.tasks, 0, s.current, i);
    }
    DisposeDyingWakes(s.(tasks := ResetMarked(s.tasks, 0, s.current)), 1, Running(s), i);
  }

  /** A switch: a task asleep is selected only after its tick, others that wait only once woken; the selected one is awake. */
  lemma SwitchRespects(s: State, tick: int, i: int)
    requires Orderly(s) && IsSlot(i) && (Waiting(s.tasks[i]) || Awake(s.tasks[i]))
    ensures var n, t := Next(s, Switch(tick)), s.tasks[i];
      && Orderly(n)
      && (n.current == i ==>
          n.tasks[i] == Revive(t) && (Awake(t) || SweepWakes(s, t) || (t.reason == TimerExpiry && tick > t.reviveAt)))
      && (n.current != i && !SweepWakes(s, t) ==> n.tasks[i] == t)
      && (SweepWakes(s, t) ==> n.tasks[i] == Revive(t))
  {
    StepKeeps(s, Switch(tick));
    SweptTask(s, i);
    SelectRespects(Swept(s), tick, i);
  }

  lemma SelectRespects(w: State, tick: int, i: int)
    requires Orderly(w) && IsSlot(i) && (Waiting(w.tasks[i]) || Awake(w.tasks[i]))
    ensures var n, t := Select(w, tick), w.tasks[i];
      && |n.tasks| == MAX_TASKS
      && (n.current == i ==> n.tasks[i] == Revive(t) && (Awake(t) || (t.reason == TimerExpiry && tick > t.reviveAt)))
      && (n.current != i ==> n.tasks[i] == t)
  {
  }

  /** Any other step leaves the task as it is, or wakes it. */
  lemma OtherStep(s: State, step: Step, i: int)
    requires Orderly(s) && Enabled(s, step) && !step.Switch? && IsSlot(i)
    requires step.JoinEnter? && s.tasks[s.current].present ==> Joinable(s, step.process)
    requires (Waiting(s.tasks[i]) || Awake(s.tasks[i])) && !Concerns(s, step, i)
    ensures var n, t := Next(s, step), s.tasks[i];
      && Orderly(n) && n.current == s.current
      && n.tasks[i] == (if Wakes(s, step, i) && Waiting(t) then Revive(t) else t.(attached := n.tasks[i].attached))
  {
    hide LastIndex;
    StepKeeps(s, step);
    CurrentKept(s, step);
  }

  // ----- runs that leave the task alone -----

  /** No step of the run concerns the task, and none ends what it waits for. */
  ghost predicate Unconcerned(s: State, steps: seq<Step>, i: int)
    requires Orderly(s) && Possible(s, steps) && IsSlot(i)
    decreases |steps|
  {
    steps == [] ||
    (&& !Concerns(s, steps[0], i) && !Wakes(s, steps[0], i)
     && (StepKeeps(s, steps[0]); Unconcerned(Next(s, steps[0]), steps[1..], i)))
  }

  ghost predicate TicksUpTo(steps: seq<Step>, until: int) {
    forall k :: 0 <= k < |steps| && steps[k].Switch? ==> steps[k].tick <= until
  }

  ghost predicate TicksAfter(steps: seq<Step>, until: int) {
    forall k :: 0 <= k < |steps| && steps[k].Switch? ==> steps[k].tick > until
  }

  /** A task that waits is not selected in such a run; one that sleeps is not as long as no tick is later than its own. */
  lemma {:induction false} PassedOver(s: State, steps: seq<Step>, i: int)
    requires Orderly(s) && Possible(s, steps) && IsSlot(i) && Waiting(s.tasks[i]) && Unconcerned(s, steps, i)
    requires s.tasks[i].reason == TimerExpiry ==> TicksUpTo(steps, s.tasks[i].reviveAt)
    ensures i !in Selected(s, steps)
    ensures Orderly(Run(s, steps)) && Run(s, steps).tasks[i] == s.tasks[i].(attached := Run(s, steps).tasks[i].attached)
    decreases |steps|
  {
    hide Next, Concerns;
    if steps != [] {
      RestOfTicks(steps, s.tasks[i].reviveAt);
      PassStep(s, steps[0], i);
      var n := Next(s, steps[0]);
      assert n.tasks[i] == s.tasks[i].(attached := n.tasks[i].attached);
      PassedOver(n, steps[1..], i);
    } else {
      RunKeeps(s, steps);
    }
  }

  lemma PassStep(s: State, step: Step, i: int)
    requires Orderly(s) && Enabled(s, step) && IsSlot(i) && Waiting(s.tasks[i])
    requires step.JoinEnter? && s.tasks[s.current].present ==> Joinable(s, step.process)
    requires !Concerns(s, step, i) && !Wakes(s, step, i)
    requires step.Switch? && s.tasks[i].reason == TimerExpiry ==> step.tick <= s.tasks[i].reviveAt
    ensures var n := Next(s, step);
      && Orderly(n) && n.tasks[i] == s.tasks[i].(attached := n.tasks[i].attached)
      && (step.Switch? ==> n.current != i)
  {
    hide Next;
    if step.Switch? { SwitchRespects(s, step.tick, i); } else { OtherStep(s, step, i); }
  }

  lemma RestOfTicks(steps: seq<Step>, until: int)
    requires steps != []
    ensures TicksUpTo(steps, until) ==> TicksUpTo(steps[1..], until) && (steps[0].Switch? ==> steps[0].tick <= until)
    ensures TicksAfter(steps, until) ==> TicksAfter(steps[1..], until) && (steps[0].Switch? ==> steps[0].tick > until)
  {
  }

  /** A task that is awake, or whose tick is over, is runnable at every switch until it is selected. */
  lemma {:induction false} RunnableMeanwhile(s: State, steps: seq<Step>, i: int)
    requires Orderly(s) && Possible(s, steps) && IsSlot(i) && Unconcerned(s, steps, i) && i !in Selected(s, steps)
    requires Awake(s.tasks[i])
      || (Waiting(s.tasks[i]) && s.tasks[i].reason == TimerExpiry && TicksAfter(steps, s.tasks[i].reviveAt))
    ensures StaysRunnable(s, steps, i)
    decreases |steps|
  {
    hide Next, Concerns, Wakes;
    if steps != [] {
      RestOfTicks(steps, s.tasks[i].reviveAt);
      var n := Next(s, steps[0]);
      MeanwhileStep(s, steps[0], i);
      RunnableMeanwhile(n, steps[1..], i);
    }
  }

  lemma MeanwhileStep(s: State, step: Step, i: int)
    requires Orderly(s) && Enabled(s, step) && IsSlot(i) && !Concerns(s, step, i) && !Wakes(s, step, i)
    requires step.JoinEnter? && s.tasks[s.current].present ==> Joinable(s, step.process)
    requires Awake(s.tasks[i]) || (Waiting(s.tasks[i]) && s.tasks[i].reason == TimerExpiry)
    ensures var n := Next(s, step);
      Orderly(n) && ((step.Switch? && n.current == i) || n.tasks[i] == s.tasks[i].(attached := n.tasks[i].attached))
  {
    hide Next;
    if step.Switch? { SwitchRespects(s, step.tick, i); } else { OtherStep(s, step, i); }
  }

  // ----- what suspending means -----

  lemma SleepBegins(s: State, r: Reason, what: Target, until: int, n: State)
    requires Orderly(s) && Enabled(s, Suspend(r, what, until)) && n == Next(s, Suspend(r, what, until))
    requires s.tasks[s.current].present && !s.tasks[s.current].marked
    ensures Orderly(n) && IsSlot(s.current) && n.current == s.current
    ensures var t := n.tasks[s.current]; Waiting(t) && t.reason == r && t.waits == what && t.reviveAt == until
  {
    StepKeeps(s, Suspend(r, what, until));
  }

  /**
   * A task that suspends itself until a tick is not selected by any switch up to and including that tick; once the
   * ticks are past it, fewer than MAX_TASKS switches go by before it is selected, and then it is not suspended.
   */
  lemma SleepsUntil(s: State, until: int, n: State, early: seq<Step>, m: State, late: seq<Step>, tick: int)
    requires Orderly(s) && s.current != KERNEL && s.tasks[s.current].present && !s.tasks[s.current].marked
    requires n == Next(s, Suspend(TimerExpiry, Nobody, until))
    requires IsSlot(s.current)
    requires Orderly(n) && Possible(n, early) && Unconcerned(n, early, s.current) && TicksUpTo(early, until)
    requires m == Run(n, early)
    requires Orderly(m) && Possible(m, late) && Unconcerned(m, late, s.current) && TicksAfter(late, until)
    ensures s.current !in Selected(n, early)
    ensures s.current !in Selected(m, late) ==> |Selected(m, late)| < MAX_TASKS
    ensures var o := Next(m, Switch(tick));
      |o.tasks| == MAX_TASKS && (o.current == s.current ==> tick > until && !o.tasks[s.current].suspended)
  {
    hide Next;
    var i := s.current;
    SleepBegins(s, TimerExpiry, Nobody, until, n);
    PassedOver(n, early, i);
    if i !in Selected(m, late) {
      RunnableMeanwhile(m, late, i);
      if |Selected(m, late)| >= MAX_TASKS {
        SelectedSoon(m, late, i);
      }
    }
    SwitchRespects(m, tick, i);
  }

  /** For any other reason it is never selected until it is unsuspended or what it waits for has happened. */
  lemma WaitsOn(s: State, r: Reason, what: Target, until: int, n: State, steps: seq<Step>)
    requires r == Total || r == TaskExpiry || r == Event
    requires Orderly(s) && s.current != KERNEL && s.tasks[s.current].present && !s.tasks[s.current].marked
    requires !what.OfProcess? && IsSlot(s.current)
    requires n == Next(s, Suspend(r, what, until))
    requires Orderly(n) && Possible(n, steps) && Unconcerned(n, steps, s.current)
    ensures s.current !in Selected(n, steps)
  {
    hide Next;
    SleepBegins(s, r, what, until, n);
    PassedOver(n, steps, s.current);
  }

  /** Once unsuspended it is selected before MAX_TASKS switches have gone by. */
  lemma UnsuspendedRuns(s: State, i: int, steps: seq<Step>)
    requires Orderly(s) && IsSlot(i) && s.tasks[i].present && !s.tasks[i].marked
    requires Orderly(Next(s, Unsuspend(i))) && Possible(Next(s, Unsuspend(i)), steps)
    requires Unconcerned(Next(s, Unsuspend(i)), steps, i)
    ensures i !in Selected(Next(s, Unsuspend(i)), steps) ==> |Selected(Next(s, Unsuspend(i)), steps)| < MAX_TASKS
  {
    var n := Next(s, Unsuspend(i));
    assert Awake(n.tasks[i]);
    hide Next;
    if i !in Selected(n, steps) {
      RunnableMeanwhile(n, steps, i);
      if |Selected(n, steps)| >= MAX_TASKS {
        SelectedSoon(n, steps, i);
      }
    }
  }
}
