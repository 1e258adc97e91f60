// Joins of a process slot that is not in use: how they come about, how long they wait, and what ends them.

module Joins {
  import opened Kernel

  // ----- how such a join comes about -----

  /** Every task slot is taken, and no process slot is in use. */
  function FullTable(): State {
    State(seq(MAX_TASKS, i => if i == 0 then IDLE_SLOT else WORKER), seq(MAX_PROCESSES, p => UNUSED), 1, MAX_TASKS)
  }

  /** Without a task slot, creating a process gives its slot up but leaves it attached; then a join of it waits. */
  lemma FailedCreateStrands()
    ensures var s := FullTable();
      && Orderly(s) && Enabled(s, CreateProcess)
      && var n := Next(s, CreateProcess);
      && Orderly(n) && !n.processes[1].active && n.processes[1].attached
      && Enabled(n, JoinEnter(1)) && !Joinable(n, 1)
      && var r := Next(n, JoinEnter(1));
      && !Orderly(r) && OrderlyBut(r, 1) && Stranded(r, 1, 1)
  {
    hide LastIndex;
    var s := FullTable();
    FullTableLooks();
    LowestFree(s.tasks, 1);
    assert forall i :: 0 <= i < MAX_TASKS && s.tasks[i].present ==> 1 <= i < s.last;
    assert FreeTask(s.tasks, 1) == MAX_TASKS;
    assert FreeProcess(s.processes, 1) == 1;
    var n := Next(s, CreateProcess);
    JoinKeepsIff(n, 1);
  }

  lemma FullTableLooks()
    ensures var s := FullTable();
      && Shaped(s) && s.current == 1 && !s.tasks[0].present
      && (forall i :: 1 <= i < MAX_TASKS ==> s.tasks[i] == WORKER)
      && (forall p :: 0 <= p < MAX_PROCESSES ==> s.processes[p] == UNUSED)
  {
  }

  // ----- how long it waits -----

  /** Task i has joined process slot p, which is not in use. */
  ghost predicate Stranded(s: State, i: int, p: int) {
    && Shaped(s) && IsSlot(i) && IsProcess(p)
    && Awaited(s.tasks[i]) == p && !s.tasks[i].marked && !s.processes[p].active
  }

  /** The task is revived or ended by name, goes on by itself, or its slot is given to a new process. */
  predicate Disturbs(s: State, step: Step, i: int, p: int)
    requires |s.tasks| >= 1 && |s.processes| >= 1
  {
    || step == Unsuspend(i) || step == EndTask(i) || (s.current == i && !step.Switch?)
    || (step == CreateProcess && FreeProcess(s.processes, 1) == p && FreeTask(s.tasks, 1) < |s.tasks|)
  }

  /** Nothing else ends the wait. */
  lemma StrandedStays(s: State, step: Step, i: int, p: int)
    requires Stranded(s, i, p) && Enabled(s, step) && !Disturbs(s, step, i, p)
    ensures Stranded(Next(s, step), i, p)
    ensures step.Switch? || s.current != i ==> Next(s, step).current != i
  {
    hide LastIndex;
    if step.Switch? {
      StrandedSwitch(s, step.tick, i, p);
    }
  }

  lemma StrandedSwitch(s: State, tick: int, i: int, p: int)
    requires Stranded(s, i, p)
    ensures Stranded(Next(s, Switch(tick)), i, p) && Next(s, Switch(tick)).current != i
  {
    ResetMarkedKeepsWaiting(s.tasks, 0, s.current, i);
    var m := s.(tasks := ResetMarked(s.tasks, 0, s.current));
    DisposeDyingWakes(m, 1, Running(s), i);
    DisposeDyingEach(m, 1, Running(s), p);
    SweptShape(s);
    var w := Swept(s);
    assert w.tasks[i] == s.tasks[i] && w.processes[p] == s.processes[p];
    SelectPasses(w, tick, i);
  }

  lemma SelectPasses(s: State, tick: int, i: int)
    requires Shaped(s) && IsSlot(i) && Awaited(s.tasks[i]) != 0
    ensures var r := Select(s, tick);
      && |r.tasks| == MAX_TASKS && r.tasks[i] == s.tasks[i] && r.processes == s.processes && r.last == s.last
      && (r.current == KERNEL || 1 <= r.current < MAX_TASKS) && r.current != i
  {
  }

  /** A run of which no step disturbs the wait. */
  ghost predicate Undisturbed(s: State, steps: seq<Step>, i: int, p: int)
    requires Stranded(s, i, p)
    decreases |steps|
  {
    steps == [] ||
    (&& Enabled(s, steps[0]) && !Disturbs(s, steps[0], i, p)
     && (StrandedStays(s, steps[0], i, p); Undisturbed(Next(s, steps[0]), steps[1..], i, p)))
  }

  ghost function Reached(s: State, steps: seq<Step>, i: int, p: int): State
    requires Stranded(s, i, p) && Undisturbed(s, steps, i, p)
    decreases |steps|
  {
    if steps == [] then s
    else
      StrandedStays(s, steps[0], i, p);
      Reached(Next(s, steps[0]), steps[1..], i, p)
  }

  /** Through every such run the joiner goes on waiting. */
  lemma {:induction false} StrandedWaitsOn(s: State, steps: seq<Step>, i: int, p: int)
    requires Stranded(s, i, p) && Undisturbed(s, steps, i, p)
    ensures Stranded(Reached(s, steps, i, p), i, p)
    decreases |steps|
  {
    if steps != [] {
      StrandedStays(s, steps[0], i, p);
      StrandedWaitsOn(Next(s, steps[0]), steps[1..], i, p);
    }
  }

  // ----- what ends the wait -----

  /** The tables are in order but for tasks that wait for slot p. */
  ghost predicate OrderlyBut(s: State, p: int) {
    && Shaped(s)
    && (forall i :: 0 <= i < MAX_TASKS && s.tasks[i].present ==> 1 <= i < s.last)
    && (forall i :: 0 <= i < MAX_TASKS && Awaited(s.tasks[i]) != 0 ==>
          IsProcess(Awaited(s.tasks[i])) && (Awaited(s.tasks[i]) == p || s.processes[Awaited(s.tasks[i])].active))
  }

  /**
   * When a new process is given the slot, the tables are in order again, and the joiner waits for that process
   * instead: as Kernel.JoinCompletes says, it is woken when the new process has died.
   */
  lemma ReuseAdopts(s: State, i: int, p: int)
    requires OrderlyBut(s, p) && Stranded(s, i, p)
    requires FreeProcess(s.processes, 1) == p && FreeTask(s.tasks, 1) < MAX_TASKS
    ensures var n := Next(s, CreateProcess);
      && Orderly(n) && n.processes[p].active && n.processes[p].attached && Awaited(n.tasks[i]) == p && !n.tasks[i].marked
  {
    hide LastIndex;
    var made := s.(processes := s.processes[p := Process(true, false, true, false, [])]);
    assert Orderly(made);
    StartKeeps(made, p);
  }
}
