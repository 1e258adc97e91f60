// Tasks, processes and the switch between them, as a transition system over the two slot tables.

module Kernel {
  const MAX_TASKS := 1024
  const MAX_PROCESSES := 64

  /** The current task when the kernel itself runs. */
  const KERNEL := -1

  datatype Reason = NotSuspended | Total | ProcessExpiry | TaskExpiry | TimerExpiry | Event | Zombie

  datatype Target = Nobody | OfTask(task: int) | OfProcess(process: int)

  /** A task slot; process 0 stands for no process. */
  datatype Task = Task(present: bool, suspended: bool, reason: Reason, waits: Target, reviveAt: int,
                       attached: bool, marked: bool, process: int)

  datatype Process = Process(active: bool, willDie: bool, attached: bool, crashAck: bool, threads: seq<int>)

  datatype State = State(tasks: seq<Task>, processes: seq<Process>, current: int, last: int)

  ghost predicate Shaped(s: State) {
    && |s.tasks| == MAX_TASKS && |s.processes| == MAX_PROCESSES
    && (s.current == KERNEL || 1 <= s.current < MAX_TASKS) && 1 <= s.last <= MAX_TASKS
  }

  // ----- tasks -----

  function Revive(t: Task): Task {
    t.(suspended := false, reason := NotSuspended)
  }

  /** Whether the scheduler passes a task over at a tick. */
  predicate IsSuspended(t: Task, tick: int) {
    match t.reason
    case NotSuspended => false
    case TimerExpiry => tick <= t.reviveAt
    case _ => t.suspended
  }

  /** What asking does to a task that is not passed over. */
  function Asked(t: Task, tick: int): Task {
    if t.reason == NotSuspended || IsSuspended(t, tick) then t else Revive(t)
  }

  predicate Ready(t: Task, tick: int) { t.present && !IsSuspended(t, tick) }

  /** The first ready task from lo up to hi; hi when there is none. */
  function FirstReady(ts: seq<Task>, lo: int, hi: int, tick: int): (i: int)
    requires 0 <= lo && hi <= |ts|
    ensures lo <= hi ==> lo <= i <= hi
    ensures lo > hi ==> i == hi
    ensures lo <= i < hi ==> Ready(ts[i], tick)
    ensures forall j :: lo <= j < hi && Ready(ts[j], tick) ==> i <= j
    decreases hi - lo
  {
    if lo >= hi then hi else if Ready(ts[lo], tick) then lo else FirstReady(ts, lo + 1, hi, tick)
  }

  /** The task to run next: the first ready one above the current one, or else below it, or else none. */
  function NextTask(ts: seq<Task>, current: int, last: int, tick: int): (i: int)
    requires -1 <= current <= |ts| && last <= |ts|
  {
    var i := FirstReady(ts, current + 1, last, tick);
    if current + 1 <= i < last then i
    else
      var j := FirstReady(ts, 0, current, tick);
      if 0 <= j < current then j else -1
  }

  /** Wakes every task that is waiting for a target with a reason. */
  function Wake(ts: seq<Task>, reason: Reason, what: Target): (r: seq<Task>)
    ensures |r| == |ts|
  {
    seq(|ts|, i requires 0 <= i < |ts| =>
      if ts[i].present && ts[i].suspended && ts[i].reason == reason && ts[i].waits == what then Revive(ts[i]) else ts[i])
  }

  /** Ends a task that is not running: it becomes a zombie as long as it is attached. */
  function ResetTask(ts: seq<Task>, i: int): (r: seq<Task>)
    requires 0 <= i < |ts|
    ensures |r| == |ts|
  {
    var w := Wake(ts, TaskExpiry, OfTask(i));
    var t := w[i].(marked := false, reviveAt := 0);
    w[i := if t.attached then t.(suspended := true, reason := Zombie) else t.(present := false)]
  }

  /** Ends the marked tasks from slot i on, sparing one. */
  function ResetMarked(ts: seq<Task>, i: int, spare: int): (r: seq<Task>)
    requires 0 <= i <= |ts|
    ensures |r| == |ts|
    decreases |ts| - i
  {
    if i == |ts| then ts
    else if ts[i].marked && i != spare then ResetMarked(ResetTask(ts, i), i + 1, spare)
    else ResetMarked(ts, i + 1, spare)
  }

  // ----- processes -----

  /** Takes apart a dying process, unless it still has threads or somebody may still join it. */
  function Dispose(s: State, p: int): State
    requires 0 <= p < |s.processes|
  {
    var q := s.processes[p];
    if q.threads != [] then s.(processes := s.processes[p := q.(willDie := false)])
    else if q.attached then s.(tasks := Wake(s.tasks, ProcessExpiry, OfProcess(p)))
    else
      s.(processes := s.processes[p := q.(active := false)], tasks := Wake(s.tasks, ProcessExpiry, OfProcess(p)))
  }

  predicate Dying(q: Process) { q.active && q.willDie && !q.crashAck }

  /** Takes apart the dying processes from slot p on, sparing one. */
  function DisposeDying(s: State, p: int, spare: int): State
    requires 0 <= p <= |s.processes|
    decreases |s.processes| - p
  {
    if p == |s.processes| then s
    else if p != spare && Dying(s.processes[p]) then DisposeDying(Dispose(s, p), p + 1, spare)
    else DisposeDying(s, p + 1, spare)
  }

  /** The process of the current task. */
  function Running(s: State): int {
    if 0 <= s.current < |s.tasks| then s.tasks[s.current].process else 0
  }

  function Select(s: State, tick: int): State
    requires -1 <= s.current <= |s.tasks| && s.last <= |s.tasks|
  {
    var i := NextTask(s.tasks, s.current, s.last, tick);
    s.(tasks := if i >= 0 then s.tasks[i := Asked(s.tasks[i], tick)] else s.tasks,
       current := if i > 0 then i else KERNEL)
  }

  function Swept(s: State): State
    requires |s.processes| > 0
  {
    DisposeDying(s.(tasks := ResetMarked(s.tasks, 0, s.current)), 1, Running(s))
  }

  // ----- the sections that run without being interrupted -----

  datatype Step =
    | Switch(tick: int)
    | StartTask(process: int)
    | CreateProcess
    | Unsuspend(task: int)
    | DetachTask(task: int)
    | Suspend(reason: Reason, target: Target, until: int)
    | JoinEnter(process: int)
    | JoinLeave(process: int)
    | DetachProcess(process: int)
    | SetCrashAck(process: int, ack: bool)
    | RemoveThread(process: int, task: int)
    | CondemnProcess(process: int)
    | Mark
    | EndTask(task: int)

  function FreeTask(ts: seq<Task>, i: int): (k: int)
    requires 0 <= i <= |ts|
    ensures i <= k <= |ts| && (k < |ts| ==> !ts[k].present)
    decreases |ts| - i
  {
    if i == |ts| || !ts[i].present then i else FreeTask(ts, i + 1)
  }

  function FreeProcess(ps: seq<Process>, p: int): (k: int)
    requires 0 <= p <= |ps|
    ensures p <= k <= |ps| && (k < |ps| ==> !ps[k].active)
    decreases |ps| - p
  {
    if p == |ps| || !ps[p].active then p else FreeProcess(ps, p + 1)
  }

  /** One more than the highest slot in use below n. */
  function LastIndex(ts: seq<Task>, n: int): (r: int)
    requires 1 <= n <= |ts|
    ensures 1 <= r <= n && forall i :: r <= i < n ==> !ts[i].present
    ensures r > 1 ==> ts[r - 1].present
    decreases n
  {
    if n == 1 then 1 else if ts[n - 1].present then n else LastIndex(ts, n - 1)
  }

  const BLANK: Task := Task(true, true, Total, Nobody, 0, true, false, 0)

  /** A new suspended task in the lowest free slot, listed with its process. */
  function StartedTask(s: State, p: int): State
    requires |s.tasks| >= 1 && 0 <= p < |s.processes|
  {
    var i := FreeTask(s.tasks, 1);
    if i == |s.tasks| then s
    else
      var ts := s.tasks[i := BLANK.(process := p)];
      s.(tasks := ts, last := LastIndex(ts, |ts|),
         processes := if p == 0 then s.processes
                      else s.processes[p := s.processes[p].(threads := s.processes[p].threads + [i])])
  }

  /** A new process with one running, detached task; if there is no task slot the process slot is given up. */
  function Created(s: State): State
    requires |s.tasks| >= 1 && |s.processes| >= 1
  {
    var p := FreeProcess(s.processes, 1);
    if p == |s.processes| then s
    else
      var made := s.(processes := s.processes[p := Process(true, false, true, false, [])]);
      var i := FreeTask(s.tasks, 1);
      if i == |s.tasks| then s.(processes := s.processes[p := Process(false, false, true, false, [])])
      else
        var r := StartedTask(made, p);
        r.(tasks := r.tasks[i := Revive(r.tasks[i]).(attached := false)])
  }

  predicate IsSlot(i: int) { 1 <= i < MAX_TASKS }
  predicate IsProcess(p: int) { 1 <= p < MAX_PROCESSES }

  /** The reasons for which a task may suspend itself other than by joining a process. */
  predicate Waitable(r: Reason) { r == Total || r == TaskExpiry || r == TimerExpiry || r == Event }

  /** When a step can be taken. */
  predicate Enabled(s: State, step: Step) {
    match step
    case Switch(_) => true
    case StartTask(p) => p == 0 || IsProcess(p)
    case CreateProcess => true
    case Unsuspend(i) => IsSlot(i)
    case DetachTask(i) => IsSlot(i)
    case Suspend(r, t, _) => s.current != KERNEL && Waitable(r) && !t.OfProcess?
    case JoinEnter(p) => s.current != KERNEL && IsProcess(p)
    case JoinLeave(p) => IsProcess(p)
    case DetachProcess(p) => IsProcess(p)
    case SetCrashAck(p, _) => IsProcess(p)
    case RemoveThread(p, i) => IsProcess(p) && IsSlot(i)
    case CondemnProcess(p) => IsProcess(p)
    case Mark => s.current != KERNEL
    case EndTask(i) => IsSlot(i) && i != s.current
  }

  function Without(ts: seq<int>, i: int): seq<int> {
    if ts == [] then [] else if ts[0] == i then ts[1..] else [ts[0]] + Without(ts[1..], i)
  }

  function WithTask(s: State, i: int, t: Task): State
    requires 0 <= i < |s.tasks|
  {
    s.(tasks := s.tasks[i := t])
  }

  function WithProcess(s: State, p: int, q: Process): State
    requires 0 <= p < |s.processes|
  {
    s.(processes := s.processes[p := q])
  }

  /** Entering a join: nothing to wait for when the process is detached or already dying. */
  function Joined(s: State, p: int): State
    requires 0 <= s.current < |s.tasks| && 0 <= p < |s.processes|
  {
    var q := s.processes[p];
    if !q.attached then s
    else if q.willDie then WithProcess(s, p, q.(attached := false))
    else
      WithTask(s, s.current,
        s.tasks[s.current].(suspended := true, reason := ProcessExpiry, waits := OfProcess(p)))
  }

  function Next(s: State, step: Step): State
    requires |s.tasks| == MAX_TASKS && |s.processes| == MAX_PROCESSES
    requires (s.current == KERNEL || IsSlot(s.current)) && s.last <= MAX_TASKS && Enabled(s, step)
  {
    match step
    case Switch(tick) =>
      assert |Swept(s).tasks| == MAX_TASKS && Swept(s).current == s.current && Swept(s).last == s.last by { SweptShape(s); }
      Select(Swept(s), tick)
    case StartTask(p) => StartedTask(s, p)
    case CreateProcess => Created(s)
    case Unsuspend(i) => WithTask(s, i, Revive(s.tasks[i]))
    case DetachTask(i) => WithTask(s, i, s.tasks[i].(attached := false))
    case Suspend(r, t, until) =>
      WithTask(s, s.current, s.tasks[s.current].(suspended := true, reason := r, waits := t, reviveAt := until))
    case JoinEnter(p) => Joined(s, p)
    case JoinLeave(p) => WithProcess(s, p, s.processes[p].(attached := false, willDie := true))
    case DetachProcess(p) => WithProcess(s, p, s.processes[p].(attached := false))
    case SetCrashAck(p, ack) => WithProcess(s, p, s.processes[p].(crashAck := ack))
    case RemoveThread(p, i) =>
      WithProcess(s, p, s.processes[p].(threads := Without(s.processes[p].threads, i)))
    case CondemnProcess(p) => WithProcess(s, p, s.processes[p].(willDie := true))
    case Mark => WithTask(s, s.current, s.tasks[s.current].(marked := true))
    case EndTask(i) => s.(tasks := ResetTask(s.tasks, i))
  }

  // ----- what disposing does -----

  lemma {:induction false} DisposeDyingShape(s: State, p: int, spare: int)
    requires 0 <= p <= |s.processes|
    ensures var r := DisposeDying(s, p, spare);
      && |r.tasks| == |s.tasks| && |r.processes| == |s.processes| && r.current == s.current && r.last == s.last
    decreases |s.processes| - p
  {
    if p < |s.processes| {
      var n := if p != spare && Dying(s.processes[p]) then Dispose(s, p) else s;
      DisposeDyingShape(n, p + 1, spare);
    }
  }

  lemma SweptShape(s: State)
    requires |s.processes| > 0
    ensures var r := Swept(s);
      && |r.tasks| == |s.tasks| && |r.processes| == |s.processes| && r.current == s.current && r.last == s.last
  {
    DisposeDyingShape(s.(tasks := ResetMarked(s.tasks, 0, s.current)), 1, Running(s));
  }

  /** The slots that a sweep takes apart. */
  predicate Disposable(q: Process) {
    Dying(q) && q.threads == [] && !q.attached
  }

  function Disposed(q: Process): Process {
    if !Dying(q) then q else if q.threads != [] then q.(willDie := false) else if q.attached then q else q.(active := false)
  }

  lemma {:induction false} DisposeDyingEach(s: State, p: int, spare: int, k: int)
    requires 0 <= p <= |s.processes| && 0 <= k < |s.processes|
    ensures |DisposeDying(s, p, spare).processes| == |s.processes|
    ensures DisposeDying(s, p, spare).processes[k] == if p <= k && k != spare then Disposed(s.processes[k]) else s.processes[k]
    decreases |s.processes| - p
  {
    if p < |s.processes| {
      var n := if p != spare && Dying(s.processes[p]) then Dispose(s, p) else s;
      DisposeDyingEach(n, p + 1, spare, k);
    }
  }

  /**
   * A process slot becomes inactive exactly in a switch, when it is dying, has no threads, is detached, is not held
   * for a crash report, and does not belong to the task that is being switched away from.
   */
  lemma DeactivationIff(s: State, step: Step, p: int)
    requires Shaped(s) && Enabled(s, step) && IsProcess(p) && s.processes[p].active
    ensures |Next(s, step).processes| == MAX_PROCESSES
    ensures var q := s.processes[p];
      !Next(s, step).processes[p].active <==>
        step.Switch? && q.willDie && !q.crashAck && q.threads == [] && !q.attached && p != Running(s)
  {
    if step.Switch? {
      SweptShape(s);
      DisposeDyingEach(s.(tasks := ResetMarked(s.tasks, 0, s.current)), 1, Running(s), p);
    }
  }

  // ----- what every step keeps -----

  /** The process a task is waiting for in a join; 0 when it is not. */
  function Awaited(t: Task): int {
    if t.present && t.suspended && t.reason == ProcessExpiry && t.waits.OfProcess? then t.waits.process else 0
  }

  /** Tasks in use lie below the last index, and nobody waits for a process slot that is not in use. */
  ghost predicate Orderly(s: State) {
    && Shaped(s)
    && (forall i :: 0 <= i < MAX_TASKS && s.tasks[i].present ==> 1 <= i < s.last)
    && (forall i :: 0 <= i < MAX_TASKS && Awaited(s.tasks[i]) != 0 ==>
          IsProcess(Awaited(s.tasks[i])) && s.processes[Awaited(s.tasks[i])].active)
  }

  /** A change of the task table that starts no task and no wait. */
  ghost predicate Calmer(a: seq<Task>, b: seq<Task>) {
    && |a| == |b|
    && (forall i :: 0 <= i < |a| && b[i].present ==> a[i].present)
    && (forall i :: 0 <= i < |a| && Awaited(b[i]) != 0 ==> Awaited(b[i]) == Awaited(a[i]))
  }

  lemma {:induction false} ResetMarkedCalmer(ts: seq<Task>, i: int, spare: int)
    requires 0 <= i <= |ts|
    ensures Calmer(ts, ResetMarked(ts, i, spare))
    decreases |ts| - i
  {
    if i < |ts| {
      var n := if ts[i].marked && i != spare then ResetTask(ts, i) else ts;
      assert Calmer(ts, n);
      ResetMarkedCalmer(n, i + 1, spare);
    }
  }

  /** Disposing wakes whoever waits for the slot that it frees. */
  lemma DisposeKeeps(s: State, p: int)
    requires Orderly(s) && IsProcess(p)
    ensures Orderly(Dispose(s, p)) && Calmer(s.tasks, Dispose(s, p).tasks)
  {
  }

  lemma {:induction false} DisposeDyingKeeps(s: State, p: int, spare: int)
    requires Orderly(s) && 1 <= p <= |s.processes|
    ensures Orderly(DisposeDying(s, p, spare)) && Calmer(s.tasks, DisposeDying(s, p, spare).tasks)
    decreases |s.processes| - p
  {
    if p < |s.processes| {
      var n := if p != spare && Dying(s.processes[p]) then Dispose(s, p) else s;
      DisposeKeeps(s, p);
      DisposeDyingKeeps(n, p + 1, spare);
    }
  }

  lemma SweptKeeps(s: State)
    requires Orderly(s)
    ensures Orderly(Swept(s)) && Calmer(s.tasks, Swept(s).tasks)
  {
    ResetMarkedCalmer(s.tasks, 0, s.current);
    var m := s.(tasks := ResetMarked(s.tasks, 0, s.current));
    assert Orderly(m);
    DisposeDyingKeeps(m, 1, Running(s));
  }

  /** A slot that is not in use but was left attached, by a process that failed to start, must not be joined. */
  predicate Joinable(s: State, p: int)
    requires 0 <= p < |s.processes|
  {
    s.processes[p].active || !s.processes[p].attached || s.processes[p].willDie
  }

  /** Every step keeps the order of the tables, except for a join of a slot that is neither in use nor detached. */
  lemma StepKeeps(s: State, step: Step)
    requires Orderly(s) && Enabled(s, step)
    requires step.JoinEnter? && s.tasks[s.current].present ==> Joinable(s, step.process)
    ensures Orderly(Next(s, step))
  {
    match step
    case Switch(tick) => SweptKeeps(s); SelectKeeps(Swept(s), tick);
    case StartTask(p) => StartKeeps(s, p);
    case CreateProcess => CreateKeeps(s);
    case EndTask(i) => assert Calmer(s.tasks, ResetTask(s.tasks, i));
    case _ =>
  }

  lemma SelectKeeps(s: State, tick: int)
    requires Orderly(s)
    ensures Orderly(Select(s, tick))
  {
  }

  lemma StartKeeps(s: State, p: int)
    requires Orderly(s) && 0 <= p < MAX_PROCESSES
    ensures Orderly(StartedTask(s, p))
  {
  }

  lemma CreateKeeps(s: State)
    requires Orderly(s)
    ensures Orderly(Created(s))
  {
    hide LastIndex;
    var p := FreeProcess(s.processes, 1);
    if p < |s.processes| {
      var made := s.(processes := s.processes[p := Process(true, false, true, false, [])]);
      assert Orderly(made);
      StartKeeps(made, p);
    }
  }

  /** A join keeps the order exactly when the slot can be joined. */
  lemma JoinKeepsIff(s: State, p: int)
    requires Orderly(s) && Enabled(s, JoinEnter(p)) && s.tasks[s.current].present
    ensures Orderly(Next(s, JoinEnter(p))) <==> Joinable(s, p)
  {
    if !Joinable(s, p) {
      assert Awaited(Next(s, JoinEnter(p)).tasks[s.current]) == p;
    }
  }

  // ----- what single steps do -----

  /** Waiting for a task to end. */
  predicate AwaitsTask(t: Task, i: int) {
    t.present && t.suspended && t.reason == TaskExpiry && t.waits == OfTask(i)
  }

  /** When a task ends, whoever waits for it goes on, and nobody else is touched; its slot is free unless it is joinable. */
  lemma EndWakes(s: State, i: int)
    requires Shaped(s) && Enabled(s, EndTask(i))
    ensures var n := Next(s, EndTask(i)).tasks;
      && (forall j :: 0 <= j < MAX_TASKS && j != i && AwaitsTask(s.tasks[j], i) ==> n[j] == Revive(s.tasks[j]))
      && (forall j :: 0 <= j < MAX_TASKS && j != i && !AwaitsTask(s.tasks[j], i) ==> n[j] == s.tasks[j])
      && (forall j :: 0 <= j < MAX_TASKS ==> !AwaitsTask(n[j], i))
      && (if s.tasks[i].attached then n[i].suspended && n[i].reason == Zombie else !n[i].present)
      && !n[i].marked && n[i].reviveAt == 0
  {
  }

  /** Slot i is the lowest free one, and has been given to a new suspended task of process p. */
  ghost predicate StartedAt(s: State, n: State, p: int, i: int)
    requires Shaped(s) && 0 <= p < MAX_PROCESSES
  {
    && 1 <= i < MAX_TASKS && !s.tasks[i].present && (forall j :: 1 <= j < i ==> s.tasks[j].present)
    && |n.tasks| == MAX_TASKS && n.tasks == s.tasks[i := n.tasks[i]]
    && n.tasks[i] == Task(true, true, Total, Nobody, 0, true, false, p)
    && n.last > i && n.current == s.current
    && |n.processes| == MAX_PROCESSES
    && (p != 0 ==> n.processes[p].threads == s.processes[p].threads + [i])
  }

  /** Starting a task takes one free slot, for a suspended task that is listed with its process, and moves the last index. */
  lemma StartsOne(s: State, p: int)
    requires Shaped(s) && Enabled(s, StartTask(p))
    ensures (forall i :: 1 <= i < MAX_TASKS ==> s.tasks[i].present) ==> Next(s, StartTask(p)) == s
    ensures (forall i :: 1 <= i < MAX_TASKS ==> s.tasks[i].present) || exists i :: StartedAt(s, Next(s, StartTask(p)), p, i)
  {
    hide LastIndex;
    var i := FreeTask(s.tasks, 1);
    LowestFree(s.tasks, 1);
    if i < MAX_TASKS {
      var n := Next(s, StartTask(p));
      assert n.tasks[i].present;
      assert StartedAt(s, n, p, i);
    }
  }

  lemma {:induction false} LowestFree(ts: seq<Task>, i: int)
    requires 0 <= i <= |ts|
    ensures forall j :: i <= j < FreeTask(ts, i) ==> ts[j].present
    decreases |ts| - i
  {
    if i < |ts| && ts[i].present {
      LowestFree(ts, i + 1);
    }
  }

  /** A new process is attached and has one thread, which is detached and can run at once. */
  lemma CreatesOne(s: State)
    requires Orderly(s) && FreeProcess(s.processes, 1) < MAX_PROCESSES && FreeTask(s.tasks, 1) < MAX_TASKS
    ensures var p, i := FreeProcess(s.processes, 1), FreeTask(s.tasks, 1); var n := Next(s, CreateProcess);
      && !s.processes[p].active && n.processes[p] == Process(true, false, true, false, [i])
      && n.tasks[i].process == p && !n.tasks[i].attached && (forall tick :: Ready(n.tasks[i], tick))
      && (forall q :: 0 <= q < MAX_PROCESSES && q != p ==> n.processes[q] == s.processes[q])
      && (forall j :: 0 <= j < MAX_TASKS && j != i ==> n.tasks[j] == s.tasks[j])
  {
    hide LastIndex;
  }

  /** When there is no task for it, a new process gives its slot up again; it stays attached, and nothing else changes. */
  lemma CreateFails(s: State)
    requires Orderly(s) && (forall i :: 1 <= i < MAX_TASKS ==> s.tasks[i].present)
    ensures var p, n := FreeProcess(s.processes, 1), Next(s, CreateProcess);
      n == if p == MAX_PROCESSES then s else s.(processes := s.processes[p := Process(false, false, true, false, [])])
  {
  }

  /** A task that was detached leaves its slot free when it ends. */
  lemma DetachThenEnd(s: State, i: int)
    requires Shaped(s) && IsSlot(i) && i != s.current
    ensures var n := Next(s, DetachTask(i)); Shaped(n) && !Next(n, EndTask(i)).tasks[i].present
  {
  }

  /** A process without threads that was detached and condemned is gone after the next switch from another process. */
  lemma DetachThenDie(s: State, p: int, tick: int)
    requires Shaped(s) && IsProcess(p) && Running(s) != p
    requires var q := s.processes[p]; q.active && !q.crashAck && q.threads == []
    ensures var n := Next(Next(s, DetachProcess(p)), CondemnProcess(p));
      Shaped(n) && |Next(n, Switch(tick)).processes| == MAX_PROCESSES && !Next(n, Switch(tick)).processes[p].active
  {
    DeactivationIff(Next(Next(s, DetachProcess(p)), CondemnProcess(p)), Switch(tick), p);
  }

  /** Nobody waits for a process that is detached or already dying, and a dying one is detached by it. */
  lemma JoinOfDead(s: State, p: int)
    requires Shaped(s) && s.current != KERNEL && IsProcess(p)
    ensures !s.processes[p].attached ==> Next(s, JoinEnter(p)) == s
    ensures s.processes[p].attached && s.processes[p].willDie ==>
      var n := Next(s, JoinEnter(p));
      n == s.(processes := n.processes) && n.processes == s.processes[p := n.processes[p]]
      && !n.processes[p].attached && n.processes[p].active == s.processes[p].active
  {
  }

  // ----- whole runs -----

  /** A run in which each step can be taken, and only slots that can be joined are joined. */
  ghost predicate Possible(s: State, steps: seq<Step>)
    requires Orderly(s)
    decreases |steps|
  {
    steps == [] ||
    (&& Enabled(s, steps[0])
     && (steps[0].JoinEnter? && s.tasks[s.current].present ==> Joinable(s, steps[0].process))
     && (StepKeeps(s, steps[0]); Possible(Next(s, steps[0]), steps[1..])))
  }

  ghost function Run(s: State, steps: seq<Step>): State
    requires Orderly(s) && Possible(s, steps)
    decreases |steps|
  {
    if steps == [] then s
    else
      StepKeeps(s, steps[0]);
      Run(Next(s, steps[0]), steps[1..])
  }

  /** Over every run the tables stay in order. */
  lemma {:induction false} RunKeeps(s: State, steps: seq<Step>)
    requires Orderly(s) && Possible(s, steps)
    ensures Orderly(Run(s, steps))
    decreases |steps|
  {
    if steps != [] {
      StepKeeps(s, steps[0]);
      RunKeeps(Next(s, steps[0]), steps[1..]);
    }
  }

  /** The tasks selected by the switches of a run, in order. */
  ghost function Selected(s: State, steps: seq<Step>): seq<int>
    requires Orderly(s) && Possible(s, steps)
    decreases |steps|
  {
    if steps == [] then []
    else
      StepKeeps(s, steps[0]);
      var n := Next(s, steps[0]);
      (if steps[0].Switch? then [n.current] else []) + Selected(n, steps[1..])
  }

  // ----- bounded bypass -----

  /** A task that is there, not passed over, and not about to be ended. */
  predicate Runnable(t: Task, tick: int) { Ready(t, tick) && !t.marked }

  /** The task is runnable at every switch of a run. */
  ghost predicate StaysRunnable(s: State, steps: seq<Step>, task: int)
    requires Orderly(s) && Possible(s, steps) && IsSlot(task)
    decreases |steps|
  {
    if steps == [] then true
    else
      StepKeeps(s, steps[0]);
      && (steps[0].Switch? ==> Runnable(s.tasks[task], steps[0].tick))
      && StaysRunnable(Next(s, steps[0]), steps[1..], task)
  }

  /** How many more switches it can take, at most, until a task runs, when another one is current. */
  function Rank(current: int, task: int): int {
    if current == KERNEL then task
    else if current < task then task - current
    else if current == task then MAX_TASKS
    else MAX_TASKS - 1 - current + task
  }

  lemma {:induction false} ResetMarkedSpares(ts: seq<Task>, i: int, spare: int, task: int, tick: int)
    requires 0 <= i <= |ts| && 0 <= task < |ts| && Runnable(ts[task], tick)
    ensures Runnable(ResetMarked(ts, i, spare)[task], tick)
    decreases |ts| - i
  {
    if i < |ts| {
      var n := if ts[i].marked && i != spare then ResetTask(ts, i) else ts;
      ResetMarkedSpares(n, i + 1, spare, task, tick);
    }
  }

  lemma {:induction false} DisposeDyingSpares(s: State, p: int, spare: int, task: int, tick: int)
    requires 0 <= p <= |s.processes| && 0 <= task < |s.tasks| && Runnable(s.tasks[task], tick)
    ensures |DisposeDying(s, p, spare).tasks| == |s.tasks| && Runnable(DisposeDying(s, p, spare).tasks[task], tick)
    decreases |s.processes| - p
  {
    if p < |s.processes| {
      var n := if p != spare && Dying(s.processes[p]) then Dispose(s, p) else s;
      DisposeDyingSpares(n, p + 1, spare, task, tick);
    }
  }

  /** A switch selects a runnable task or comes closer to it. */
  lemma SwitchAdvances(s: State, tick: int, task: int)
    requires Orderly(s) && IsSlot(task) && Runnable(s.tasks[task], tick)
    ensures var c := Next(s, Switch(tick)).current;
      c == task || (1 <= Rank(c, task) < Rank(s.current, task) && Rank(s.current, task) <= MAX_TASKS)
  {
    SweptKeeps(s);
    ResetMarkedSpares(s.tasks, 0, s.current, task, tick);
    DisposeDyingSpares(s.(tasks := ResetMarked(s.tasks, 0, s.current)), 1, Running(s), task, tick);
    SweptShape(s);
    SelectAdvances(Swept(s), tick, task);
  }

  lemma SelectAdvances(s: State, tick: int, task: int)
    requires Orderly(s) && IsSlot(task) && Ready(s.tasks[task], tick)
    ensures var c := Select(s, tick).current;
      c == task || (1 <= Rank(c, task) < Rank(s.current, task) && Rank(s.current, task) <= MAX_TASKS)
  {
  }

  /** Until the task is selected, every switch comes strictly closer to it. */
  lemma {:induction false} RanksFall(s: State, steps: seq<Step>, task: int, j: nat)
    requires Orderly(s) && Possible(s, steps) && IsSlot(task) && StaysRunnable(s, steps, task)
    requires j < |Selected(s, steps)| && task !in Selected(s, steps)[..j + 1]
    ensures Rank(Selected(s, steps)[j], task) <= Rank(s.current, task) - 1 - j
    ensures 1 <= Rank(Selected(s, steps)[j], task) && Rank(s.current, task) <= MAX_TASKS
    ensures forall i :: 0 <= i < j ==> Rank(Selected(s, steps)[i], task) > Rank(Selected(s, steps)[j], task)
    decreases |steps|
  {
    hide Next, Rank, Runnable;
    StepKeeps(s, steps[0]);
    var n := Next(s, steps[0]);
    var sel, rest := Selected(s, steps), Selected(n, steps[1..]);
    if steps[0].Switch? {
      assert sel == [n.current] + rest;
      assert n.current == sel[..j + 1][0];
      SwitchAdvances(s, steps[0].tick, task);
      if j > 0 {
        assert rest[..j] == sel[..j + 1][1..];
        RanksFall(n, steps[1..], task, j - 1);
      }
    } else {
      assert sel == rest;
      CurrentKept(s, steps[0]);
      RanksFall(n, steps[1..], task, j);
    }
  }

  lemma CurrentKept(s: State, step: Step)
    requires Orderly(s) && Enabled(s, step) && !step.Switch?
    ensures Next(s, step).current == s.current
  {
  }

  /** Bounded bypass: a task that stays runnable is selected within as many switches as there are task slots. */
  lemma SelectedSoon(s: State, steps: seq<Step>, task: int)
    requires Orderly(s) && Possible(s, steps) && IsSlot(task) && StaysRunnable(s, steps, task)
    requires |Selected(s, steps)| >= MAX_TASKS
    ensures task in Selected(s, steps)[..MAX_TASKS]
  {
    if task !in Selected(s, steps)[..MAX_TASKS] {
      RanksFall(s, steps, task, MAX_TASKS - 1);
      assert false;
    }
  }

  /** And nobody is selected twice before it. */
  lemma NobodyTwice(s: State, steps: seq<Step>, task: int, i: nat, j: nat)
    requires Orderly(s) && Possible(s, steps) && IsSlot(task) && StaysRunnable(s, steps, task)
    requires i < j < |Selected(s, steps)| && task !in Selected(s, steps)[..j + 1]
    ensures Selected(s, steps)[i] != Selected(s, steps)[j]
  {
    RanksFall(s, steps, task, j);
  }

  // ----- joining -----

  lemma {:induction false} DisposeDyingWakes(s: State, p: int, spare: int, i: int)
    requires 1 <= p <= |s.processes| && 0 <= i < |s.tasks|
    ensures var q := Awaited(s.tasks[i]); var r := DisposeDying(s, p, spare);
      && |r.tasks| == |s.tasks|
      && r.tasks[i] == if p <= q < |s.processes| && q != 0 && q != spare && Dying(s.processes[q]) && s.processes[q].threads == []
                       then Revive(s.tasks[i]) else s.tasks[i]
    decreases |s.processes| - p
  {
    if p < |s.processes| {
      var n := if p != spare && Dying(s.processes[p]) then Dispose(s, p) else s;
      DisposeDyingWakes(n, p + 1, spare, i);
    }
  }

  /** The steps that detach a process. */
  predicate Detaches(step: Step, p: int) {
    step == DetachProcess(p) || step == JoinLeave(p) || step == JoinEnter(p)
  }

  /** An attached process keeps its slot in every run in which nobody detaches it. */
  lemma {:induction false} AttachedStays(s: State, steps: seq<Step>, p: int)
    requires Orderly(s) && Possible(s, steps) && IsProcess(p) && s.processes[p].active && s.processes[p].attached
    requires forall k :: 0 <= k < |steps| ==> !Detaches(steps[k], p)
    ensures Orderly(Run(s, steps)) && Run(s, steps).processes[p].active && Run(s, steps).processes[p].attached
    decreases |steps|
  {
    if steps != [] {
      StepKeeps(s, steps[0]);
      AttachedStep(s, steps[0], p);
      AttachedStays(Next(s, steps[0]), steps[1..], p);
    }
  }

  lemma AttachedStep(s: State, step: Step, p: int)
    requires Orderly(s) && Enabled(s, step) && IsProcess(p) && s.processes[p].active && s.processes[p].attached
    requires !Detaches(step, p)
    ensures |Next(s, step).processes| == MAX_PROCESSES
    ensures Next(s, step).processes[p].active && Next(s, step).processes[p].attached
  {
    hide LastIndex;
    DeactivationIff(s, step, p);
    if step.Switch? {
      DisposeDyingEach(s.(tasks := ResetMarked(s.tasks, 0, s.current)), 1, Running(s), p);
    }
  }

  /**
   * A joiner is woken by the first switch, from another process, after its process has died. The process keeps its
   * slot, whatever is done in the meantime, until the joiner has left, and is gone after the next such switch.
   */
  lemma JoinCompletes(s: State, i: int, p: int, tick: int)
    requires Orderly(s) && IsSlot(i) && IsProcess(p) && Awaited(s.tasks[i]) == p && !s.tasks[i].marked
    requires Dying(s.processes[p]) && s.processes[p].threads == [] && s.processes[p].attached && Running(s) != p
    ensures var n := Next(s, Switch(tick));
      && Orderly(n) && n.tasks[i] == Revive(s.tasks[i]) && n.processes[p] == s.processes[p]
      && (forall steps :: Possible(n, steps) && (forall k :: 0 <= k < |steps| ==> !Detaches(steps[k], p)) ==>
            Orderly(Run(n, steps)) && Run(n, steps).processes[p].active && Run(n, steps).processes[p].attached)
      && (forall m, later :: Orderly(m) && m.processes[p] == Next(n, JoinLeave(p)).processes[p] && Running(m) != p ==>
            Orderly(Next(m, Switch(later))) && !Next(m, Switch(later)).processes[p].active)
  {
    StepKeeps(s, Switch(tick));
    ResetMarkedKeepsWaiting(s.tasks, 0, s.current, i);
    var m := s.(tasks := ResetMarked(s.tasks, 0, s.current));
    DisposeDyingWakes(m, 1, Running(s), i);
    DeactivationIff(s, Switch(tick), p);
    DisposeDyingEach(m, 1, Running(s), p);
    var n := Next(s, Switch(tick));
    forall steps | Possible(n, steps) && forall k :: 0 <= k < |steps| ==> !Detaches(steps[k], p)
      ensures Orderly(Run(n, steps)) && Run(n, steps).processes[p].active && Run(n, steps).processes[p].attached
    {
      AttachedStays(n, steps, p);
    }
    forall m, later | Orderly(m) && m.processes[p] == Next(n, JoinLeave(p)).processes[p] && Running(m) != p
      ensures Orderly(Next(m, Switch(later))) && !Next(m, Switch(later)).processes[p].active
    {
      StepKeeps(m, Switch(later));
      DeactivationIff(m, Switch(later), p);
    }
  }

  lemma {:induction false} ResetMarkedKeepsWaiting(ts: seq<Task>, j: int, spare: int, i: int)
    requires 0 <= j <= |ts| && 0 <= i < |ts| && Awaited(ts[i]) != 0 && !ts[i].marked
    ensures ResetMarked(ts, j, spare)[i] == ts[i]
    decreases |ts| - j
  {
    if j < |ts| {
      var n := if ts[j].marked && j != spare then ResetTask(ts, j) else ts;
      ResetMarkedKeepsWaiting(n, j + 1, spare, i);
    }
  }

  // ----- does a task outlive its process? -----

  /** A task that has not been told to end and belongs to a process. */
  predicate Lodger(t: Task) {
    t.present && !t.marked && !(t.reason == Zombie && t.suspended) && IsProcess(t.process)
  }

  /** Every such task belongs to a process in use. */
  ghost predicate Housed(s: State)
    requires Shaped(s)
  {
    forall i :: 0 <= i < MAX_TASKS && Lodger(s.tasks[i]) ==> s.processes[s.tasks[i].process].active
  }

  ghost predicate SameLodgers(a: seq<Task>, b: seq<Task>) {
    |a| == |b| && forall i :: 0 <= i < |a| ==>
      (Lodger(a[i]) <==> Lodger(b[i])) && a[i].process == b[i].process
  }

  lemma {:induction false} ResetMarkedLodgers(ts: seq<Task>, i: int, spare: int)
    requires 0 <= i <= |ts|
    ensures SameLodgers(ts, ResetMarked(ts, i, spare))
    decreases |ts| - i
  {
    if i < |ts| {
      var n := if ts[i].marked && i != spare then ResetTask(ts, i) else ts;
      assert SameLodgers(ts, n);
      ResetMarkedLodgers(n, i + 1, spare);
    }
  }

  lemma {:induction false} DisposeDyingLodgers(s: State, p: int, spare: int)
    requires 0 <= p <= |s.processes|
    ensures SameLodgers(s.tasks, DisposeDying(s, p, spare).tasks)
    decreases |s.processes| - p
  {
    if p < |s.processes| {
      var n := if p != spare && Dying(s.processes[p]) then Dispose(s, p) else s;
      assert SameLodgers(s.tasks, n.tasks);
      DisposeDyingLodgers(n, p + 1, spare);
    }
  }

  lemma SwitchLodgers(s: State, tick: int)
    requires Orderly(s)
    ensures Orderly(Next(s, Switch(tick))) && SameLodgers(s.tasks, Next(s, Switch(tick)).tasks)
  {
    StepKeeps(s, Switch(tick));
    ResetMarkedLodgers(s.tasks, 0, s.current);
    DisposeDyingLodgers(s.(tasks := ResetMarked(s.tasks, 0, s.current)), 1, Running(s));
    var w := Swept(s);
    SweptShape(s);
    assert SameLodgers(w.tasks, Select(w, tick).tasks);
  }

  /** A task is left without its process exactly when it is still to end while its process has no thread listed. */
  lemma HousedIff(s: State, tick: int)
    requires Orderly(s) && Housed(s)
    ensures Orderly(Next(s, Switch(tick)))
    ensures Housed(Next(s, Switch(tick))) <==>
      forall i :: 0 <= i < MAX_TASKS && Lodger(s.tasks[i]) ==>
        !(Disposable(s.processes[s.tasks[i].process]) && s.tasks[i].process != Running(s))
  {
    SwitchLodgers(s, tick);
    var n := Next(s, Switch(tick));
    forall i | 0 <= i < MAX_TASKS && Lodger(s.tasks[i])
      ensures n.processes[s.tasks[i].process].active <==>
        !(Disposable(s.processes[s.tasks[i].process]) && s.tasks[i].process != Running(s))
    {
      DeactivationIff(s, Switch(tick), s.tasks[i].process);
    }
    if !forall i :: 0 <= i < MAX_TASKS && Lodger(s.tasks[i]) ==>
      !(Disposable(s.processes[s.tasks[i].process]) && s.tasks[i].process != Running(s))
    {
      var i :| 0 <= i < MAX_TASKS && Lodger(s.tasks[i])
        && Disposable(s.processes[s.tasks[i].process]) && s.tasks[i].process != Running(s);
      assert Lodger(n.tasks[i]) && !n.processes[n.tasks[i].process].active;
    }
  }

  /** Every task that has not been told to end is in the thread list of its process. */
  ghost predicate Listed(s: State)
    requires Shaped(s)
  {
    forall i :: 0 <= i < MAX_TASKS && Lodger(s.tasks[i]) ==> i in s.processes[s.tasks[i].process].threads
  }

  ghost predicate Settled(s: State) {
    Orderly(s) && Housed(s) && Listed(s)
  }

  /**
   * What happens without a switch in between: any single step, or a task leaving its process and being marked or
   * ended at once. Ended tasks stay suspended.
   */
  datatype Move =
    | Plain(step: Step)
    | Exit
    | Kill(task: int)

  ghost predicate Movable(s: State, m: Move)
    requires Shaped(s)
  {
    match m
    case Plain(step) =>
      && Enabled(s, step) && !step.RemoveThread?
      && (step.JoinEnter? && s.tasks[s.current].present ==> Joinable(s, step.process))
      && (step.Unsuspend? || step.Suspend? || step.JoinEnter? ==>
            !Ended(s.tasks[if step.Unsuspend? then step.task else s.current]))
      && (step.StartTask? && step.process != 0 ==> s.processes[step.process].active)
    case Exit => s.current != KERNEL
    case Kill(i) => IsSlot(i) && i != s.current
  }

  predicate Ended(t: Task) { t.reason == Zombie && t.suspended }

  function Left(s: State, i: int): State
    requires Shaped(s) && IsSlot(i)
  {
    var p := s.tasks[i].process;
    if IsProcess(p) then Next(s, RemoveThread(p, i)) else s
  }

  function Moved(s: State, m: Move): State
    requires Shaped(s) && (m.Plain? ==> Enabled(s, m.step)) && (m.Exit? ==> s.current != KERNEL)
    requires m.Kill? ==> IsSlot(m.task) && m.task != s.current
  {
    match m
    case Plain(step) => Next(s, step)
    case Exit => Next(Left(s, s.current), Mark)
    case Kill(i) => Next(Left(s, i), EndTask(i))
  }

  lemma {:induction false} WithoutKeeps(ts: seq<int>, i: int, j: int)
    requires i != j
    ensures j in Without(ts, i) <==> j in ts
  {
    if ts != [] && ts[0] != i {
      WithoutKeeps(ts[1..], i, j);
    }
  }

  lemma LeaveKeeps(s: State, i: int)
    requires Settled(s) && IsSlot(i)
    ensures Orderly(Left(s, i)) && Left(s, i).tasks == s.tasks && Left(s, i).current == s.current
    ensures Housed(Left(s, i))
    ensures forall j :: 0 <= j < MAX_TASKS && Lodger(s.tasks[j]) && j != i ==>
      j in Left(s, i).processes[s.tasks[j].process].threads
  {
    var p := s.tasks[i].process;
    if IsProcess(p) {
      forall j | j != i ensures j in Without(s.processes[p].threads, i) <==> j in s.processes[p].threads {
        WithoutKeeps(s.processes[p].threads, i, j);
      }
    }
  }

  /** Such a move lets no task outlive its process. */
  lemma MoveKeeps(s: State, m: Move)
    requires Settled(s) && Movable(s, m)
    ensures Settled(Moved(s, m))
  {
    match m
    case Plain(step) => PlainKeeps(s, step);
    case Exit => LeaveKeeps(s, s.current);
    case Kill(i) => KillKeeps(s, i);
  }

  /** A run of such moves. */
  ghost predicate MovesPossible(s: State, moves: seq<Move>)
    requires Settled(s)
    decreases |moves|
  {
    moves == [] || (Movable(s, moves[0]) && (MoveKeeps(s, moves[0]); MovesPossible(Moved(s, moves[0]), moves[1..])))
  }

  ghost function MovedAll(s: State, moves: seq<Move>): State
    requires Settled(s) && MovesPossible(s, moves)
    decreases |moves|
  {
    if moves == [] then s
    else
      MoveKeeps(s, moves[0]);
      MovedAll(Moved(s, moves[0]), moves[1..])
  }

  /** Over every run of such moves no task outlives its process. */
  lemma {:induction false} MovesKeep(s: State, moves: seq<Move>)
    requires Settled(s) && MovesPossible(s, moves)
    ensures Settled(MovedAll(s, moves))
    decreases |moves|
  {
    hide Next;
    if moves != [] {
      MoveKeeps(s, moves[0]);
      MovesKeep(Moved(s, moves[0]), moves[1..]);
    }
  }

  lemma KillKeeps(s: State, i: int)
    requires Settled(s) && IsSlot(i) && i != s.current
    ensures Settled(Moved(s, Kill(i)))
  {
    LeaveKeeps(s, i);
    var w := Left(s, i);
    assert Calmer(w.tasks, ResetTask(w.tasks, i));
  }

  lemma PlainKeeps(s: State, step: Step)
    requires Settled(s) && Movable(s, Plain(step))
    ensures Settled(Next(s, step))
  {
    StepKeeps(s, step);
    match step
    case Switch(tick) => SwitchSettles(s, tick);
    case StartTask(p) => StartSettles(s, p);
    case CreateProcess => CreateSettles(s);
    case _ =>
  }

  lemma SwitchSettles(s: State, tick: int)
    requires Settled(s)
    ensures Settled(Next(s, Switch(tick)))
  {
    SwitchLodgers(s, tick);
    HousedIff(s, tick);
    var n := Next(s, Switch(tick));
    forall i | 0 <= i < MAX_TASKS && Lodger(n.tasks[i]) ensures i in n.processes[n.tasks[i].process].threads {
      var p := s.tasks[i].process;
      SweptShape(s);
      DisposeDyingEach(s.(tasks := ResetMarked(s.tasks, 0, s.current)), 1, Running(s), p);
    }
  }

  lemma StartSettles(s: State, p: int)
    requires Settled(s) && 0 <= p < MAX_PROCESSES && (p != 0 ==> s.processes[p].active)
    ensures Settled(StartedTask(s, p))
  {
    hide LastIndex;
    StartKeeps(s, p);
  }

  lemma CreateSettles(s: State)
    requires Settled(s)
    ensures Settled(Created(s))
  {
    hide LastIndex;
    CreateKeeps(s);
    var p := FreeProcess(s.processes, 1);
    if p < |s.processes| {
      var made := s.(processes := s.processes[p := Process(true, false, true, false, [])]);
      assert Settled(made);
      StartSettles(made, p);
    }
  }

  // ----- a task that is interrupted while it exits -----

  const IDLE_SLOT: Task := BLANK.(present := false)
  const WORKER: Task := Revive(BLANK).(attached := false)
  const UNUSED: Process := Process(false, false, false, false, [])

  /** Task 1 is the only thread of the detached process 1; task 2 belongs to no process. */
  function TwoTasks(): State {
    State(seq(MAX_TASKS, i => if i == 1 then WORKER.(process := 1) else if i == 2 then WORKER else IDLE_SLOT),
          seq(MAX_PROCESSES, p => if p == 1 then Process(true, false, false, false, [1]) else UNUSED), 1, 3)
  }

  /** Task 1 leaves its process, which condemns it, and is interrupted twice before it is marked. */
  const EXIT_RACE: seq<Step> := [RemoveThread(1, 1), CondemnProcess(1), Switch(0), Switch(0)]

  lemma TwoTasksSettled()
    ensures var s := TwoTasks();
      && Settled(s) && s.current == 1
      && s.tasks[1] == WORKER.(process := 1) && s.tasks[2] == WORKER
      && s.processes[1] == Process(true, false, false, false, [1])
  {
    var s := TwoTasks();
    forall i | 0 <= i < MAX_TASKS
      ensures s.tasks[i] == if i == 1 then WORKER.(process := 1) else if i == 2 then WORKER else IDLE_SLOT
    {
    }
  }

  /** So a task that only exits can find itself without its process: the moves above are the condition. */
  lemma ExitRace()
    ensures Settled(TwoTasks()) && Possible(TwoTasks(), EXIT_RACE)
    ensures var r := Run(TwoTasks(), EXIT_RACE); Orderly(r) && !Housed(r) && Lodger(r.tasks[1])
  {
    hide TwoTasks, Swept, Select;
    var s0 := TwoTasks();
    TwoTasksSettled();
    var s1 := Next(s0, EXIT_RACE[0]);
    StepKeeps(s0, EXIT_RACE[0]);
    var s2 := Next(s1, EXIT_RACE[1]);
    StepKeeps(s1, EXIT_RACE[1]);
    assert s2.tasks == s0.tasks && s2.processes[1] == Process(true, true, false, false, []);
    assert s2.tasks[1] == WORKER.(process := 1) && s2.tasks[2] == WORKER && s2.current == 1;
    var s3 := Next(s2, Switch(0));
    SwitchLodgers(s2, 0);
    SwitchAdvances(s2, 0, 2);
    DeactivationIff(s2, Switch(0), 1);
    var s4 := Next(s3, Switch(0));
    RaceSecondSwitch(s2, s3, s4);
    RaceUnfolds(s1, s2, s3, s4);
  }

  lemma RaceSecondSwitch(s2: State, s3: State, s4: State)
    requires Orderly(s2) && Orderly(s3) && s3 == Next(s2, Switch(0)) && s4 == Next(s3, Switch(0))
    requires Running(s2) == 1 && s3.current == 2 && SameLodgers(s2.tasks, s3.tasks)
    requires Lodger(s2.tasks[1]) && s2.tasks[1].process == 1 && s2.tasks[2] == WORKER
    requires s2.processes[1] == Process(true, true, false, false, [])
    ensures Orderly(s4) && !Housed(s4) && Lodger(s4.tasks[1])
  {
    SweptShape(s2);
    DisposeDyingEach(s2.(tasks := ResetMarked(s2.tasks, 0, s2.current)), 1, 1, 1);
    SwitchLodgers(s3, 0);
    DeactivationIff(s3, Switch(0), 1);
  }

  lemma RaceUnfolds(s1: State, s2: State, s3: State, s4: State)
    requires Orderly(TwoTasks()) && s1 == Next(TwoTasks(), RemoveThread(1, 1))
    requires Orderly(s1) && s2 == Next(s1, CondemnProcess(1))
    requires Orderly(s2) && s3 == Next(s2, Switch(0)) && Orderly(s3) && s4 == Next(s3, Switch(0)) && Orderly(s4)
    ensures Possible(TwoTasks(), EXIT_RACE) && Run(TwoTasks(), EXIT_RACE) == s4
  {
    hide Next, Orderly, TwoTasks;
    assert EXIT_RACE[1..] == [CondemnProcess(1), Switch(0), Switch(0)];
    assert EXIT_RACE[1..][1..] == [Switch(0), Switch(0)];
    assert EXIT_RACE[1..][1..][1..] == [Switch(0)];
    assert EXIT_RACE[1..][1..][1..][1..] == [];
    assert Possible(s4, []) && Run(s4, []) == s4;
    assert Possible(s3, [Switch(0)]) && Run(s3, [Switch(0)]) == s4;
    assert Possible(s2, [Switch(0), Switch(0)]) && Run(s2, [Switch(0), Switch(0)]) == s4;
    assert Possible(s1, EXIT_RACE[1..]) && Run(s1, EXIT_RACE[1..]) == s4;
  }
}
