// The scheduler and the process executive as they update their tables, one slot at a time.

module Scheduler {
  import opened Kernel

  /** A task slot that was never used. */
  const ZEROED_TASK: Task := Task(false, false, NotSuspended, Nobody, 0, false, false, 0)

  class Tables {
    const tasks: array<Task>
    const processes: array<Process>
    var current: int
    var last: int

    ghost function Value(): State
      reads this, tasks, processes
    {
      State(tasks[..], processes[..], current, last)
    }

    ghost predicate Valid()
      reads this, tasks, processes
    {
      Kernel.Shaped(Value())
    }

    /** The tables before the first task: nothing is in use, and the kernel itself runs. */
    constructor ()
      ensures Valid() && Orderly(Value()) && fresh(tasks) && fresh(processes)
      ensures current == KERNEL && last == 1
      ensures forall i :: 0 <= i < tasks.Length ==> tasks[i] == ZEROED_TASK
      ensures forall p :: 0 <= p < processes.Length ==> processes[p] == UNUSED
    {
      tasks := new Task[MAX_TASKS](_ => ZEROED_TASK);
      processes := new Process[MAX_PROCESSES](_ => UNUSED);
      current := KERNEL;
      last := 1;
    }

    method KeFindLastRunningTaskIndex()
      requires Valid()
      modifies this`last
      ensures Value() == old(Value()).(last := LastIndex(tasks[..], MAX_TASKS))
    {
      var i := MAX_TASKS - 1;
      while i > 0
        invariant 0 <= i < MAX_TASKS && LastIndex(tasks[..], MAX_TASKS) == LastIndex(tasks[..], i + 1)
        invariant Value() == old(Value())
      {
        if tasks[i].present {
          last := i + 1;
          return;
        }
        i := i - 1;
      }
      last := 1;
    }

    /** Asks a task whether it is to be passed over; one whose suspension has ended is revived. */
    method IsTaskSuspended(i: int, tick: int) returns (r: bool)
      requires 0 <= i < tasks.Length
      modifies tasks
      ensures r == IsSuspended(old(tasks[i]), tick)
      ensures tasks[..] == old(tasks[..])[i := Asked(old(tasks[i]), tick)]
    {
      match tasks[i].reason {
        case NotSuspended => return false;
        case TimerExpiry =>
          if tick > tasks[i].reviveAt {
            tasks[i] := Revive(tasks[i]);
            return false;
          }
          return true;
        case _ =>
          if !tasks[i].suspended {
            tasks[i] := Revive(tasks[i]);
            return false;
          }
          return true;
      }
    }

    /** The first ready task from one slot up to another, which is asked; the upper bound when there is none. */
    method FindReady(lo: int, hi: int, tick: int) returns (i: int)
      requires Valid() && 0 <= lo && hi <= MAX_TASKS
      modifies tasks
      ensures i == FirstReady(old(tasks[..]), lo, hi, tick)
      ensures tasks[..] == if lo <= i < hi then old(tasks[..])[i := Asked(old(tasks[..])[i], tick)] else old(tasks[..])
    {
      hide IsSuspended, Asked;
      ghost var ts := tasks[..];
      i := lo;
      while i < hi
        invariant lo <= i && (i > hi ==> i == lo) && tasks[..] == ts
        invariant FirstReady(ts, lo, hi, tick) == FirstReady(ts, i, hi, tick)
      {
        if tasks[i].present {
          var passed := IsTaskSuspended(i, tick);
          if !passed {
            return;
          }
          Unchanged(ts, i, tick);
        }
        i := i + 1;
      }
      i := hi;
    }


    method GetNextTask(tick: int) returns (i: int)
      requires Valid()
      modifies tasks
      ensures i == NextTask(old(tasks[..]), current, last, tick)
      ensures tasks[..] == if i >= 0 then old(tasks[..])[i := Asked(old(tasks[..])[i], tick)] else old(tasks[..])
    {
      hide FirstReady, Asked;
      i := FindReady(current + 1, last, tick);
      if current + 1 <= i < last {
        return;
      }
      i := FindReady(0, current, tick);
      if 0 <= i < current {
        return;
      }
      return -1;
    }

    /** Wakes the tasks that wait for a task or a process to go away. */
    method UnsuspendTasksWaitingFor(reason: Reason, what: Target)
      requires Valid()
      modifies tasks
      ensures tasks[..] == Wake(old(tasks[..]), reason, what)
    {
      var i := 0;
      while i < MAX_TASKS
        invariant 0 <= i <= MAX_TASKS
        invariant forall j :: 0 <= j < i ==> tasks[j] == Wake(old(tasks[..]), reason, what)[j]
        invariant forall j :: i <= j < MAX_TASKS ==> tasks[j] == old(tasks[j])
      {
        if tasks[i].present && tasks[i].suspended && tasks[i].reason == reason {
          if tasks[i].waits == what {
            tasks[i] := Revive(tasks[i]);
          }
        }
        i := i + 1;
      }
    }

    /** Ends a task other than the running one. */
    method KeResetTask(i: int)
      requires Valid() && 0 <= i < MAX_TASKS
      modifies tasks
      ensures tasks[..] == ResetTask(old(tasks[..]), i)
    {
      UnsuspendTasksWaitingFor(TaskExpiry, OfTask(i));
      tasks[i] := tasks[i].(marked := false, reviveAt := 0);
      if tasks[i].attached {
        tasks[i] := tasks[i].(suspended := true, reason := Zombie);
      } else {
        tasks[i] := tasks[i].(present := false);
      }
    }

    method KeCheckDyingTasks(spare: int)
      requires Valid()
      modifies tasks
      ensures tasks[..] == ResetMarked(old(tasks[..]), 0, spare)
    {
      var i := 0;
      while i < MAX_TASKS
        invariant 0 <= i <= MAX_TASKS
        invariant ResetMarked(old(tasks[..]), 0, spare) == ResetMarked(tasks[..], i, spare)
      {
        if tasks[i].marked && i != spare {
          KeResetTask(i);
        }
        i := i + 1;
      }
    }

    method ExDisposeProcess(p: int)
      requires Valid() && 0 <= p < MAX_PROCESSES
      modifies tasks, processes
      ensures Value() == Dispose(old(Value()), p)
    {
      if processes[p].threads != [] {
        processes[p] := processes[p].(willDie := false);
        return;
      }
      if processes[p].attached {
        UnsuspendTasksWaitingFor(ProcessExpiry, OfProcess(p));
        return;
      }
      processes[p] := processes[p].(active := false);
      UnsuspendTasksWaitingFor(ProcessExpiry, OfProcess(p));
    }

    method ExCheckDyingProcesses(spare: int)
      requires Valid()
      modifies tasks, processes
      ensures Value() == DisposeDying(old(Value()), 1, spare)
    {
      var p := 1;
      while p != MAX_PROCESSES
        invariant 1 <= p <= MAX_PROCESSES
        invariant DisposeDying(old(Value()), 1, spare) == DisposeDying(Value(), p, spare)
      {
        if p != spare && processes[p].active && processes[p].willDie && !processes[p].crashAck {
          ExDisposeProcess(p);
        }
        p := p + 1;
      }
    }

    /** The timer interrupt: dead tasks and processes are cleared away, and the next task is chosen. */
    method KeSwitchTask(tick: int)
      requires Valid()
      modifies this`current, tasks, processes
      ensures Value() == Next(old(Value()), Switch(tick))
    {
      var process := if current != KERNEL then tasks[current].process else 0;
      SweptShape(Value());
      KeCheckDyingTasks(current);
      ExCheckDyingProcesses(process);
      assert Value() == Swept(old(Value()));
      var i := GetNextTask(tick);
      if i > 0 {
        current := i;
      } else {
        current := KERNEL;
      }
    }

    // ----- starting tasks and processes -----

    method ExMakeUpAProcess() returns (p: int)
      requires Valid()
      ensures p == FreeProcess(processes[..], 1)
    {
      p := 1;
      while p != MAX_PROCESSES
        invariant 1 <= p <= MAX_PROCESSES && FreeProcess(processes[..], 1) == FreeProcess(processes[..], p)
      {
        if !processes[p].active {
          return;
        }
        p := p + 1;
      }
    }

    /** Starts a suspended task for a process, 0 for none; fails when no slot is free. */
    method KeStartTask(p: int) returns (i: int)
      requires Valid() && 0 <= p < MAX_PROCESSES
      modifies this`last, tasks, processes
      ensures Value() == StartedTask(old(Value()), p) && i == FreeTask(old(tasks[..]), 1)
    {
      i := 1;
      while i < MAX_TASKS && tasks[i].present
        invariant 1 <= i <= MAX_TASKS && FreeTask(tasks[..], 1) == FreeTask(tasks[..], i)
      {
        i := i + 1;
      }
      if i == MAX_TASKS {
        return;
      }
      if p != 0 {
        processes[p] := processes[p].(threads := processes[p].threads + [i]);
      }
      tasks[i] := BLANK.(process := p);
      KeFindLastRunningTaskIndex();
    }

    /** Creates a process with one thread; -1 when there is no slot for it. */
    method ExCreateProcess() returns (p: int)
      requires Valid()
      modifies this`last, tasks, processes
      ensures Value() == Created(old(Value()))
    {
      p := ExMakeUpAProcess();
      if p == MAX_PROCESSES {
        return -1;
      }
      processes[p] := Process(true, false, true, false, []);
      ghost var made := Value();
      var i := KeStartTask(p);
      if i == MAX_TASKS {
        processes[p] := processes[p].(active := false);
        return -1;
      }
      tasks[i] := Revive(tasks[i]);
      tasks[i] := tasks[i].(attached := false);
      assert Value().tasks == StartedTask(made, p).tasks[i := Revive(StartedTask(made, p).tasks[i]).(attached := false)];
    }

    /** Takes a task off the list of its process, and condemns the process with its last thread. */
    method ExOnThreadExit(p: int, i: int)
      requires Valid() && IsProcess(p) && IsSlot(i)
      modifies processes
      ensures var left := Next(old(Value()), RemoveThread(p, i));
        Value() == if i in old(processes[p].threads) && left.processes[p].threads == []
                   then Next(left, CondemnProcess(p)) else left
    {
      hide Next;
      RemovalIs(Value(), p, i);
      var threads := processes[p].threads;
      var k := 0;
      while k < |threads|
        invariant 0 <= k <= |threads| && i !in threads[..k]
      {
        if threads[k] == i {
          WithoutAt(threads, i, k);
          processes[p] := processes[p].(threads := threads[..k] + threads[k + 1..]);
          if processes[p].threads == [] {
            processes[p] := processes[p].(willDie := true);
          }
          return;
        }
        k := k + 1;
      }
      WithoutNone(threads, i);
    }

    // ----- joining -----

    /** The part of a join before the wait; answers whether the caller is to wait. */
    method ExJoinProcess(p: int) returns (waits: bool)
      requires Valid() && current != KERNEL && IsProcess(p)
      modifies tasks, processes
      ensures Value() == Next(old(Value()), JoinEnter(p))
      ensures waits <==> old(processes[p]).attached && !old(processes[p]).willDie
    {
      if !processes[p].attached {
        return false;
      }
      if processes[p].willDie {
        processes[p] := processes[p].(attached := false);
        return false;
      }
      tasks[current] := tasks[current].(suspended := true, reason := ProcessExpiry, waits := OfProcess(p));
      return true;
    }

    /** The part of a join after the wait. */
    method ExJoined(p: int)
      requires Valid() && IsProcess(p)
      modifies processes
      ensures Value() == Next(old(Value()), JoinLeave(p))
    {
      processes[p] := processes[p].(attached := false);
      processes[p] := processes[p].(willDie := true);
    }
  }

  lemma RemovalIs(s: State, p: int, i: int)
    requires Shaped(s) && IsProcess(p) && IsSlot(i)
    ensures var left := WithProcess(s, p, s.processes[p].(threads := Without(s.processes[p].threads, i)));
      && Next(s, RemoveThread(p, i)) == left
      && Next(left, CondemnProcess(p)) == WithProcess(left, p, left.processes[p].(willDie := true))
  {
  }

  /** Asking a task that is passed over changes nothing. */
  lemma Unchanged(ts: seq<Task>, i: int, tick: int)
    requires 0 <= i < |ts| && IsSuspended(ts[i], tick)
    ensures ts[i := Asked(ts[i], tick)] == ts
  {
  }

  /** Taking out the first occurrence of a task. */
  lemma {:induction false} WithoutAt(ts: seq<int>, i: int, k: nat)
    requires k < |ts| && ts[k] == i && i !in ts[..k]
    ensures Without(ts, i) == ts[..k] + ts[k + 1..]
  {
    if k > 0 {
      assert ts[0] == ts[..k][0];
      assert ts[1..][..k - 1] == ts[..k][1..];
      WithoutAt(ts[1..], i, k - 1);
      assert ts[..k] + ts[k + 1..] == [ts[0]] + (ts[1..][..k - 1] + ts[1..][k..]);
    }
  }

  lemma {:induction false} WithoutNone(ts: seq<int>, i: int)
    requires i !in ts
    ensures Without(ts, i) == ts
  {
    if ts != [] {
      assert i !in ts[1..];
      WithoutNone(ts[1..], i);
    }
  }
}
