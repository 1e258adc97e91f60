// The kernel's lock, as the sections in which it is read and written without being interrupted.

module Locks {
  const TASKS := 1024

  /** Task 0 is the kernel, which is also what the owner of a free lock is recorded as. */
  const KERNEL := 0

  datatype Phase = Outside | Inside | Releasing

  datatype System = System(held: bool, owner: int, phase: seq<Phase>)

  datatype Step =
    | Try(task: int)         // one round of acquiring
    | CheckOwner(task: int)  // the test that starts a release
    | Release(task: int)     // the rest of it

  predicate Enabled(s: System, step: Step) {
    && |s.phase| == TASKS && 0 <= step.task < TASKS
    && (step.Release? <==> s.phase[step.task] == Releasing)
  }

  function Next(s: System, step: Step): System
    requires Enabled(s, step)
  {
    var t := step.task;
    match step
    case Try(_) => if s.held then s else System(true, t, s.phase[t := Inside])
    case CheckOwner(_) => if s.owner == t then s.(phase := s.phase[t := Releasing]) else s
    case Release(_) => System(false, KERNEL, s.phase[t := Outside])
  }

  /** Whoever is inside owns the held lock, and a held lock has somebody inside. */
  ghost predicate Exclusive(s: System) {
    && |s.phase| == TASKS && 0 <= s.owner < TASKS
    && (forall t :: 0 <= t < TASKS && s.phase[t] != Outside ==> s.held && s.owner == t)
    && (if s.held then s.phase[s.owner] != Outside else s.owner == KERNEL)
  }

  /** At most one task is inside. */
  lemma OneInside(s: System, t: int, u: int)
    requires Exclusive(s) && 0 <= t < TASKS && 0 <= u < TASKS && s.phase[t] != Outside && s.phase[u] != Outside
    ensures t == u
  {
    assert s.owner == t;
  }

  /** The one thing that endangers the lock is the kernel releasing it while it is free. */
  lemma StepKeepsIff(s: System, step: Step)
    requires Exclusive(s) && Enabled(s, step)
    ensures Exclusive(Next(s, step)) <==> !(step == CheckOwner(KERNEL) && !s.held)
  {
    var n := Next(s, step);
    if step == CheckOwner(KERNEL) && !s.held {
      assert n.phase[KERNEL] == Releasing;
    }
  }

  ghost predicate Possible(s: System, steps: seq<Step>)
    decreases |steps|
  {
    steps != [] ==>
      Enabled(s, steps[0]) && !(steps[0] == CheckOwner(KERNEL) && !s.held) && Possible(Next(s, steps[0]), steps[1..])
  }

  ghost function Run(s: System, steps: seq<Step>): System
    decreases |steps|
  {
    if steps == [] || !Enabled(s, steps[0]) then s else Run(Next(s, steps[0]), steps[1..])
  }

  /** Mutual exclusion in every interleaving, whoever else tries to release the lock. */
  lemma {:induction false} RunKeeps(s: System, steps: seq<Step>)
    requires Exclusive(s) && Possible(s, steps)
    ensures Exclusive(Run(s, steps))
    decreases |steps|
  {
    if steps != [] {
      StepKeepsIff(s, steps[0]);
      RunKeeps(Next(s, steps[0]), steps[1..]);
    }
  }

  // ----- acquiring and releasing -----

  /** A free lock is taken by whoever tries first; a held one lets nobody in. */
  lemma TryTakesFree(s: System, t: int)
    requires Enabled(s, Try(t))
    ensures s.held ==> Next(s, Try(t)) == s
    ensures var n := Next(s, Try(t));
      !s.held ==> n.held && n.owner == t && n.phase[t] == Inside && forall u :: 0 <= u < TASKS && u != t ==> n.phase[u] == s.phase[u]
  {
  }

  /** While somebody is inside, nothing that the others do has any effect. */
  lemma {:induction false} OthersWait(s: System, t: int, steps: seq<Step>)
    requires Exclusive(s) && 0 <= t < TASKS && s.phase[t] != Outside
    requires Possible(s, steps) && forall k :: 0 <= k < |steps| ==> steps[k].task != t
    ensures Run(s, steps) == s
    decreases |steps|
  {
    if steps != [] {
      assert steps[0].task != t && s.phase[steps[0].task] == Outside;
      assert Next(s, steps[0]) == s;
      OthersWait(s, t, steps[1..]);
    }
  }

  /**
   * The owner's release, with any steps of the others before and in between, leaves the lock free, and the next task
   * that tries is let in.
   */
  lemma {:induction false} OwnerReleases(s: System, t: int, before: seq<Step>, between: seq<Step>, u: int)
    requires Exclusive(s) && 0 <= t < TASKS && s.phase[t] == Inside && 0 <= u < TASKS
    requires Possible(s, before) && forall k :: 0 <= k < |before| ==> before[k].task != t
    requires Enabled(s, CheckOwner(t)) && Possible(Next(s, CheckOwner(t)), between)
    requires forall k :: 0 <= k < |between| ==> between[k].task != t
    ensures Run(s, before) == s
    ensures var m := Run(Next(s, CheckOwner(t)), between);
      && Enabled(m, Release(t))
      && var n := Next(m, Release(t));
         && !n.held && n.phase[t] == Outside && Exclusive(n)
         && Next(n, Try(u)).held && Next(n, Try(u)).owner == u && Next(n, Try(u)).phase[u] == Inside
  {
    OthersWait(s, t, before);
    StepKeepsIff(s, CheckOwner(t));
    OthersWait(Next(s, CheckOwner(t)), t, between);
  }

  function Free(): System { System(false, KERNEL, seq(TASKS, t => Outside)) }

  const KERNEL_RELEASES: seq<Step> := [CheckOwner(KERNEL), Try(1), Release(KERNEL), Try(2)]

  /** When the kernel releases a free lock, an interrupt can let two tasks in. */
  lemma KernelLetsTwoIn()
    ensures Exclusive(Free())
    ensures var s := Run(Free(), KERNEL_RELEASES);
      |s.phase| == TASKS && s.phase[1] == Inside && s.phase[2] == Inside
  {
    var s1 := Next(Free(), KERNEL_RELEASES[0]);
    var s2 := Next(s1, KERNEL_RELEASES[1]);
    var s3 := Next(s2, KERNEL_RELEASES[2]);
    var s4 := Next(s3, KERNEL_RELEASES[3]);
    assert KERNEL_RELEASES[1..] == [Try(1), Release(KERNEL), Try(2)];
    assert KERNEL_RELEASES[1..][1..] == [Release(KERNEL), Try(2)];
    assert KERNEL_RELEASES[1..][1..][1..] == [Try(2)];
    assert KERNEL_RELEASES[1..][1..][1..][1..] == [];
    assert Run(s4, []) == s4;
    assert Run(s3, [Try(2)]) == s4;
    assert Run(s2, [Release(KERNEL), Try(2)]) == s4;
    assert Run(s1, KERNEL_RELEASES[1..]) == s4;
  }
}
