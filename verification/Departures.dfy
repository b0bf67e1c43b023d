/** Runs from boot that end where a condition of the scheduler's theorems does not hold. */
module Departures {
  import opened Kernel
  import opened KernelSteps
  import opened RoundRobin
  import opened Machine
  import opened MachineSteps
  import opened MachineRuns
  import Files = OpenFiles

  lemma RunThen(actions: seq<Action>, a: Action)
    requires MInv(Boot()) && CanRun(Boot(), actions) && Enabled(Run(Boot(), actions), a)
    ensures CanRun(Boot(), actions + [a]) && Run(Boot(), actions + [a]) == Do(Run(Boot(), actions), a)
  {
    hide MInv, Do, Enabled, CanRun, Run;
    RunOnce(Run(Boot(), actions), a);
    RunTwice(Boot(), actions, [a]);
  }

  // Process 2 is on the CPU, and the first n + 2 pids have been given out.
  ghost predicate Spawned(m: Machine, n: nat) {
    && MInv(m) && m.k.running == 2 && Calling(m) && m.k.nextPid == n + 3
    && forall p: nat :: 1 <= p <= n + 2 ==> p in m.k.procs
  }

  lemma FirstSpawned(m: Machine)
    requires FirstRuns(m)
    ensures Spawned(m, 0)
  {
    hide MInv;
    assert 1 in m.k.procs.Keys && 2 in m.k.procs.Keys;
  }

  lemma OneMore(m: Machine, n: nat)
    requires Spawned(m, n)
    ensures Enabled(m, StartParent(0, 0)) && Spawned(Do(m, StartParent(0, 0)), n + 1)
  {
    hide Files.Inv, SemsHold, Queued, BlockedListed, Waits, Mortal;
    assert 0 !in m.k.procs;
  }

  lemma {:induction false} ManySpawned(n: nat) returns (actions: seq<Action>)
    ensures MInv(Boot()) && CanRun(Boot(), actions) && Spawned(Run(Boot(), actions), n)
  {
    hide MInv, Do, Enabled, CanRun, Run, Boot, Spawned, FirstRuns;
    if n == 0 {
      actions := FirstRun();
      FirstSpawned(Run(Boot(), actions));
    } else {
      actions := ManySpawned(n - 1);
      OneMore(Run(Boot(), actions), n - 1);
      RunThen(actions, StartParent(0, 0));
      actions := actions + [StartParent(0, 0)];
    }
  }

  // A run that reaches process 256; a child that it starts is not recorded as its own.
  lemma LateParentRun() returns (actions: seq<Action>)
    ensures MInv(Boot()) && CanRun(Boot(), actions)
    ensures var k := Run(Boot(), actions).k;
            256 in k.procs && |k.queues| == PRIORITY_COUNT && !Family(Start(k, 256, 0, false))
  {
    hide Do, Enabled, CanRun, Run, Boot, Family;
    actions := ManySpawned(254);
    var m := Run(Boot(), actions);
    StartKeepsFamilyIff(m.k, 256, 0, false);
  }

  // Process 2 creates a semaphore of value 0 and waits for it.
  lemma WaiterBlocks(m: Machine)
    requires FirstRuns(m)
    ensures Enabled(m, SemCreate(1, 0)) && Enabled(Do(m, SemCreate(1, 0)), SemWait(1))
    ensures var m' := Do(Do(m, SemCreate(1, 0)), SemWait(1));
            && MInv(m') && 2 in m'.k.procs && m'.k.procs[2].source == WaitSem && m'.k.procs[2].state == Blocked
            && m'.k.limbo == Nobody
  {
    hide Inv, Files.Inv, Tick, SemsHold;
    ActiveParts(m);
    var m1 := Do(m, SemCreate(1, 0));
    BlockInv(m1.k, 2, WaitSem, 1);
    var k1 := Block(m1.k, 2, WaitSem, 1);
    TickInv(k1);
    QuantaOnly(k1, Tick(k1));
  }

  lemma WaiterKillable(m: Machine, p: nat)
    requires MInv(m) && p in m.k.procs && m.k.procs[p].state == Blocked && m.k.limbo == Nobody
    ensures Killable(m, p)
  {
  }

  // A run in which process 2 waits for a semaphore; once it is killed, the queue of the
  // semaphore holds a process that does not wait.
  lemma KilledWaiterRun() returns (actions: seq<Action>)
    ensures MInv(Boot()) && CanRun(Boot(), actions)
    ensures var m := Run(Boot(), actions);
            Killable(m, 2) && m.k.procs[2].source == WaitSem && !SemsHold(Kill(m, 2).k, m.sems)
  {
    hide MInv, CanRun, Run, Do, Enabled, Boot, SemsHold, Killable, FirstRuns;
    var first := FirstRun();
    WaiterBlocks(Run(Boot(), first));
    RunThen(first, SemCreate(1, 0));
    RunThen(first + [SemCreate(1, 0)], SemWait(1));
    actions := first + [SemCreate(1, 0)] + [SemWait(1)];
    var m := Run(Boot(), actions);
    WaiterKillable(m, 2);
    KillSemsIff(m, 2);
  }
}
