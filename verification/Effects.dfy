/** What each step does to the process, the semaphore or the descriptor that it names. */
module Effects {
  import opened Lists
  import opened Kernel
  import opened KernelSteps
  import opened RoundRobin
  import opened Machine
  import opened MachineSteps
  import opened MachineRuns
  import Quanta
  import Files = OpenFiles

  // The record of every process but p is as it was, except for its quantum.
  ghost predicate OthersKept(k: Kernel, k': Kernel, p: nat) {
    forall q :: q in k.procs && q != p ==>
      q in k'.procs && k'.procs[q] == k.procs[q].(quantum := k'.procs[q].quantum)
  }

  // changePriority: the process gets the priority and the whole quantum of it, and is the
  // first of its queue; a priority or pid that does not exist changes nothing.
  lemma SetPriorityEffect(m: Machine, p: nat, priority: nat)
    requires MInv(m) && Enabled(m, SetPriority(p, priority))
    ensures var m' := Do(m, SetPriority(p, priority));
            if priority < 5 && p in m.k.procs then
              && |m'.k.queues| == 5 && m'.k.queues[priority] != [] && m'.k.queues[priority][0] == p
              && m'.k.procs[p] == m.k.procs[p].(priority := priority, quantum := 5 - priority)
              && m'.k.running == m.k.running && m'.f == m.f && m'.sems == m.sems
              && forall q :: q in m.k.procs && q != p ==> q in m'.k.procs && m'.k.procs[q] == m.k.procs[q]
            else m' == m
  {
    hide Inv, Files.Inv, SemsHold, Without;
    ActiveParts(m);
    if p in m.k.procs {
      PrioritiesFit(m.k, p);
    }
  }

  // Who the parent of a process started by action a is, and its priority.
  function ParentOf(m: Machine, a: Action): nat {
    if a.StartParent? then 1 else m.k.running
  }

  function PriorityOf(m: Machine, a: Action): nat
    requires a.StartParent? || (a.StartChild? && m.k.running in m.k.procs)
  {
    if a.StartParent? then a.priority else m.k.procs[m.k.running].priority
  }

  // startParentProcess and startChildProcess.
  lemma StartEffect(m: Machine, a: Action)
    requires MInv(m) && Enabled(m, a) && (a.StartParent? || a.StartChild?)
    ensures m.k.running in m.k.procs && ParentOf(m, a) in m.k.procs && PriorityOf(m, a) < 5
    ensures var k, k', pid, parent := m.k, Do(m, a).k, m.k.nextPid, ParentOf(m, a);
            var priority, dies := PriorityOf(m, a), a.StartChild? && a.dies;
            && pid !in k.procs && pid in k'.procs && k'.nextPid == pid + 1 && k'.running == k.running
            && k'.procs[pid].state == Ready && k'.procs[pid].source == NoBlock && k'.procs[pid].id == 0
            && k'.procs[pid].priority == priority && k'.procs[pid].quantum == 5 - priority
            && k'.procs[pid].ppid == parent && k'.procs[pid].status == -1 && k'.procs[pid].children == []
            && k'.procs[pid].waiting == Outside && k'.procs[pid].inDeathList == dies
            && k'.deathList == (if dies then [pid] + k.deathList else k.deathList)
            && |k.queues| == |k'.queues| == 5 && k'.queues[priority] == [pid] + k.queues[priority]
            && parent in k'.procs && k'.procs[parent] == k.procs[parent].(children := k.procs[parent].children + [pid])
            && forall q :: q in k.procs && q != parent ==> q in k'.procs && k'.procs[q] == k.procs[q]
  {
    hide Inv, Files.Inv, SemsHold, Inheritable;
    ActiveParts(m);
    FreshPid(m.k);
    PrioritiesFit(m.k, m.k.running);
    InitPresent(m.k);
  }

  // yield: the caller keeps a whole quantum for its next turn, and somebody else who is ready
  // gets the CPU, if there is anybody.
  lemma YieldEffect(m: Machine)
    requires MInv(m) && Enabled(m, Yield)
    ensures var r, m' := m.k.running, Do(m, Yield);
            && r in m.k.procs && r in m'.k.procs && OthersKept(m.k, m'.k, r)
            && m'.k.procs[r] == m.k.procs[r].(quantum := 5 - m.k.procs[r].priority)
            && (Quanta.Contended(m.k, r) ==> m'.k.running != r)
  {
    hide Inv, Files.Inv, SemsHold, Tick;
    ActiveParts(m);
    Quanta.YieldLeaves(m.k);
    SpentInv(m.k);
    TickInv(Spent(m.k));
    QuantaOnly(m.k, Spent(m.k));
    QuantaOnly(Spent(m.k), Tick(Spent(m.k)));
    hide Spent, SameHeirs, SameOpen, Persists, MInv;
  }

  // The timer.
  lemma TimerEffect(m: Machine)
    requires MInv(m)
    ensures var r, m' := m.k.running, Do(m, Timer);
            && r in m.k.procs && r in m'.k.procs && m'.f == m.f && m'.sems == m.sems
            && (forall q :: q in m.k.procs && q != r ==> q in m'.k.procs && m'.k.procs[q] == m.k.procs[q])
            && m'.k.procs[r] == m.k.procs[r].(quantum := m'.k.procs[r].quantum)
            && (m.k.procs[r].state == Ready && m.k.procs[r].quantum >= 1 ==>
                  m'.k.running == r && m'.k.procs[r].quantum + 1 == m.k.procs[r].quantum)
            && (m.k.procs[r].state != Ready && m.k.procs[r].quantum >= 1 ==>
                  m'.k.procs[r].quantum == m.k.procs[r].quantum)
            && (m.k.procs[r].quantum == 0 ==> m'.k.procs[r].quantum + m.k.procs[r].priority == 5)
  {
    hide Inv, Files.Inv, SemsHold, Tick;
    ActiveParts(m);
    Quanta.TickQuanta(m.k);
    TickInv(m.k);
    QuantaOnly(m.k, Tick(m.k));
  }

  // A read or write that blocks: the caller sleeps for that reason and off the CPU.
  lemma BlockSelfEffect(m: Machine, s: Source, id: int)
    requires MInv(m) && Enabled(m, BlockSelf(s, id))
    ensures var r, m' := m.k.running, Do(m, BlockSelf(s, id));
            && BlockedFor(m'.k, r, s, id) && OthersKept(m.k, m'.k, r) && IsReady(m'.k.procs, m'.k.running)
            && s in m.k.blocked && m'.k.blocked == m.k.blocked[s := [r] + m.k.blocked[s]]
  {
    hide Inv, Files.Inv, SemsHold, Tick, Block, OthersKept;
    ActiveParts(m);
    BlockTick(m.k, m.k.running, s, id);
  }

  lemma BlockTick(k: Kernel, p: nat, s: Source, id: int)
    requires Inv(k) && IsReady(k.procs, p) && p != INIT && s != NoBlock && s != WaitChild
    ensures s in k.blocked && Inv(Block(k, p, s, id)) && CanTick(Block(k, p, s, id))
    ensures var k' := Tick(Block(k, p, s, id)); BlockedFor(k', p, s, id) && OthersKept(k, k', p)
    ensures var k' := Tick(Block(k, p, s, id)); p == k.running ==> IsReady(k'.procs, k'.running)
    ensures Tick(Block(k, p, s, id)).blocked == k.blocked[s := [p] + k.blocked[s]]
  {
    hide Inv, Tick;
    BlockInv(k, p, s, id);
    var k1 := Block(k, p, s, id);
    TickInv(k1);
    QuantaOnly(k1, Tick(k1));
    if p == k.running {
      Dispatches(k1);
    }
  }

  // If the process on the CPU is not ready, the tick dispatches one that is.
  lemma Dispatches(k: Kernel)
    requires Inv(k) && k.running in k.procs && k.procs[k.running].state != Ready
    ensures CanTick(k) && IsReady(Tick(k).procs, Tick(k).running)
  {
    hide Flat, Round;
    SearchEnds(k);
  }

  // blockProcess: a ready process is asked to sleep, one that sleeps because it was asked to
  // goes on, and anybody else, init above all, is left alone.
  lemma BlockPidEffect(m: Machine, p: nat)
    requires MInv(m) && Enabled(m, BlockPid(p))
    ensures var m' := Do(m, BlockPid(p));
            && OthersKept(m.k, m'.k, p)
            && (if p != 1 && IsReady(m.k.procs, p) then BlockedFor(m'.k, p, AskedTo, 0)
                else if p != 1 && BlockedFor(m.k, p, AskedTo, 0)
                then IsReady(m'.k.procs, p) && m'.k.running == m.k.running
                else m' == m)
  {
    hide Inv, Files.Inv, SemsHold, Tick, Block;
    ActiveParts(m);
    if p != INIT && IsReady(m.k.procs, p) {
      BlockTick(m.k, p, AskedTo, 0);
    }
  }

  // Waking the readers or the writers of a pipe wakes exactly those who sleep for it.
  lemma WakeAllEffect(m: Machine, s: Source, id: int)
    requires MInv(m) && Enabled(m, WakeAll(s, id))
    ensures var m' := Do(m, WakeAll(s, id));
            && m'.k.running == m.k.running
            && forall q :: q in m.k.procs ==>
                 && q in m'.k.procs
                 && (if BlockedFor(m.k, q, s, id) then IsReady(m'.k.procs, q) else m'.k.procs[q] == m.k.procs[q])
  {
    hide Inv, Files.Inv, SemsHold;
    ActiveParts(m);
    UnblockAllInv(m.k, s, id);
    forall q | q in m.k.procs
      ensures UnblockAll(m.k, s, id).procs[q] == if BlockedFor(m.k, q, s, id) then Woken(m.k.procs[q]) else m.k.procs[q]
    {
      UnblockAllWakes(m.k, s, id, q);
    }
  }

  // initializeSemaphore for a new name.
  lemma SemCreateEffect(m: Machine, id: int, value: nat)
    requires MInv(m) && Enabled(m, SemCreate(id, value))
    ensures var m' := Do(m, SemCreate(id, value));
            && m'.k == m.k && m'.f == m.f && id in m'.sems
            && m'.sems[id].value == value && m'.sems[id].waiters == []
            && forall i :: i in m.sems ==> i in m'.sems && m'.sems[i] == m.sems[i]
  {
    hide MInv;
  }

  // waitSem passes a positive value, one less, and sleeps behind all others at 0.
  lemma SemWaitEffect(m: Machine, id: int)
    requires MInv(m) && Enabled(m, SemWait(id)) && id in m.sems
    ensures var r, m' := m.k.running, Do(m, SemWait(id));
            && OthersKept(m.k, m'.k, r) && id in m'.sems
            && (if m.sems[id].value > 0
                then m'.k == m.k && m'.sems[id].value + 1 == m.sems[id].value
                     && m'.sems[id].waiters == m.sems[id].waiters
                else BlockedFor(m'.k, r, WaitSem, id) && m'.sems[id].value == 0
                     && m'.sems[id].waiters == [r] + m.sems[id].waiters)
            && forall i :: i in m.sems && i != id ==> i in m'.sems && m'.sems[i] == m.sems[i]
  {
    hide Inv, Files.Inv, Tick, Block;
    ActiveParts(m);
    if m.sems[id].value == 0 {
      BlockTick(m.k, m.k.running, WaitSem, id);
    }
  }

  // postSem lets the one go on that has waited longest, or counts up.
  lemma SemPostEffect(m: Machine, id: int)
    requires MInv(m) && Enabled(m, SemPost(id)) && id in m.sems
    ensures var m' := Do(m, SemPost(id));
            var w := m.sems[id].waiters;
            && id in m'.sems && m'.k.running == m.k.running
            && (if w == [] then m'.k == m.k && m'.sems[id].value == m.sems[id].value + 1 && m'.sems[id].waiters == []
                else IsReady(m'.k.procs, w[|w| - 1]) && OthersKept(m.k, m'.k, w[|w| - 1])
                     && m'.sems[id].value == m.sems[id].value && m'.sems[id].waiters == w[..|w| - 1])
            && forall i :: i in m.sems && i != id ==> i in m'.sems && m'.sems[i] == m.sems[i]
  {
    hide Inv, Files.Inv;
    ActiveParts(m);
    assert SemHolds(m.k, m.sems, id);
    if m.sems[id].waiters != [] {
      SemHanded(m.k, m.sems, id);
    }
  }

  // waitchild(c) for a child that is not finished: the caller sleeps for c, and for c = 0 for
  // any child, and will collect the child it named, or its first one.
  lemma WaitPidEffect(m: Machine, c: nat, t: nat)
    requires MInv(m) && Enabled(m, WaitPid(c)) && m.k.running in m.k.procs && m.k.running != INIT
    requires c != 0 ==> t == c
    requires c == 0 ==> m.k.procs[m.k.running].children != [] && t == m.k.procs[m.k.running].children[0]
    requires t in m.k.procs[m.k.running].children && t in m.k.procs && m.k.procs[t].state != Finished
    ensures var r, m' := m.k.running, Do(m, WaitPid(c));
            && BlockedFor(m'.k, r, WaitChild, c) && OthersKept(m.k, m'.k, r)
            && m'.k.procs[r].waiting.Inside? && m'.k.procs[r].waiting.child == t
            && m'.k.procs[r].waiting.awaited ==
                 if c == 0 then LivingChildren(m.k, r) else {c}
  {
    hide MInv, Enabled, Do, WaitFor, LivingChildren;
    WaitTicks(m, c, t);
    var k1 := WaitFor(m.k, m.k.running, c, t);
    WaitForBlocks(m.k, m.k.running, c, t);
    QuantaOnly(k1, Do(m, WaitPid(c)).k);
  }

  lemma WaitTicks(m: Machine, c: nat, t: nat)
    requires MInv(m) && Enabled(m, WaitPid(c)) && m.k.running in m.k.procs && m.k.running != INIT
    requires c != 0 ==> t == c
    requires c == 0 ==> m.k.procs[m.k.running].children != [] && t == m.k.procs[m.k.running].children[0]
    requires t in m.k.procs[m.k.running].children && t in m.k.procs && m.k.procs[t].state != Finished
    ensures WaitChild in m.k.blocked && SameButQuanta(WaitFor(m.k, m.k.running, c, t), Do(m, WaitPid(c)).k)
  {
    hide Inv, Files.Inv, SemsHold, Tick;
    ActiveParts(m);
    PidIsPositive(m.k, t);
    ChildPresent(m.k, m.k.running, t);
    WaitForInv(m.k, m.k.running, c, t);
    TickInv(WaitFor(m.k, m.k.running, c, t));
  }

  lemma PidIsPositive(k: Kernel, t: nat)
    requires Inv(k) && t in k.procs
    ensures t > 0
  {
  }

  lemma WaitForBlocks(k: Kernel, p: nat, c: nat, t: nat)
    requires p in k.procs && WaitChild in k.blocked
    ensures var k' := WaitFor(k, p, c, t);
            && BlockedFor(k', p, WaitChild, c) && OthersKept(k, k', p)
            && k'.procs[p].waiting == Inside(t, if c == 0 then LivingChildren(k, p) else {t})
  {
  }

  // waitchild for a pid that is no child, or without children, changes nothing.
  lemma WaitNobodyEffect(m: Machine, c: nat)
    requires MInv(m) && Enabled(m, WaitPid(c)) && m.k.running in m.k.procs
    requires c !in m.k.procs[m.k.running].children && (c == 0 ==> m.k.procs[m.k.running].children == [])
    ensures Do(m, WaitPid(c)) == m
  {
    hide MInv;
  }

  // killProcess for a pid that does not exist changes nothing, but it ends in a tick all the
  // same; for init it changes nothing and returns at once.
  lemma KillNobodyEffect(m: Machine, p: nat)
    requires MInv(m) && Enabled(m, KillPid(p)) && (p == 1 || p !in m.k.procs)
    ensures Do(m, KillPid(p)) == if p == 1 then m else Do(m, Timer)
  {
    hide MInv;
  }

  // At the beginning init is alone, with the last priority and one unit of quantum, and no
  // pipe and no semaphore exists; the next pid is 2, and the next file number 3.
  lemma BootEffect()
    ensures var m := Boot();
            && m.k.running == 1 && m.k.procs.Keys == {1} && m.k.queues == [[], [], [], [], [1]]
            && m.k.procs[1] == Pcb(0, Ready, NoBlock, 0, 4, 1, -1, [], false, Outside)
            && m.k.nextPid == 2 && m.k.deathList == [] && m.k.limbo == Nobody
            && (forall s :: s in m.k.blocked ==> m.k.blocked[s] == [])
            && m.f.pipes == [] && m.f.nextId == 3 && m.f.fds.Keys == {1} && m.f.lost == map[1 := []] && m.sems == map[]
  {
    assert 1 in Boot().k.procs;
  }
}
