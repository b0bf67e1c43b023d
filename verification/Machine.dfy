/** The kernel as a transition system: every system call and interrupt that touches
    processes, descriptors or semaphores is one step, up to the point where it blocks. */
module Machine {
  import opened Lists
  import opened Kernel
  import opened KernelSteps
  import Files = OpenFiles
  import Counts = OpenCounts
  import Sems = Semaphore

  datatype Machine = Machine(k: Kernel, f: Files.Files, sems: map<int, Sems.Sem>)

  ghost function Living(k: Kernel): set<nat> {
    set p | p in k.procs && k.procs[p].state != Finished
  }

  // The queue of a semaphore is the set of the processes blocked on it.
  ghost predicate SemHolds(k: Kernel, sems: map<int, Sems.Sem>, id: int)
    requires id in sems
  {
    && Distinct(sems[id].waiters)
    && (sems[id].value > 0 ==> sems[id].waiters == [])
    && forall p :: p in sems[id].waiters <==> BlockedFor(k, p, WaitSem, id)
  }

  ghost predicate SemsHold(k: Kernel, sems: map<int, Sems.Sem>) {
    && (forall id {:trigger SemHolds(k, sems, id)} :: id in sems ==> SemHolds(k, sems, id))
    && (forall p :: p in k.procs && k.procs[p].source == WaitSem ==> k.procs[p].id in sems)
  }

  ghost predicate MInv(m: Machine) {
    Inv(m.k) && Files.Inv(m.f, Living(m.k)) && SemsHold(m.k, m.sems)
  }

  // What a process is given when no table is inherited.
  function StandardTable(): (t: seq<Files.Fd>)
    ensures |t| == Files.MAX_FD_COUNT
    ensures forall i :: 0 <= i < |t| ==> !Files.NamesPipe(t[i]) && (t[i].mode != 'N' || t[i].file <= Files.STDERR)
  {
    [Files.Fd(0, 'R'), Files.Fd(1, 'W'), Files.Fd(2, 'W')] + seq(Files.MAX_FD_COUNT - 3, _ => Files.Closed)
  }

  function Boot(): Machine {
    Machine(BootKernel(), Files.Files(map[INIT := StandardTable()], map[INIT := []], [], 3), map[])
  }

  // startProcess
  function StartWith(m: Machine, parent: nat, priority: nat, dies: bool, table: seq<Files.Fd>): Machine
    requires parent in m.k.procs && |m.k.queues| == PRIORITY_COUNT && priority < PRIORITY_COUNT
  {
    var pid := m.k.nextPid;
    m.(k := Start(m.k, parent, priority, dies),
       f := m.f.(fds := m.f.fds[pid := table], lost := m.f.lost[pid := []],
           pipes := Counts.Inherit(m.f.pipes, table, 0)))
  }

  ghost function WakeReaders(k: Kernel, ids: seq<int>): Kernel
    decreases |ids|
  {
    if ids == [] then k
    else WakeReaders(if PipeRead in k.blocked then UnblockAll(k, PipeRead, ids[0]) else k, ids[1..])
  }

  // What _killProcess needs of its argument, a parent that it finds among them.
  ghost predicate Killable(m: Machine, p: nat) {
    p in m.k.procs && p != INIT && m.k.procs[p].state != Finished && !Orphaned(m.k, p)
  }

  lemma KillReady(m: Machine, p: nat)
    requires MInv(m) && Killable(m, p)
    ensures p in m.f.fds && |m.f.fds[p]| == Files.MAX_FD_COUNT
    ensures var k1 := WakeReaders(m.k, Counts.Wakes(m.f.pipes, m.f.fds[p], 0));
            && Inv(k1) && OnlyWoken(m.k, k1)
            && p in k1.procs && k1.procs[p].state != Finished
            && k1.procs[p].source in k1.blocked && WaitChild in k1.blocked
  {
    assert p in Living(m.k);
    var ids := Counts.Wakes(m.f.pipes, m.f.fds[p], 0);
    WakeReadersInv(m.k, ids);
    var k1 := WakeReaders(m.k, ids);
    assert SourceHolds(k1, k1.procs[p].source) && SourceHolds(k1, WaitChild);
  }

  // Some processes blocked on reading a pipe were made ready, and nothing else changed.
  ghost predicate OnlyWoken(k: Kernel, k': Kernel) {
    && k'.procs.Keys == k.procs.Keys && k'.queues == k.queues && k'.running == k.running
    && k'.deathList == k.deathList && k'.nextPid == k.nextPid && k'.limbo == k.limbo
    && forall p :: p in k.procs ==>
         k'.procs[p] == k.procs[p] || (k.procs[p].state == Blocked && k.procs[p].source == PipeRead &&
             k'.procs[p] == Woken(k.procs[p]))
  }

  lemma {:induction false} WakeReadersInv(k: Kernel, ids: seq<int>)
    requires Inv(k)
    ensures Inv(WakeReaders(k, ids)) && OnlyWoken(k, WakeReaders(k, ids))
    decreases |ids|
  {
    hide Inv;
    if ids != [] {
      UnblockAllInv(k, PipeRead, ids[0]);
      var k1 := UnblockAll(k, PipeRead, ids[0]);
      WakeReadersInv(k1, ids[1..]);
      forall p | p in k.procs
        ensures k1.procs[p] == k.procs[p] || (k.procs[p].state == Blocked && k.procs[p].source == PipeRead &&
                  k1.procs[p] == Woken(k.procs[p]))
      {
        BlockedPart(k);
        UnblockAllWakes(k, PipeRead, ids[0], p);
      }
    }
  }

  lemma BlockedPart(k: Kernel)
    requires Inv(k)
    ensures BlockedListed(k)
  {
  }

  // _killProcess: close the files, leave the death list, wake up, wake the parent, finish.
  ghost function Kill(m: Machine, p: nat): Machine
    requires MInv(m) && Killable(m, p)
  {
    KillReady(m, p);
    var table := m.f.fds[p];
    var k1 := WakeReaders(m.k, Counts.Wakes(m.f.pipes, table, 0));
    m.(k := Finish(LeaveDeathList(k1, p), p), f := m.f.(pipes := Counts.CloseAll(m.f.pipes, table, 0)))
  }

  lemma KillKernel(m: Machine, p: nat)
    requires MInv(m) && Killable(m, p)
    ensures Inv(Kill(m, p).k) && Killed(m.k, Kill(m, p).k, p)
  {
    hide Inv, OnlyWoken, Finish;
    KillReady(m, p);
    var k1 := WakeReaders(m.k, Counts.Wakes(m.f.pipes, m.f.fds[p], 0));
    FinishInv(k1, p);
    KillEffect(m.k, k1, p);
  }

  // p is finished; others may have become ready, from a pipe or from waiting for p.
  ghost predicate Killed(k: Kernel, k': Kernel, p: nat) {
    && k'.procs.Keys == k.procs.Keys && k'.queues == k.queues && k'.running == k.running && k'.nextPid == k.nextPid
    && k'.limbo == k.limbo && p in k.procs && k'.procs[p].state == Finished
    && k'.procs[p].status == k.procs[p].status && k'.procs[p].waiting == k.procs[p].waiting
    && k'.deathList == LeaveDeathList(k, p).deathList
    && forall q :: q in k.procs && q != p ==>
         || k'.procs[q] == k.procs[q]
         || (k'.procs[q] == Woken(k.procs[q]) && k.procs[q].state == Blocked &&
             (k.procs[q].source == PipeRead ||
              (k.procs[q].source == WaitChild && q == k.procs[p].ppid && (k.procs[q].id == p || k.procs[q].id == 0))))
  }

  // Finish changes p, and perhaps the parent that waits for it.
  ghost predicate FinishedWith(k: Kernel, k': Kernel, p: nat)
    requires p in k.procs
  {
    && SameShape(k, k') && k'.procs[p].state == Finished && k'.procs[p].waiting == k.procs[p].waiting
    && forall q :: q in k.procs && q != p ==>
         || k'.procs[q] == k.procs[q]
         || (q == k.procs[p].ppid && k.procs[q].source == WaitChild && (k.procs[q].id == p || k.procs[q].id == 0)
             && k'.procs[q] == Woken(k.procs[q]))
  }

  lemma FinishEffect(k: Kernel, p: nat)
    requires p in k.procs && k.procs[p].source in k.blocked && WaitChild in k.blocked
    requires k.procs[p].ppid in k.procs && k.procs[p].ppid != p
    ensures FinishedWith(k, Finish(k, p), p)
  {
    hide Without, SameShape;
    FinishShape(k, p);
  }

  // _killProcess ends p if and only if it finds the parent of p, which is not so while init
  // collects that parent.
  lemma FinishesIff(k: Kernel, p: nat)
    requires Inv(k) && p in k.procs && p != INIT && k.procs[p].state != Finished
    ensures k.procs[p].source in k.blocked && WaitChild in k.blocked
    ensures Finish(k, p).procs[p].state == Finished <==> !Orphaned(k, p)
  {
    hide Without;
    assert SourceHolds(k, k.procs[p].source) && SourceHolds(k, WaitChild);
    assert HasParent(k, p);
  }

  lemma KillEffect(k: Kernel, k1: Kernel, p: nat)
    requires Inv(k) && Inv(k1) && OnlyWoken(k, k1) && p in k1.procs && p != INIT && k1.procs[p].state != Finished
    requires k1.procs[p].source in k1.blocked && WaitChild in k1.blocked && !Orphaned(k1, p)
    ensures Killed(k, Finish(LeaveDeathList(k1, p), p), p)
  {
    hide Queued, Sane, Mortal, SourceHolds, Finish, Without;
    assert HasParent(k1, p);
    FinishEffect(LeaveDeathList(k1, p), p);
  }
}
