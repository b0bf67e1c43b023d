/** Every step of the kernel keeps scheduler, descriptor and semaphore state in agreement. */
module MachineSteps {
  import opened Options
  import opened Lists
  import opened Kernel
  import opened KernelSteps
  import opened RoundRobin
  import opened Reaping
  import opened Machine
  import Files = OpenFiles
  import Counts = OpenCounts
  import Sems = Semaphore

  // A semaphore queue survives steps that change nobody's wait for a semaphore.
  lemma SemsFrame(k: Kernel, k': Kernel, sems: map<int, Sems.Sem>)
    requires SemsHold(k, sems)
    requires forall p, id :: BlockedFor(k', p, WaitSem, id) <==> BlockedFor(k, p, WaitSem, id)
    requires forall p :: p in k'.procs && k'.procs[p].source == WaitSem ==>
               p in k.procs && k.procs[p].source == WaitSem && k.procs[p].id == k'.procs[p].id
    ensures SemsHold(k', sems)
  {
    forall id | id in sems ensures SemHolds(k', sems, id) {
      assert SemHolds(k, sems, id);
    }
  }

  // Enough for the two frames below: same processes, each as alive and as blocked on a
  // semaphore as before.
  ghost predicate Alike(k: Kernel, k': Kernel) {
    && k'.procs.Keys == k.procs.Keys && k'.nextPid == k.nextPid
    && forall p :: p in k.procs ==>
         && (k'.procs[p].state == Finished <==> k.procs[p].state == Finished)
         && (k'.procs[p].source == WaitSem <==> k.procs[p].source == WaitSem)
         && (k.procs[p].source == WaitSem ==> k'.procs[p].id == k.procs[p].id)
         && (k.procs[p].source == WaitSem ==> (k'.procs[p].state == Blocked <==> k.procs[p].state == Blocked))
         && (k.procs[p].state == Finished ==> k'.procs[p].status == k.procs[p].status)
         && (p != k.running ==> k'.procs[p].waiting == k.procs[p].waiting)
  }

  // What a step cannot do to process p: bring it back from being finished, change the
  // status it finished with, take it out of a wait that is not its own call's, or remove
  // it before it is finished.
  ghost predicate Lasting(k: Kernel, k': Kernel, p: nat)
    requires p in k.procs
  {
    if p in k'.procs then
      && (k.procs[p].state == Finished ==> k'.procs[p].state == Finished && k'.procs[p].status == k.procs[p].status)
      && (p != k.running ==> k'.procs[p].waiting == k.procs[p].waiting)
    else k.procs[p].state == Finished
  }

  // Nor are pids used again.
  ghost predicate Persists(k: Kernel, k': Kernel) {
    && k.nextPid <= k'.nextPid
    && (forall p {:trigger p in k'.procs} :: p < k.nextPid && p in k'.procs ==> p in k.procs)
    && (forall p {:trigger Lasting(k, k', p)} :: p in k.procs ==> Lasting(k, k', p))
  }

  // A step after which init has the children it had, and the same collection under way.
  ghost predicate SameHeirs(k: Kernel, k': Kernel) {
    && INIT in k.procs && INIT in k'.procs
    && k'.procs[INIT].children == k.procs[INIT].children && k'.limbo == k.limbo
  }

  // A step that touches no descriptor and ends nobody.
  ghost predicate SameOpen(m: Machine, r: Machine) {
    r.f == m.f && Living(r.k) == Living(m.k)
  }

  lemma PersistsTwice(k: Kernel, k1: Kernel, k2: Kernel)
    requires Inv(k) && Persists(k, k1) && Persists(k1, k2) && k1.running == k.running
    requires forall p :: p in k1.procs ==> p in k2.procs
    ensures Persists(k, k2)
  {
    PidsBelow(k);
    forall p | p in k.procs ensures Lasting(k, k2, p) {
      assert Lasting(k, k1, p) && (p in k1.procs ==> Lasting(k1, k2, p));
    }
  }

  lemma PidsBelow(k: Kernel)
    requires Inv(k)
    ensures forall p :: p in k.procs ==> p < k.nextPid
  {
  }

  lemma AlikeKeeps(m: Machine, k': Kernel)
    requires MInv(m) && Inv(k') && Alike(m.k, k')
    ensures MInv(m.(k := k')) && Persists(m.k, k') && Living(k') == Living(m.k)
  {
    hide Inv, Files.Inv;
    assert forall p :: p in k'.procs <==> p in k'.procs.Keys;
    forall p | p in m.k.procs ensures Lasting(m.k, k', p) {
    }
    SemsFrame(m.k, k', m.sems);
    assert Living(k') == Living(m.k);
  }

  ghost function Ticked(m: Machine): (r: Machine)
    requires MInv(m)
    ensures MInv(r) && Persists(m.k, r.k)
    ensures forall p :: p in m.k.procs <==> p in r.k.procs
    ensures SameHeirs(m.k, r.k)
    ensures SameOpen(m, r)
  {
    hide Tick, Inv, Files.Inv;
    ActiveParts(m);
    TickInv(m.k);
    AlikeKeeps(m, Tick(m.k));
    m.(k := Tick(m.k))
  }

  lemma ActiveParts(m: Machine)
    requires MInv(m)
    ensures Inv(m.k) && BlockedListed(m.k) && m.k.running in m.k.procs && INIT in m.k.procs
    ensures m.k.running in Living(m.k) ==>
              m.k.running in m.f.fds && |m.f.fds[m.k.running]| == Files.MAX_FD_COUNT && m.k.running in m.f.lost
  {
  }

  ghost function Yielded(m: Machine): (r: Machine)
    requires MInv(m)
    ensures MInv(r) && Persists(m.k, r.k)
    ensures SameHeirs(m.k, r.k)
    ensures SameOpen(m, r)
  {
    hide Tick, Inv, Files.Inv;
    ActiveParts(m);
    SpentInv(m.k);
    AlikeKeeps(m, Spent(m.k));
    var r := Ticked(m.(k := Spent(m.k)));
    PersistsTwice(m.k, Spent(m.k), r.k);
    r
  }

  // A process other than init blocks for a pipe, or is asked to block.
  ghost function BlockedOn(m: Machine, p: nat, s: Source, id: int): (r: Machine)
    requires MInv(m) && p in m.k.procs && p != INIT && m.k.procs[p].state == Ready
    requires s == AskedTo || s == PipeRead || s == PipeWrite
    ensures MInv(r) && Persists(m.k, r.k) && r.k.running == m.k.running
    ensures SameHeirs(m.k, r.k)
    ensures SameOpen(m, r)
  {
    hide Inv, Files.Inv;
    ActiveParts(m);
    BlockInv(m.k, p, s, id);
    AlikeKeeps(m, Block(m.k, p, s, id));
    m.(k := Block(m.k, p, s, id))
  }

  ghost function WokenAll(m: Machine, s: Source, id: int): (r: Machine)
    requires MInv(m) && (s == PipeRead || s == PipeWrite)
    ensures MInv(r) && Persists(m.k, r.k) && r.k.running == m.k.running
    ensures SameHeirs(m.k, r.k)
    ensures SameOpen(m, r)
  {
    hide Inv, Files.Inv;
    ActiveParts(m);
    UnblockAllInv(m.k, s, id);
    UnblockAllAlike(m.k, s, id);
    AlikeKeeps(m, UnblockAll(m.k, s, id));
    m.(k := UnblockAll(m.k, s, id))
  }

  lemma UnblockAllAlike(k: Kernel, s: Source, id: int)
    requires BlockedListed(k) && (s == PipeRead || s == PipeWrite)
    ensures s in k.blocked && Alike(k, UnblockAll(k, s, id))
  {
    assert SourceHolds(k, s);
    forall p | p in k.procs
      ensures UnblockAll(k, s, id).procs[p] == if BlockedFor(k, p, s, id) then Woken(k.procs[p]) else k.procs[p]
    {
      UnblockAllWakes(k, s, id, p);
    }
  }

  // blockProcess: blocks a ready process, lets one go that was asked to block before.
  ghost function Toggled(m: Machine, p: nat): (r: Machine)
    requires MInv(m)
    ensures MInv(r) && Persists(m.k, r.k)
    ensures SameHeirs(m.k, r.k)
    ensures SameOpen(m, r)
  {
    hide Inv, Files.Inv, Tick;
    ActiveParts(m);
    if p == INIT then m
    else if p in m.k.procs && m.k.procs[p].state == Ready then
      var m1 := BlockedOn(m, p, AskedTo, 0);
      PersistsTwice(m.k, m1.k, Ticked(m1).k);
      Ticked(m1)
    else if BlockedFor(m.k, p, AskedTo, 0) then
      UnblockInv(m.k, p, AskedTo);
      AlikeKeeps(m, Unblock(m.k, p, AskedTo));
      m.(k := Unblock(m.k, p, AskedTo))
    else m
  }

  ghost function Reprioritised(m: Machine, p: nat, priority: nat): (r: Machine)
    requires MInv(m)
    ensures MInv(r) && Persists(m.k, r.k) && r.k.running == m.k.running
    ensures SameHeirs(m.k, r.k)
    ensures SameOpen(m, r)
  {
    hide Inv, Files.Inv;
    ActiveParts(m);
    if priority < PRIORITY_COUNT && p in m.k.procs then
      ReprioritiseInv(m.k, p, priority);
      PrioritiesFit(m.k, p);
      AlikeKeeps(m, Reprioritise(m.k, p, priority));
      m.(k := Reprioritise(m.k, p, priority))
    else m
  }

  lemma PrioritiesFit(k: Kernel, p: nat)
    requires Inv(k) && p in k.procs
    ensures |k.queues| == PRIORITY_COUNT && k.procs[p].priority < PRIORITY_COUNT && INIT in k.procs
  {
  }

  // A table that a new process may inherit: those of living processes are of this kind.
  ghost predicate Inheritable(m: Machine, table: seq<Files.Fd>) {
    && Files.Tidy(table, [])
    && forall j :: 0 <= j < |table| && Files.NamesPipe(table[j]) ==> Files.HasPipe(m.f.pipes, table[j].file)
  }

  lemma LivingInheritable(m: Machine, p: nat)
    requires MInv(m) && p in Living(m.k)
    ensures p in m.f.fds && Inheritable(m, m.f.fds[p])
  {
    var table := m.f.fds[p];
    assert Files.Tidy(table, m.f.lost[p]);
    forall j | 0 <= j < |table| && Files.NamesPipe(table[j])
      ensures Files.HasPipe(m.f.pipes, table[j].file)
    {
      Files.IsOpen(m.f.fds, Living(m.k), Files.End(p, j, table[j]));
    }
  }

  ghost function Started(m: Machine, parent: nat, priority: nat, dies: bool, table: seq<Files.Fd>): (r: Machine)
    requires MInv(m) && parent in m.k.procs && m.k.procs[parent].state == Ready && parent < 256
    requires priority < PRIORITY_COUNT && Inheritable(m, table)
    ensures MInv(r) && Persists(m.k, r.k) && r.k.running == m.k.running
    ensures Grown(m.k, r.k, if parent == INIT then [m.k.nextPid] else [])
  {
    hide Inv, Files.Inv;
    ActiveParts(m);
    PrioritiesFit(m.k, parent);
    StartInv(m.k, parent, priority, dies);
    StartSems(m.k, m.sems, parent, priority, dies);
    StartFiles(m, parent, priority, dies, table);
    StartPersists(m.k, parent, priority, dies);
    StartWith(m, parent, priority, dies, table)
  }

  lemma StartPersists(k: Kernel, parent: nat, priority: nat, dies: bool)
    requires Inv(k) && parent in k.procs && |k.queues| == PRIORITY_COUNT && priority < PRIORITY_COUNT
    ensures Persists(k, Start(k, parent, priority, dies))
  {
    hide Inv;
    FreshPid(k);
    forall p | p in k.procs ensures Lasting(k, Start(k, parent, priority, dies), p) {
    }
  }

  lemma StartSems(k: Kernel, sems: map<int, Sems.Sem>, parent: nat, priority: nat, dies: bool)
    requires Inv(k) && SemsHold(k, sems) && parent in k.procs && |k.queues| == PRIORITY_COUNT &&
               priority < PRIORITY_COUNT
    ensures SemsHold(Start(k, parent, priority, dies), sems)
  {
    FreshPid(k);
    SemsFrame(k, Start(k, parent, priority, dies), sems);
  }

  lemma FreshPid(k: Kernel)
    requires Inv(k)
    ensures k.nextPid !in k.procs
  {
  }

  lemma StartFiles(m: Machine, parent: nat, priority: nat, dies: bool, table: seq<Files.Fd>)
    requires MInv(m) && parent in m.k.procs && |m.k.queues| == PRIORITY_COUNT && priority < PRIORITY_COUNT &&
               Inheritable(m, table)
    ensures var m' := StartWith(m, parent, priority, dies, table); Files.Inv(m'.f, Living(m'.k))
  {
    hide Inv, Files.Tally, Counts.Inherit, Files.NamesPipe;
    FreshPid(m.k);
    var pid, live := m.k.nextPid, Living(m.k);
    var m' := StartWith(m, parent, priority, dies, table);
    assert Living(m'.k) == live + {pid};
    OpenOfNew(m.f.fds, live, pid, table);
    Counts.InheritTally(m.f.pipes, Files.Open(m.f.fds, live), pid, table, 0);
    Counts.InheritIds(m.f.pipes, table, 0);
  }

  lemma OpenOfNew(fds: map<nat, seq<Files.Fd>>, live: set<nat>, pid: nat, table: seq<Files.Fd>)
    requires pid !in live
    ensures Files.Open(fds[pid := table], live + {pid}) == Files.Open(fds, live) + Counts.TableEnds(pid, table, 0)
    ensures Files.Open(fds, live) !! Counts.TableEnds(pid, table, 0)
  {
    forall x
      ensures x in Files.Open(fds[pid := table], live + {pid}) <==>
                x in Files.Open(fds, live) + Counts.TableEnds(pid, table, 0)
    {
      Files.IsOpen(fds[pid := table], live + {pid}, x);
      Files.IsOpen(fds, live, x);
    }
  }

  // The kill leaves descriptors and counts exact for the processes that live on.
  lemma KillFiles(m: Machine, p: nat)
    requires MInv(m) && Killable(m, p)
    ensures Files.Inv(Kill(m, p).f, Living(Kill(m, p).k))
  {
    hide Inv, Files.Tally, Counts.CloseAll, Finish, WakeReaders;
    KillKernel(m, p);
    KillReady(m, p);
    var live, table := Living(m.k), m.f.fds[p];
    var m' := Kill(m, p);
    assert forall q :: q in m'.k.procs <==> q in m'.k.procs.Keys;
    assert Living(m'.k) == live - {p};
    OpenOfOld(m.f.fds, live, p);
    Counts.CloseAllTally(m.f.pipes, Files.Open(m.f.fds, live - {p}), p, table, 0);
    CloseAllIds(m.f.pipes, table, 0, m.f.nextId);
  }

  lemma OpenOfOld(fds: map<nat, seq<Files.Fd>>, live: set<nat>, p: nat)
    requires p in live && p in fds
    ensures Files.Open(fds, live) == Files.Open(fds, live - {p}) + Counts.TableEnds(p, fds[p], 0)
    ensures Files.Open(fds, live - {p}) !! Counts.TableEnds(p, fds[p], 0)
  {
    forall x
      ensures x in Files.Open(fds, live) <==> x in Files.Open(fds, live - {p}) + Counts.TableEnds(p, fds[p], 0)
    {
      Files.IsOpen(fds, live, x);
      Files.IsOpen(fds, live - {p}, x);
    }
    forall x | x in Files.Open(fds, live - {p}) ensures x !in Counts.TableEnds(p, fds[p], 0) {
      Files.IsOpen(fds, live - {p}, x);
    }
  }

  lemma {:induction false} CloseAllIds(pipes: seq<Files.Pipe>, table: seq<Files.Fd>, i: nat, bound: int)
    requires i <= |table| && forall j :: 0 <= j < |pipes| ==> pipes[j].id < bound
    ensures forall j :: 0 <= j < |Counts.CloseAll(pipes, table, i)| ==> Counts.CloseAll(pipes, table, i)[j].id < bound
    decreases |table| - i
  {
    if i < |table| {
      CloseAllIds(if Files.NamesPipe(table[i]) then Files.Release(pipes, table[i]) else pipes, table, i + 1, bound);
    }
  }

  // A killed process stays in the queue of the semaphore that it waits for: the queues
  // agree with the processes after the kill if and only if it waited for none.
  lemma KillSemsIff(m: Machine, p: nat)
    requires MInv(m) && Killable(m, p)
    ensures SemsHold(Kill(m, p).k, m.sems) <==> m.k.procs[p].source != WaitSem
  {
    hide Inv, Files.Inv, Finish, WakeReaders, Distinct;
    var k' := Kill(m, p).k;
    ActiveParts(m);
    KillKernel(m, p);
    BlockedPart(k');
    assert forall q :: q in k'.procs <==> q in k'.procs.Keys;
    if m.k.procs[p].source == WaitSem {
      var id := m.k.procs[p].id;
      assert SemHolds(m.k, m.sems, id) && p in m.sems[id].waiters;
      assert !SemHolds(k', m.sems, id);
    } else {
      SemsFrame(m.k, k', m.sems);
    }
  }

  lemma KilledPersists(k: Kernel, k': Kernel, p: nat)
    requires Killed(k, k', p) && k.procs[p].state != Finished
    ensures Persists(k, k')
  {
    assert forall q :: q in k'.procs <==> q in k'.procs.Keys;
    forall q | q in k.procs ensures Lasting(k, k', q) {
    }
  }

  ghost function KilledM(m: Machine, p: nat): (r: Machine)
    requires MInv(m) && Killable(m, p) && m.k.procs[p].source != WaitSem
    ensures MInv(r) && Persists(m.k, r.k) && r.k.running == m.k.running
    ensures Killed(m.k, r.k, p)
    ensures SameHeirs(m.k, r.k)
    ensures r.f.fds == m.f.fds && r.sems == m.sems
  {
    hide Inv, Files.Inv, Finish, WakeReaders, SemsHold;
    KillKernel(m, p);
    KillFiles(m, p);
    KillSemsIff(m, p);
    KilledPersists(m.k, Kill(m, p).k, p);
    Kill(m, p)
  }

  // exit's first line: the status is there before the kill.
  ghost function WithStatus(m: Machine, p: nat, status: int): (r: Machine)
    requires MInv(m) && p in m.k.procs && m.k.procs[p].state != Finished
    ensures MInv(r) && Persists(m.k, r.k) && r.k.running == m.k.running
    ensures SameHeirs(m.k, r.k)
    ensures SameOpen(m, r)
  {
    hide Inv, Files.Inv;
    var k' := m.k.(procs := m.k.procs[p := m.k.procs[p].(status := status)]);
    StatusInv(m.k, p, status);
    AlikeKeeps(m, k');
    m.(k := k')
  }

  lemma StatusInv(k: Kernel, p: nat, status: int)
    requires Inv(k) && p in k.procs
    ensures Inv(k.(procs := k.procs[p := k.procs[p].(status := status)]))
  {
    var k' := k.(procs := k.procs[p := k.procs[p].(status := status)]);
    QueuedFrame(k, k');
    FamilyFrame(k, k');
    SaneFrame(k, k');
    MortalFrame(k, k');
    ListsFrame(k, k');
    WaitsFrame(k, k');
  }

  // The process on the CPU, in a system call of its own.
  ghost predicate Active(m: Machine) {
    && m.k.running in m.k.procs && m.k.procs[m.k.running].state == Ready
    && m.k.procs[m.k.running].waiting == Outside
  }

  // waitchild(c) as a system call, up to the point where it returns or blocks.
  ghost function Waited(m: Machine, c: nat): (r: Machine)
    requires MInv(m) && Active(m) && m.k.running != INIT
    ensures MInv(r) && Persists(m.k, r.k)
    ensures Grown(m.k, r.k, if Collects(m.k, c).Some? then m.k.procs[Collects(m.k, c).value].children else [])
    ensures SameOpen(m, r)
  {
    hide Inv, Files.Inv, Tick, WaitFor, Target;
    var p := m.k.running;
    var t := Target(m.k, p, c);
    PersistsSelf(m.k);
    if t == None then m
    else
      ChildPresent(m.k, p, t.value);
      if m.k.procs[t.value].state == Finished then Buried(m, p, t.value)
      else
        ActiveParts(m);
        WaitForInv(m.k, p, c, t.value);
        WaitForAlike(m.k, p, c, t.value);
        AlikeKeeps(m, WaitFor(m.k, p, c, t.value));
        var r := Ticked(m.(k := WaitFor(m.k, p, c, t.value)));
        PersistsTwice(m.k, WaitFor(m.k, p, c, t.value), r.k);
        r
  }

  // The child that waitchild(c) of the running process collects at once.
  ghost function Collects(k: Kernel, c: nat): (t: Option<nat>)
    requires Inv(k)
    ensures t.Some? ==> t.value in k.procs
  {
    var t := Target(k, k.running, c);
    if t.Some? && t.value in k.procs && k.procs[t.value].state == Finished then t else None
  }

  // init's children have grown by xs at the end.
  ghost predicate Grown(k: Kernel, k': Kernel, xs: seq<nat>) {
    && INIT in k.procs && INIT in k'.procs
    && k'.procs[INIT].children == k.procs[INIT].children + xs && k'.limbo == k.limbo
  }

  lemma SameGrown(k: Kernel, k': Kernel)
    requires SameHeirs(k, k')
    ensures Grown(k, k', [])
  {
  }

  lemma WaitForAlike(k: Kernel, p: nat, c: nat, t: nat)
    requires p in k.procs && p == k.running && k.procs[p].state == Ready && k.procs[p].source != WaitSem &&
               WaitChild in k.blocked
    ensures Alike(k, WaitFor(k, p, c, t)) && WaitFor(k, p, c, t).running == k.running
  {
  }

  lemma PersistsSelf(k: Kernel)
    ensures Persists(k, k)
  {
    forall p | p in k.procs ensures Lasting(k, k, p) {
    }
  }

  lemma ChildPresent(k: Kernel, p: nat, c: nat)
    requires Inv(k) && p in k.procs && c in k.procs[p].children
    ensures c in k.procs && c != INIT && k.procs[c].ppid == p && c != p
    ensures k.procs[c].state == Finished ==> k.procs[c].source == NoBlock
  {
    assert HasChildren(k, p);
    assert p != INIT ==> HasParent(k, p);
  }

  ghost function Buried(m: Machine, p: nat, c: nat): (r: Machine)
    requires MInv(m) && p in m.k.procs && p == m.k.running && m.k.procs[p].state == Ready && p != INIT
    requires c in m.k.procs[p].children && c in m.k.procs && m.k.procs[c].state == Finished
    requires m.k.procs[p].waiting == Outside || (m.k.procs[p].waiting.Inside? && m.k.procs[p].waiting.child == c)
    ensures MInv(r) && Persists(m.k, r.k) && r.k.running == m.k.running
    ensures Grown(m.k, r.k, m.k.procs[c].children)
    ensures SameOpen(m, r)
  {
    hide Inv, Files.Inv;
    ChildPresent(m.k, p, c);
    PrioritiesFit(m.k, c);
    BuryInv(m.k, p, c);
    BuryAlike(m.k, p, c);
    SemsFrame(m.k, Bury(m.k, p, c), m.sems);
    assert Living(Bury(m.k, p, c)) == Living(m.k);
    BuryPersists(m.k, p, c);
    m.(k := Bury(m.k, p, c))
  }

  lemma BuryPersists(k: Kernel, p: nat, c: nat)
    requires p in k.procs && p == k.running && c in k.procs && INIT in k.procs && |k.queues| == PRIORITY_COUNT &&
               k.procs[c].priority < PRIORITY_COUNT
    requires k.procs[c].state == Finished
    ensures Persists(k, Bury(k, p, c))
  {
    forall q | q in k.procs ensures Lasting(k, Bury(k, p, c), q) {
    }
  }

  lemma BuryAlike(k: Kernel, p: nat, c: nat)
    requires p in k.procs && c in k.procs && INIT in k.procs && |k.queues| == PRIORITY_COUNT &&
               k.procs[c].priority < PRIORITY_COUNT
    ensures var k' := Bury(k, p, c);
            && (forall q :: q in k'.procs <==> q in k.procs && q != c)
            && forall q :: q in k'.procs ==>
                 && k'.procs[q].state == k.procs[q].state && k'.procs[q].source == k.procs[q].source
                 && k'.procs[q].id == k.procs[q].id
  {
  }

  // waitchild where it resumes after having blocked, when its child is finished.
  ghost function Resumed(m: Machine): (r: Machine)
    requires MInv(m) && CanResume(m)
    ensures MInv(r) && Persists(m.k, r.k) && r.k.running == m.k.running
    ensures Grown(m.k, r.k, m.k.procs[m.k.procs[m.k.running].waiting.child].children)
    ensures SameOpen(m, r)
  {
    hide Files.Inv, SemsHold, Queued, Family, Mortal, SourceHolds;
    assert WaitsWell(m.k, m.k.running);
    Buried(m, m.k.running, m.k.procs[m.k.running].waiting.child)
  }

  ghost predicate CanResume(m: Machine) {
    && m.k.running in m.k.procs && m.k.procs[m.k.running].state == Ready
    && var w := m.k.procs[m.k.running].waiting;
       w.Inside? && w.child in m.k.procs && m.k.procs[w.child].state == Finished
  }

  // init begins to collect its finished child c.
  ghost function ReapBegun(m: Machine, c: nat): (r: Machine)
    requires MInv(m) && CanReap(m.k, c)
    ensures MInv(r) && Persists(m.k, r.k) && r.k.running == m.k.running
    ensures SameOpen(m, r)
  {
    hide Inv, Files.Inv;
    ReapInv(m.k, c);
    ReapAlike(m.k, c);
    SemsFrame(m.k, Reap(m.k, c), m.sems);
    assert Living(Reap(m.k, c)) == Living(m.k);
    m.(k := Reap(m.k, c))
  }

  lemma ReapAlike(k: Kernel, c: nat)
    requires Inv(k) && CanReap(k, c)
    ensures var k' := Reap(k, c);
            && (forall q :: q in k'.procs <==> q in k.procs && q != c)
            && (forall q :: q in k'.procs ==> k'.procs[q] == k.procs[q].(children := k'.procs[q].children))
            && Persists(k, k')
  {
    hide Queued, BlockedListed, Mortal, Sane, Without, HasParent;
    ReapParts(k, c);
    var k' := Reap(k, c);
    forall q | q in k.procs ensures Lasting(k, k', q) {
    }
  }

  // init ends the collection, when nobody has come behind the end of its children.
  ghost function ReapEnded(m: Machine): (r: Machine)
    requires MInv(m) && INIT in m.k.procs && SameEnd(m.k)
    ensures MInv(r) && Persists(m.k, r.k) && r.k.running == m.k.running
    ensures SameOpen(m, r)
  {
    hide Inv, Files.Inv;
    AdoptKeepsIff(m.k);
    AdoptAlike(m.k);
    AlikeKeeps(m, Adopt(m.k));
    m.(k := Adopt(m.k))
  }

  lemma AdoptAlike(k: Kernel)
    requires k.limbo.Reaped? && INIT in k.procs
    ensures Alike(k, Adopt(k))
  {
  }

  // A step that changes no more than whether one living process is blocked.
  lemma OneChanged(k: Kernel, k': Kernel, p: nat)
    requires p in k.procs && k.procs[p].state != Finished && k'.nextPid == k.nextPid
    requires p in k'.procs && k'.procs == k.procs[p := k'.procs[p]]
    requires k'.procs[p].waiting == k.procs[p].waiting
    ensures Persists(k, k')
  {
    forall q | q in k.procs ensures Lasting(k, k', q) {
    }
  }

  // initializeSemaphore for a new name.
  ghost function SemCreated(m: Machine, id: int, value: nat): (r: Machine)
    requires MInv(m) && id !in m.sems
    ensures MInv(r) && Persists(m.k, r.k) && r.k.running == m.k.running
    ensures SameHeirs(m.k, r.k)
    ensures SameOpen(m, r)
  {
    hide Inv, Files.Inv, Distinct;
    ActiveParts(m);
    var sems := m.sems[id := Sems.Sem(value, [])];
    SemCreatedHolds(m.k, m.sems, id, value);
    m.(sems := sems)
  }

  lemma SemCreatedHolds(k: Kernel, sems: map<int, Sems.Sem>, id: int, value: nat)
    requires SemsHold(k, sems) && id !in sems
    ensures SemsHold(k, sems[id := Sems.Sem(value, [])])
  {
    var sems' := sems[id := Sems.Sem(value, [])];
    forall i | i in sems' ensures SemHolds(k, sems', i) {
      assert i in sems ==> SemHolds(k, sems, i);
    }
  }

  // waitSem up to the point where it returns or blocks.
  ghost function SemWaited(m: Machine, id: int): (r: Machine)
    requires MInv(m) && Active(m) && m.k.running != INIT
    ensures MInv(r) && Persists(m.k, r.k)
    ensures SameHeirs(m.k, r.k)
    ensures SameOpen(m, r)
  {
    hide Inv, Files.Inv, Tick;
    ActiveParts(m);
    if id !in m.sems then m
    else
      var (s, passed) := Sems.Wait(m.sems[id], m.k.running);
      if passed then
        SemPassed(m.k, m.sems, id);
        m.(sems := m.sems[id := s])
      else
        BlockInv(m.k, m.k.running, WaitSem, id);
        SemBlocked(m.k, m.sems, id);
        var k1 := Block(m.k, m.k.running, WaitSem, id);
        assert Living(k1) == Living(m.k);
        OneChanged(m.k, k1, m.k.running);
        var r := Ticked(Machine(k1, m.f, m.sems[id := s]));
        PersistsTwice(m.k, k1, r.k);
        r
  }

  lemma SemPassed(k: Kernel, sems: map<int, Sems.Sem>, id: int)
    requires SemsHold(k, sems) && id in sems && sems[id].value > 0
    ensures SemsHold(k, sems[id := sems[id].(value := sems[id].value - 1)])
  {
    var sems' := sems[id := sems[id].(value := sems[id].value - 1)];
    forall i | i in sems' ensures SemHolds(k, sems', i) {
      assert SemHolds(k, sems, i);
    }
  }

  lemma SemBlocked(k: Kernel, sems: map<int, Sems.Sem>, id: int)
    requires SemsHold(k, sems) && id in sems && sems[id].value == 0
    requires k.running in k.procs && k.procs[k.running].state == Ready && WaitSem in k.blocked
    ensures SemsHold(Block(k, k.running, WaitSem, id), sems[id := Sems.Wait(sems[id], k.running).0])
  {
    var k' := Block(k, k.running, WaitSem, id);
    var sems' := sems[id := Sems.Wait(sems[id], k.running).0];
    forall i | i in sems' ensures SemHolds(k', sems', i) {
      assert SemHolds(k, sems, i);
      if i == id {
        DistinctCons(k.running, sems[id].waiters);
      }
    }
  }

  // postSem
  ghost function SemPosted(m: Machine, id: int): (r: Machine)
    requires MInv(m)
    ensures MInv(r) && Persists(m.k, r.k) && r.k.running == m.k.running
    ensures SameHeirs(m.k, r.k)
    ensures SameOpen(m, r)
  {
    hide Inv, Files.Inv;
    ActiveParts(m);
    if id !in m.sems then m
    else
      var (s, woken) := Sems.Post(m.sems[id]);
      if woken == None then
        SemCounted(m.k, m.sems, id);
        m.(sems := m.sems[id := s])
      else
        SemHanded(m.k, m.sems, id);
        UnblockInv(m.k, woken.value, WaitSem);
        assert Living(Unblock(m.k, woken.value, WaitSem)) == Living(m.k);
        OneChanged(m.k, Unblock(m.k, woken.value, WaitSem), woken.value);
        Machine(UnblockIf(m.k, woken.value, WaitSem, id), m.f, m.sems[id := s])
  }

  lemma SemCounted(k: Kernel, sems: map<int, Sems.Sem>, id: int)
    requires SemsHold(k, sems) && id in sems && Sems.Post(sems[id]).1 == None
    ensures SemsHold(k, sems[id := Sems.Post(sems[id]).0])
  {
    var sems' := sems[id := Sems.Post(sems[id]).0];
    forall i | i in sems' ensures SemHolds(k, sems', i) {
      assert SemHolds(k, sems, i);
    }
  }

  // The oldest waiter is blocked on the semaphore, so it is the one that gets ready.
  lemma SemHanded(k: Kernel, sems: map<int, Sems.Sem>, id: int)
    requires SemsHold(k, sems) && id in sems && Sems.Post(sems[id]).1.Some? && BlockedListed(k)
    ensures var p := Sems.Post(sems[id]).1.value;
            && BlockedFor(k, p, WaitSem, id) && WaitSem in k.blocked
            && SemsHold(Unblock(k, p, WaitSem), sems[id := Sems.Post(sems[id]).0])
  {
    var w := sems[id].waiters;
    var p := w[|w| - 1];
    var rest := w[..|w| - 1];
    assert SourceHolds(k, WaitSem) && SemHolds(k, sems, id) && p in w;
    assert w == rest + [p];
    assert p !in rest;
    assert forall q :: q in rest <==> q in w && q != p;
    var k' := Unblock(k, p, WaitSem);
    var sems' := sems[id := Sems.Post(sems[id]).0];
    forall i | i in sems' ensures SemHolds(k', sems', i) {
      assert SemHolds(k, sems, i);
      forall q ensures BlockedFor(k', q, WaitSem, i) <==> BlockedFor(k, q, WaitSem, i) && q != p {
      }
    }
  }
}
