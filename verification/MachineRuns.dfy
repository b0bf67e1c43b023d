/** All steps together, whole runs of the kernel, and what holds along them. */
module MachineRuns {
  import opened Lists
  import opened Kernel
  import opened KernelSteps
  import opened RoundRobin
  import opened Reaping
  import opened Machine
  import opened MachineSteps
  import Files = OpenFiles
  import Counts = OpenCounts

  datatype Action =
    | Timer
    | Yield
    | StartChild(dies: bool)
    | StartParent(priority: nat, copyFrom: nat)
    | BlockPid(pid: nat)
    | KillPid(pid: nat)
    | Exit(status: int)
    | WaitPid(pid: nat)
    | ResumeWait
    | BeginReap(pid: nat)
    | EndReap
    | SetPriority(pid: nat, priority: nat)
    | BlockSelf(source: Source, id: int)
    | WakeAll(source: Source, id: int)
    | SemCreate(id: int, value: nat)
    | SemWait(id: int)
    | SemPost(id: int)
    | MkPipe(name: string, seen: string)
    | OpenEnd(name: string, mode: char)
    | CloseEnd(fd: nat)
    | DupTo(from: nat, to: nat)
    | Restore
    | Escape

  // When a step can be taken. Where the C code would lose track of its own state (parents
  // from pid 256 on, tables of finished processes, killing a finished process, one that waits
  // for a semaphore or one whose parent is being collected, dup2 over a pipe end, a resumed
  // waitchild whose child is alive, a collection by init behind whose back init has got more
  // children), the step is not part of the runs; the lemmas named ...Iff say exactly what goes
  // wrong there. Keys wake the readers of standard input at any time.
  ghost predicate Enabled(m: Machine, a: Action)
    requires MInv(m)
  {
    match a
    case Timer => true
    case Escape => CanEscape(m.k)
    case WakeAll(s, id) => (s == PipeRead && id == 0) || (Calling(m) && (s == PipeRead || s == PipeWrite))
    case ResumeWait => CanResume(m)
    case BeginReap(c) => CanReap(m.k, c)
    case EndReap => m.k.running == INIT && INIT in m.k.procs && SameEnd(m.k)
    case _ =>
      if m.k.running == INIT then a.StartParent? && FirstStart(m.k, a.priority) else Calling(m) && Callable(m, a)
  }

  // init makes no system calls. The first process is started by the boot code, before init
  // has run.
  ghost predicate FirstStart(k: Kernel, priority: nat) {
    k.nextPid == INIT + 1 && INIT in k.procs && priority < PRIORITY_COUNT
  }

  // The process on the CPU is in a system call of its own.
  ghost predicate Calling(m: Machine) {
    Active(m) && m.k.running != INIT
  }

  ghost predicate CanEscape(k: Kernel) {
    forall p :: p in k.deathList ==> p in k.procs && k.procs[p].source != WaitSem && !Orphaned(k, p)
  }

  // The calls a process can make while it has the CPU.
  ghost predicate Callable(m: Machine, a: Action) {
    var r := m.k.running;
    match a
    case StartChild(_) => r < 256
    case StartParent(priority, from) => priority < PRIORITY_COUNT &&
        (from in m.k.procs ==> m.k.procs[from].state != Finished)
    case KillPid(p) => p in m.k.procs ==>
        m.k.procs[p].state != Finished && m.k.procs[p].source != WaitSem && !Orphaned(m.k, p)
    case Exit(_) => !Orphaned(m.k, r)
    case BlockSelf(s, _) => s == PipeRead || s == PipeWrite
    case SemCreate(id, _) => id !in m.sems
    case DupTo(_, to) => to <= Files.STDERR && r in m.f.fds && |m.f.fds[r]| == Files.MAX_FD_COUNT &&
        !Files.NamesPipe(m.f.fds[r][to])
    case _ => true
  }

  // killAllInDeathList
  ghost function Escaped(m: Machine): (r: Machine)
    requires MInv(m) && CanEscape(m.k)
    ensures MInv(r) && Persists(m.k, r.k) && r.k.running == m.k.running && r.k.procs.Keys == m.k.procs.Keys
    ensures SameHeirs(m.k, r.k) && EndedAll(m.k, r.k, m.k.deathList) && r.f.fds == m.f.fds
    decreases |m.k.deathList|
  {
    hide Inv, Files.Inv, Killed, Distinct, EndedAll;
    ActiveParts(m);
    EndedNone(m.k);
    if m.k.deathList == [] then m
    else
      var p := m.k.deathList[0];
      var m1 := Reprieved(m);
      ReprievedEscape(m, m1);
      var m2 := KilledM(m1, p);
      KilledDeathList(m1.k, m2.k, p);
      var r := Escaped(m2);
      ActiveParts(m1);
      SameKeysPersist(m.k, m1.k, m2.k, r.k, p);
      EndedFirst(m.k, m1.k, m2.k, r.k, m.k.deathList);
      r
  }

  // Those of the list are finished now, and of the others nobody who was not.
  ghost predicate EndedAll(k: Kernel, k': Kernel, list: seq<nat>) {
    forall q :: q in k.procs ==>
      q in k'.procs && (k'.procs[q].state == Finished <==> q in list || k.procs[q].state == Finished)
  }

  lemma EndedNone(k: Kernel)
    ensures EndedAll(k, k, [])
  {
  }

  lemma EndedFirst(k: Kernel, k1: Kernel, k2: Kernel, k3: Kernel, list: seq<nat>)
    requires list != [] && EndedAll(k, k1, []) && Killed(k1, k2, list[0]) && EndedAll(k2, k3, list[1..])
    ensures EndedAll(k, k3, list)
  {
    assert forall q :: q in k2.procs <==> q in k2.procs.Keys;
    assert list == [list[0]] + list[1..];
  }

  lemma SameKeysPersist(k: Kernel, k1: Kernel, k2: Kernel, k3: Kernel, p: nat)
    requires Inv(k) && Inv(k1) && Inv(k2) && Persists(k, k1) && k1.procs.Keys == k.procs.Keys && k1.running == k.running
    requires Killed(k1, k2, p) && Persists(k1, k2) && Persists(k2, k3) && k3.procs.Keys == k2.procs.Keys
    ensures Persists(k, k3) && k3.procs.Keys == k.procs.Keys
  {
    assert forall q :: q in k2.procs <==> q in k2.procs.Keys;
    assert forall q :: q in k3.procs <==> q in k3.procs.Keys;
    assert forall q :: q in k1.procs <==> q in k1.procs.Keys;
    PersistsTwice(k, k1, k2);
    PersistsTwice(k, k2, k3);
  }

  // The first process of the death list, no longer on it.
  ghost function Reprieved(m: Machine): (r: Machine)
    requires MInv(m) && m.k.deathList != []
    ensures MInv(r) && Persists(m.k, r.k) && r.k.running == m.k.running && r.k.deathList == m.k.deathList[1..] &&
              r.k.procs.Keys == m.k.procs.Keys && SameHeirs(m.k, r.k) && EndedAll(m.k, r.k, [])
    ensures var p := m.k.deathList[0];
            p in r.k.procs && r.k.procs[p].state != Finished && p != INIT && !r.k.procs[p].inDeathList
    ensures forall q :: q in m.k.procs ==> r.k.procs[q].source == m.k.procs[q].source
    ensures SameOpen(m, r)
  {
    var p := m.k.deathList[0];
    assert p in m.k.deathList;
    var k' := m.k.(deathList := m.k.deathList[1..], procs := m.k.procs[p := m.k.procs[p].(inDeathList := false)]);
    ReprievedInv(m.k, k', p);
    AlikeKeeps(m, k');
    m.(k := k')
  }

  lemma ReprievedEscape(m: Machine, m1: Machine)
    requires MInv(m) && m.k.deathList != [] && m1 == Reprieved(m) && CanEscape(m.k)
    ensures CanEscape(m1.k) && m.k.deathList[0] !in m1.k.deathList && Killable(m1, m.k.deathList[0])
    ensures m1.k.procs[m.k.deathList[0]].source != WaitSem
  {
    hide Queued, BlockedListed, Family, Sane, Waits, Files.Inv, SemsHold;
    var p := m.k.deathList[0];
    assert p in m.k.deathList && forall q :: q in m1.k.deathList ==> q in m.k.deathList && q != p;
    assert forall q :: q in m1.k.procs <==> q in m1.k.procs.Keys;
  }

  lemma ReprievedInv(k: Kernel, k': Kernel, p: nat)
    requires Inv(k) && k.deathList != [] && p == k.deathList[0] && p in k.procs
    requires k' == k.(deathList := k.deathList[1..], procs := k.procs[p := k.procs[p].(inDeathList := false)])
    ensures Inv(k')
  {
    QueuedFrame(k, k');
    FamilyFrame(k, k');
    SaneFrame(k, k');
    ListsFrame(k, k');
    WaitsFrame(k, k');
    DistinctTail(k.deathList);
    assert forall q :: q in k'.deathList ==> q in k.deathList && q != p;
  }

  lemma KilledDeathList(k: Kernel, k': Kernel, p: nat)
    requires Killed(k, k', p) && !k.procs[p].inDeathList
    requires CanEscape(k) && p !in k.deathList
    ensures k'.deathList == k.deathList && CanEscape(k')
  {
    assert forall q :: q in k'.procs <==> q in k'.procs.Keys;
  }

  // A system call that only touches descriptors of the running process.
  ghost function FileStep(m: Machine, a: Action): (r: Machine)
    requires MInv(m) && Enabled(m, a) && (a.MkPipe? || a.OpenEnd? || a.CloseEnd? || a.DupTo? || a.Restore?)
    ensures MInv(r) && r.k == m.k && Persists(m.k, r.k) && SameHeirs(m.k, r.k)
  {
    hide Inv, Files.Inv;
    var p, live := m.k.running, Living(m.k);
    ActiveParts(m);
    PersistsSelf(m.k);
    if a.MkPipe? then
      Files.MakePipeInv(m.f, live, a.name);
      m.(f := Files.Mkpipe(m.f, a.name, a.seen).0)
    else if a.OpenEnd? then
      Files.OpenNamedInv(m.f, live, p, a.name, a.mode);
      m.(f := Files.OpenNamed(m.f, p, a.name, a.mode).0)
    else if a.CloseEnd? then
      Files.CloseFdInv(m.f, live, p, a.fd);
      m.(f := Files.CloseFd(m.f, p, a.fd).0)
    else if a.DupTo? then
      if a.from >= Files.MAX_FD_COUNT then m
      else
        Counts.Dup2Inv(m.f, live, p, a.from, a.to);
        m.(f := Files.Dup2(m.f, p, a.from, a.to).0)
    else
      Counts.RevertedInv(m.f, live, p);
      m.(f := Counts.Reverted(m.f, p))
  }

  // close wakes the readers of a pipe whose last writing end goes.
  ghost function Closed(m: Machine, fd: nat): (r: Machine)
    requires MInv(m) && Calling(m)
    ensures MInv(r) && Persists(m.k, r.k) && r.k.running == m.k.running
    ensures SameHeirs(m.k, r.k)
  {
    hide Inv, Files.Inv;
    ActiveParts(m);
    var table := m.f.fds[m.k.running];
    var m1 := FileStep(m, CloseEnd(fd));
    if Files.CloseFd(m.f, m.k.running, fd).1 && Files.WakesReaders(m.f.pipes, table[fd])
    then WokenAll(m1, PipeRead, table[fd].file) else m1
  }

  // killProcess for an existing process.
  ghost function KilledByPid(m: Machine, p: nat): (r: Machine)
    requires MInv(m) && Killable(m, p) && m.k.procs[p].source != WaitSem
    ensures MInv(r) && Persists(m.k, r.k)
    ensures forall q :: q in m.k.procs <==> q in r.k.procs
    ensures SameHeirs(m.k, r.k)
  {
    hide Inv, Files.Inv, SemsHold;
    ActiveParts(m);
    var m1 := KilledM(m, p);
    assert forall q :: q in m1.k.procs <==> q in m1.k.procs.Keys;
    PersistsTwice(m.k, m1.k, Ticked(m1).k);
    Ticked(m1)
  }

  // exit
  ghost function Exited(m: Machine, status: int): (r: Machine)
    requires MInv(m) && Calling(m) && !Orphaned(m.k, m.k.running)
    ensures MInv(r) && Persists(m.k, r.k)
    ensures SameHeirs(m.k, r.k)
  {
    hide Inv, Files.Inv, SemsHold, Killed;
    ActiveParts(m);
    var p := m.k.running;
    var m1 := WithStatus(m, p, status);
    var m2 := KilledByPid(m1, p);
    PersistsTwice(m.k, m1.k, m2.k);
    m2
  }

  ghost function Unchanged(m: Machine): (r: Machine)
    requires MInv(m)
    ensures r == m && Persists(m.k, r.k)
    ensures SameHeirs(m.k, r.k)
    ensures SameOpen(m, r)
  {
    PersistsSelf(m.k);
    m
  }

  // startChildProcess and startParentProcess
  ghost function StartStep(m: Machine, a: Action): (r: Machine)
    requires MInv(m) && Enabled(m, a) && (a.StartChild? || a.StartParent?)
    ensures MInv(r) && Persists(m.k, r.k)
    ensures Grown(m.k, r.k, if a.StartParent? then [m.k.nextPid] else [])
  {
    hide Inv, Files.Inv, SemsHold;
    ActiveParts(m);
    if a.StartChild? then
      var r := m.k.running;
      LivingInheritable(m, r);
      PrioritiesFit(m.k, r);
      Started(m, r, m.k.procs[r].priority, a.dies, m.f.fds[r])
    else
      InitPresent(m.k);
      if a.copyFrom in m.k.procs then
        LivingInheritable(m, a.copyFrom);
        Started(m, INIT, a.priority, false, m.f.fds[a.copyFrom])
      else Started(m, INIT, a.priority, false, StandardTable())
  }

  // A read or write that blocks.
  ghost function BlockedSelf(m: Machine, s: Source, id: int): (r: Machine)
    requires MInv(m) && Enabled(m, BlockSelf(s, id))
    ensures MInv(r) && Persists(m.k, r.k)
    ensures SameHeirs(m.k, r.k)
    ensures SameOpen(m, r)
  {
    hide Inv, Files.Inv, SemsHold;
    ActiveParts(m);
    var m1 := BlockedOn(m, m.k.running, s, id);
    PersistsTwice(m.k, m1.k, Ticked(m1).k);
    Ticked(m1)
  }

  ghost function Do(m: Machine, a: Action): (r: Machine)
    requires MInv(m) && Enabled(m, a)
    ensures MInv(r) && Persists(m.k, r.k)
  {
    hide MInv;
    ActiveParts(m);
    match a
    case Timer => Ticked(m)
    case Yield => Yielded(m)
    case StartChild(_) => StartStep(m, a)
    case StartParent(_, _) => StartStep(m, a)
    case KillPid(p) => if p == INIT then Unchanged(m) else if p !in m.k.procs then Ticked(m) else KilledByPid(m, p)
    case Exit(status) => Exited(m, status)
    case WaitPid(c) => Waited(m, c)
    case ResumeWait => Resumed(m)
    case BeginReap(c) => ReapBegun(m, c)
    case EndReap => ReapEnded(m)
    case CloseEnd(fd) => Closed(m, fd)
    case Escape => Escaped(m)
    case MkPipe(_, _) => FileStep(m, a)
    case OpenEnd(_, _) => FileStep(m, a)
    case DupTo(_, _) => FileStep(m, a)
    case Restore => FileStep(m, a)
    case _ => Other(m, a)
  }

  // A step that ends nobody, starts nobody and touches no descriptor.
  ghost function Other(m: Machine, a: Action): (r: Machine)
    requires MInv(m) && Enabled(m, a)
    requires a.BlockPid? || a.SetPriority? || a.BlockSelf? || a.WakeAll? || a.SemCreate? || a.SemWait? || a.SemPost?
    ensures MInv(r) && Persists(m.k, r.k) && SameOpen(m, r) && SameHeirs(m.k, r.k)
  {
    hide MInv;
    match a
    case BlockPid(p) => Toggled(m, p)
    case SetPriority(p, priority) => Reprioritised(m, p, priority)
    case BlockSelf(s, id) => BlockedSelf(m, s, id)
    case WakeAll(s, id) => WokenAll(m, s, id)
    case SemCreate(id, value) => SemCreated(m, id, value)
    case SemWait(id) => SemWaited(m, id)
    case SemPost(id) => SemPosted(m, id)
  }

  lemma InitPresent(k: Kernel)
    requires Inv(k)
    ensures INIT in k.procs && INIT < 256 && k.procs[INIT].state == Ready && k.procs[INIT].waiting == Outside
  {
  }

  lemma BootInv()
    ensures MInv(Boot())
  {
    var k := BootKernel();
    assert Queued(k) by {
      forall i | 0 <= i < PRIORITY_COUNT ensures QueueHolds(k, i) {
      }
    }
    assert BlockedListed(k) by {
      forall s: Source ensures SourceHolds(k, s) {
        match s
        case NoBlock =>
        case AskedTo =>
        case PipeRead =>
        case PipeWrite =>
        case WaitChild =>
        case WaitSem =>
      }
    }
    assert Family(k) by {
      assert HasChildren(k, INIT);
    }
    assert Waits(k) by {
      assert WaitsWell(k, INIT);
    }
    var f := Boot().f;
    assert Living(k) == {INIT};
    assert Files.Open(f.fds, {INIT}) == {};
  }

  // Each action is enabled in the state that the ones before it lead to.
  ghost predicate CanRun(m: Machine, actions: seq<Action>)
    requires MInv(m)
    decreases |actions|
  {
    actions == [] || (Enabled(m, actions[0]) && CanRun(Do(m, actions[0]), actions[1..]))
  }

  ghost function Run(m: Machine, actions: seq<Action>): (r: Machine)
    requires MInv(m) && CanRun(m, actions)
    ensures MInv(r)
    decreases |actions|
  {
    if actions == [] then m else Run(Do(m, actions[0]), actions[1..])
  }

  lemma {:induction false} RunTwice(m: Machine, a: seq<Action>, b: seq<Action>)
    requires MInv(m) && CanRun(m, a) && CanRun(Run(m, a), b)
    ensures CanRun(m, a + b) && Run(m, a + b) == Run(Run(m, a), b)
    decreases |a|
  {
    hide MInv, Do, Enabled;
    if a == [] {
      assert a + b == b;
    } else {
      RunTwice(Do(m, a[0]), a[1..], b);
      assert (a + b)[1..] == a[1..] + b;
    }
  }

  lemma RunOnce(m: Machine, a: Action)
    requires MInv(m) && Enabled(m, a)
    ensures CanRun(m, [a]) && Run(m, [a]) == Do(m, a)
  {
    hide MInv, Do, Enabled;
    assert [a][1..] == [];
  }

  lemma NoRun(m: Machine)
    requires MInv(m)
    ensures CanRun(m, []) && Run(m, []) == m
  {
  }

  // Ticks bring any ready process to the CPU and change nothing but quanta.
  lemma {:induction false} TicksUntil(m: Machine, x: nat) returns (ticks: seq<Action>)
    requires MInv(m) && IsReady(m.k.procs, x)
    ensures CanRun(m, ticks) && Run(m, ticks).k.running == x && forall t :: t in ticks ==> t == Timer
    ensures SameButQuanta(m.k, Run(m, ticks).k) && Run(m, ticks).sems == m.sems && Run(m, ticks).f == m.f
    decreases if m.k.running == x then 0 else if InLine(m.k, x) then RankOf(m.k, x) else 0
  {
    hide Inv, Files.Inv, Tick, Rank, Round, Flat, SemsHold;
    ActiveParts(m);
    if m.k.running == x {
      ticks := [];
    } else {
      InLineInRound(m.k, x);
      TickCloser(m.k, x);
      TickInv(m.k);
      var m1 := Do(m, Timer);
      QuantaOnly(m.k, m1.k);
      var rest := TicksUntil(m1, x);
      QuantaTwice(m.k, m1.k, Run(m1, rest).k);
      RunOnce(m, Timer);
      RunTwice(m, [Timer], rest);
      ticks := [Timer] + rest;
    }
  }

  lemma QuantaTwice(k: Kernel, k1: Kernel, k2: Kernel)
    requires SameButQuanta(k, k1) && SameButQuanta(k1, k2)
    ensures SameButQuanta(k, k2)
  {
    assert forall q :: q in k1.procs <==> q in k1.procs.Keys;
  }

  // The boot code starts process 2, and ticks bring it to the CPU.
  lemma FirstRun() returns (actions: seq<Action>)
    ensures MInv(Boot()) && CanRun(Boot(), actions) && FirstRuns(Run(Boot(), actions))
  {
    hide MInv, CanRun, Run, Do, Enabled, Boot;
    BootInv();
    var m := FirstProcess();
    var ticks := TicksUntil(m, 2);
    QuantaOnly(m.k, Run(m, ticks).k);
    RunOnce(Boot(), StartParent(0, 0));
    RunTwice(Boot(), [StartParent(0, 0)], ticks);
    actions := [StartParent(0, 0)] + ticks;
  }

  ghost predicate FirstRuns(m: Machine) {
    && MInv(m) && m.k.running == 2 && Calling(m) && m.k.procs.Keys == {1, 2} && m.k.nextPid == 3
    && m.k.procs[1].children == [2] && m.k.procs[2].children == [] && m.k.procs[2].priority == 0
    && m.k.limbo == Nobody && m.sems == map[]
  }

  lemma FirstProcess() returns (m: Machine)
    ensures MInv(Boot()) && Enabled(Boot(), StartParent(0, 0)) && m == Do(Boot(), StartParent(0, 0))
    ensures m.k.procs.Keys == {1, 2} && m.k.nextPid == 3 && m.k.limbo == Nobody && m.sems == map[]
    ensures IsReady(m.k.procs, 2) && m.k.procs[2].priority == 0 && m.k.procs[2].waiting == Outside
    ensures m.k.procs[1].children == [2] && m.k.procs[2].children == []
  {
    hide Inv, Files.Inv, SemsHold;
    BootInv();
    m := Do(Boot(), StartParent(0, 0));
    assert m.k.procs.Keys == {1} + {2};
    assert m.k.procs[1].children == [] + [2];
  }

  // No queue and no list holds anybody twice.
  ghost predicate OnceEach(m: Machine) {
    && (forall i :: 0 <= i < |m.k.queues| ==> Distinct(m.k.queues[i]))
    && (forall s: Source :: s in m.k.blocked ==> Distinct(m.k.blocked[s]))
    && (forall id :: id in m.sems ==> Distinct(m.sems[id].waiters))
    && (forall p :: p in m.k.procs ==> Distinct(m.k.procs[p].children))
    && Distinct(m.k.deathList)
  }

  // Children and parents name each other, and every process but init has an older parent, if
  // only one that init is collecting.
  ghost predicate Tree(k: Kernel) {
    && (forall p, c :: p in k.procs ==>
         (c in k.procs[p].children <==> c in k.procs && c != INIT && k.procs[c].ppid == p))
    && (forall p :: p in k.procs && p != INIT ==>
          k.procs[p].ppid < p &&
          (k.procs[p].ppid in k.procs || (Orphaned(k, p) && k.procs[p].ppid == k.limbo.pid)))
  }

  // On the death list are only processes that the escape key may end.
  ghost predicate Dying(k: Kernel) {
    forall p :: p in k.deathList ==> p in k.procs && p != INIT && k.procs[p].inDeathList && k.procs[p].state != Finished
  }

  lemma InvOnce(m: Machine)
    requires MInv(m)
    ensures OnceEach(m) && Dying(m.k)
  {
    forall i | 0 <= i < |m.k.queues| ensures Distinct(m.k.queues[i]) {
      assert QueueHolds(m.k, i);
    }
    forall s: Source | s in m.k.blocked ensures Distinct(m.k.blocked[s]) {
      assert SourceHolds(m.k, s);
    }
    forall id | id in m.sems ensures Distinct(m.sems[id].waiters) {
      assert SemHolds(m.k, m.sems, id);
    }
    forall p | p in m.k.procs ensures Distinct(m.k.procs[p].children) {
      assert HasChildren(m.k, p);
    }
  }

  lemma InvTree(k: Kernel)
    requires Family(k)
    ensures Tree(k)
  {
    forall p, c | p in k.procs
      ensures c in k.procs[p].children <==> c in k.procs && c != INIT && k.procs[c].ppid == p
    {
      assert HasChildren(k, p);
      if c in k.procs && c != INIT {
        assert HasParent(k, c);
      }
    }
    forall p | p in k.procs && p != INIT
      ensures k.procs[p].ppid < p
      ensures k.procs[p].ppid in k.procs || (Orphaned(k, p) && k.procs[p].ppid == k.limbo.pid)
    {
      assert HasParent(k, p);
    }
  }

  // Each process is in the queue of its priority and no other, and in the blocked list of its
  // reason and no other; quanta are in range.
  ghost predicate Placed(k: Kernel) {
    && |k.queues| == PRIORITY_COUNT
    && (forall p, i :: 0 <= i < PRIORITY_COUNT ==> (p in k.queues[i] <==> p in k.procs && k.procs[p].priority == i))
    && (forall p, s: Source :: s in k.blocked && s != NoBlock ==>
          (p in k.blocked[s] <==> p in k.procs && k.procs[p].state == Blocked && k.procs[p].source == s))
    && (forall p :: p in k.procs ==> 0 <= k.procs[p].quantum <= PRIORITY_COUNT - k.procs[p].priority)
  }

  lemma InvPlaced(k: Kernel)
    requires Queued(k) && BlockedListed(k) && Sane(k)
    ensures Placed(k)
  {
    forall p, i | 0 <= i < PRIORITY_COUNT
      ensures p in k.queues[i] <==> p in k.procs && k.procs[p].priority == i
    {
      assert QueueHolds(k, i);
    }
    forall p, s: Source | s in k.blocked && s != NoBlock
      ensures p in k.blocked[s] <==> p in k.procs && k.procs[p].state == Blocked && k.procs[p].source == s
    {
      assert SourceHolds(k, s);
    }
  }

  // What the parts of the kernel say about each other, spelled out: processes are placed as
  // they should be, nobody is listed twice, and they form a tree below init; the queue of a
  // semaphore is the set of the processes blocked on it; the counts of a pipe are the numbers
  // of open ends that living processes hold.
  ghost predicate Agreement(m: Machine) {
    && Placed(m.k) && OnceEach(m) && Tree(m.k) && Dying(m.k)
    && (forall p, id :: id in m.sems ==> (p in m.sems[id].waiters <==> BlockedFor(m.k, p, WaitSem, id)))
    && (forall i :: 0 <= i < |m.f.pipes| ==> Files.Counts(m.f.pipes[i], Files.Open(m.f.fds, Living(m.k))))
    && (forall e :: e in Files.Open(m.f.fds, Living(m.k)) ==> Files.HasPipe(m.f.pipes, e.entry.file))
    && INIT in m.k.procs && m.k.procs[INIT].state == Ready
  }

  lemma InvAgreement(m: Machine)
    requires MInv(m)
    ensures Agreement(m)
  {
    hide Files.Counts, Files.Open, OnceEach, Tree, Dying, Placed, Waits, Mortal;
    InvOnce(m);
    InvTree(m.k);
    InvPlaced(m.k);
    hide Queued, BlockedListed, Family;
    forall p, id | id in m.sems
      ensures p in m.sems[id].waiters <==> BlockedFor(m.k, p, WaitSem, id)
    {
      assert SemHolds(m.k, m.sems, id);
    }
  }

  // After every run from boot the parts of the kernel agree.
  lemma RunAgreement(actions: seq<Action>)
    ensures MInv(Boot())
    ensures CanRun(Boot(), actions) ==> Agreement(Run(Boot(), actions))
  {
    hide MInv, Do, Enabled, Agreement;
    BootInv();
    if CanRun(Boot(), actions) {
      InvAgreement(Run(Boot(), actions));
    }
  }
}
