/** The state of the scheduler and what each of its routines does to it.
    A node of the C code and the PCB it points to are one record here, found by pid. */
module Kernel {
  import opened Options
  import opened Lists

  const PRIORITY_COUNT := 5
  const INIT := 1

  datatype Source = NoBlock | AskedTo | PipeRead | PipeWrite | WaitChild | WaitSem

  datatype ProcState = Blocked | Ready | Finished

  // Whether a process is inside a waitchild call that has blocked: the child that the call
  // will collect where it resumes, and the children whose end wakes it.
  datatype Waiting = Outside | Inside(child: nat, awaited: set<nat>)

  // children lists the first child first.
  datatype Pcb = Pcb(
    ppid: nat, state: ProcState, source: Source, id: int,
    priority: nat, quantum: nat, status: int,
    children: seq<nat>, inDeathList: bool, waiting: Waiting)

  // init collects a child of its own without disabling interrupts. From where the child is
  // out of all lists to where its own children have been handed over nobody finds it: its
  // pid, its children, and init's children as the walk to their end met them.
  datatype Limbo = Nobody | Reaped(pid: nat, orphans: seq<nat>, seen: seq<nat>)

  datatype Kernel = Kernel(
    procs: map<nat, Pcb>, queues: seq<seq<nat>>, running: nat,
    blocked: map<Source, seq<nat>>, deathList: seq<nat>, nextPid: nat, limbo: Limbo)

  // Queue i holds the processes of priority i, once each.
  ghost predicate QueueHolds(k: Kernel, i: int)
    requires 0 <= i < |k.queues|
  {
    Distinct(k.queues[i]) && forall p :: p in k.queues[i] <==> p in k.procs && k.procs[p].priority == i
  }

  // Every process is in the queue of its priority, once, and nowhere else.
  ghost predicate Queued(k: Kernel) {
    && |k.queues| == PRIORITY_COUNT
    && (forall i {:trigger QueueHolds(k, i)} :: 0 <= i < PRIORITY_COUNT ==> QueueHolds(k, i))
    && (forall p :: p in k.procs ==> k.procs[p].priority < PRIORITY_COUNT)
  }

  // blockedProcesses[s] holds the processes blocked with source s, once each.
  ghost predicate SourceHolds(k: Kernel, s: Source) {
    && s in k.blocked && Distinct(k.blocked[s])
    && if s == NoBlock then k.blocked[s] == []
       else forall p :: p in k.blocked[s] <==> p in k.procs && k.procs[p].state == Blocked && k.procs[p].source == s
  }

  // Only blocked processes carry a reason.
  ghost predicate BlockedListed(k: Kernel) {
    && (forall s: Source {:trigger SourceHolds(k, s)} :: SourceHolds(k, s))
    && (forall p :: p in k.procs ==> (k.procs[p].state == Blocked <==> k.procs[p].source != NoBlock))
    && (forall p :: p in k.procs && k.procs[p].source == NoBlock ==> k.procs[p].id == 0)
  }

  // The parent of p is being collected.
  ghost predicate Orphaned(k: Kernel, p: nat) {
    k.limbo.Reaped? && p in k.limbo.orphans
  }

  ghost predicate HasParent(k: Kernel, p: nat)
    requires p in k.procs
  {
    var q := k.procs[p].ppid;
    q < p && if Orphaned(k, p) then q == k.limbo.pid else q in k.procs && p in k.procs[q].children
  }

  ghost predicate HasChildren(k: Kernel, p: nat)
    requires p in k.procs
  {
    Distinct(k.procs[p].children) &&
    forall c :: c in k.procs[p].children ==> c in k.procs && c != INIT && k.procs[c].ppid == p
  }

  // Who is being collected is gone, its children name it, and init has lost none of the
  // children it had.
  ghost predicate LimboHolds(k: Kernel)
    requires INIT in k.procs
  {
    k.limbo.Reaped? ==>
      && k.limbo.pid !in k.procs && INIT < k.limbo.pid < k.nextPid && Distinct(k.limbo.orphans)
      && (forall o :: o in k.limbo.orphans ==> o in k.procs && o != INIT && k.procs[o].ppid == k.limbo.pid)
      && k.limbo.seen <= k.procs[INIT].children
  }

  // Parents and children name each other; parents are older, so there are no cycles.
  ghost predicate Family(k: Kernel) {
    && INIT in k.procs && k.procs[INIT].ppid == 0 && LimboHolds(k)
    && (forall p :: p in k.procs ==> 0 < p < k.nextPid)
    && (forall p {:trigger HasParent(k, p)} :: p in k.procs && p != INIT ==> HasParent(k, p))
    && (forall p {:trigger HasChildren(k, p)} :: p in k.procs ==> HasChildren(k, p))
  }

  // Quanta stay in range and init stays ready; the process on the CPU exists.
  ghost predicate Sane(k: Kernel) {
    && k.running in k.procs
    && INIT in k.procs && k.procs[INIT].state == Ready
    && forall p :: p in k.procs ==> k.procs[p].quantum + k.procs[p].priority <= PRIORITY_COUNT
  }

  // A process inside waitchild awaits children of its own, and is blocked until one of them
  // is finished: the child it named, or any that was still alive.
  ghost predicate WaitsWell(k: Kernel, p: nat)
    requires p in k.procs
  {
    var pcb, w := k.procs[p], k.procs[p].waiting;
    && (w.Inside? ==>
          && w.child in w.awaited
          && (forall e :: e in w.awaited ==> e in pcb.children && e in k.procs)
          && (pcb.source == WaitChild <==> forall e :: e in w.awaited ==> k.procs[e].state != Finished))
    && (pcb.source == WaitChild ==>
          && w.Inside?
          && ((pcb.id == w.child && w.awaited == {w.child}) || (pcb.id == 0 && LivingChildren(k, p) <= w.awaited)))
  }

  ghost function LivingChildren(k: Kernel, p: nat): set<nat>
    requires p in k.procs
  {
    set e | e in k.procs[p].children && e in k.procs && k.procs[e].state != Finished
  }

  ghost predicate Waits(k: Kernel) {
    && (forall p {:trigger WaitsWell(k, p)} :: p in k.procs && k.procs[p].state != Finished ==> WaitsWell(k, p))
    && (INIT in k.procs ==> k.procs[INIT].waiting == Outside)
  }

  // Only living processes can die on escape.
  ghost predicate Mortal(k: Kernel) {
    && Distinct(k.deathList)
    && forall p :: p in k.deathList ==>
         p in k.procs && p != INIT && k.procs[p].inDeathList && k.procs[p].state != Finished
  }

  ghost predicate Inv(k: Kernel) {
    Queued(k) && BlockedListed(k) && Family(k) && Sane(k) && Waits(k) && Mortal(k)
  }

  // initializeScheduler, once the first dispatch has put init on the CPU.
  function BootKernel(): Kernel {
    var init := Pcb(0, Ready, NoBlock, 0, PRIORITY_COUNT - 1, 1, -1, [], false, Outside);
    Kernel(map[INIT := init], [[], [], [], [], [INIT]], INIT,
           map[NoBlock := [], AskedTo := [], PipeRead := [], PipeWrite := [], WaitChild := [], WaitSem := []], [],
           INIT + 1, Nobody)
  }

  // setProcessReady
  function Woken(p: Pcb): Pcb {
    p.(state := Ready, source := NoBlock, id := 0)
  }

  // _unblockProcessWithReason for a process that waits for source s.
  function Unblock(k: Kernel, p: nat, s: Source): Kernel
    requires p in k.procs && s in k.blocked
  {
    k.(procs := k.procs[p := Woken(k.procs[p])], blocked := k.blocked[s := Without(k.blocked[s], p)])
  }

  // unblockProcessWithReason
  predicate BlockedFor(k: Kernel, p: nat, s: Source, id: int) {
    p in k.procs && k.procs[p].source == s && k.procs[p].id == id && k.procs[p].state == Blocked
  }

  function UnblockIf(k: Kernel, p: nat, s: Source, id: int): Kernel
    requires s in k.blocked
  {
    if BlockedFor(k, p, s, id) then Unblock(k, p, s) else k
  }

  // The processes that unblockAllProcessesBecauseReason wakes.
  ghost function Matching(k: Kernel, s: Source, id: int): set<nat>
    requires s in k.blocked
  {
    set p | p in k.blocked[s] && p in k.procs && k.procs[p].id == id
  }

  ghost function UnblockAll(k: Kernel, s: Source, id: int): Kernel
    requires s in k.blocked
  {
    var woken := Matching(k, s, id);
    k.(procs := map p | p in k.procs :: if p in woken then Woken(k.procs[p]) else k.procs[p],
       blocked := k.blocked[s := Except(k.blocked[s], woken)])
  }

  // The state change of blockProcessWithReason; a tick follows.
  function Block(k: Kernel, p: nat, s: Source, id: int): Kernel
    requires p in k.procs && s in k.blocked
  {
    k.(procs := k.procs[p := k.procs[p].(state := Blocked, source := s, id := id)],
       blocked := k.blocked[s := [p] + k.blocked[s]])
  }

  // changePriority for an existing process.
  function Reprioritise(k: Kernel, p: nat, priority: nat): Kernel
    requires p in k.procs && |k.queues| == PRIORITY_COUNT && priority < PRIORITY_COUNT &&
               k.procs[p].priority < PRIORITY_COUNT
  {
    var from := k.procs[p].priority;
    var queues := k.queues[from := Without(k.queues[from], p)];
    k.(queues := queues[priority := [p] + queues[priority]],
       procs := k.procs[p := k.procs[p].(priority := priority, quantum := PRIORITY_COUNT - priority)])
  }

  // startProcess with a parent; the parent's pid is narrowed to eight bits on the way.
  function Start(k: Kernel, parent: nat, priority: nat, dies: bool): Kernel
    requires parent in k.procs && |k.queues| == PRIORITY_COUNT && priority < PRIORITY_COUNT
  {
    var pid := k.nextPid;
    var child := Pcb(parent % 256, Ready, NoBlock, 0, priority, PRIORITY_COUNT - priority, -1, [], dies, Outside);
    var kin := k.procs[parent].(children := k.procs[parent].children + [pid]);
    k.(nextPid := pid + 1,
       procs := k.procs[parent := kin][pid := child],
       queues := k.queues[priority := [pid] + k.queues[priority]],
       deathList := if dies then [pid] + k.deathList else k.deathList)
  }

  // The child that waitchild(c) of process p is about: the first one for c = 0.
  function Target(k: Kernel, p: nat, c: nat): (t: Option<nat>)
    requires p in k.procs
    ensures t.Some? ==> t.value in k.procs[p].children
  {
    var children := k.procs[p].children;
    if c == 0 && children != [] then Some(children[0]) else if c in children then Some(c) else None
  }

  // waitchild(c) when its child t is not finished yet: p blocks.
  ghost function WaitFor(k: Kernel, p: nat, c: nat, t: nat): Kernel
    requires p in k.procs && WaitChild in k.blocked
  {
    var k' := Block(k, p, WaitChild, c);
    var awaited := if c == 0 then LivingChildren(k, p) else {t};
    k'.(procs := k'.procs[p := k'.procs[p].(waiting := Inside(t, awaited))])
  }

  // The death-list walk of _killProcess.
  function LeaveDeathList(k: Kernel, p: nat): Kernel {
    if p in k.procs && k.procs[p].inDeathList then k.(deathList := Without(k.deathList, p)) else k
  }

  // _killProcess once its files are closed and it is off the death list: wake it,
  // wake its parent if that one waits for it, and mark it finished.
  function Finish(k: Kernel, p: nat): Kernel
    requires p in k.procs && k.procs[p].source in k.blocked && WaitChild in k.blocked
  {
    var k1 := if k.procs[p].state == Blocked then Unblock(k, p, k.procs[p].source) else k;
    var parent := k1.procs[p].ppid;
    if parent !in k1.procs then k1
    else
      var q := k1.procs[parent];
      var k2 := if q.source == WaitChild && (q.id == p || q.id == 0) then Unblock(k1, parent, WaitChild) else k1;
      k2.(procs := k2.procs[p := k2.procs[p].(state := Finished)])
  }

  // removeFromList after waitchild has unlinked child c of process p: c leaves its queue,
  // its own children pass to init, at the end of init's list, and c is freed.
  ghost function Bury(k: Kernel, p: nat, c: nat): Kernel
    requires p in k.procs && c in k.procs && INIT in k.procs && |k.queues| == PRIORITY_COUNT &&
               k.procs[c].priority < PRIORITY_COUNT
  {
    var orphans := k.procs[c].children;
    var i := k.procs[c].priority;
    k.(queues := k.queues[i := Without(k.queues[i], c)],
       procs := map q | q in k.procs && q != c ::
         var kids := if q == p then Without(k.procs[q].children, c) else k.procs[q].children;
         k.procs[q].(
           children := if q == INIT then kids + orphans else kids,
           ppid := if q in orphans then INIT else k.procs[q].ppid,
           waiting := if q == p then Outside else k.procs[q].waiting))
  }

  // waitchild of init for its finished child c, up to where inheritChildren has met the end
  // of init's children: c is out of their list and out of its queue.
  function Reap(k: Kernel, c: nat): Kernel
    requires c in k.procs && INIT in k.procs && |k.queues| == PRIORITY_COUNT && k.procs[c].priority < PRIORITY_COUNT
  {
    var i, left := k.procs[c].priority, Without(k.procs[INIT].children, c);
    k.(queues := k.queues[i := Without(k.queues[i], c)],
       procs := k.procs[INIT := k.procs[INIT].(children := left, waiting := Outside)] - {c},
       limbo := Reaped(c, k.procs[c].children, left))
  }

  // The rest: the orphans are hung behind the end that the walk met, whatever has come behind
  // it since, and name init as parent.
  ghost function Adopt(k: Kernel): Kernel
    requires k.limbo.Reaped? && INIT in k.procs
  {
    var orphans := k.limbo.orphans;
    k.(procs := map q | q in k.procs ::
         k.procs[q].(children := if q == INIT then k.limbo.seen + orphans else k.procs[q].children,
                     ppid := if q in orphans then INIT else k.procs[q].ppid),
       limbo := Nobody)
  }

  // The five queues one after the other, as findNextProcess walks them.
  function Flat(queues: seq<seq<nat>>): seq<nat> {
    if queues == [] then [] else queues[0] + Flat(queues[1..])
  }

  function IndexOf(s: seq<nat>, x: nat): (i: nat)
    requires x in s
    ensures i < |s| && s[i] == x && x !in s[..i]
  {
    if s[0] == x then 0 else 1 + IndexOf(s[1..], x)
  }

  // All processes in walking order, from the one behind p round to p itself.
  function Round(queues: seq<seq<nat>>, p: nat): seq<nat>
    requires p in Flat(queues)
  {
    var flat := Flat(queues);
    var i := IndexOf(flat, p);
    flat[i + 1..] + flat[..i + 1]
  }

  predicate IsReady(procs: map<nat, Pcb>, p: nat) {
    p in procs && procs[p].state == Ready
  }

  // Position of the first ready process.
  function FirstReady(procs: map<nat, Pcb>, s: seq<nat>): (i: nat)
    ensures i <= |s| && (i < |s| ==> IsReady(procs, s[i]))
    ensures forall j :: 0 <= j < i ==> !IsReady(procs, s[j])
  {
    if s == [] || IsReady(procs, s[0]) then 0 else 1 + FirstReady(procs, s[1..])
  }

  // The running process is in a queue and the walk from it meets a ready process.
  predicate CanTick(k: Kernel) {
    && k.running in k.procs && k.running in Flat(k.queues) && k.procs[k.running].priority <= PRIORITY_COUNT
    && FirstReady(k.procs, Round(k.queues, k.running)) < |Round(k.queues, k.running)|
  }

  // scheduler(): the running process keeps the CPU while it is ready and has quantum;
  // otherwise a spent quantum is refilled and the next ready process is dispatched.
  function Tick(k: Kernel): Kernel
    requires CanTick(k)
  {
    var p := k.procs[k.running];
    if p.state == Ready && p.quantum > 0 then
      k.(procs := k.procs[k.running := p.(quantum := p.quantum - 1)])
    else
      var refilled := if p.quantum > 0 then p else p.(quantum := PRIORITY_COUNT - p.priority);
      var round := Round(k.queues, k.running);
      k.(procs := k.procs[k.running := refilled], running := round[FirstReady(k.procs, round)])
  }

  // yield() without the interrupt that follows it.
  function Spent(k: Kernel): Kernel
    requires k.running in k.procs
  {
    k.(procs := k.procs[k.running := k.procs[k.running].(quantum := 0)])
  }
}
