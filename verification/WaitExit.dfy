/** exit, kill and waitchild along runs of the kernel. */
module WaitExit {
  import opened Options
  import opened Kernel
  import opened Machine
  import opened MachineSteps
  import opened MachineRuns
  import Files = OpenFiles

  // A finished process stays finished, with the status it ended with, until its parent
  // collects it; and no process disappears before it is finished.
  lemma {:induction false} FinishedStays(m: Machine, actions: seq<Action>, p: nat)
    requires MInv(m) && CanRun(m, actions) && p in m.k.procs && m.k.procs[p].state == Finished
    ensures var m' := Run(m, actions);
            p in m'.k.procs ==> m'.k.procs[p].state == Finished && m'.k.procs[p].status == m.k.procs[p].status
    decreases |actions|
  {
    hide Do, Enabled, MInv;
    if actions != [] {
      var m1 := Do(m, actions[0]);
      assert Lasting(m.k, m1.k, p);
      if p in m1.k.procs {
        FinishedStays(m1, actions[1..], p);
      } else {
        MInvPids(m);
        GoneStays(m1, actions[1..], p);
      }
    }
  }

  lemma MInvPids(m: Machine)
    requires MInv(m)
    ensures forall p :: p in m.k.procs ==> p < m.k.nextPid
  {
  }

  // The pid of a removed process is not used again.
  lemma {:induction false} GoneStays(m: Machine, actions: seq<Action>, p: nat)
    requires MInv(m) && CanRun(m, actions) && p !in m.k.procs && p < m.k.nextPid
    ensures p !in Run(m, actions).k.procs
    decreases |actions|
  {
    hide Do, Enabled, MInv;
    if actions != [] {
      GoneStays(Do(m, actions[0]), actions[1..], p);
    }
  }

  // Whatever step is taken, a parent inside waitchild that is not on the CPU stays inside
  // it, and is blocked exactly as long as no child that it awaits is finished.
  lemma WaitingStep(m: Machine, a: Action, p: nat)
    requires MInv(m) && Enabled(m, a) && p in m.k.procs && m.k.procs[p].waiting.Inside? && p != m.k.running
    requires m.k.procs[p].state != Finished
    ensures var k', w := Do(m, a).k, m.k.procs[p].waiting;
            p in k'.procs && (k'.procs[p].state != Finished ==>
              && k'.procs[p].waiting == w
              && (forall e :: e in w.awaited ==> e in k'.procs && e in k'.procs[p].children)
              && (k'.procs[p].source == WaitChild <==> forall e :: e in w.awaited ==> k'.procs[e].state != Finished))
  {
    hide Do, Enabled, Files.Inv, SemsHold, Queued, BlockedListed, Family, Mortal;
    var m' := Do(m, a);
    assert Lasting(m.k, m'.k, p);
    assert m'.k.procs[p].state != Finished ==> WaitsWell(m'.k, p);
  }

  // Child c of p is gone: it was finished, no queue, blocked list, death list or child list
  // holds it any more and nobody else has gone. Its own children are init's now, and every
  // process but init has a parent that lists it, unless init is collecting that parent.
  ghost predicate CollectedBy(k: Kernel, k': Kernel, p: nat, c: nat) {
    && c in k.procs && k.procs[c].state == Finished && k.procs[c].ppid == p
    && k'.procs.Keys == k.procs.Keys - {c}
    && (forall i :: 0 <= i < |k'.queues| ==> c !in k'.queues[i])
    && (forall s: Source :: s in k'.blocked && c !in k'.blocked[s])
    && c !in k'.deathList && (forall q :: q in k'.procs ==> c !in k'.procs[q].children)
    && INIT in k'.procs
    && (forall q :: q in k.procs[c].children ==>
         q in k'.procs && k'.procs[q].ppid == INIT && q in k'.procs[INIT].children)
    && (forall q :: q in k'.procs && q != INIT && !Orphaned(k', q) ==>
          k'.procs[q].ppid in k'.procs && q in k'.procs[k'.procs[q].ppid].children)
    && p in k'.procs && k'.procs[p].waiting == Outside
  }

  // When a blocked waitchild resumes, it collects its child.
  lemma ResumeCollects(m: Machine)
    requires MInv(m) && Enabled(m, ResumeWait)
    ensures CollectedBy(m.k, Do(m, ResumeWait).k, m.k.running, m.k.procs[m.k.running].waiting.child)
  {
    hide Files.Inv, SemsHold;
    var k, p := m.k, m.k.running;
    assert WaitsWell(k, p);
    var c := k.procs[p].waiting.child;
    ChildPresent(k, p, c);
    Collected(k, Do(m, ResumeWait).k, p, c);
  }

  // waitchild(c) collects at once a child that is finished already; for c = 0 the first one.
  lemma WaitCollects(m: Machine, c: nat, t: nat)
    requires MInv(m) && Enabled(m, WaitPid(c)) && m.k.running in m.k.procs
    requires Target(m.k, m.k.running, c) == Some(t) && t in m.k.procs && m.k.procs[t].state == Finished
    ensures CollectedBy(m.k, Do(m, WaitPid(c)).k, m.k.running, t)
  {
    hide Files.Inv, SemsHold, Target;
    ChildPresent(m.k, m.k.running, t);
    PrioritiesFit(m.k, t);
    Collected(m.k, Do(m, WaitPid(c)).k, m.k.running, t);
  }

  lemma Collected(k: Kernel, k': Kernel, p: nat, c: nat)
    requires Inv(k) && Inv(k') && p in k.procs && c in k.procs && c != p && c in k.procs[p].children &&
               k.procs[c].ppid == p
    requires k.procs[c].priority < PRIORITY_COUNT && k' == Bury(k, p, c) && k.procs[c].state == Finished
    requires p != INIT
    ensures CollectedBy(k, k', p, c)
  {
    hide BlockedListed, Waits, Sane, Bury;
    BuryAlike(k, p, c);
    BuryBasics(k, p, c);
    forall i | 0 <= i < |k'.queues| ensures c !in k'.queues[i] {
      assert QueueHolds(k', i);
    }
    GoneFromBlocked(k', c);
    forall q | q in k'.procs ensures c !in k'.procs[q].children {
      assert HasChildren(k', q);
    }
    assert HasChildren(k, c);
    forall q | q in k.procs[c].children
      ensures q in k'.procs && k'.procs[q].ppid == INIT && q in k'.procs[INIT].children
    {
      assert q != c by { assert HasParent(k, c) || c == INIT; }
      assert HasParent(k', q);
    }
    forall q | q in k'.procs && q != INIT && !Orphaned(k', q)
      ensures k'.procs[q].ppid in k'.procs && q in k'.procs[k'.procs[q].ppid].children
    {
      assert HasParent(k', q);
    }
  }

  lemma BuryBasics(k: Kernel, p: nat, c: nat)
    requires p in k.procs && c in k.procs && INIT in k.procs && |k.queues| == PRIORITY_COUNT &&
               k.procs[c].priority < PRIORITY_COUNT
    requires c != p
    ensures var k' := Bury(k, p, c);
            && k'.procs.Keys == k.procs.Keys - {c} && k'.procs[p].waiting == Outside && k'.deathList == k.deathList
            && forall q :: q in k.procs[c].children && q in k'.procs ==> k'.procs[q].ppid == INIT
  {
  }

  lemma GoneFromBlocked(k: Kernel, c: nat)
    requires Inv(k) && c !in k.procs
    ensures forall s: Source :: s in k.blocked && c !in k.blocked[s]
  {
    forall s: Source ensures s in k.blocked && c !in k.blocked[s] {
      assert SourceHolds(k, s);
    }
  }

  // What a step of waitchild hands back: the status of the child that it collects.
  ghost function Answer(m: Machine, a: Action): Option<int>
    requires MInv(m) && Enabled(m, a)
  {
    var k, p := m.k, m.k.running;
    if a.ResumeWait? then Some(k.procs[k.procs[p].waiting.child].status)
    else if a.WaitPid? && p in k.procs then
      var t := Target(k, p, a.pid);
      if t.Some? && t.value in k.procs && k.procs[t.value].state == Finished then Some(k.procs[t.value].status)
          else None
    else None
  }

  lemma ExitFinishes(m: Machine, status: int)
    requires MInv(m) && Enabled(m, Exit(status))
    ensures var c, k' := m.k.running, Do(m, Exit(status)).k;
            c in m.k.procs && c in k'.procs && k'.procs[c].state == Finished && k'.procs[c].status == status
  {
    hide Files.Inv, SemsHold, Inv, Killed;
    ActiveParts(m);
    var c := m.k.running;
    var m1 := WithStatus(m, c, status);
    var m2 := KilledM(m1, c);
    KilledStatus(m1.k, m2.k, c);
    assert Lasting(m2.k, Ticked(m2).k, c);
  }

  lemma KilledStatus(k: Kernel, k': Kernel, p: nat)
    requires Killed(k, k', p)
    ensures p in k.procs && p in k'.procs && k'.procs[p].state == Finished && k'.procs[p].status == k.procs[p].status
  {
    assert p in k'.procs.Keys;
  }

  // Whatever happens between a process's exit and the call that collects it, that call
  // hands back the status that the process ended with.
  lemma StatusDelivered(m: Machine, status: int, actions: seq<Action>, a: Action)
    requires MInv(m) && Enabled(m, Exit(status)) && CanRun(Do(m, Exit(status)), actions)
    requires var m' := Run(Do(m, Exit(status)), actions);
             && Enabled(m', a) && m'.k.running in m'.k.procs
             && ((a.ResumeWait? && m'.k.procs[m'.k.running].waiting ==
                  Inside(m.k.running, m'.k.procs[m'.k.running].waiting.awaited)) ||
                 (a.WaitPid? && Target(m'.k, m'.k.running, a.pid) == Some(m.k.running)))
    ensures Answer(Run(Do(m, Exit(status)), actions), a) == Some(status)
  {
    hide Files.Inv, SemsHold, Do, Inv, Target, CanRun, Run;
    var c := m.k.running;
    ExitFinishes(m, status);
    var m1 := Do(m, Exit(status));
    FinishedStays(m1, actions, c);
    var m' := Run(m1, actions);
    if a.WaitPid? {
      ActiveParts(m');
      ChildPresent(m'.k, m'.k.running, c);
    }
  }
}
