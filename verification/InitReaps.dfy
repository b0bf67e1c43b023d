/** Runs in which other processes run while init collects a child: when the kernel agrees with
    itself once init has finished, and what is lost otherwise. */
module InitReaps {
  import opened Kernel
  import opened RoundRobin
  import opened Reaping
  import opened Machine
  import opened MachineSteps
  import opened MachineRuns
  import WaitExit
  import Files = OpenFiles

  // The children that init gets by a step: a process started with init as parent, or the
  // children of a process that is collected by its own parent.
  ghost function Added(m: Machine, a: Action): seq<nat>
    requires MInv(m) && Enabled(m, a)
  {
    match a
    case StartParent(_, _) => [m.k.nextPid]
    case WaitPid(c) => if Collects(m.k, c).Some? then m.k.procs[Collects(m.k, c).value].children else []
    case ResumeWait => m.k.procs[m.k.procs[m.k.running].waiting.child].children
    case _ => []
  }

  lemma StepHeirs(m: Machine, a: Action)
    requires MInv(m) && Enabled(m, a) && !a.BeginReap? && !a.EndReap?
    ensures Grown(m.k, Do(m, a).k, Added(m, a))
  {
    hide Inv, Files.Inv, SemsHold;
  }

  // No step gives init another child.
  ghost predicate Undisturbed(m: Machine, actions: seq<Action>)
    requires MInv(m) && CanRun(m, actions)
    decreases |actions|
  {
    actions == [] || (Added(m, actions[0]) == [] && Undisturbed(Do(m, actions[0]), actions[1..]))
  }

  // init does not come to the end of its collection.
  ghost predicate NoEnd(actions: seq<Action>) {
    forall i :: 0 <= i < |actions| ==> !actions[i].EndReap?
  }

  lemma NoEndTail(actions: seq<Action>)
    requires NoEnd(actions) && actions != []
    ensures !actions[0].EndReap? && NoEnd(actions[1..])
  {
  }

  ghost predicate Collecting(m: Machine) {
    MInv(m) && INIT in m.k.procs && m.k.limbo.Reaped?
  }

  lemma OnlyOne(m: Machine, a: Action)
    requires Collecting(m) && Enabled(m, a)
    ensures !a.BeginReap?
  {
    hide MInv;
  }

  // While init collects a child its other children stay, with all that it gets behind them.
  lemma {:induction false} RunHeirs(m: Machine, actions: seq<Action>) returns (xs: seq<nat>)
    requires Collecting(m) && CanRun(m, actions) && NoEnd(actions)
    ensures Grown(m.k, Run(m, actions).k, xs) && (xs == [] <==> Undisturbed(m, actions))
    decreases |actions|
  {
    hide MInv, Do, Enabled, Added;
    if actions == [] {
      xs := [];
      NoRun(m);
    } else {
      var m1 := Do(m, actions[0]);
      NoEndTail(actions);
      OnlyOne(m, actions[0]);
      StepHeirs(m, actions[0]);
      var rest := RunHeirs(m1, actions[1..]);
      xs := Added(m, actions[0]) + rest;
      assert m.k.procs[INIT].children + Added(m, actions[0]) + rest == m.k.procs[INIT].children + xs;
    }
  }

  lemma BeginParts(m: Machine, c: nat)
    requires MInv(m) && Enabled(m, BeginReap(c))
    ensures Collecting(Do(m, BeginReap(c))) && SameEnd(Do(m, BeginReap(c)).k)
    ensures Do(m, BeginReap(c)).k.limbo.orphans == m.k.procs[c].children && c !in Do(m, BeginReap(c)).k.procs
  {
    hide Inv, Files.Inv, SemsHold;
    ActiveParts(m);
    ReapParts(m.k, c);
  }

  // What the second half of the collection makes of a state.
  ghost function Ended(m: Machine): Machine
    requires Collecting(m)
  {
    m.(k := Adopt(m.k))
  }

  // Whatever runs between the two halves of a collection: the kernel agrees with itself
  // afterwards if and only if init got no other child in between.
  lemma ReapAgreesIff(m: Machine, c: nat, actions: seq<Action>)
    requires MInv(m) && Enabled(m, BeginReap(c))
    requires CanRun(Do(m, BeginReap(c)), actions) && NoEnd(actions)
    ensures var m1 := Do(m, BeginReap(c));
            && Collecting(Run(m1, actions))
            && (Agreement(Ended(Run(m1, actions))) <==> Undisturbed(m1, actions))
  {
    hide MInv, Do, Enabled, CanRun, Run, Agreement, Undisturbed, NoEnd;
    var m1 := Do(m, BeginReap(c));
    BeginParts(m, c);
    var xs := RunHeirs(m1, actions);
    var m2 := Run(m1, actions);
    EndAgreesIff(m2);
    assert m2.k.procs[INIT].children == m1.k.procs[INIT].children + xs;
    assert xs == [] <==> SameEnd(m2.k);
  }

  lemma EndAgreesIff(m: Machine)
    requires Collecting(m)
    ensures Agreement(Ended(m)) <==> SameEnd(m.k)
  {
    if SameEnd(m.k) {
      hide Agreement, MInv;
      assert Ended(m) == ReapEnded(m);
      InvAgreement(ReapEnded(m));
    } else {
      EndLoses(m);
    }
  }

  lemma EndLoses(m: Machine)
    requires Collecting(m) && !SameEnd(m.k)
    ensures !Tree(Ended(m).k)
    ensures exists n :: n in Ended(m).k.procs && n != INIT && Ended(m).k.procs[n].ppid == INIT
                        && forall q :: q in Ended(m).k.procs ==> n !in Ended(m).k.procs[q].children
  {
    hide Queued, BlockedListed, Sane, Waits, Mortal, Files.Inv, SemsHold, Adopt;
    AdoptLoses(m.k);
    var x := m.k.procs[INIT].children[|m.k.limbo.seen|..];
    assert x[0] in x;
    assert INIT in Adopt(m.k).procs by {
      assert INIT in m.k.procs;
      InitLeft(m.k);
    }
  }

  lemma InitLeft(k: Kernel)
    requires INIT in k.procs && k.limbo.Reaped?
    ensures INIT in Adopt(k).procs
  {
  }

  // A finished child of init that init begins to collect is gone at once and for good. Once
  // init has finished, undisturbed, the children of that child are init's and nobody else
  // has gone by it.
  lemma InitCollects(m: Machine, c: nat, actions: seq<Action>)
    requires MInv(m) && m.k.running == INIT && m.k.limbo == Nobody && INIT in m.k.procs
    requires c in m.k.procs[INIT].children && c in m.k.procs && m.k.procs[c].state == Finished
    ensures Enabled(m, BeginReap(c))
    ensures var m1 := Do(m, BeginReap(c));
            CanRun(m1, actions) && NoEnd(actions) && Undisturbed(m1, actions) && Run(m1, actions).k.running == INIT ==>
              var m2 := Run(m1, actions);
              && Enabled(m2, EndReap)
              && c !in Do(m2, EndReap).k.procs
              && Do(m2, EndReap).k.procs.Keys == m2.k.procs.Keys
              && forall o :: o in m.k.procs[c].children ==>
                   o in Do(m2, EndReap).k.procs && Do(m2, EndReap).k.procs[o].ppid == INIT
                   && o in Do(m2, EndReap).k.procs[INIT].children
  {
    hide MInv, Do, Enabled, CanRun, Run, Undisturbed, NoEnd;
    CanBegin(m, c);
    var m1 := Do(m, BeginReap(c));
    BeginParts(m, c);
    if CanRun(m1, actions) && NoEnd(actions) && Undisturbed(m1, actions) && Run(m1, actions).k.running == INIT {
      var xs := RunHeirs(m1, actions);
      var m2 := Run(m1, actions);
      assert m2.k.limbo == m1.k.limbo && SameEnd(m2.k);
      BeginPid(m, c);
      WaitExit.GoneStays(m1, actions, c);
      EndParts(m2);
    }
  }

  lemma CanBegin(m: Machine, c: nat)
    requires MInv(m) && m.k.running == INIT && m.k.limbo == Nobody && INIT in m.k.procs
    requires c in m.k.procs[INIT].children && c in m.k.procs && m.k.procs[c].state == Finished
    ensures Enabled(m, BeginReap(c))
  {
    hide BlockedListed, Family, Sane, Waits, Mortal, Files.Inv, SemsHold;
  }

  lemma BeginPid(m: Machine, c: nat)
    requires MInv(m) && Enabled(m, BeginReap(c))
    ensures c < Do(m, BeginReap(c)).k.nextPid
  {
    hide Files.Inv, SemsHold, Queued, BlockedListed, Sane, Waits, Mortal;
  }

  lemma EndParts(m: Machine)
    requires Collecting(m) && m.k.running == INIT && SameEnd(m.k)
    ensures Enabled(m, EndReap) && Do(m, EndReap).k.procs.Keys == m.k.procs.Keys
    ensures forall o :: o in m.k.limbo.orphans ==>
              o in Do(m, EndReap).k.procs && Do(m, EndReap).k.procs[o].ppid == INIT
              && INIT in Do(m, EndReap).k.procs && o in Do(m, EndReap).k.procs[INIT].children
  {
    hide Files.Inv, SemsHold, Queued, BlockedListed, Sane, Waits, Mortal;
    AdoptParts(m.k);
  }

  // Every process that is ready stays ready when another one ends itself.
  lemma ExitKeepsReady(m: Machine, status: int)
    requires MInv(m) && Enabled(m, Exit(status))
    ensures forall q :: q != m.k.running && IsReady(m.k.procs, q) ==> IsReady(Do(m, Exit(status)).k.procs, q)
    ensures forall q :: q != m.k.running && q in m.k.procs ==>
              && q in Do(m, Exit(status)).k.procs
              && Do(m, Exit(status)).k.procs[q].ppid == m.k.procs[q].ppid
    ensures SameHeirs(m.k, Do(m, Exit(status)).k)
  {
    hide Files.Inv, SemsHold, Inv, Tick;
    ActiveParts(m);
    var p := m.k.running;
    var m1 := WithStatus(m, p, status);
    var m2 := KilledM(m1, p);
    TickInv(m2.k);
    QuantaOnly(m2.k, Tick(m2.k));
    assert forall q :: q in m2.k.procs <==> q in m2.k.procs.Keys;
    assert Do(m, Exit(status)) == Ticked(m2);
  }

  // Two children of init, ready to run, and nothing else going on.
  ghost predicate TwoOfInit(m: Machine) {
    && MInv(m) && INIT in m.k.procs && m.k.procs[INIT].children == [2, 3] && m.k.limbo == Nobody
    && IsReady(m.k.procs, 2) && IsReady(m.k.procs, 3)
    && m.k.procs[2].waiting == Outside && m.k.procs[3].waiting == Outside
  }

  lemma SecondStarted(m: Machine)
    requires FirstRuns(m)
    ensures Enabled(m, StartParent(0, 0)) && TwoOfInit(Do(m, StartParent(0, 0)))
  {
    hide Inv, Files.Inv, SemsHold;
    ActiveParts(m);
    assert 0 !in m.k.procs.Keys;
    assert [2] + [3] == [2, 3];
  }

  lemma TicksKeep(m: Machine, m': Machine)
    requires TwoOfInit(m) && MInv(m') && SameButQuanta(m.k, m'.k)
    ensures TwoOfInit(m')
  {
    hide MInv;
    QuantaOnly(m.k, m'.k);
  }

  // Process 3 ends, and only init can collect it.
  lemma ThirdEnds(m: Machine)
    requires TwoOfInit(m) && m.k.running == 3
    ensures Enabled(m, Exit(0)) && EndedThird(Do(m, Exit(0)))
  {
    hide Inv, Files.Inv, SemsHold, Do;
    WaitExit.ExitFinishes(m, 0);
    ExitKeepsReady(m, 0);
    StillOutside(m, Exit(0), 2);
  }

  lemma StillOutside(m: Machine, a: Action, q: nat)
    requires MInv(m) && Enabled(m, a) && q in m.k.procs && q != m.k.running && m.k.procs[q].waiting == Outside
    ensures q in Do(m, a).k.procs ==> Do(m, a).k.procs[q].waiting == Outside
  {
    hide MInv, Do, Enabled;
    assert Lasting(m.k, Do(m, a).k, q);
  }

  ghost predicate EndedThird(m: Machine) {
    && MInv(m) && INIT in m.k.procs && m.k.procs[INIT].children == [2, 3] && m.k.limbo == Nobody
    && IsReady(m.k.procs, 2) && m.k.procs[2].waiting == Outside && 3 in m.k.procs && m.k.procs[3].state == Finished
  }

  lemma TicksKeepEnded(m: Machine, m': Machine)
    requires EndedThird(m) && MInv(m') && SameButQuanta(m.k, m'.k)
    ensures EndedThird(m')
  {
    hide MInv;
    QuantaOnly(m.k, m'.k);
  }

  // init collects 3 and is interrupted; 2 can still start processes.
  ghost predicate InBetween(m: Machine) {
    Collecting(m) && IsReady(m.k.procs, 2) && m.k.procs[2].waiting == Outside && IsReady(m.k.procs, INIT) &&
        0 !in m.k.procs
  }

  lemma BeginsThird(m: Machine)
    requires EndedThird(m) && m.k.running == INIT
    ensures Enabled(m, BeginReap(3)) && InBetween(Do(m, BeginReap(3)))
  {
    hide Files.Inv, SemsHold, BlockedListed, Waits, Mortal;
    CanBegin(m, 3);
    BeginParts(m, 3);
    ReapAlike(m.k, 3);
  }

  lemma TicksKeepBetween(m: Machine, m': Machine)
    requires InBetween(m) && MInv(m') && SameButQuanta(m.k, m'.k)
    ensures InBetween(m')
  {
    hide MInv;
    QuantaOnly(m.k, m'.k);
  }

  lemma StartsBetween(m: Machine)
    requires InBetween(m) && m.k.running == 2
    ensures Enabled(m, StartParent(0, 0)) && Added(m, StartParent(0, 0)) != []
    ensures IsReady(Do(m, StartParent(0, 0)).k.procs, INIT)
  {
    hide Inv, Files.Inv, SemsHold;
    ActiveParts(m);
  }

  lemma {:induction false} DisturbedBy(m: Machine, before: seq<Action>, a: Action, rest: seq<Action>)
    requires MInv(m) && CanRun(m, before + ([a] + rest)) && CanRun(m, before) && Enabled(Run(m, before), a)
    requires Added(Run(m, before), a) != []
    ensures !Undisturbed(m, before + ([a] + rest))
    decreases |before|
  {
    hide MInv, Do, Enabled, Added;
    if before == [] {
      assert [] + ([a] + rest) == [a] + rest;
      NoRun(m);
    } else {
      assert (before + ([a] + rest))[1..] == before[1..] + ([a] + rest);
      DisturbedBy(Do(m, before[0]), before[1..], a, rest);
    }
  }

  // From process 2 started by the boot code to 3, another child of init, finished and init on
  // the CPU.
  lemma BeforeLoss() returns (actions: seq<Action>)
    ensures MInv(Boot()) && CanRun(Boot(), actions)
    ensures EndedThird(Run(Boot(), actions)) && Run(Boot(), actions).k.running == INIT
  {
    hide MInv, CanRun, Run, Do, Enabled, Boot;
    var first := FirstRun();
    var m0 := Run(Boot(), first);
    SecondStarted(m0);
    var m1 := Do(m0, StartParent(0, 0));
    var ticks := TicksUntil(m1, 3);
    var m2 := Run(m1, ticks);
    TicksKeep(m1, m2);
    ThirdEnds(m2);
    var m3 := Do(m2, Exit(0));
    InitReady(m3);
    var more := TicksUntil(m3, INIT);
    TicksKeepEnded(m3, Run(m3, more));
    RunOnce(m2, Exit(0));
    RunTwice(m2, [Exit(0)], more);
    RunTwice(m1, ticks, [Exit(0)] + more);
    RunOnce(m0, StartParent(0, 0));
    RunTwice(m0, [StartParent(0, 0)], ticks + ([Exit(0)] + more));
    RunTwice(Boot(), first, [StartParent(0, 0)] + (ticks + ([Exit(0)] + more)));
    actions := first + ([StartParent(0, 0)] + (ticks + ([Exit(0)] + more)));
  }

  lemma InitReady(m: Machine)
    requires MInv(m)
    ensures IsReady(m.k.procs, INIT)
  {
  }

  // A run from boot in which a process is started with init as parent while init collects
  // another child: it is in nobody's list of children afterwards.
  lemma LostChildRun() returns (before: seq<Action>, between: seq<Action>)
    ensures MInv(Boot()) && CanRun(Boot(), before) && Enabled(Run(Boot(), before), BeginReap(3))
    ensures var m1 := Do(Run(Boot(), before), BeginReap(3));
            && CanRun(m1, between) && Run(m1, between).k.running == INIT && Collecting(Run(m1, between))
            && var m2 := Ended(Run(m1, between));
            && !Agreement(m2)
            && exists n :: n in m2.k.procs && n != INIT && m2.k.procs[n].ppid == INIT
                           && forall q :: q in m2.k.procs ==> n !in m2.k.procs[q].children
  {
    hide MInv, CanRun, Run, Do, Enabled, Boot, Agreement, Undisturbed, NoEnd, Added, Tree;
    before := BeforeLoss();
    var m := Run(Boot(), before);
    BeginsThird(m);
    var m1 := Do(m, BeginReap(3));
    var ticks := TicksUntil(m1, 2);
    var m2 := Run(m1, ticks);
    TicksKeepBetween(m1, m2);
    StartsBetween(m2);
    var m3 := Do(m2, StartParent(0, 0));
    var more := TicksUntil(m3, INIT);
    RunOnce(m2, StartParent(0, 0));
    RunTwice(m2, [StartParent(0, 0)], more);
    RunTwice(m1, ticks, [StartParent(0, 0)] + more);
    between := ticks + ([StartParent(0, 0)] + more);
    DisturbedBy(m1, ticks, StartParent(0, 0), more);
    StepsNoEnd(ticks, StartParent(0, 0), more);
    ReapAgreesIff(m, 3, between);
    EndAgreesIff(Run(m1, between));
    EndLoses(Run(m1, between));
  }

  lemma StepsNoEnd(ticks: seq<Action>, a: Action, more: seq<Action>)
    requires (forall t :: t in ticks ==> t == Timer) && !a.EndReap? && (forall t :: t in more ==> t == Timer)
    ensures NoEnd(ticks + ([a] + more))
  {
    var all := ticks + ([a] + more);
    forall i | 0 <= i < |all| ensures !all[i].EndReap? {
      assert all[i] in ticks || all[i] == a || all[i] in more;
    }
  }

  // Process 2 has ended and left a child, process 3.
  ghost predicate LeftChild(m: Machine) {
    && MInv(m) && INIT in m.k.procs && 2 in m.k.procs[INIT].children && m.k.limbo == Nobody
    && 2 in m.k.procs && m.k.procs[2].state == Finished
    && IsReady(m.k.procs, 3) && m.k.procs[3].waiting == Outside && m.k.procs[3].ppid == 2
  }

  lemma ChildStarted(m: Machine)
    requires FirstRuns(m)
    ensures Enabled(m, StartChild(false))
    ensures var m' := Do(m, StartChild(false));
            && MInv(m') && m'.k.running == 2 && Calling(m') && m'.k.limbo == Nobody
            && INIT in m'.k.procs && m'.k.procs[INIT].children == [2]
            && IsReady(m'.k.procs, 3) && m'.k.procs[3].waiting == Outside && m'.k.procs[3].ppid == 2
  {
    hide Inv, Files.Inv, SemsHold;
    ActiveParts(m);
  }

  lemma ParentEnds(m: Machine)
    requires MInv(m) && m.k.running == 2 && Calling(m) && m.k.limbo == Nobody
    requires INIT in m.k.procs && m.k.procs[INIT].children == [2]
    requires IsReady(m.k.procs, 3) && m.k.procs[3].waiting == Outside && m.k.procs[3].ppid == 2
    ensures Enabled(m, Exit(0)) && LeftChild(Do(m, Exit(0)))
  {
    hide Inv, Files.Inv, SemsHold, Do;
    WaitExit.ExitFinishes(m, 0);
    ExitKeepsReady(m, 0);
    StillOutside(m, Exit(0), 3);
  }

  lemma TicksKeepLeft(m: Machine, m': Machine)
    requires LeftChild(m) && MInv(m') && SameButQuanta(m.k, m'.k)
    ensures LeftChild(m')
  {
    hide MInv;
    QuantaOnly(m.k, m'.k);
  }

  ghost predicate OrphanReady(m: Machine) {
    MInv(m) && Orphaned(m.k, 3) && IsReady(m.k.procs, 3) && m.k.procs[3].waiting == Outside
  }

  lemma ChildOrphaned(m: Machine)
    requires LeftChild(m) && m.k.running == INIT
    ensures Enabled(m, BeginReap(2)) && OrphanReady(Do(m, BeginReap(2)))
  {
    hide Files.Inv, SemsHold, BlockedListed, Waits, Mortal;
    CanBegin(m, 2);
    BeginParts(m, 2);
    ReapAlike(m.k, 2);
    assert HasParent(m.k, 3);
  }

  lemma TicksKeepOrphan(m: Machine, m': Machine)
    requires OrphanReady(m) && MInv(m') && SameButQuanta(m.k, m'.k)
    ensures OrphanReady(m')
  {
    hide MInv;
    QuantaOnly(m.k, m'.k);
  }

  // A run from boot to a process that is on the CPU while init collects its parent: what ends
  // a process does not end this one.
  lemma OrphanLivesRun() returns (actions: seq<Action>)
    ensures MInv(Boot()) && CanRun(Boot(), actions)
    ensures var k := Run(Boot(), actions).k;
            && k.running == 3 && 3 in k.procs && k.procs[3].state == Ready && k.procs[3].source in k.blocked
            && WaitChild in k.blocked && Finish(k, 3).procs[3].state == Ready
  {
    hide MInv, CanRun, Run, Do, Enabled, Boot, Finish;
    var first := FirstRun();
    var m0 := Run(Boot(), first);
    ChildStarted(m0);
    var m1 := Do(m0, StartChild(false));
    ParentEnds(m1);
    var m2 := Do(m1, Exit(0));
    InitReady(m2);
    var ticks := TicksUntil(m2, INIT);
    var m3 := Run(m2, ticks);
    TicksKeepLeft(m2, m3);
    ChildOrphaned(m3);
    var m4 := Do(m3, BeginReap(2));
    var more := TicksUntil(m4, 3);
    TicksKeepOrphan(m4, Run(m4, more));
    RunOnce(m3, BeginReap(2));
    RunTwice(m3, [BeginReap(2)], more);
    RunTwice(m2, ticks, [BeginReap(2)] + more);
    RunOnce(m1, Exit(0));
    RunTwice(m1, [Exit(0)], ticks + ([BeginReap(2)] + more));
    RunOnce(m0, StartChild(false));
    RunTwice(m0, [StartChild(false)], [Exit(0)] + (ticks + ([BeginReap(2)] + more)));
    RunTwice(Boot(), first, [StartChild(false)] + ([Exit(0)] + (ticks + ([BeginReap(2)] + more))));
    actions := first + ([StartChild(false)] + ([Exit(0)] + (ticks + ([BeginReap(2)] + more))));
    OrphanNotEnded(Run(Boot(), actions));
  }

  lemma OrphanNotEnded(m: Machine)
    requires OrphanReady(m)
    ensures var k := m.k;
            && k.procs[3].state == Ready && k.procs[3].source in k.blocked && WaitChild in k.blocked
            && Finish(k, 3).procs[3].state == Ready
  {
    hide Files.Inv, SemsHold, Queued, Sane, Waits, Mortal;
    FinishesIff(m.k, 3);
    assert HasParent(m.k, 3);
  }
}
