/** waitchild(0): the call picks the first child when it starts, but any child may wake it. */
module AnyChild {
  import opened Options
  import opened Lists
  import opened Kernel
  import opened KernelSteps
  import opened RoundRobin
  import opened Machine
  import opened MachineSteps
  import opened MachineRuns
  import Files = OpenFiles
  import Sems = Semaphore

  // Process p is still inside the call in which it picked child c.
  ghost predicate StillInside(m: Machine, p: nat, c: nat, awaited: set<nat>) {
    p in m.k.procs && m.k.procs[p].state != Finished && m.k.procs[p].waiting == Inside(c, awaited)
  }

  ghost predicate Alive(m: Machine, p: nat) {
    p in m.k.procs && m.k.procs[p].state != Finished
  }

  // The running process calls waitchild(0) and its first child c is not finished.
  ghost predicate PicksFirst(m: Machine, c: nat) {
    && MInv(m) && Enabled(m, WaitPid(0)) && Active(m) && m.k.running != INIT
    && Target(m.k, m.k.running, 0) == Some(c) && Alive(m, c)
  }

  // The escape key is not pressed.
  ghost predicate NoEscape(actions: seq<Action>) {
    forall i :: 0 <= i < |actions| ==> !actions[i].Escape?
  }

  lemma NoEscapeTwice(a: seq<Action>, b: seq<Action>)
    requires NoEscape(a) && NoEscape(b)
    ensures NoEscape(a + b)
  {
  }

  lemma NoEscapeOnce(a: Action)
    requires !a.Escape?
    ensures NoEscape([a]) && NoEscape([])
  {
  }

  lemma NoEscapeTicks(ticks: seq<Action>)
    requires forall t :: t in ticks ==> t == Timer
    ensures NoEscape(ticks)
  {
    forall i | 0 <= i < |ticks| ensures !ticks[i].Escape? {
      assert ticks[i] in ticks;
    }
  }

  // What follows the call for p, which picked c.
  lemma CallBlocks(m: Machine, c: nat)
    requires PicksFirst(m, c)
    ensures var p, m' := m.k.running, Do(m, WaitPid(0));
            && StillInside(m', p, c, LivingChildren(m.k, p)) && m'.k.procs[p].source == WaitChild
            && m'.k.deathList == m.k.deathList && m'.k.procs.Keys == m.k.procs.Keys
            && forall q :: q in m.k.procs && q != p ==>
                 q in m'.k.procs && m'.k.procs[q] == m.k.procs[q].(quantum := m'.k.procs[q].quantum)
  {
    hide Inv, Files.Inv, Tick, SemsHold, Target;
    var p := m.k.running;
    ActiveParts(m);
    ChildPresent(m.k, p, c);
    WaitForInv(m.k, p, 0, c);
    TickInv(WaitFor(m.k, p, 0, c));
    QuantaOnly(WaitFor(m.k, p, 0, c), Tick(WaitFor(m.k, p, 0, c)));
  }

  // p waits inside the call for which it picked c, and child d of its own is alive too.
  ghost predicate Facing(m: Machine, p: nat, c: nat, d: nat, awaited: set<nat>) {
    && MInv(m) && StillInside(m, p, c, awaited) && p != INIT && m.k.procs[p].source == WaitChild
    && c != d && d in awaited && Alive(m, c) && Alive(m, d)
  }

  lemma FacingTicks(m: Machine, m': Machine, p: nat, c: nat, d: nat, awaited: set<nat>)
    requires Facing(m, p, c, d, awaited) && MInv(m') && SameButQuanta(m.k, m'.k)
    ensures Facing(m', p, c, d, awaited) && m'.k.deathList == m.k.deathList
  {
    hide MInv;
    QuantaOnly(m.k, m'.k);
  }

  // A process other than init and p that can get to make calls: it is ready, or a key makes
  // it ready, and it is not stuck in a waitchild of its own.
  ghost predicate Able(k: Kernel, p: nat, x: nat) {
    && x in k.procs && x != INIT && x != p
    && (k.procs[x].state == Ready || BlockedFor(k, x, PipeRead, 0))
    && var w := k.procs[x].waiting;
       w.Inside? ==> w.child in k.procs && k.procs[w.child].state == Finished
  }

  // A key wakes x if it reads standard input.
  lemma WakesReader(m: Machine, p: nat, c: nat, d: nat, awaited: set<nat>, x: nat) returns (actions: seq<Action>)
    requires Facing(m, p, c, d, awaited) && Able(m.k, p, x)
    ensures CanRun(m, actions) && NoEscape(actions)
    ensures var m' := Run(m, actions);
            && Facing(m', p, c, d, awaited) && m'.k.deathList == m.k.deathList
            && Able(m'.k, p, x) && m'.k.procs[x].state == Ready
  {
    hide CanRun, Run, Do, Facing, NoEscape;
    NoEscapeOnce(WakeAll(PipeRead, 0));
    FacingParts(m, p, c, d, awaited);
    if m.k.procs[x].state == Ready {
      actions := [];
      NoRun(m);
    } else {
      KeyStep(m, p, c, d, awaited, x);
      RunOnce(m, WakeAll(PipeRead, 0));
      actions := [WakeAll(PipeRead, 0)];
    }
  }

  lemma KeyStep(m: Machine, p: nat, c: nat, d: nat, awaited: set<nat>, x: nat)
    requires Facing(m, p, c, d, awaited) && Able(m.k, p, x) && m.k.procs[x].state != Ready
    ensures MInv(m) && Enabled(m, WakeAll(PipeRead, 0))
    ensures var m' := Do(m, WakeAll(PipeRead, 0));
            && Facing(m', p, c, d, awaited) && m'.k.deathList == m.k.deathList
            && Able(m'.k, p, x) && m'.k.procs[x].state == Ready
  {
    hide Inv, Files.Inv, SemsHold;
    KeyEffect(m);
  }

  // What the keyboard does: exactly the readers of standard input get ready.
  lemma KeyEffect(m: Machine)
    requires MInv(m)
    ensures var m' := Do(m, WakeAll(PipeRead, 0));
            && m'.k.procs.Keys == m.k.procs.Keys && m'.k.deathList == m.k.deathList && m'.k.running == m.k.running
            && m'.k.nextPid == m.k.nextPid
            && forall q :: q in m.k.procs ==>
                 m'.k.procs[q] == if BlockedFor(m.k, q, PipeRead, 0) then Woken(m.k.procs[q]) else m.k.procs[q]
  {
    hide Inv, Files.Inv, SemsHold;
    ActiveParts(m);
    forall q | q in m.k.procs
      ensures PipeRead in m.k.blocked
      ensures UnblockAll(m.k, PipeRead, 0).procs[q] ==
                if BlockedFor(m.k, q, PipeRead, 0) then Woken(m.k.procs[q]) else m.k.procs[q]
    {
      UnblockAllWakes(m.k, PipeRead, 0, q);
    }
  }

  // x comes to the CPU and, if it is inside a waitchild of its own, ends that call first.
  lemma GetsToCall(m: Machine, p: nat, c: nat, d: nat, awaited: set<nat>, x: nat) returns (actions: seq<Action>)
    requires Facing(m, p, c, d, awaited) && Able(m.k, p, x) && m.k.procs[x].state == Ready
    ensures CanRun(m, actions) && NoEscape(actions)
    ensures var m' := Run(m, actions);
            && Facing(m', p, c, d, awaited) && m'.k.deathList == m.k.deathList && m'.k.running == x && Calling(m')
  {
    hide MInv, CanRun, Run, Do, NoEscape;
    var ticks := TicksUntil(m, x);
    NoEscapeTicks(ticks);
    NoEscapeOnce(ResumeWait);
    NoEscapeTwice(ticks, [ResumeWait]);
    var m1 := Run(m, ticks);
    FacingTicks(m, m1, p, c, d, awaited);
    QuantaOnly(m.k, m1.k);
    if m1.k.procs[x].waiting == Outside {
      actions := ticks;
    } else {
      ResumeStep(m1, p, c, d, awaited, x);
      RunOnce(m1, ResumeWait);
      RunTwice(m, ticks, [ResumeWait]);
      actions := ticks + [ResumeWait];
    }
  }

  lemma ResumeStep(m: Machine, p: nat, c: nat, d: nat, awaited: set<nat>, x: nat)
    requires Facing(m, p, c, d, awaited) && Able(m.k, p, x) && m.k.procs[x].state == Ready && m.k.running == x
    requires m.k.procs[x].waiting.Inside?
    ensures MInv(m) && Enabled(m, ResumeWait)
    ensures var m' := Do(m, ResumeWait);
            Facing(m', p, c, d, awaited) && m'.k.deathList == m.k.deathList && m'.k.running == x && Calling(m')
  {
    hide Queued, BlockedListed, Family, Mortal, Files.Inv, SemsHold;
    assert WaitsWell(m.k, x);
    var y := m.k.procs[x].waiting.child;
    ChildPresent(m.k, x, y);
  }

  // x posts until d is not waiting for a semaphore any more.
  lemma {:induction false} PostsFree(m: Machine, p: nat, c: nat, d: nat, awaited: set<nat>) returns (posts: seq<Action>)
    requires Facing(m, p, c, d, awaited) && Calling(m)
    ensures CanRun(m, posts) && NoEscape(posts)
    ensures var m' := Run(m, posts);
            && Facing(m', p, c, d, awaited) && Calling(m') && m'.k.deathList == m.k.deathList
            && m'.k.procs[d].source != WaitSem
    decreases if d in m.k.procs && m.k.procs[d].source == WaitSem && m.k.procs[d].id in m.sems
              then |m.sems[m.k.procs[d].id].waiters| else 0
  {
    hide Inv, Files.Inv, CanRun, Run, Do, NoEscape;
    posts := [];
    NoEscapeOnce(Timer);
    NoRun(m);
    if m.k.procs[d].source == WaitSem {
      var id := m.k.procs[d].id;
      var m1 := PostStep(m, p, c, d, awaited);
      var rest := PostsFree(m1, p, c, d, awaited);
      RunOnce(m, SemPost(id));
      RunTwice(m, [SemPost(id)], rest);
      NoEscapeOnce(SemPost(id));
      NoEscapeTwice([SemPost(id)], rest);
      posts := [SemPost(id)] + rest;
    }
  }

  // One post: the waiter in front goes on, be it d or somebody else.
  lemma PostStep(m: Machine, p: nat, c: nat, d: nat, awaited: set<nat>) returns (m1: Machine)
    requires Facing(m, p, c, d, awaited) && Calling(m) && m.k.procs[d].source == WaitSem
    ensures var id := m.k.procs[d].id;
            && id in m.sems && |m.sems[id].waiters| > 0 && Enabled(m, SemPost(id)) && m1 == Do(m, SemPost(id))
            && Facing(m1, p, c, d, awaited) && Calling(m1) && m1.k.deathList == m.k.deathList
            && (m1.k.procs[d].source == WaitSem ==>
                  m1.k.procs[d].id == id && id in m1.sems && |m1.sems[id].waiters| < |m.sems[id].waiters|)
  {
    hide Inv, Files.Inv;
    var id := m.k.procs[d].id;
    ActiveParts(m);
    WaitsOnSem(m, d);
    SemHanded(m.k, m.sems, id);
    m1 := Do(m, SemPost(id));
    assert m1.sems[id].waiters == m.sems[id].waiters[..|m.sems[id].waiters| - 1];
  }

  lemma WaitsOnSem(m: Machine, d: nat)
    requires MInv(m) && d in m.k.procs && m.k.procs[d].source == WaitSem
    ensures var id := m.k.procs[d].id;
            id in m.sems && m.sems[id].value == 0 && d in m.sems[id].waiters && Sems.Post(m.sems[id]).1.Some?
  {
    hide Queued, Family, Waits, Mortal, Sane, Files.Inv;
    var id := m.k.procs[d].id;
    assert BlockedFor(m.k, d, WaitSem, id);
    assert SemHolds(m.k, m.sems, id);
    assert d in m.sems[id].waiters;
  }

  // d is killed, if only by itself: p is woken although c, which it picked, is alive.
  lemma KillWakes(m: Machine, p: nat, c: nat, d: nat, awaited: set<nat>)
    requires Facing(m, p, c, d, awaited) && Calling(m) && m.k.procs[d].source != WaitSem
    ensures Enabled(m, KillPid(d))
    ensures WokenEarly(Do(m, KillPid(d)), p, c, awaited)
    ensures c in m.k.deathList ==> c in Do(m, KillPid(d)).k.deathList
  {
    hide Inv, Files.Inv, SemsHold, Finish, WakeReaders, Distinct, Tick, Do;
    ActiveParts(m);
    AwaitedChild(m.k, p, d);
    var m1, m' := KilledM(m, d), Do(m, KillPid(d));
    TicksAfterKill(m, d);
    assert m1.k.procs.Keys == m.k.procs.Keys;
    assert forall q :: q in m1.k.procs <==> q in m1.k.procs.Keys;
    QuantaOnly(m1.k, m'.k);
    assert m1.k.procs[p].waiting == m.k.procs[p].waiting;
    AwaitedFinished(m'.k, p, d);
    if c in m.k.deathList {
      WithoutKeeps(m.k.deathList, d, c);
    }
  }

  lemma TicksAfterKill(m: Machine, d: nat)
    requires MInv(m) && Enabled(m, KillPid(d)) && d in m.k.procs && d != INIT && Killable(m, d)
    ensures SameButQuanta(KilledM(m, d).k, Do(m, KillPid(d)).k) && MInv(Do(m, KillPid(d)))
  {
    hide Inv, Files.Inv, SemsHold, Tick;
    ActiveParts(KilledM(m, d));
    TickInv(KilledM(m, d).k);
  }

  // p is out of its wait for a child, but inside the call, and c is alive.
  ghost predicate WokenEarly(m: Machine, p: nat, c: nat, awaited: set<nat>) {
    MInv(m) && StillInside(m, p, c, awaited) && m.k.procs[p].state == Ready && Alive(m, c)
  }

  lemma {:induction false} WithoutKeeps(s: seq<nat>, x: nat, y: nat)
    requires y in s && y != x
    ensures y in Without(s, x)
  {
    if s[0] != x && s[0] != y {
      WithoutKeeps(s[1..], x, y);
    }
  }

  lemma AwaitedChild(k: Kernel, p: nat, d: nat)
    requires Inv(k) && p in k.procs && k.procs[p].state != Finished && k.procs[p].waiting.Inside? &&
               d in k.procs[p].waiting.awaited
    ensures d in k.procs && d in k.procs[p].children && d != INIT && d != p && k.procs[d].ppid == p && !Orphaned(k, d)
  {
    assert WaitsWell(k, p) && HasChildren(k, p);
    assert p != INIT ==> HasParent(k, p);
  }

  lemma AwaitedFinished(k: Kernel, p: nat, d: nat)
    requires Inv(k) && p in k.procs && k.procs[p].state != Finished && k.procs[p].waiting.Inside? &&
               d in k.procs[p].waiting.awaited
    requires d in k.procs && k.procs[d].state == Finished
    ensures k.procs[p].source != WaitChild
  {
    assert WaitsWell(k, p);
  }

  // If another child is alive and somebody can act, there is a run in which that child ends
  // first.
  lemma OtherChildFirst(m: Machine, c: nat, d: nat, x: nat) returns (actions: seq<Action>)
    requires PicksFirst(m, c) && d in m.k.procs[m.k.running].children && d != c && Alive(m, d)
    requires Able(m.k, m.k.running, x)
    ensures CanRun(Do(m, WaitPid(0)), actions) && NoEscape(actions)
    ensures var m' := Run(Do(m, WaitPid(0)), actions);
            && WokenEarly(m', m.k.running, c, LivingChildren(m.k, m.k.running))
            && (c in m.k.deathList ==> c in m'.k.deathList)
  {
    hide MInv, CanRun, Run, Do, Enabled, WokenEarly, Target, Facing, NoEscape;
    var p, awaited := m.k.running, LivingChildren(m.k, m.k.running);
    CallBlocks(m, c);
    var m1 := Do(m, WaitPid(0));
    FacingStarts(m, c, d);
    AbleAfterCall(m, c, x);
    var key := WakesReader(m1, p, c, d, awaited, x);
    var m2 := Run(m1, key);
    var turn := GetsToCall(m2, p, c, d, awaited, x);
    var m3 := Run(m2, turn);
    var posts := PostsFree(m3, p, c, d, awaited);
    var m4 := Run(m3, posts);
    KillWakes(m4, p, c, d, awaited);
    FacingParts(m4, p, c, d, awaited);
    RunOnce(m4, KillPid(d));
    RunTwice(m3, posts, [KillPid(d)]);
    RunTwice(m2, turn, posts + [KillPid(d)]);
    RunTwice(m1, key, turn + (posts + [KillPid(d)]));
    NoEscapeOnce(KillPid(d));
    NoEscapeTwice(posts, [KillPid(d)]);
    NoEscapeTwice(turn, posts + [KillPid(d)]);
    NoEscapeTwice(key, turn + (posts + [KillPid(d)]));
    actions := key + (turn + (posts + [KillPid(d)]));
  }

  lemma FacingStarts(m: Machine, c: nat, d: nat)
    requires PicksFirst(m, c) && d in m.k.procs[m.k.running].children && d != c && Alive(m, d)
    requires MInv(Do(m, WaitPid(0)))
    ensures Facing(Do(m, WaitPid(0)), m.k.running, c, d, LivingChildren(m.k, m.k.running))
  {
    hide MInv, Do, Enabled;
    CallBlocks(m, c);
    ActiveParts(m);
    ChildrenOthers(m.k, m.k.running, c, d);
  }

  lemma ChildrenOthers(k: Kernel, p: nat, c: nat, d: nat)
    requires Inv(k) && p in k.procs && c in k.procs[p].children && d in k.procs[p].children
    ensures c != p && d != p
  {
    assert HasChildren(k, p);
    assert p != INIT ==> HasParent(k, p);
  }

  lemma FacingParts(m: Machine, p: nat, c: nat, d: nat, awaited: set<nat>)
    requires Facing(m, p, c, d, awaited)
    ensures MInv(m)
  {
  }

  lemma AbleAfterCall(m: Machine, c: nat, x: nat)
    requires PicksFirst(m, c)
    ensures Able(Do(m, WaitPid(0)).k, m.k.running, x) <==> Able(m.k, m.k.running, x)
  {
    hide Inv, Files.Inv, SemsHold, Do, Target;
    CallBlocks(m, c);
    ActiveParts(m);
    assert forall q :: q in m.k.procs <==> q in m.k.procs.Keys;
  }

  // The call of p for which it picked c does not resume in a state in which c is alive.
  ghost predicate NotEarly(m: Machine, p: nat, c: nat, awaited: set<nat>) {
    StillInside(m, p, c, awaited) && m.k.procs[p].source != WaitChild ==> !Alive(m, c)
  }

  // Whenever the call resumes, in whatever run without the escape key, the child that it
  // picked is finished.
  ghost predicate AlwaysFinished(m: Machine, c: nat)
    requires MInv(m) && Enabled(m, WaitPid(0)) && m.k.running in m.k.procs
  {
    forall actions {:trigger CanRun(Do(m, WaitPid(0)), actions)} ::
      CanRun(Do(m, WaitPid(0)), actions) && NoEscape(actions) ==>
        NotEarly(Run(Do(m, WaitPid(0)), actions), m.k.running, c, LivingChildren(m.k, m.k.running))
  }

  // If every other child was finished when the call was made, that holds in every run.
  lemma OthersDone(m: Machine, c: nat, actions: seq<Action>)
    requires PicksFirst(m, c) && CanRun(Do(m, WaitPid(0)), actions)
    requires forall d :: d in m.k.procs[m.k.running].children && d != c ==> !Alive(m, d)
    ensures NotEarly(Run(Do(m, WaitPid(0)), actions), m.k.running, c, LivingChildren(m.k, m.k.running))
  {
    hide MInv, Do, Enabled, Run, CanRun, Target;
    var p := m.k.running;
    OnlyOne(m, c);
    var m' := Run(Do(m, WaitPid(0)), actions);
    ActiveParts(m');
    if StillInside(m', p, c, {c}) && m'.k.procs[p].source != WaitChild {
      OneAwaited(m'.k, p, c);
    }
  }

  // The escape key while p waits inside the call: the call goes on with c alive if and only if
  // another awaited child is on the death list and neither c nor p is.
  lemma EscapeEarlyIff(m: Machine, p: nat, c: nat, awaited: set<nat>)
    requires MInv(m) && Enabled(m, Escape) && StillInside(m, p, c, awaited) && p != m.k.running
    requires m.k.procs[p].source == WaitChild && Alive(m, c)
    ensures NotEarly(Do(m, Escape), p, c, awaited) <==>
              p in m.k.deathList || c in m.k.deathList || forall d :: d in awaited ==> d !in m.k.deathList
  {
    hide Files.Inv, SemsHold, Queued, BlockedListed, Family, Sane, Mortal, Do, Enabled;
    var m' := Do(m, Escape);
    EscapeEnds(m);
    assert Lasting(m.k, m'.k, p);
    assert WaitsWell(m.k, p);
    if m'.k.procs[p].state != Finished {
      assert WaitsWell(m'.k, p);
    }
  }

  lemma EscapeEnds(m: Machine)
    requires MInv(m) && Enabled(m, Escape)
    ensures EndedAll(m.k, Do(m, Escape).k, m.k.deathList)
  {
    hide MInv, EndedAll;
  }

  // p waits inside the call, and nobody but init can act.
  ghost predicate Quiet(m: Machine, p: nat, c: nat, awaited: set<nat>) {
    && MInv(m) && StillInside(m, p, c, awaited) && p != INIT && m.k.procs[p].source == WaitChild
    && forall x :: !Able(m.k, p, x)
  }

  // Then nobody makes a system call.
  lemma QuietCalls(m: Machine, p: nat, c: nat, awaited: set<nat>, a: Action)
    requires Quiet(m, p, c, awaited) && Enabled(m, a) && !a.Escape?
    ensures a == Timer || a == WakeAll(PipeRead, 0) || a.BeginReap? || a.EndReap?
  {
    hide Queued, Family, Sane, Mortal, Files.Inv, SemsHold;
    assert !Able(m.k, p, m.k.running);
    QuietPids(m.k, p);
  }

  lemma QuietPids(k: Kernel, p: nat)
    requires Inv(k) && p in k.procs && p != INIT
    ensures INIT + 1 < k.nextPid
  {
  }

  lemma QuietTimer(m: Machine, p: nat, c: nat, awaited: set<nat>)
    requires Quiet(m, p, c, awaited)
    ensures Quiet(Do(m, Timer), p, c, awaited)
  {
    hide Inv, Files.Inv, SemsHold, Tick;
    ActiveParts(m);
    TickInv(m.k);
    var m' := Do(m, Timer);
    QuantaOnly(m.k, m'.k);
    forall x ensures !Able(m'.k, p, x) {
      assert !Able(m.k, p, x);
    }
  }

  lemma QuietKey(m: Machine, p: nat, c: nat, awaited: set<nat>)
    requires Quiet(m, p, c, awaited)
    ensures Quiet(Do(m, WakeAll(PipeRead, 0)), p, c, awaited)
  {
    hide MInv, Do;
    KeyEffect(m);
    var m' := Do(m, WakeAll(PipeRead, 0));
    assert forall q :: q in m'.k.procs <==> q in m'.k.procs.Keys;
    assert forall q :: q in m.k.procs <==> q in m.k.procs.Keys;
    forall x ensures !Able(m'.k, p, x) {
      assert !Able(m.k, p, x);
    }
  }

  lemma QuietReap(m: Machine, p: nat, c: nat, awaited: set<nat>, y: nat)
    requires Quiet(m, p, c, awaited) && Enabled(m, BeginReap(y))
    ensures Quiet(Do(m, BeginReap(y)), p, c, awaited)
  {
    hide Inv, Files.Inv, SemsHold, Reap;
    ActiveParts(m);
    ReapAlike(m.k, y);
    var m' := Do(m, BeginReap(y));
    forall x ensures !Able(m'.k, p, x) {
      assert !Able(m.k, p, x);
    }
  }

  lemma QuietEnd(m: Machine, p: nat, c: nat, awaited: set<nat>)
    requires Quiet(m, p, c, awaited) && Enabled(m, EndReap)
    ensures Quiet(Do(m, EndReap), p, c, awaited)
  {
    hide Inv, Files.Inv, SemsHold;
    var m' := Do(m, EndReap);
    forall x ensures !Able(m'.k, p, x) {
      assert !Able(m.k, p, x);
    }
  }

  lemma {:induction false} QuietRun(m: Machine, p: nat, c: nat, awaited: set<nat>, actions: seq<Action>)
    requires Quiet(m, p, c, awaited) && CanRun(m, actions) && NoEscape(actions)
    ensures Quiet(Run(m, actions), p, c, awaited)
    decreases |actions|
  {
    hide Do, Enabled, Quiet;
    QuietParts(m, p, c, awaited);
    if actions == [] {
      NoRun(m);
    } else {
      var a := actions[0];
      QuietCalls(m, p, c, awaited, a);
      match a {
        case Timer => QuietTimer(m, p, c, awaited);
        case WakeAll(_, _) => QuietKey(m, p, c, awaited);
        case BeginReap(y) => QuietReap(m, p, c, awaited, y);
        case _ => QuietEnd(m, p, c, awaited);
      }
      QuietRun(Do(m, a), p, c, awaited, actions[1..]);
    }
  }

  lemma QuietParts(m: Machine, p: nat, c: nat, awaited: set<nat>)
    requires Quiet(m, p, c, awaited)
    ensures MInv(m) && p in m.k.procs && m.k.procs[p].source == WaitChild
  {
  }

  // waitchild(0) of the running process, which picks its child c: whenever the call resumes
  // c is finished, if and only if every other child was finished when the call was made, or
  // nobody but init and the caller can act.
  lemma AnyChildCollectsIff(m: Machine, c: nat)
    requires PicksFirst(m, c)
    ensures AlwaysFinished(m, c) <==>
              || (forall d :: d in m.k.procs[m.k.running].children && d != c ==> !Alive(m, d))
              || (forall x :: !Able(m.k, m.k.running, x))
  {
    hide MInv, Do, Enabled, Run, CanRun, Target, Able, NotEarly, NoEscape, Quiet;
    var p, awaited := m.k.running, LivingChildren(m.k, m.k.running);
    if forall d :: d in m.k.procs[p].children && d != c ==> !Alive(m, d) {
      forall actions | CanRun(Do(m, WaitPid(0)), actions)
        ensures NotEarly(Run(Do(m, WaitPid(0)), actions), p, c, awaited)
      {
        OthersDone(m, c, actions);
      }
    } else if forall x :: !Able(m.k, p, x) {
      QuietStarts(m, c);
      forall actions | CanRun(Do(m, WaitPid(0)), actions) && NoEscape(actions)
        ensures NotEarly(Run(Do(m, WaitPid(0)), actions), p, c, awaited)
      {
        QuietRun(Do(m, WaitPid(0)), p, c, awaited, actions);
        QuietNotEarly(Run(Do(m, WaitPid(0)), actions), p, c, awaited);
      }
    } else {
      var d :| d in m.k.procs[p].children && d != c && Alive(m, d);
      var x :| Able(m.k, p, x);
      var actions := OtherChildFirst(m, c, d, x);
      EarlyAwake(Run(Do(m, WaitPid(0)), actions), p, c, awaited);
    }
  }

  lemma QuietStarts(m: Machine, c: nat)
    requires PicksFirst(m, c) && forall x :: !Able(m.k, m.k.running, x)
    ensures Quiet(Do(m, WaitPid(0)), m.k.running, c, LivingChildren(m.k, m.k.running))
  {
    hide MInv, Do, Enabled, Target, Able;
    CallBlocks(m, c);
    forall x ensures !Able(Do(m, WaitPid(0)).k, m.k.running, x) {
      AbleAfterCall(m, c, x);
    }
  }

  lemma QuietNotEarly(m: Machine, p: nat, c: nat, awaited: set<nat>)
    requires Quiet(m, p, c, awaited)
    ensures NotEarly(m, p, c, awaited)
  {
    hide MInv;
  }

  lemma EarlyAwake(m: Machine, p: nat, c: nat, awaited: set<nat>)
    requires WokenEarly(m, p, c, awaited)
    ensures !NotEarly(m, p, c, awaited)
  {
    ReadyIsAwake(m.k, p);
  }

  lemma OnlyOne(m: Machine, c: nat)
    requires PicksFirst(m, c)
    requires forall d :: d in m.k.procs[m.k.running].children && d != c ==> !Alive(m, d)
    ensures LivingChildren(m.k, m.k.running) == {c}
  {
    hide MInv, Enabled;
  }

  lemma OneAwaited(k: Kernel, p: nat, c: nat)
    requires Inv(k) && p in k.procs && k.procs[p].state != Finished && k.procs[p].waiting == Inside(c, {c})
    requires k.procs[p].source != WaitChild
    ensures c in k.procs && k.procs[c].state == Finished
  {
    assert WaitsWell(k, p);
  }

  lemma ReadyIsAwake(k: Kernel, p: nat)
    requires Inv(k) && p in k.procs && k.procs[p].state == Ready
    ensures k.procs[p].source != WaitChild
  {
  }

  // What the end of waitchild does to a living child that is to die on escape: the death
  // list keeps it although it is freed.
  lemma CollectingLivingBreaks(k: Kernel, p: nat, c: nat)
    requires Inv(k) && p in k.procs && c in k.procs && c in k.deathList
    ensures INIT in k.procs && |k.queues| == PRIORITY_COUNT && k.procs[c].priority < PRIORITY_COUNT
    ensures c !in Bury(k, p, c).procs && c in Bury(k, p, c).deathList && !Inv(Bury(k, p, c))
  {
    hide Waits, BlockedListed;
    assert !Mortal(Bury(k, p, c));
  }

  // The call of p for which it picked c resumes now, and c is alive.
  ghost predicate ResumesEarly(m: Machine, p: nat, c: nat) {
    MInv(m) && m.k.running == p && Alive(m, p) && m.k.procs[p].state == Ready
    && m.k.procs[p].waiting.Inside? && m.k.procs[p].waiting.child == c && Alive(m, c)
  }

  lemma ResumesWithLiving(m: Machine, c: nat, d: nat, x: nat) returns (actions: seq<Action>)
    requires PicksFirst(m, c) && d in m.k.procs[m.k.running].children && d != c && Alive(m, d)
    requires Able(m.k, m.k.running, x)
    ensures CanRun(m, actions) && ResumesEarly(Run(m, actions), m.k.running, c)
    ensures c in m.k.deathList ==> c in Run(m, actions).k.deathList
  {
    hide MInv, CanRun, Run, Do, Enabled, Target;
    var p := m.k.running;
    var early := OtherChildFirst(m, c, d, x);
    var m1 := Do(m, WaitPid(0));
    var m2 := Run(m1, early);
    var ticks := TicksUntil(m2, p);
    QuantaOnly(m2.k, Run(m2, ticks).k);
    RunOnce(m, WaitPid(0));
    RunTwice(m1, early, ticks);
    RunTwice(m, [WaitPid(0)], early + ticks);
    actions := [WaitPid(0)] + (early + ticks);
  }

  // A family to show it with: process 2 with the children 3, which dies on escape, and 4.
  ghost predicate TwoChildren(m: Machine) {
    MInv(m) && m.k.running == 2 && Active(m) && m.k.procs[2].children == [3, 4]
    && Alive(m, 3) && Able(m.k, 2, 4) && 3 in m.k.deathList
  }

  lemma FirstChildren(m: Machine)
    requires FirstRuns(m)
    ensures Enabled(m, StartChild(true)) && Enabled(Do(m, StartChild(true)), StartChild(false))
    ensures TwoChildren(Do(Do(m, StartChild(true)), StartChild(false)))
  {
    hide Inv, Files.Inv, SemsHold;
    var m1 := Do(m, StartChild(true));
    assert m1.k.procs[2].children == [3] && m1.k.procs[2].priority == 0;
    var m2 := Do(m1, StartChild(false));
    assert m2.k.procs[2].children == [3, 4];
  }

  // A run from boot after which waitchild(0) collects a child that is alive, and the state
  // that this leaves behind is broken.
  lemma LivingChildCollected() returns (actions: seq<Action>, p: nat, c: nat)
    ensures MInv(Boot()) && CanRun(Boot(), actions) && ResumesEarly(Run(Boot(), actions), p, c)
    ensures var k := Run(Boot(), actions).k;
            && INIT in k.procs && |k.queues| == PRIORITY_COUNT && k.procs[c].priority < PRIORITY_COUNT
            && !Inv(Bury(k, p, c))
  {
    hide MInv, CanRun, Run, Do, Enabled, Boot, Inv, Bury, Able;
    var first := FirstRun();
    var m := Run(Boot(), first);
    FirstChildren(m);
    var m2 := Do(Do(m, StartChild(true)), StartChild(false));
    PicksThree(m2);
    var rest := ResumesWithLiving(m2, 3, 4, 4);
    RunOnce(Do(m, StartChild(true)), StartChild(false));
    RunTwice(Do(m, StartChild(true)), [StartChild(false)], rest);
    RunOnce(m, StartChild(true));
    RunTwice(m, [StartChild(true)], [StartChild(false)] + rest);
    RunTwice(Boot(), first, [StartChild(true)] + ([StartChild(false)] + rest));
    actions, p, c := first + ([StartChild(true)] + ([StartChild(false)] + rest)), 2, 3;
    var last := Run(Boot(), actions);
    ActiveParts(last);
    CollectingLivingBreaks(last.k, p, c);
  }

  lemma PicksThree(m: Machine)
    requires TwoChildren(m)
    ensures PicksFirst(m, 3) && 4 in m.k.procs[m.k.running].children && Alive(m, 4) && Able(m.k, m.k.running, 4)
  {
    hide MInv;
  }
}
