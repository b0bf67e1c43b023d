/** Who sleeps reading a pipe, and who is woken when a writing end of it goes. */
module Sleepers {
  import opened Lists
  import opened Kernel
  import opened KernelSteps
  import opened RoundRobin
  import opened Machine
  import opened MachineSteps
  import opened MachineRuns
  import Files = OpenFiles
  import Counts = OpenCounts

  // How many open ends of living processes write to pipe id.
  ghost function WritingEnds(m: Machine, id: int): nat {
    |Files.Writers(Files.Open(m.f.fds, Living(m.k)), id)|
  }

  // By this step pipe id loses its last writing end.
  ghost predicate LosesWriters(m: Machine, m': Machine, id: int) {
    WritingEnds(m, id) > 0 && WritingEnds(m', id) == 0
  }

  // Those who sleep reading a pipe and are alive afterwards are ready, if and only if their
  // pipe has lost its last writing end; the others sleep on.
  ghost predicate WokenIffLost(m: Machine, m': Machine) {
    forall q, id :: BlockedFor(m.k, q, PipeRead, id) && q in m'.k.procs && m'.k.procs[q].state != Finished ==>
      if LosesWriters(m, m', id) then m'.k.procs[q].state == Ready else BlockedFor(m'.k, q, PipeRead, id)
  }

  // What waking the readers of a list of pipes does to one process.
  lemma {:induction false} WakeReadersExact(k: Kernel, ids: seq<int>, q: nat)
    requires Inv(k) && q in k.procs
    ensures q in WakeReaders(k, ids).procs
    ensures WakeReaders(k, ids).procs[q] ==
            if k.procs[q].source == PipeRead && k.procs[q].state == Blocked && k.procs[q].id in ids
            then Woken(k.procs[q]) else k.procs[q]
    decreases |ids|
  {
    hide Inv;
    if ids != [] {
      UnblockAllInv(k, PipeRead, ids[0]);
      BlockedPart(k);
      UnblockAllWakes(k, PipeRead, ids[0], q);
      WakeReadersExact(UnblockAll(k, PipeRead, ids[0]), ids[1..], q);
      assert ids == [ids[0]] + ids[1..];
    }
  }

  // _killProcess wakes exactly the readers of pipes that it takes the last writing end from.
  lemma KillWakes(m: Machine, p: nat)
    requires MInv(m) && Killable(m, p)
    ensures WokenIffLost(m, Kill(m, p))
  {
    hide Inv, Files.Inv, SemsHold, Finish, Files.Tally, WakeReaders, Counts.Wakes, Counts.CloseAll;
    KillReady(m, p);
    KillKernel(m, p);
    var m' := Kill(m, p);
    var ids := Counts.Wakes(m.f.pipes, m.f.fds[p], 0);
    forall q, id | BlockedFor(m.k, q, PipeRead, id) && q in m'.k.procs && m'.k.procs[q].state != Finished
      ensures if LosesWriters(m, m', id) then m'.k.procs[q].state == Ready else BlockedFor(m'.k, q, PipeRead, id)
    {
      KillEnds(m, p, id);
      WakeReadersExact(m.k, ids, q);
      FinishSleeper(WakeReaders(m.k, ids), p, q);
    }
  }

  lemma KillEnds(m: Machine, p: nat, id: int)
    requires MInv(m) && Killable(m, p)
    ensures p in m.f.fds
    ensures id in Counts.Wakes(m.f.pipes, m.f.fds[p], 0) <==> LosesWriters(m, Kill(m, p), id)
  {
    hide Inv, SemsHold, Finish, Files.Tally, WakeReaders, Counts.Wakes, Counts.CloseAll;
    KillReady(m, p);
    KillKernel(m, p);
    var live := Living(m.k);
    assert forall q :: q in Kill(m, p).k.procs <==> q in Kill(m, p).k.procs.Keys;
    assert Living(Kill(m, p).k) == live - {p};
    OpenOfOld(m.f.fds, live, p);
    Counts.WakesIff(m.f.pipes, Files.Open(m.f.fds, live - {p}), p, m.f.fds[p], 0, id);
  }

  // Ending p does nothing to another process that sleeps reading or has been woken from it.
  lemma FinishSleeper(k: Kernel, p: nat, q: nat)
    requires Inv(k) && p in k.procs && p != INIT && k.procs[p].state != Finished && !Orphaned(k, p)
    requires q in k.procs && q != p && k.procs[q].source != WaitChild
    ensures k.procs[p].source in k.blocked && WaitChild in k.blocked
    ensures q in Finish(LeaveDeathList(k, p), p).procs && Finish(LeaveDeathList(k, p), p).procs[q] == k.procs[q]
  {
    hide Without;
    assert SourceHolds(k, k.procs[p].source) && SourceHolds(k, WaitChild) && HasParent(k, p);
    FinishEach(LeaveDeathList(k, p), p);
  }

  // A tick does nothing to them either.
  lemma TickSleeper(m: Machine)
    requires MInv(m)
    ensures WokenIffLost(m, Ticked(m))
    ensures forall q :: q in m.k.procs ==>
              q in Ticked(m).k.procs && Ticked(m).k.procs[q] == m.k.procs[q].(quantum := Ticked(m).k.procs[q].quantum)
  {
    hide Inv, Files.Inv, SemsHold, Tick;
    ActiveParts(m);
    TickInv(m.k);
    QuantaOnly(m.k, Tick(m.k));
  }

  lemma TickAfter(m: Machine, m1: Machine)
    requires MInv(m1) && WokenIffLost(m, m1)
    ensures WokenIffLost(m, Ticked(m1))
  {
    hide MInv, Ticked;
    TickSleeper(m1);
    assert forall id :: WritingEnds(Ticked(m1), id) == WritingEnds(m1, id);
  }

  // killProcess of another process or of the caller.
  lemma KillPidWakes(m: Machine, p: nat)
    requires MInv(m) && Enabled(m, KillPid(p)) && p in m.k.procs && p != INIT
    ensures WokenIffLost(m, Do(m, KillPid(p)))
  {
    hide Inv, Files.Inv, SemsHold, Kill, WokenIffLost;
    KillWakes(m, p);
    TickAfter(m, KilledM(m, p));
  }

  // exit
  lemma ExitWakes(m: Machine, status: int)
    requires MInv(m) && Enabled(m, Exit(status))
    ensures WokenIffLost(m, Do(m, Exit(status)))
  {
    hide Inv, Files.Inv, SemsHold, Kill;
    ActiveParts(m);
    var m1 := WithStatus(m, m.k.running, status);
    KillWakes(m1, m.k.running);
    SameSleepers(m, m1, KilledM(m1, m.k.running));
    TickAfter(m, KilledM(m1, m.k.running));
  }

  lemma SameSleepers(m: Machine, m1: Machine, m2: Machine)
    requires SameOpen(m, m1) && WokenIffLost(m1, m2)
    requires forall q, id :: BlockedFor(m.k, q, PipeRead, id) ==> BlockedFor(m1.k, q, PipeRead, id)
    ensures WokenIffLost(m, m2)
  {
    assert forall id :: WritingEnds(m1, id) == WritingEnds(m, id);
  }

  // close
  lemma CloseWakes(m: Machine, fd: nat)
    requires MInv(m) && Enabled(m, CloseEnd(fd))
    ensures WokenIffLost(m, Do(m, CloseEnd(fd)))
  {
    hide Inv, SemsHold, UnblockAll, Files.Tally, Files.WakesReaders;
    ActiveParts(m);
    var m' := Do(m, CloseEnd(fd));
    forall q, id | BlockedFor(m.k, q, PipeRead, id) && q in m'.k.procs && m'.k.procs[q].state != Finished
      ensures if LosesWriters(m, m', id) then m'.k.procs[q].state == Ready else BlockedFor(m'.k, q, PipeRead, id)
    {
      CloseEnds(m, fd, id);
      if Files.CloseFd(m.f, m.k.running, fd).1 {
        UnblockAllWakes(m.k, PipeRead, m.f.fds[m.k.running][fd].file, q);
      }
    }
  }

  lemma CloseEnds(m: Machine, fd: nat, id: int)
    requires MInv(m) && Enabled(m, CloseEnd(fd))
    ensures m.k.running in m.f.fds && |m.f.fds[m.k.running]| == Files.MAX_FD_COUNT
    ensures LosesWriters(m, Do(m, CloseEnd(fd)), id) <==>
              && Files.CloseFd(m.f, m.k.running, fd).1 && id == m.f.fds[m.k.running][fd].file
              && Files.WakesReaders(m.f.pipes, m.f.fds[m.k.running][fd])
  {
    hide Inv, SemsHold, UnblockAll, Files.Tally, Files.WakesReaders, Files.Writers, Files.Release;
    ActiveParts(m);
    var p, live := m.k.running, Living(m.k);
    var m' := Do(m, CloseEnd(fd));
    Files.InvPieces(m.f, live, p);
    if Files.CloseFd(m.f, p, fd).1 {
      var e, open := m.f.fds[p][fd], Files.Open(m.f.fds, live);
      Files.PipesAbove(m.f.pipes, open, e.file);
      Files.OpenUpdate(m.f.fds, live, p, fd, Files.Closed);
      Counts.WakesReadersIff(m.f.pipes, open, Files.End(p, fd, e));
    }
  }

  // killAllInDeathList, one kill after the other.
  lemma {:induction false} EscapedWakes(m: Machine)
    requires MInv(m) && CanEscape(m.k)
    ensures WokenIffLost(m, Escaped(m)) && (forall id :: WritingEnds(Escaped(m), id) <= WritingEnds(m, id))
    ensures forall q :: IsReady(m.k.procs, q) ==> StillReady(Escaped(m).k, q)
    decreases |m.k.deathList|
  {
    hide MInv, KilledM, Reprieved, WokenIffLost;
    ActiveParts(m);
    if m.k.deathList == [] {
      NothingLost(m);
    } else {
      var p := m.k.deathList[0];
      var m1 := Reprieved(m);
      ReprievedEscape(m, m1);
      ReprievedList(m, m1);
      var m2 := KilledM(m1, p);
      KilledDeathList(m1.k, m2.k, p);
      OneKill(m, m1, p);
      EscapedWakes(m2);
      LostTwice(m, m2, Escaped(m2));
    }
  }

  ghost predicate StillReady(k: Kernel, q: nat) {
    q in k.procs ==> k.procs[q].state == Ready || k.procs[q].state == Finished
  }

  lemma NothingLost(m: Machine)
    ensures WokenIffLost(m, m)
  {
  }

  lemma ReprievedList(m: Machine, m1: Machine)
    requires MInv(m) && m.k.deathList != [] && m1 == Reprieved(m)
    ensures forall q :: q in m.k.procs ==>
              q in m1.k.procs && m1.k.procs[q] == m.k.procs[q].(inDeathList := m1.k.procs[q].inDeathList)
  {
    hide MInv;
  }

  lemma OneKill(m: Machine, m1: Machine, p: nat)
    requires MInv(m) && MInv(m1) && SameOpen(m, m1) && Killable(m1, p) && m1.k.procs[p].source != WaitSem
    requires forall q :: q in m.k.procs ==>
               q in m1.k.procs && m1.k.procs[q] == m.k.procs[q].(inDeathList := m1.k.procs[q].inDeathList)
    ensures WokenIffLost(m, KilledM(m1, p)) && forall id :: WritingEnds(KilledM(m1, p), id) <= WritingEnds(m, id)
    ensures forall q :: IsReady(m.k.procs, q) ==> StillReady(KilledM(m1, p).k, q)
  {
    hide MInv, WokenIffLost, Kill;
    KillWakes(m1, p);
    SameSleepers(m, m1, KilledM(m1, p));
    forall id ensures WritingEnds(KilledM(m1, p), id) <= WritingEnds(m, id) {
      KillShrinks(m1, p, id);
    }
    assert forall q :: q in KilledM(m1, p).k.procs <==> q in KilledM(m1, p).k.procs.Keys;
  }

  lemma KillShrinks(m: Machine, p: nat, id: int)
    requires MInv(m) && Killable(m, p)
    ensures WritingEnds(Kill(m, p), id) <= WritingEnds(m, id)
  {
    hide Inv, SemsHold, Finish, Files.Tally, WakeReaders, Counts.Wakes, Counts.CloseAll, Files.Writers;
    KillReady(m, p);
    KillKernel(m, p);
    var live := Living(m.k);
    assert forall q :: q in Kill(m, p).k.procs <==> q in Kill(m, p).k.procs.Keys;
    assert Living(Kill(m, p).k) == live - {p};
    OpenOfOld(m.f.fds, live, p);
    Counts.WritersShrink(Files.Open(m.f.fds, live - {p}), Files.Open(m.f.fds, live), id);
  }

  lemma LostTwice(m: Machine, m1: Machine, m2: Machine)
    requires WokenIffLost(m, m1) && WokenIffLost(m1, m2)
    requires forall id :: WritingEnds(m2, id) <= WritingEnds(m1, id) <= WritingEnds(m, id)
    requires forall q :: q in m2.k.procs ==> q in m1.k.procs
    requires forall q :: q in m1.k.procs && q in m2.k.procs && m1.k.procs[q].state == Finished ==>
               m2.k.procs[q].state == Finished
    requires forall q :: IsReady(m1.k.procs, q) ==> StillReady(m2.k, q)
    ensures WokenIffLost(m, m2)
  {
    forall q, id | BlockedFor(m.k, q, PipeRead, id) && q in m2.k.procs && m2.k.procs[q].state != Finished
      ensures if LosesWriters(m, m2, id) then m2.k.procs[q].state == Ready else BlockedFor(m2.k, q, PipeRead, id)
    {
      assert q in m1.k.procs && m1.k.procs[q].state != Finished;
      assert WritingEnds(m2, id) <= WritingEnds(m1, id) <= WritingEnds(m, id);
      if LosesWriters(m, m1, id) {
        assert IsReady(m1.k.procs, q);
      } else {
        assert BlockedFor(m1.k, q, PipeRead, id);
      }
    }
  }

  lemma EscapeWakes(m: Machine)
    requires MInv(m) && Enabled(m, Escape)
    ensures WokenIffLost(m, Do(m, Escape))
  {
    hide MInv, Escaped, WokenIffLost;
    EscapedWakes(m);
  }

  // Writing one descriptor that named no pipe takes no end away.
  lemma WrittenGrows(fds: map<nat, seq<Files.Fd>>, live: set<nat>, p: nat, fd: nat, e: Files.Fd, id: int)
    requires p in live && p in fds && fd < |fds[p]| && !Files.NamesPipe(fds[p][fd])
    ensures |Files.Writers(Files.Open(fds, live), id)| <=
              |Files.Writers(Files.Open(fds[p := fds[p][fd := e]], live), id)|
  {
    hide Files.Writers;
    var before, after := Files.Open(fds, live), Files.Open(fds[p := fds[p][fd := e]], live);
    Files.OpenUpdate(fds, live, p, fd, e);
    assert before - {Files.End(p, fd, fds[p][fd])} == before;
    Counts.WritersShrink(before, after, id);
  }

  lemma FileStepWriters(m: Machine, a: Action, id: int)
    requires MInv(m) && Enabled(m, a) && (a.MkPipe? || a.OpenEnd? || a.DupTo?)
    ensures WritingEnds(Do(m, a), id) >= WritingEnds(m, id)
  {
    hide Inv, SemsHold, Files.Tally, Files.Open, Files.Writers;
    ActiveParts(m);
    var p, live := m.k.running, Living(m.k);
    Files.InvPieces(m.f, live, p);
    if a.OpenEnd? && Files.IsNamed(m.f.pipes, a.name) {
      var pipe := m.f.pipes[Files.NamedIndex(m.f.pipes, a.name)];
      var fd := Files.FreeFd(m.f.fds[p], 4);
      if fd < Files.MAX_FD_COUNT {
        WrittenGrows(m.f.fds, live, p, fd, Files.Fd(pipe.id, a.mode), id);
      }
    } else if a.DupTo? && a.from < Files.MAX_FD_COUNT {
      WrittenGrows(m.f.fds, live, p, a.to, m.f.fds[p][a.from], id);
    }
  }

  lemma StartWriters(m: Machine, a: Action, id: int)
    requires MInv(m) && Enabled(m, a) && (a.StartChild? || a.StartParent?)
    ensures WritingEnds(Do(m, a), id) >= WritingEnds(m, id)
  {
    hide Inv, Files.Inv, SemsHold, Files.Writers, Files.Open, Inheritable, Do;
    StartShape(m, a);
    FreshPid(m.k);
    var pid, live, m' := m.k.nextPid, Living(m.k), Do(m, a);
    OpenOfNew(m.f.fds, live, pid, m'.f.fds[pid]);
    Counts.WritersShrink(Files.Open(m.f.fds, live), Files.Open(m'.f.fds, live + {pid}), id);
  }

  lemma StartShape(m: Machine, a: Action)
    requires MInv(m) && Enabled(m, a) && (a.StartChild? || a.StartParent?)
    ensures Inv(m.k)
    ensures var pid, m' := m.k.nextPid, Do(m, a);
            && pid !in Living(m.k) && Living(m'.k) == Living(m.k) + {pid}
            && pid in m'.f.fds && m'.f.fds == m.f.fds[pid := m'.f.fds[pid]]
  {
    hide Inv, Files.Inv, SemsHold, Inheritable;
    ActiveParts(m);
    FreshPid(m.k);
  }

  // Whatever the step, as long as it restores no descriptors: whoever sleeps on, reading a pipe
  // that somebody can write to, can be woken still.
  lemma StepWriters(m: Machine, a: Action, q: nat, id: int)
    requires MInv(m) && Enabled(m, a) && a != Restore
    requires BlockedFor(m.k, q, PipeRead, id) && BlockedFor(Do(m, a).k, q, PipeRead, id) && WritingEnds(m, id) > 0
    ensures WritingEnds(Do(m, a), id) > 0
  {
    hide MInv, Enabled, Do, WritingEnds;
    match a
    case StartChild(_) => StartWriters(m, a, id);
    case StartParent(_, _) => StartWriters(m, a, id);
    case KillPid(p) =>
      if p != INIT && p in m.k.procs {
        KillPidWakes(m, p);
      } else {
        OpenStep(m, a);
        OpenAlike(m, Do(m, a), id);
      }
    case Exit(status) => ExitWakes(m, status);
    case CloseEnd(fd) => CloseWakes(m, fd);
    case Escape => EscapeWakes(m);
    case MkPipe(_, _) => FileStepWriters(m, a, id);
    case OpenEnd(_, _) => FileStepWriters(m, a, id);
    case DupTo(_, _) => FileStepWriters(m, a, id);
    case Restore =>
    case _ =>
      OpenStep(m, a);
      OpenAlike(m, Do(m, a), id);
  }

  // The steps that touch no descriptor and end nobody.
  predicate Harmless(m: Machine, a: Action) {
    match a
    case StartChild(_) => false
    case StartParent(_, _) => false
    case KillPid(p) => p == INIT || p !in m.k.procs
    case Exit(_) => false
    case CloseEnd(_) => false
    case Escape => false
    case MkPipe(_, _) => false
    case OpenEnd(_, _) => false
    case DupTo(_, _) => false
    case Restore => false
    case _ => true
  }

  lemma OpenStep(m: Machine, a: Action)
    requires MInv(m) && Enabled(m, a) && Harmless(m, a)
    ensures SameOpen(m, Do(m, a))
  {
    hide MInv;
  }

  lemma OpenAlike(m: Machine, m': Machine, id: int)
    requires SameOpen(m, m')
    ensures WritingEnds(m', id) == WritingEnds(m, id)
  {
  }

  // q sleeps all along, reading pipe id.
  ghost predicate Sleeps(m: Machine, actions: seq<Action>, q: nat, id: int)
    requires MInv(m) && CanRun(m, actions)
    decreases |actions|
  {
    BlockedFor(m.k, q, PipeRead, id) && (actions == [] || Sleeps(Do(m, actions[0]), actions[1..], q, id))
  }

  // In every run in which no descriptors are restored, a process that went to sleep reading a
  // pipe which somebody could write to sleeps only as long as somebody can.
  lemma {:induction false} SleeperHasWriter(m: Machine, actions: seq<Action>, q: nat, id: int)
    requires MInv(m) && CanRun(m, actions) && Sleeps(m, actions, q, id) && WritingEnds(m, id) > 0
    requires forall i :: 0 <= i < |actions| ==> actions[i] != Restore
    ensures WritingEnds(Run(m, actions), id) > 0
    decreases |actions|
  {
    hide MInv, Do, Enabled, WritingEnds;
    if actions != [] {
      assert actions[0] != Restore;
      forall i | 0 <= i < |actions[1..]| ensures actions[1..][i] != Restore {
        assert actions[1..][i] == actions[i + 1];
      }
      StepWriters(m, actions[0], q, id);
      SleeperHasWriter(Do(m, actions[0]), actions[1..], q, id);
    }
  }
}
