/** What the descriptors of a process stand for: in the beginning, and as long as it does not
    change them itself. */
module Streams {
  import opened Kernel
  import opened Machine
  import opened MachineSteps
  import opened MachineRuns
  import Sleepers
  import Files = OpenFiles
  import Counts = OpenCounts

  // Reading works on descriptor 0 only, writing on 1 and 2, each from and to the file of its
  // own number, and all others are closed.
  ghost predicate StandardStreams(table: seq<Files.Fd>) {
    && |table| == 64
    && forall fd: nat {:trigger Standard(table, fd)} :: fd < 64 ==> Standard(table, fd)
  }

  predicate Standard(table: seq<Files.Fd>, fd: nat)
    requires |table| == 64 && fd < 64
  {
    && Files.FdToFileId(table, fd, 'R') == (if fd == 0 then 0 else -1)
    && Files.FdToFileId(table, fd, 'W') == (if fd == 1 then 1 else if fd == 2 then 2 else -1)
    && Files.FdToFileId(table, fd, '\0') == (if fd < 3 then fd else -1)
    && (table[fd].mode == 'N' <==> fd >= 3)
  }

  lemma StandardTableReads()
    ensures StandardStreams(StandardTable())
  {
    forall fd: nat | fd < 64 ensures Standard(StandardTable(), fd) {
    }
  }

  // A process that is started without a table to copy has the standard streams.
  lemma StartedAfresh(m: Machine, priority: nat, from: nat)
    requires MInv(m) && Enabled(m, StartParent(priority, from)) && from !in m.k.procs
    ensures var pid, m' := m.k.nextPid, Do(m, StartParent(priority, from));
            pid in m'.k.procs && pid in m'.f.fds && StandardStreams(m'.f.fds[pid])
  {
    hide Inv, Files.Inv, SemsHold, StandardStreams, StandardTable;
    ActiveParts(m);
    StandardTableReads();
  }

  // One that copies a table gets from each descriptor what the owner of the table gets.
  lemma StartedCopying(m: Machine, a: Action, from: nat, fd: nat, mode: char)
    requires MInv(m) && Enabled(m, a) && from in m.k.procs
    requires (a.StartChild? && from == m.k.running) || (a.StartParent? && a.copyFrom == from)
    ensures var pid, m' := m.k.nextPid, Do(m, a);
            && pid in m'.f.fds && from in m.f.fds && |m'.f.fds[pid]| == |m.f.fds[from]| == Files.MAX_FD_COUNT
            && Files.FdToFileId(m'.f.fds[pid], fd, mode) == Files.FdToFileId(m.f.fds[from], fd, mode)
  {
    hide Inv, Files.Inv, SemsHold;
    ActiveParts(m);
    OwnerLives(m, a, from);
    LivingInheritable(m, from);
  }

  lemma OwnerLives(m: Machine, a: Action, from: nat)
    requires MInv(m) && Enabled(m, a) && from in m.k.procs
    requires (a.StartChild? && from == m.k.running) || (a.StartParent? && a.copyFrom == from)
    ensures from in Living(m.k)
  {
    hide Files.Inv, SemsHold, BlockedListed, Waits, Mortal, Queued;
  }

  // No process changes the table of another one.
  lemma StepTables(m: Machine, a: Action, q: nat)
    requires MInv(m) && Enabled(m, a) && q in m.f.fds && q < m.k.nextPid && (q != m.k.running || q == INIT)
    ensures q in Do(m, a).f.fds && Do(m, a).f.fds[q] == m.f.fds[q]
  {
    hide MInv, Enabled, Do;
    match a
    case StartChild(_) => Sleepers.StartShape(m, a);
    case StartParent(_, _) => Sleepers.StartShape(m, a);
    case KillPid(p) =>
      if p != INIT && p in m.k.procs {
        KillTables(m, a);
      } else {
        Sleepers.OpenStep(m, a);
      }
    case Exit(_) => KillTables(m, a);
    case Escape => KillTables(m, a);
    case CloseEnd(fd) => CloseTables(m, fd, q);
    case MkPipe(_, _) => FileTables(m, a, q);
    case OpenEnd(_, _) => FileTables(m, a, q);
    case DupTo(_, _) => FileTables(m, a, q);
    case Restore => RestoreTables(m, q);
    case _ => Sleepers.OpenStep(m, a);
  }

  lemma KillTables(m: Machine, a: Action)
    requires MInv(m) && Enabled(m, a) && (a.Exit? || a.Escape? || (a.KillPid? && a.pid in m.k.procs && a.pid != INIT))
    ensures Do(m, a).f.fds == m.f.fds
  {
    hide Inv, Files.Inv, SemsHold;
    ActiveParts(m);
  }

  lemma FileTables(m: Machine, a: Action, q: nat)
    requires MInv(m) && Enabled(m, a) && q in m.f.fds && (q != m.k.running || q == INIT)
    requires a.MkPipe? || a.OpenEnd? || a.DupTo?
    ensures q in Do(m, a).f.fds && Do(m, a).f.fds[q] == m.f.fds[q]
  {
    hide Inv, Files.Inv, SemsHold, Files.CloseFd, Files.OpenNamed, Files.Mkpipe, Files.Dup2;
    ActiveParts(m);
    CallTables(m.f, m.k.running, q, a);
  }

  lemma RestoreTables(m: Machine, q: nat)
    requires MInv(m) && Enabled(m, Restore) && q in m.f.fds && (q != m.k.running || q == INIT)
    ensures q in Do(m, Restore).f.fds && Do(m, Restore).f.fds[q] == m.f.fds[q]
  {
    hide Inv, Files.Inv, SemsHold, Counts.Reverted;
    ActiveParts(m);
    Counts.RevertedInv(m.f, Living(m.k), m.k.running);
    RevertedTables(m.f, m.k.running, q);
  }

  lemma CloseTables(m: Machine, fd: nat, q: nat)
    requires MInv(m) && Enabled(m, CloseEnd(fd)) && q in m.f.fds && (q != m.k.running || q == INIT)
    ensures q in Do(m, CloseEnd(fd)).f.fds && Do(m, CloseEnd(fd)).f.fds[q] == m.f.fds[q]
  {
    hide Inv, Files.Inv, SemsHold, Files.CloseFd;
    ActiveParts(m);
    CallTables(m.f, m.k.running, q, CloseEnd(fd));
  }

  lemma CallTables(f: Files.Files, p: nat, q: nat, a: Action)
    requires p in f.fds && |f.fds[p]| == Files.MAX_FD_COUNT && p in f.lost && q in f.fds && q != p
    ensures a.CloseEnd? ==>
              q in Files.CloseFd(f, p, a.fd).0.fds && Files.CloseFd(f, p, a.fd).0.fds[q] == f.fds[q]
    ensures a.MkPipe? ==> Files.Mkpipe(f, a.name, a.seen).0.fds == f.fds
    ensures a.OpenEnd? ==>
              var f' := Files.OpenNamed(f, p, a.name, a.mode).0;
              q in f'.fds && f'.fds[q] == f.fds[q]
    ensures a.DupTo? ==>
              q in Files.Dup2(f, p, a.from, a.to).0.fds && Files.Dup2(f, p, a.from, a.to).0.fds[q] == f.fds[q]
  {
  }

  lemma {:induction false} RevertedTables(f: Files.Files, p: nat, q: nat)
    requires p in f.fds && p in f.lost && (forall r :: r in f.lost[p] ==> r.index < |f.fds[p]|) && q in f.fds && q != p
    ensures q in Counts.Reverted(f, p).fds && Counts.Reverted(f, p).fds[q] == f.fds[q]
    decreases if p in f.lost then |f.lost[p]| else 0
  {
    if f.lost[p] != [] {
      RevertedTables(Files.RevertOne(f, p), p, q);
    }
  }

  // Whatever runs, init has the standard streams.
  lemma {:induction false} InitTable(m: Machine, actions: seq<Action>)
    requires MInv(m) && CanRun(m, actions) && INIT in m.f.fds && StandardStreams(m.f.fds[INIT])
    ensures INIT in Run(m, actions).f.fds && StandardStreams(Run(m, actions).f.fds[INIT])
    decreases |actions|
  {
    hide MInv, Do, Enabled, StandardStreams;
    if actions != [] {
      PidAfterInit(m);
      StepTables(m, actions[0], INIT);
      InitTable(Do(m, actions[0]), actions[1..]);
    }
  }

  lemma PidAfterInit(m: Machine)
    requires MInv(m)
    ensures INIT < m.k.nextPid
  {
  }

  lemma InitStreams(actions: seq<Action>)
    requires MInv(Boot()) && CanRun(Boot(), actions)
    ensures INIT in Run(Boot(), actions).f.fds && StandardStreams(Run(Boot(), actions).f.fds[INIT])
  {
    hide MInv, CanRun, Run, StandardStreams, StandardTable;
    StandardTableReads();
    InitTable(Boot(), actions);
  }

  // open: the newest pipe of that name, at the lowest free descriptor from 4 on; the call
  // fails, and changes nothing, if there is no such pipe, no such descriptor or no such mode.
  lemma OpenEffect(f: Files.Files, p: nat, name: string, mode: char)
    requires p in f.fds && |f.fds[p]| == 64
    ensures var (f', fd) := Files.OpenNamed(f, p, name, mode);
            var table := f.fds[p];
            && (fd.Some? <==>
                  && (exists i :: 0 <= i < |f.pipes| && f.pipes[i].name == name) && (mode == 'R' || mode == 'W')
                  && exists j :: 4 <= j < 64 && table[j].file == -1)
            && (fd.None? ==> f' == f)
            && (fd.Some? ==>
                  && 4 <= fd.value < 64 && table[fd.value].file == -1
                  && (forall j :: 4 <= j < fd.value ==> table[j].file != -1)
                  && (exists i :: 0 <= i < |f.pipes| && f.pipes[i].name == name
                        && (forall j :: 0 <= j < i ==> f.pipes[j].name != name)
                        && p in f'.fds && |f'.fds[p]| == 64
                        && Files.FdToFileId(f'.fds[p], fd.value, mode) == f.pipes[i].id)
                  && forall j :: 0 <= j < 64 && j != fd.value ==> f'.fds[p][j] == table[j])
  {
    var i := Files.NamedIndex(f.pipes, name);
    if i < |f.pipes| {
      Files.HasPipeIff(f.pipes, f.pipes[i].id);
    }
  }

  // dup2: descriptor to stands for what descriptor from stood for, what it was is kept for
  // restoring, and one more end of the pipe counts as open.
  lemma Dup2Effect(f: Files.Files, p: nat, from: nat, to: nat, mode: char)
    requires p in f.fds && |f.fds[p]| == 64 && p in f.lost
    ensures var (f', done) := Files.Dup2(f, p, from, to);
            && (done <==> from < 64 && to < 64) && (!done ==> f' == f)
            && (done ==>
                  && p in f'.fds && |f'.fds[p]| == 64 && p in f'.lost
                  && Files.FdToFileId(f'.fds[p], to, mode) == Files.FdToFileId(f.fds[p], from, mode)
                  && (forall j: nat :: j < 64 && j != to ==> f'.fds[p][j] == f.fds[p][j])
                  && f'.lost[p] == [Files.Lost(to, f.fds[p][to])] + f.lost[p]
                  && Counted(f.pipes, f'.pipes, f.fds[p][from], 1))
  {
  }

  // The first pipe with the id that the descriptor names has so many more open ends, and
  // writing ends if the descriptor writes; no other pipe changes.
  ghost predicate Counted(pipes: seq<Files.Pipe>, pipes': seq<Files.Pipe>, e: Files.Fd, units: int) {
    && |pipes'| == |pipes|
    && forall i :: 0 <= i < |pipes| ==>
         if pipes[i].id == e.file && (forall j :: 0 <= j < i ==> pipes[j].id != e.file)
         then pipes'[i] == pipes[i].(opens := pipes[i].opens + units,
                                     writers := pipes[i].writers + if e.mode == 'W' then units else 0)
         else pipes'[i] == pipes[i]
  }

  // close: the descriptor stands for nothing any more; it fails, and changes nothing, for a
  // descriptor that is no open pipe end.
  lemma CloseEffect(f: Files.Files, p: nat, fd: nat, mode: char)
    requires p in f.fds && |f.fds[p]| == 64
    ensures var (f', closed) := Files.CloseFd(f, p, fd);
            && (closed ==> fd < 64 && f.fds[p][fd].mode != 'N' && f.fds[p][fd].file != -1)
            && (closed ==>
                  && p in f'.fds && |f'.fds[p]| == 64 && Files.FdToFileId(f'.fds[p], fd, mode) == -1
                  && forall j: nat :: j < 64 && j != fd ==> f'.fds[p][j] == f.fds[p][j])
            && (!closed ==> f' == f)
            && (closed <==> fd < 64 && f.fds[p][fd].file != -1 && f.fds[p][fd].mode != 'N'
                            && exists i :: 0 <= i < |f.pipes| && f.pipes[i].id == f.fds[p][fd].file)
  {
    if fd < 64 {
      Files.HasPipeIff(f.pipes, f.fds[p][fd].file);
    }
  }
}
