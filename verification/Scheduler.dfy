/** The scheduler as it runs: one object whose fields the routines change in place, with the
    pointer walks and pointer writes of the C code. A node's address is its pid, NULL is 0. */
module Scheduler {
  import opened Options
  import opened Lists
  import opened Kernel
  import opened KernelSteps
  import opened RoundRobin
  import opened Walks
  import opened Chains
  import opened Links
  import opened Reaping
  import Files = OpenFiles
  import Counts = OpenCounts
  import M = Machine

  datatype WaitResult = NoSuchChild | MustWait | Status(status: int)

  class Scheduler {
    // The children and waiting of a record, and limbo, are the specification's: no routine
    // looks at them.
    var procs: map<nat, Pcb>
    var processes: seq<nat>
    var previous: map<nat, nat>
    var next: map<nat, nat>
    ghost var queues: seq<seq<nat>>
    var firstChild: map<nat, nat>
    var prevSibling: map<nat, nat>
    var nextSibling: map<nat, nat>
    var nowRunning: nat
    var blockedProcesses: map<Source, seq<nat>>
    var deathList: seq<nat>
    var pidToGive: nat
    var limbo: Limbo
    var fds: map<nat, seq<Files.Fd>>
    var fdReplacements: map<nat, seq<Files.Lost>>
    var pipeFilesList: seq<Files.Pipe>
    var fileIdToGive: int

    ghost function View(): Kernel
      reads this
    {
      Kernel(procs, queues, nowRunning, blockedProcesses, deathList, pidToGive, limbo)
    }

    ghost function Descriptors(): Files.Files
      reads this
    {
      Files.Files(fds, fdReplacements, pipeFilesList, fileIdToGive)
    }

    // The link fields spell the five queues and everybody's children.
    ghost predicate QueuesLinked()
      reads this`queues, this`processes, this`previous, this`next
    {
      Queues(queues, processes, previous, next)
    }

    ghost predicate SiblingsLinked()
      reads this`procs, this`limbo, this`firstChild, this`prevSibling, this`nextSibling
    {
      Siblings(procs, limbo, firstChild, prevSibling, nextSibling)
    }

    ghost predicate Linked()
      reads this
    {
      QueuesLinked() && SiblingsLinked()
    }

    // initializeScheduler, and the first dispatch.
    constructor ()
      ensures View() == BootKernel() && Linked()
      ensures Descriptors() == M.Boot().f
    {
      procs := BootKernel().procs;
      queues := BootKernel().queues;
      processes := [NULL, NULL, NULL, NULL, INIT];
      previous, next := map[INIT := NULL], map[INIT := NULL];
      firstChild, prevSibling, nextSibling := map[INIT := NULL], map[INIT := NULL], map[INIT := NULL];
      nowRunning := INIT;
      blockedProcesses := BootKernel().blocked;
      deathList := [];
      pidToGive := INIT + 1;
      limbo := Nobody;
      fds := map[INIT := M.StandardTable()];
      fdReplacements := map[INIT := []];
      pipeFilesList := [];
      fileIdToGive := 3;
      new;
      BootLinked();
    }

    // findByPid
    method FindByPid(pid: nat) returns (found: bool)
      requires Queued(View()) && nowRunning in procs && QueuesLinked()
      ensures found <==> pid in procs
    {
      hide Queued, Queues;
      if pid == nowRunning {
        return true;
      }
      QueuePlace(View(), pid);
      QueueCount(queues, processes, previous, next);
      var i := 0;
      while i < PRIORITY_COUNT
        invariant 0 <= i <= PRIORITY_COUNT == |queues| == |processes|
        invariant forall k :: 0 <= k < i ==> pid !in queues[k]
      {
        QueueMembers(View(), i);
        QueueChain(queues, processes, previous, next, i);
        var head := processes[i];
        ghost var j := 0;
        while head != NULL
          invariant 0 <= j <= |queues[i]| && head == At(queues[i], j) && pid !in queues[i][..j]
          decreases |queues[i]| - j
        {
          if head == pid {
            return true;
          }
          ChainNode(queues[i], processes[i], previous, next, j);
          head := next[head];
          j := j + 1;
        }
        i := i + 1;
      }
      return false;
    }

    // findNextProcess: the first ready process behind the running one, going round.
    method FindNextProcess() returns (head: nat)
      requires Queued(View()) && CanTick(View()) && QueuesLinked()
      ensures head == Round(queues, nowRunning)[FirstReady(procs, Round(queues, nowRunning))]
    {
      hide Queued, Flat, Round, IndexOf, FirstReady, AtTurn, Queues, Chain;
      ghost var round, r := Round(queues, nowRunning), IndexOf(Flat(queues), nowRunning);
      TurnStarts(View(), nowRunning);
      QueueCount(queues, processes, previous, next);
      var i := procs[nowRunning].priority;
      ghost var j: nat := IndexOf(queues[i], nowRunning);
      QueueMembers(View(), i);
      QueueChain(queues, processes, previous, next, i);
      ChainNode(queues[i], processes[i], previous, next, j);
      head, j := next[nowRunning], j + 1;
      ghost var wrapped, t := false, 0;
      RoundLength(queues, nowRunning);
      TurnBounds(queues, r, i, j, t, wrapped);
      while head == NULL || procs[head].state != Ready
        invariant 0 <= i < PRIORITY_COUNT == |processes| && 0 <= j <= |queues[i]| && head == At(queues[i], j)
        invariant 0 <= t <= FirstReady(procs, round)
        invariant AtTurn(queues, r, i, j, t, wrapped)
        invariant NULL !in queues[i] && forall q :: q in queues[i] ==> q in procs
        decreases |round| - t, !wrapped, PRIORITY_COUNT - i
      {
        if head == NULL {
          TurnNextQueue(queues, r, i, t, wrapped);
          wrapped := wrapped || i == PRIORITY_COUNT - 1;
          i := (i + 1) % PRIORITY_COUNT;
          j := 0;
          QueueMembers(View(), i);
          QueueChain(queues, processes, previous, next, i);
          head := processes[i];
        } else {
          TurnAt(queues, nowRunning, i, j, t, wrapped);
          SkipNotReady(procs, round, t);
          TurnMoves(queues, r, i, j, t, wrapped);
          QueueChain(queues, processes, previous, next, i);
          ChainNode(queues[i], processes[i], previous, next, j);
          head := next[head];
          j := j + 1;
          t := t + 1;
        }
      }
      TurnAt(queues, nowRunning, i, j, t, wrapped);
      SkipNotReady(procs, round, t);
    }

    // scheduler(), for a running process that exists.
    method Schedule()
      requires Queued(View()) && CanTick(View()) && Linked()
      modifies `procs, `nowRunning
      ensures View() == Tick(old(View())) && Linked()
    {
      hide Queued, FirstReady, Round, Siblings;
      var canContinue := procs[nowRunning].quantum > 0;
      if procs[nowRunning].state == Ready && canContinue {
        procs := procs[nowRunning := procs[nowRunning].(quantum := procs[nowRunning].quantum - 1)];
        SiblingsFrame(old(procs), procs, limbo, firstChild, prevSibling, nextSibling);
        return;
      }
      var chosen := FindNextProcess();
      var more := if canContinue then 0 else PRIORITY_COUNT - procs[nowRunning].priority;
      procs := procs[nowRunning := procs[nowRunning].(quantum := procs[nowRunning].quantum + more)];
      nowRunning := chosen;
      SiblingsFrame(old(procs), procs, limbo, firstChild, prevSibling, nextSibling);
      assert old(procs)[old(nowRunning) := procs[old(nowRunning)]] == procs;
    }

    // _unblockProcessWithReason
    method UnblockListed(p: nat, s: Source)
      requires p in procs && s in blockedProcesses && SiblingsLinked()
      modifies `procs, `blockedProcesses
      ensures View() == Unblock(old(View()), p, s) && SiblingsLinked()
    {
      hide Siblings;
      procs := procs[p := procs[p].(state := Ready, source := NoBlock, id := 0)];
      SiblingsFrame(old(procs), procs, limbo, firstChild, prevSibling, nextSibling);
      var list, i := blockedProcesses[s], 0;
      while i < |list| && list[i] != p
        invariant 0 <= i <= |list| && p !in list[..i]
      {
        i := i + 1;
      }
      WithoutAt(list, p, i);
      if i < |list| {
        blockedProcesses := blockedProcesses[s := list[..i] + list[i + 1..]];
      }
      assert blockedProcesses == old(blockedProcesses)[s := Without(list, p)];
    }

    // unblockProcessWithReason
    method UnblockWithReason(p: nat, s: Source, id: int) returns (found: bool)
      requires Queued(View()) && nowRunning in procs && s in blockedProcesses && Linked()
      modifies `procs, `blockedProcesses
      ensures View() == UnblockIf(old(View()), p, s, id) && found == BlockedFor(old(View()), p, s, id)
      ensures Linked()
    {
      hide Queued, Unblock, Queues, Siblings;
      found := FindByPid(p);
      found := found && procs[p].source == s && procs[p].id == id && procs[p].state == Blocked;
      if found {
        UnblockListed(p, s);
      }
    }

    // unblockAllProcessesBecauseReason: one walk that wakes and unlinks every match.
    method UnblockAllBecause(s: Source, id: int)
      requires BlockedListed(View()) && s != NoBlock && SiblingsLinked()
      modifies `procs, `blockedProcesses
      ensures s in old(blockedProcesses) && View() == UnblockAll(old(View()), s, id) && SiblingsLinked()
    {
      hide BlockedListed, WokenSoFar, Siblings;
      ListMembers(View(), s);
      ghost var before, woken := View(), Matching(View(), s, id);
      ghost var n := 0;
      var i := 0;
      WalkStarts(before, s, id);
      while i < |blockedProcesses[s]|
        invariant s in blockedProcesses && blockedProcesses == before.blocked[s := blockedProcesses[s]]
        invariant 0 <= i <= |blockedProcesses[s]|
        invariant WokenSoFar(before, s, id, n, i, procs, blockedProcesses[s])
      {
        WalkGoesOn(before, s, id, n, i, procs, blockedProcesses[s]);
        var current := blockedProcesses[s][i];
        if procs[current].id == id {
          procs := procs[current := procs[current].(state := Ready, source := NoBlock, id := 0)];
          blockedProcesses := blockedProcesses[s := blockedProcesses[s][..i] + blockedProcesses[s][i + 1..]];
        } else {
          i := i + 1;
        }
        n := n + 1;
      }
      WalkEnds(before, s, id, n, i, procs, blockedProcesses[s]);
      SiblingsFrame(old(procs), procs, limbo, firstChild, prevSibling, nextSibling);
    }

    // blockProcessWithReason
    method BlockWithReason(p: nat, s: Source, id: int) returns (found: bool)
      requires Queued(View()) && Sane(View()) && p != INIT && s in blockedProcesses && Linked()
      modifies `procs, `blockedProcesses, `nowRunning
      ensures found == IsReady(old(procs), p) && Linked()
      ensures !found ==> View() == old(View())
      ensures found ==> CanTick(Block(old(View()), p, s, id)) && View() == Tick(Block(old(View()), p, s, id))
    {
      hide Queued, Tick, CanTick, Queues, Siblings;
      found := FindByPid(p);
      found := found && procs[p].state == Ready;
      if found {
        BlockCanTick(View(), p, s, id);
        procs := procs[p := procs[p].(state := Blocked, source := s, id := id)];
        SiblingsFrame(old(procs), procs, limbo, firstChild, prevSibling, nextSibling);
        blockedProcesses := blockedProcesses[s := [p] + blockedProcesses[s]];
        Schedule();
      }
    }

    // changePriority
    method ChangePriority(p: nat, priority: nat) returns (found: bool)
      requires Queued(View()) && nowRunning in procs && Linked()
      modifies `procs, `queues, `processes, `previous, `next
      ensures found == (priority < PRIORITY_COUNT && p in old(procs))
      ensures View() == if found then Reprioritise(old(View()), p, priority) else old(View())
      ensures Linked()
    {
      hide Queued, Queues, Siblings, Without;
      if priority >= PRIORITY_COUNT {
        return false;
      }
      found := FindByPid(p);
      if found {
        QueuePlace(View(), p);
        var from := procs[p].priority;
        QueueSole(View(), p);
        Unlink(from, p);
        procs := procs[p := procs[p].(priority := priority, quantum := PRIORITY_COUNT - priority)];
        PushNode(p, priority);
        SiblingsFrame(old(procs), procs, limbo, firstChild, prevSibling, nextSibling);
      }
    }

    // Taking node p out from between its neighbours in queue i.
    method Unlink(i: nat, p: nat)
      requires QueuesLinked() && i < |queues| && p in queues[i]
      modifies `queues, `processes, `previous, `next
      ensures QueuesLinked() && queues == old(queues)[i := Without(old(queues)[i], p)] && p !in queues[i] && p != NULL
    {
      hide Queues, Without;
      QueueCount(queues, processes, previous, next);
      QueueChain(queues, processes, previous, next, i);
      QueueSkip(queues, processes, previous, next, i, p);
      if previous[p] != NULL {
        next := next[previous[p] := next[p]];
      } else {
        processes := processes[i := next[p]];
      }
      if next[p] != NULL {
        previous := previous[next[p] := previous[p]];
      }
      queues := queues[i := Without(queues[i], p)];
      assert processes == old(processes)[i := HeadSkipped(old(processes)[i], p, old(previous), old(next))];
    }

    // The search of find(pipeFilesList, cmpFileID, ...).
    method FindPipe(id: int) returns (i: nat)
      ensures i == Files.PipeIndex(pipeFilesList, id)
    {
      i := 0;
      while i < |pipeFilesList| && pipeFilesList[i].id != id
        invariant i <= |pipeFilesList| && forall j :: 0 <= j < i ==> pipeFilesList[j].id != id
      {
        i := i + 1;
      }
    }

    // modifyOpenCount
    method ModifyOpenCount(e: Files.Fd, units: int)
      modifies `pipeFilesList
      ensures pipeFilesList == Files.Modify(old(pipeFilesList), e, units)
    {
      var i := FindPipe(e.file);
      if i < |pipeFilesList| {
        var pipe := pipeFilesList[i].(opens := pipeFilesList[i].opens + units);
        if e.mode == 'W' {
          pipe := pipe.(writers := pipe.writers + units);
        }
        pipeFilesList := pipeFilesList[i := pipe];
      }
    }

    // The descriptors of a new process: the standard streams, or a copy that counts as open.
    method CopyDescriptors(from: Option<seq<Files.Fd>>) returns (table: seq<Files.Fd>)
      requires from.Some? ==> |from.value| == Files.MAX_FD_COUNT
      modifies `pipeFilesList
      ensures table == if from.Some? then from.value else M.StandardTable()
      ensures pipeFilesList == if from.Some? then Counts.Inherit(old(pipeFilesList), from.value, 0)
                else old(pipeFilesList)
    {
      hide Files.Modify;
      table := [];
      var i := 0;
      if from == None {
        while i < Files.MAX_FD_COUNT
          invariant 0 <= i <= Files.MAX_FD_COUNT && table == M.StandardTable()[..i]
        {
          table := table + [Files.Fd(if i < 3 then i else -1, if i == 0 then 'R' else if i < 3 then 'W' else 'N')];
          i := i + 1;
        }
      } else {
        var fds := from.value;
        while i < Files.MAX_FD_COUNT
          invariant 0 <= i <= Files.MAX_FD_COUNT && table == fds[..i]
          invariant Counts.Inherit(pipeFilesList, fds, i) == Counts.Inherit(old(pipeFilesList), fds, 0)
        {
          table := table + [fds[i]];
          if fds[i].file > 2 && fds[i].mode != 'N' {
            ModifyOpenCount(fds[i], 1);
          }
          i := i + 1;
        }
      }
    }

    // startProcess
    method StartProcess(parent: nat, priority: nat, dies: bool, from: Option<seq<Files.Fd>>) returns (pid: nat)
      requires Inv(View()) && Linked() && parent in procs && priority < PRIORITY_COUNT
      requires from.Some? ==> |from.value| == Files.MAX_FD_COUNT
      modifies this
      ensures |old(queues)| == PRIORITY_COUNT && View() == Start(old(View()), parent, priority, dies)
      ensures pid == old(pidToGive) && Linked()
      ensures Descriptors() == old(Descriptors()).(
                fds := old(fds)[pid := if from.Some? then from.value else M.StandardTable()],
                lost := old(fdReplacements)[pid := []],
                pipes := if from.Some? then Counts.Inherit(old(pipeFilesList), from.value, 0) else old(pipeFilesList))
    {
      hide Counts.Inherit, Inv, Queues, Siblings, Start;
      var table := CopyDescriptors(from);
      pid := LinkNode(parent, priority, dies);
      fds := fds[pid := table];
      fdReplacements := fdReplacements[pid := []];
    }

    // The part of startProcess that makes the node known.
    method LinkNode(parent: nat, priority: nat, dies: bool) returns (pid: nat)
      requires Inv(View()) && Linked() && parent in procs && priority < PRIORITY_COUNT
      modifies `procs, `deathList, `pidToGive
      modifies `queues, `processes, `previous, `next, `firstChild, `prevSibling, `nextSibling
      ensures |old(queues)| == PRIORITY_COUNT && View() == Start(old(View()), parent, priority, dies)
      ensures pid == old(pidToGive) && Linked()
    {
      hide Inv, Queues, Siblings;
      NewPid(View());
      pid := pidToGive;
      pidToGive := pidToGive + 1;
      var pcb := Pcb(parent % 256, Ready, NoBlock, 0, priority, PRIORITY_COUNT - priority, -1, [], dies, Outside);
      PushNode(pid, priority);
      AppendChild(parent, pid, pcb);
      if dies {
        deathList := [pid] + deathList;
      }
    }

    // The writes of startProcess and changePriority that put a node in front of a queue.
    method PushNode(pid: nat, priority: nat)
      requires QueuesLinked() && priority < |queues| && pid != NULL
      requires forall i :: 0 <= i < |queues| ==> pid !in queues[i]
      modifies `queues, `processes, `previous, `next
      ensures QueuesLinked() && queues == old(queues)[priority := [pid] + old(queues)[priority]]
    {
      hide Queues;
      QueuePush(queues, processes, previous, next, priority, pid);
      var head := processes[priority];
      next := next[pid := head];
      if head != NULL {
        previous := previous[head := pid];
      }
      previous := previous[pid := NULL];
      processes := processes[priority := pid];
      queues := queues[priority := [pid] + queues[priority]];
    }

    // The part of startProcess that puts the new node behind its parent's last child.
    method AppendChild(parent: nat, pid: nat, pcb: Pcb)
      requires SiblingsLinked() && parent in procs && pid !in procs && pid != NULL && pcb.children == []
      requires Unlisted(procs, limbo, pid) && LimboApart(procs, limbo) && (limbo.Reaped? ==> limbo.pid != pid)
      modifies `procs, `firstChild, `prevSibling, `nextSibling
      ensures SiblingsLinked()
      ensures procs == old(procs)[parent := old(procs)[parent].(children := old(procs)[parent].children +
                [pid])][pid := pcb]
    {
      hide Siblings, Chain;
      ghost var s := procs[parent].children;
      ChildChain(procs, limbo, firstChild, prevSibling, nextSibling, parent);
      SiblingNew(procs, limbo, firstChild, prevSibling, nextSibling, parent, pid, pcb);
      firstChild := firstChild[pid := NULL];
      prevSibling := prevSibling[pid := NULL];
      nextSibling := nextSibling[pid := NULL];
      if firstChild[parent] == NULL {
        firstChild := firstChild[parent := pid];
        assert At(s, |s| - 1) == NULL;
      } else {
        ChainFrame(s, firstChild[parent], old(prevSibling), old(nextSibling), prevSibling, nextSibling);
        var aux := LastSibling(s, firstChild[parent], prevSibling);
        nextSibling := nextSibling[aux := pid];
        prevSibling := prevSibling[pid := aux];
      }
      procs := procs[parent := procs[parent].(children := procs[parent].children + [pid])][pid := pcb];
      assert firstChild == old(firstChild)[pid := NULL][parent := if s == [] then pid else old(firstChild)[parent]];
      assert prevSibling == old(prevSibling)[pid := At(s, |s| - 1)];
    }

    // The walk over nextSibling to the end of a list of children.
    method LastSibling(ghost s: seq<nat>, first: nat, ghost prev: map<nat, nat>) returns (last: nat)
      requires Chain(s, first, prev, nextSibling) && s != []
      ensures last == s[|s| - 1]
    {
      hide Chain;
      ChainHead(s, first, prev, nextSibling);
      ghost var i := 0;
      last := first;
      ChainNode(s, first, prev, nextSibling, 0);
      while nextSibling[last] != NULL
        invariant 0 <= i < |s| && last == s[i] && Node(s, i, prev, nextSibling)
        decreases |s| - i
      {
        last := nextSibling[last];
        i := i + 1;
        ChainNode(s, first, prev, nextSibling, i);
      }
      AtEnd(s, i + 1);
    }

    // closeForKilling
    method CloseForKilling(e: Files.Fd)
      requires BlockedListed(View()) && SiblingsLinked()
      modifies `procs, `blockedProcesses, `pipeFilesList
      ensures pipeFilesList == Files.Release(old(pipeFilesList), e) && SiblingsLinked()
      ensures PipeRead in old(blockedProcesses)
      ensures View() == if Files.WakesReaders(old(pipeFilesList), e) then UnblockAll(old(View()), PipeRead, e.file)
                        else old(View())
    {
      hide BlockedListed, UnblockAll, Siblings;
      ListMembers(View(), PipeRead);
      var i := FindPipe(e.file);
      if i < |pipeFilesList| {
        ModifyOpenCount(e, -1);
        if e.mode == 'W' && pipeFilesList[i].writers == 0 {
          UnblockAllBecause(PipeRead, e.file);
        }
        if pipeFilesList[i].opens == 0 {
          pipeFilesList := pipeFilesList[..i] + pipeFilesList[i + 1..];
        }
      }
    }

    // The loop of _killProcess over the open files of p.
    method CloseFiles(p: nat)
      requires Inv(View()) && SiblingsLinked() && p in fds && |fds[p]| == Files.MAX_FD_COUNT
      modifies `procs, `blockedProcesses, `pipeFilesList
      ensures pipeFilesList == Counts.CloseAll(old(pipeFilesList), fds[p], 0)
      ensures View() == M.WakeReaders(old(View()), Counts.Wakes(old(pipeFilesList), fds[p], 0))
      ensures Inv(View()) && SiblingsLinked()
    {
      hide Inv, UnblockAll, Files.Release, Files.WakesReaders, Siblings;
      var table, i := fds[p], 0;
      ghost var wakes := Counts.Wakes(pipeFilesList, table, 0);
      while i < Files.MAX_FD_COUNT
        invariant 0 <= i <= Files.MAX_FD_COUNT && Inv(View()) && SiblingsLinked()
        invariant Counts.CloseAll(pipeFilesList, table, i) == Counts.CloseAll(old(pipeFilesList), table, 0)
        invariant M.WakeReaders(View(), Counts.Wakes(pipeFilesList, table, i)) == M.WakeReaders(old(View()), wakes)
      {
        if table[i].mode != 'N' && table[i].file > Files.STDERR {
          M.BlockedPart(View());
          UnblockAllInv(View(), PipeRead, table[i].file);
          WakeNext(View(), pipeFilesList, table, i);
          CloseForKilling(table[i]);
        }
        i := i + 1;
      }
    }

    // The walk of _killProcess over the death list.
    method LeaveDeaths(p: nat)
      requires Distinct(deathList) && p in procs
      modifies `deathList
      ensures View() == LeaveDeathList(old(View()), p)
    {
      hide Except, Without, Distinct;
      ghost var list, n := deathList, 0;
      if procs[p].inDeathList {
        var i := 0;
        assert list[..n] == [];
        ExceptNone({p});
        while i < |deathList|
          invariant 0 <= n <= |list| && i == |Except(list[..n], {p})| && deathList == Except(list[..n], {p}) + list[n..]
          decreases |list| - n
        {
          ExceptNext(list, n, {p});
          SpliceNext(Except(list[..n], {p}), list, n);
          if deathList[i] == p {
            deathList := deathList[..i] + deathList[i + 1..];
          } else {
            i := i + 1;
          }
          n := n + 1;
        }
        assert list[..n] == list;
        ExceptOne(list, p);
      }
    }

    // The rest of _killProcess.
    method FinishProcess(p: nat)
      requires Queued(View()) && nowRunning in procs && p in procs && Linked()
      requires procs[p].source in blockedProcesses && WaitChild in blockedProcesses
      modifies `procs, `blockedProcesses
      ensures View() == Finish(old(View()), p) && Linked()
    {
      hide Queued, Without, Queues, Siblings;
      QueuedKept(View(), p);
      if procs[p].state == Blocked {
        var _ := UnblockWithReason(p, procs[p].source, procs[p].id);
      }
      var parent := procs[p].ppid;
      var found := FindByPid(parent);
      if !found {
        return;
      }
      if procs[parent].source == WaitChild && (procs[parent].id == p || procs[parent].id == 0) {
        UnblockListed(parent, WaitChild);
      }
      ghost var before := procs;
      procs := procs[p := procs[p].(state := Finished)];
      SiblingsFrame(before, procs, limbo, firstChild, prevSibling, nextSibling);
    }

    // _killProcess; it does not ask whether the process is finished already.
    method KillProcess(p: nat)
      requires Inv(View()) && Linked() && p in procs && p != INIT
      requires p in fds && |fds[p]| == Files.MAX_FD_COUNT
      modifies `procs, `blockedProcesses, `deathList, `pipeFilesList
      ensures var woken := M.WakeReaders(old(View()), Counts.Wakes(old(pipeFilesList), fds[p], 0));
              && p in woken.procs && woken.procs[p].source in woken.blocked && WaitChild in woken.blocked
              && View() == Finish(LeaveDeathList(woken, p), p)
      ensures pipeFilesList == Counts.CloseAll(old(pipeFilesList), fds[p], 0)
      ensures Linked() && (old(procs)[p].state != Finished && !Orphaned(old(View()), p) ==> Inv(View()))
    {
      hide Inv, Finish, M.WakeReaders, Counts.Wakes, M.OnlyWoken, Queues, Siblings;
      ghost var wakes := Counts.Wakes(pipeFilesList, fds[p], 0);
      M.WakeReadersInv(View(), wakes);
      StillThere(View(), M.WakeReaders(View(), wakes), p);
      CloseFiles(p);
      ListedSource(View(), p);
      if old(procs)[p].state != Finished && !Orphaned(View(), p) {
        FinishInv(View(), p);
      }
      LeaveParts(View(), p);
      LeaveDeaths(p);
      FinishProcess(p);
    }

    // waitchild as a system call, up to the point where it returns or blocks.
    method WaitForChild(childpid: nat) returns (r: WaitResult)
      requires Inv(View()) && Linked() && procs[nowRunning].state == Ready && nowRunning != INIT
      modifies `procs, `blockedProcesses, `nowRunning
      modifies `queues, `processes, `previous, `next, `firstChild, `prevSibling, `nextSibling
      ensures Linked()
      ensures old(nowRunning) in old(procs)
      ensures var k, p := old(View()), old(nowRunning); match Target(k, p, childpid)
              case None => r == NoSuchChild && View() == k
              case Some(t) =>
                && t in k.procs
                && (k.procs[t].state == Finished ==>
                      r == Status(k.procs[t].status) && BuryReady(k, p, t) && View() == Bury(k, p, t))
                && (k.procs[t].state != Finished ==>
                      && r == MustWait && WaitChild in k.blocked
                      && CanTick(WaitFor(k, p, childpid, t)) && View() == Tick(WaitFor(k, p, childpid, t)))
    {
      hide Inv, Tick, CanTick, Bury, Queues, Siblings, Chain;
      InvParts(View());
      var p := nowRunning;
      var child := SearchChild(childpid);
      if child == NULL {
        return NoSuchChild;
      }
      WaitParts(View(), p, child);
      if procs[child].state != Finished {
        WaitCanTick(View(), p, childpid, child);
        ghost var k := View();
        var living := set e | e in procs[p].children && e in procs && procs[e].state != Finished;
        var waiting := Inside(child, if childpid == 0 then living else {child});
        procs := procs[p := procs[p].(state := Blocked, source := WaitChild, id := childpid, waiting := waiting)];
        blockedProcesses := blockedProcesses[WaitChild := [p] + blockedProcesses[WaitChild]];
        assert View() == WaitFor(k, p, childpid, child);
        SiblingsFrame(old(procs), procs, limbo, firstChild, prevSibling, nextSibling);
        Schedule();
        return MustWait;
      }
      var status := Collect(child);
      return Status(status);
    }

    // The search of waitchild among the children of the caller; NULL if it finds none.
    method SearchChild(childpid: nat) returns (child: nat)
      requires nowRunning in procs && SiblingsLinked()
      ensures Target(View(), nowRunning, childpid) == if child == NULL then None else Some(child)
    {
      hide Siblings, Chain;
      ghost var s := procs[nowRunning].children;
      ChildChain(procs, limbo, firstChild, prevSibling, nextSibling, nowRunning);
      var head := firstChild[nowRunning];
      child := if childpid == 0 then head else NULL;
      ghost var i := 0;
      while child == NULL && head != NULL
        invariant 0 <= i <= |s| && head == At(s, i) && (child == NULL ==> childpid !in s[..i])
        invariant childpid == 0 ==> i == 0 && child == head
        invariant childpid != 0 && child != NULL ==> child == childpid && child in s
        decreases |s| - i
      {
        ChainNode(s, firstChild[nowRunning], prevSibling, nextSibling, i);
        if head == childpid {
          child := head;
        }
        head := nextSibling[head];
        i := i + 1;
      }
    }

    // The end of waitchild, for a finished child c: also where a blocked call resumes.
    method Collect(c: nat) returns (status: int)
      requires BuryReady(View(), nowRunning, c) && Linked()
      modifies `procs, `queues, `processes, `previous, `next, `firstChild, `prevSibling, `nextSibling
      ensures View() == Bury(old(View()), nowRunning, c) && status == old(procs)[c].status && Linked()
    {
      hide Bury, Adopted, Queues, Siblings;
      BuryByParts(View(), nowRunning, c);
      status := procs[c].status;
      UnlinkChild(nowRunning, c);
      RemoveFromList(c);
    }

    // Taking child c of p out from between its siblings.
    method UnlinkChild(p: nat, c: nat)
      requires p in procs && c in procs[p].children && SiblingsLinked() && LimboApart(procs, limbo)
      modifies `procs, `firstChild, `prevSibling, `nextSibling
      ensures SiblingsLinked()
      ensures procs == old(procs)[p := old(procs)[p].(children := Without(old(procs)[p].children, c),
                waiting := Outside)]
      ensures Unlisted(procs, limbo, c)
    {
      hide Siblings;
      var pcb := procs[p].(children := Without(procs[p].children, c), waiting := Outside);
      SiblingSkip(procs, limbo, firstChild, prevSibling, nextSibling, p, c, pcb);
      if prevSibling[c] != NULL {
        nextSibling := nextSibling[prevSibling[c] := nextSibling[c]];
      } else {
        firstChild := firstChild[p := nextSibling[c]];
      }
      if nextSibling[c] != NULL {
        prevSibling := prevSibling[nextSibling[c] := prevSibling[c]];
      }
      procs := procs[p := pcb];
      assert firstChild == old(firstChild)[p := HeadSkipped(old(firstChild)[p], c, old(prevSibling), old(nextSibling))];
    }

    // removeFromList: out of its queue, its children to init, and freed.
    method RemoveFromList(c: nat)
      requires c in procs && INIT in procs && c != INIT && Linked()
      requires |queues| == PRIORITY_COUNT && procs[c].priority < PRIORITY_COUNT
      requires forall i :: 0 <= i < PRIORITY_COUNT ==> (c in queues[i] <==> i == procs[c].priority)
      requires Distinct(procs[c].children) && forall o :: o in procs[c].children ==> o in procs && o != c
      requires Unlisted(procs, limbo, c) && LimboApart(procs, limbo)
      modifies `procs, `queues, `processes, `previous, `next, `firstChild, `prevSibling, `nextSibling
      ensures queues == old(queues)[old(procs)[c].priority := Without(old(queues)[old(procs)[c].priority], c)]
      ensures procs == map q | q in old(procs) && q != c :: Adopted(old(procs)[q], q, old(procs)[c].children)
      ensures Linked()
    {
      hide Queues, Siblings, Without, Unlisted, LimboApart;
      LeaveQueue(c);
      QueueForget(queues, processes, previous, next, c);
      InheritChildren(c);
      AdoptedKids(old(procs), procs - {c}, c);
      RemovedLinked(old(procs), procs - {c}, limbo, old(firstChild), old(prevSibling), old(nextSibling), c,
                    firstChild, prevSibling, nextSibling);
      FreeNode(c);
    }

    // What is left of a node in the links once nobody reaches it.
    method FreeNode(c: nat)
      modifies `procs, `previous, `next, `firstChild, `prevSibling, `nextSibling
      ensures procs == old(procs) - {c} && previous == old(previous) - {c} && next == old(next) - {c}
      ensures firstChild == old(firstChild) - {c}
      ensures prevSibling == old(prevSibling) - {c} && nextSibling == old(nextSibling) - {c}
    {
      procs := procs - {c};
      previous, next := previous - {c}, next - {c};
      firstChild, prevSibling, nextSibling := firstChild - {c}, prevSibling - {c}, nextSibling - {c};
    }

    // The call waitchild(c) that init makes for its finished child c, not as a system call, up
    // to where the walk of inheritChildren has met the end of init's children: here other
    // processes can come in.
    method BeginReap(c: nat) returns (lastChild: nat)
      requires Inv(View()) && Linked() && CanReap(View(), c)
      modifies `procs, `queues, `processes, `previous, `next, `firstChild, `prevSibling, `nextSibling, `limbo
      ensures View() == Reap(old(View()), c) && Linked()
      ensures limbo.Reaped? && lastChild == At(limbo.seen, |limbo.seen| - 1)
    {
      hide Inv, Queues, Siblings, Without, Unlisted, LimboApart, Chain, CanReap, Reap;
      BeginParts(View(), c);
      BeginByParts(View(), c);
      UnlinkChild(INIT, c);
      LeaveQueue(c);
      lastChild := EndOfChildren(INIT);
      BeganLinked(procs, c, procs[INIT].children, firstChild, prevSibling, nextSibling);
      limbo := Reaped(c, procs[c].children, procs[INIT].children);
      procs := procs - {c};
    }

    // The rest of that call: the store behind the end that the walk had met, the orphans' new
    // parent, and the free. Whatever has come behind that end in the meantime is cut off.
    method EndReap(c: nat, lastChild: nat)
      requires Inv(View()) && Linked() && limbo.Reaped? && limbo.pid == c
      requires lastChild == At(limbo.seen, |limbo.seen| - 1)
      modifies `procs, `previous, `next, `firstChild, `prevSibling, `nextSibling, `limbo
      ensures View() == Adopt(old(View())) && Linked()
    {
      hide Inv, Queues, Siblings, Unlisted, LimboApart, Chain, Adopt, Hung;
      EndParts(View());
      EndByParts(View());
      LimboChain(procs, limbo, firstChild, prevSibling, nextSibling);
      ChildChain(procs, limbo, firstChild, prevSibling, nextSibling, INIT);
      QueueForget(queues, processes, previous, next, c);
      HangOrphans(c, lastChild, limbo.seen, limbo.orphans);
      LateLinked(old(procs), procs, limbo, old(firstChild), old(prevSibling), old(nextSibling),
                 firstChild, prevSibling, nextSibling);
      limbo := Nobody;
      FreeNode(c);
    }

    // The first half of removeFromList; a node without a predecessor is some queue's head.
    method LeaveQueue(c: nat)
      requires c in procs && procs[c].priority < |queues| == PRIORITY_COUNT && QueuesLinked()
      requires c in queues[procs[c].priority]
      modifies `queues, `processes, `previous, `next
      ensures queues == old(queues)[procs[c].priority := Without(old(queues)[procs[c].priority], c)]
      ensures QueuesLinked() && c !in queues[procs[c].priority]
    {
      hide Queues, Without;
      var own := procs[c].priority;
      QueueCount(queues, processes, previous, next);
      QueueSkip(queues, processes, previous, next, own, c);
      if previous[c] != NULL {
        next := next[previous[c] := next[c]];
      } else {
        var i := 0;
        while i < PRIORITY_COUNT
          modifies `processes
          invariant 0 <= i <= PRIORITY_COUNT == |processes|
          invariant processes == if i <= own then old(processes) else old(processes)[own := next[c]]
        {
          QueueChain(queues, old(processes), previous, next, i);
          if processes[i] == c {
            assert c == queues[i][0];
            QueueApart(queues, old(processes), previous, next, i, own, c);
            processes := processes[i := next[c]];
          }
          i := i + 1;
        }
      }
      if next[c] != NULL {
        previous := previous[next[c] := previous[c]];
      }
      queues := queues[own := Without(queues[own], c)];
      assert processes == old(processes)[own := HeadSkipped(old(processes)[own], c, old(previous), old(next))];
    }

    // inheritChildren from c to init, without interruption.
    method InheritChildren(c: nat)
      requires c in procs && INIT in procs && c != INIT && SiblingsLinked()
      requires forall o :: o in procs[c].children ==> o in procs
      modifies `procs, `firstChild, `prevSibling, `nextSibling
      ensures procs == map q | q in old(procs) :: Adopted(old(procs)[q], q, old(procs)[c].children)
      ensures INIT in old(firstChild) && c in old(firstChild)
      ensures var s, first := old(procs)[INIT].children, old(firstChild)[c];
              && firstChild == old(firstChild)[INIT := if s == [] then first else old(firstChild)[INIT]]
              && prevSibling == (if first == NULL then old(prevSibling) else old(prevSibling)[first := At(s, |s| - 1)])
              && nextSibling == NextJoined(s, first, old(nextSibling))
    {
      hide Siblings, Chain;
      ChildChain(procs, limbo, firstChild, prevSibling, nextSibling, INIT);
      ChildChain(procs, limbo, firstChild, prevSibling, nextSibling, c);
      KidsApart(procs, limbo, firstChild, prevSibling, nextSibling, INIT, c);
      var lastChild := EndOfChildren(INIT);
      HangOrphans(c, lastChild, procs[INIT].children, procs[c].children);
      HungAsAdopted(old(procs), procs, old(procs)[c].children);
    }

    // The walk of inheritChildren to the end of a list of children; NULL if there are none.
    method EndOfChildren(p: nat) returns (lastChild: nat)
      requires p in procs && SiblingsLinked()
      ensures lastChild == At(procs[p].children, |procs[p].children| - 1)
    {
      hide Siblings, Chain;
      ChildChain(procs, limbo, firstChild, prevSibling, nextSibling, p);
      lastChild := NULL;
      if firstChild[p] != NULL {
        lastChild := LastSibling(procs[p].children, firstChild[p], prevSibling);
      }
    }

    // The writes of inheritChildren behind lastChild, the end of s. For a childless c its write
    // through NULL, to no node of the scheduler, is left out.
    method HangOrphans(c: nat, lastChild: nat, s: seq<nat>, orphans: seq<nat>)
      requires INIT in procs && forall o :: o in orphans ==> o in procs && o !in s
      requires INIT in firstChild && c in firstChild && c != INIT && NULL !in s && lastChild == At(s, |s| - 1)
      requires Chain(orphans, firstChild[c], prevSibling, nextSibling)
      modifies `procs, `firstChild, `prevSibling, `nextSibling
      ensures procs == Hung(old(procs), s, orphans)
      ensures var first := old(firstChild)[c];
              && firstChild == old(firstChild)[INIT := if s == [] then first else old(firstChild)[INIT]]
              && prevSibling == (if first == NULL then old(prevSibling) else old(prevSibling)[first := At(s, |s| - 1)])
              && nextSibling == NextJoined(s, first, old(nextSibling))
    {
      hide Chain, HungSoFar, Hung;
      ChainHead(orphans, firstChild[c], prevSibling, nextSibling);
      var first := firstChild[c];
      if lastChild == NULL {
        firstChild := firstChild[INIT := first];
      } else {
        nextSibling := nextSibling[lastChild := first];
      }
      if first != NULL {
        prevSibling := prevSibling[first := lastChild];
      }
      HangStarts(procs, s, orphans);
      procs := procs[INIT := procs[INIT].(children := s + orphans)];
      ghost var i := 0;
      var current := first;
      while current != NULL
        modifies `procs
        invariant 0 <= i <= |orphans| && current == At(orphans, i) && HungSoFar(old(procs), procs, s, orphans, i)
        decreases |orphans| - i
      {
        ChainNode(orphans, first, old(prevSibling), old(nextSibling), i);
        HangNext(old(procs), procs, s, orphans, i);
        procs := procs[current := procs[current].(ppid := INIT)];
        current := nextSibling[current];
        i := i + 1;
      }
      HangEnds(old(procs), procs, s, orphans);
    }

    // The search of find(pipeFilesList, cmpFileName, ...).
    method FindNamed(name: string) returns (i: nat)
      ensures i == Files.NamedIndex(pipeFilesList, name)
    {
      i := 0;
      while i < |pipeFilesList| && pipeFilesList[i].name != name
        invariant i <= |pipeFilesList| && forall j :: 0 <= j < i ==> pipeFilesList[j].name != name
      {
        i := i + 1;
      }
    }

    // mkpipe; seen is the string that begins at the third character of name.
    method Mkpipe(name: string, seen: string) returns (made: bool)
      modifies `pipeFilesList, `fileIdToGive
      ensures (Descriptors(), made) == Files.Mkpipe(old(Descriptors()), name, seen)
    {
      var i := FindNamed(seen);
      if i < |pipeFilesList| {
        return false;
      }
      pipeFilesList := [Files.Pipe(fileIdToGive, name, 0, 0)] + pipeFilesList;
      fileIdToGive := fileIdToGive + 1;
      return true;
    }

    // open
    method Open(name: string, mode: char) returns (fd: Option<nat>)
      requires nowRunning in fds && |fds[nowRunning]| == Files.MAX_FD_COUNT && Counts.IdsDiffer(pipeFilesList)
      modifies `fds, `pipeFilesList
      ensures (Descriptors(), fd) == Files.OpenNamed(old(Descriptors()), nowRunning, name, mode)
    {
      var i := FindNamed(name);
      if i == |pipeFilesList| || (mode != 'W' && mode != 'R') {
        return None;
      }
      var file := pipeFilesList[i];
      Counts.PipeAt(pipeFilesList, i);
      var free := OpenFile(Files.Fd(file.id, mode));
      if free == Files.MAX_FD_COUNT {
        return None;
      }
      file := file.(opens := file.opens + 1);
      if mode == 'W' {
        file := file.(writers := file.writers + 1);
      }
      pipeFilesList := pipeFilesList[i := file];
      return Some(free);
    }

    // openFile; MAX_FD_COUNT when no descriptor is free.
    method OpenFile(e: Files.Fd) returns (ans: nat)
      requires nowRunning in fds && |fds[nowRunning]| == Files.MAX_FD_COUNT
      modifies `fds
      ensures ans == Files.FreeFd(old(fds)[nowRunning], 4)
      ensures fds == if ans == Files.MAX_FD_COUNT then old(fds)
                else old(fds)[nowRunning := old(fds)[nowRunning][ans := e]]
    {
      var table := fds[nowRunning];
      ans := 4;
      while table[ans].file != -1
        invariant 4 <= ans < Files.MAX_FD_COUNT && Files.FreeFd(table, ans) == Files.FreeFd(table, 4)
        decreases Files.MAX_FD_COUNT - ans
      {
        ans := ans + 1;
        if ans >= Files.MAX_FD_COUNT {
          return;
        }
      }
      fds := fds[nowRunning := table[ans := e]];
    }

    // close
    method Close(fd: nat) returns (closed: bool)
      requires BlockedListed(View()) && SiblingsLinked() && nowRunning in fds && |fds[nowRunning]| == Files.MAX_FD_COUNT
      modifies `procs, `blockedProcesses, `fds, `pipeFilesList
      ensures (Descriptors(), closed) == Files.CloseFd(old(Descriptors()), nowRunning, fd) && SiblingsLinked()
      ensures PipeRead in old(blockedProcesses)
      ensures View() == if closed && Files.WakesReaders(old(pipeFilesList), old(fds)[nowRunning][fd])
                        then UnblockAll(old(View()), PipeRead, old(fds)[nowRunning][fd].file) else old(View())
    {
      hide BlockedListed, UnblockAll, Files.Release, Files.WakesReaders, Siblings;
      ListMembers(View(), PipeRead);
      if fd >= Files.MAX_FD_COUNT {
        return false;
      }
      var e := fds[nowRunning][fd];
      if e.file == -1 {
        return false;
      }
      var i := FindPipe(e.file);
      if i == |pipeFilesList| || e.mode == 'N' {
        return false;
      }
      fds := fds[nowRunning := fds[nowRunning][fd := Files.Closed]];
      CloseForKilling(e);
      return true;
    }

    // dup2
    method Dup2(from: nat, to: nat) returns (done: bool)
      requires nowRunning in fds && |fds[nowRunning]| == Files.MAX_FD_COUNT && nowRunning in fdReplacements
      modifies `fds, `fdReplacements, `pipeFilesList
      ensures (Descriptors(), done) == Files.Dup2(old(Descriptors()), nowRunning, from, to)
    {
      hide Files.Modify;
      if from >= Files.MAX_FD_COUNT || to >= Files.MAX_FD_COUNT {
        return false;
      }
      var p, table := nowRunning, fds[nowRunning];
      fdReplacements := fdReplacements[p := [Files.Lost(to, table[to])] + fdReplacements[p]];
      fds := fds[p := table[to := table[from]]];
      ModifyOpenCount(fds[p][to], 1);
      return true;
    }

    // revertFdReplacements
    method RevertFdReplacements()
      requires nowRunning in fds && nowRunning in fdReplacements
      requires forall r :: r in fdReplacements[nowRunning] ==> r.index < |fds[nowRunning]|
      modifies `fds, `fdReplacements, `pipeFilesList
      ensures Descriptors() == Counts.Reverted(old(Descriptors()), nowRunning)
    {
      hide Files.Modify;
      var p := nowRunning;
      while fdReplacements[p] != []
        invariant p in fds && p in fdReplacements && |fds[p]| == |old(fds)[p]|
        invariant forall r :: r in fdReplacements[p] ==> r.index < |fds[p]|
        invariant Counts.Reverted(Descriptors(), p) == Counts.Reverted(old(Descriptors()), p)
        decreases |fdReplacements[p]|
      {
        var last := fdReplacements[p][0];
        ModifyOpenCount(fds[p][last.index], -1);
        fds := fds[p := fds[p][last.index := Files.Fd(last.index, last.entry.mode)]];
        fdReplacements := fdReplacements[p := fdReplacements[p][1..]];
      }
    }

    // killAllInDeathList: everybody on the list ends, nobody else does, and their files are
    // closed in the order of the list.
    method KillAllInDeathList()
      requires Inv(View()) && Linked()
      requires forall p :: p in procs ==> p in fds && |fds[p]| == Files.MAX_FD_COUNT
      requires forall p :: p in deathList ==> !Orphaned(View(), p)
      modifies `procs, `blockedProcesses, `deathList, `pipeFilesList
      ensures Inv(View()) && Linked() && deathList == [] && procs.Keys == old(procs).Keys
      ensures forall p :: p in procs ==>
                (procs[p].state == Finished <==> p in old(deathList) || old(procs)[p].state == Finished)
      ensures (forall p :: p in old(deathList) ==> p in fds) &&
                pipeFilesList == CloseTables(old(pipeFilesList), fds, old(deathList))
    {
      hide Inv, Queues, Siblings, Counts.CloseAll, CloseTables, EndedSoFar;
      ghost var list, n := deathList, 0;
      DeathListed(View());
      EndedNone(procs, list);
      while deathList != []
        invariant Inv(View()) && Linked() && procs.Keys == old(procs).Keys
        invariant 0 <= n <= |list| && deathList == list[n..] && EndedSoFar(old(procs), procs, list, n)
        invariant forall p :: p in list ==> p in fds && p in procs && !Orphaned(View(), p)
        invariant CloseTables(pipeFilesList, fds, list[n..]) == CloseTables(old(pipeFilesList), fds, list)
        decreases |list| - n
      {
        ghost var before := procs;
        CloseTablesNext(pipeFilesList, fds, list, n);
        KillFirst();
        EndedNext(old(procs), before, procs, list, n);
        n := n + 1;
      }
      EndedAll(old(procs), procs, list);
      CloseNoTables(pipeFilesList, fds);
    }

    // One turn of killAllInDeathList.
    method KillFirst()
      requires Inv(View()) && Linked() && deathList != [] && deathList[0] in fds &&
                 |fds[deathList[0]]| == Files.MAX_FD_COUNT
      requires !Orphaned(View(), deathList[0])
      modifies `procs, `blockedProcesses, `deathList, `pipeFilesList
      ensures Inv(View()) && Linked() && deathList == old(deathList)[1..] && procs.Keys == old(procs).Keys
      ensures forall p :: p in procs ==>
                (procs[p].state == Finished <==> p == old(deathList)[0] || old(procs)[p].state == Finished)
      ensures pipeFilesList == Counts.CloseAll(old(pipeFilesList), fds[old(deathList)[0]], 0)
    {
      hide Inv, Finish, M.WakeReaders, Queues, Siblings;
      var p := deathList[0];
      ReprieveParts(View());
      procs := procs[p := procs[p].(inDeathList := false)];
      SiblingsFrame(old(procs), procs, limbo, firstChild, prevSibling, nextSibling);
      deathList := deathList[1..];
      KillKeeps(View(), Counts.Wakes(pipeFilesList, fds[p], 0), p);
      KillProcess(p);
    }
  }
}
