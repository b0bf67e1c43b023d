/** What the loops over queues, blocked lists and pipes have covered so far. */
module Walks {
  import opened Lists
  import opened Kernel
  import opened KernelSteps
  import opened RoundRobin
  import Links
  import Chains
  import opened Reaping
  import Files = OpenFiles
  import Counts = OpenCounts
  import M = Machine
  import Runs = MachineRuns

  // The node at place j of queue i is number t of the round that starts behind place r;
  // wrapped tells whether the walk is past the last queue.
  ghost predicate AtTurn(queues: seq<seq<nat>>, r: nat, i: nat, j: nat, t: nat, wrapped: bool) {
    && i < |queues| && j <= |queues[i]| && r < |Flat(queues)|
    && t + r + 1 == Offset(queues, i) + j + if wrapped then |Flat(queues)| else 0
  }

  lemma TurnStarts(k: Kernel, p: nat)
    requires Queued(k) && p in k.procs
    ensures |k.queues| == PRIORITY_COUNT
    ensures var i := k.procs[p].priority;
            && i < PRIORITY_COUNT && p in k.queues[i] && p in Flat(k.queues)
            && AtTurn(k.queues, IndexOf(Flat(k.queues), p), i, IndexOf(k.queues[i], p) + 1, 0, false)
  {
    var i := k.procs[p].priority;
    assert QueueHolds(k, i);
    FlatProcs(k);
    var j := IndexOf(k.queues[i], p);
    FlatAt(k.queues, i, j);
    IndexUnique(Flat(k.queues), Offset(k.queues, i) + j);
  }

  // At the end of a queue the walk goes on with the next one, from the last to the first.
  lemma TurnNextQueue(queues: seq<seq<nat>>, r: nat, i: nat, t: nat, wrapped: bool)
    requires i < |queues| && AtTurn(queues, r, i, |queues[i]|, t, wrapped) && t < |Flat(queues)|
    ensures wrapped ==> i + 1 < |queues|
    ensures AtTurn(queues, r, if i + 1 == |queues| then 0 else i + 1, 0, t, wrapped || i + 1 == |queues|)
  {
    OffsetNext(queues, i);
    FlatLength(queues);
  }

  lemma TurnAt(queues: seq<seq<nat>>, p: nat, i: nat, j: nat, t: nat, wrapped: bool)
    requires p in Flat(queues) && AtTurn(queues, IndexOf(Flat(queues), p), i, j, t, wrapped)
    requires j < |queues[i]| && t < |Flat(queues)|
    ensures |Round(queues, p)| == |Flat(queues)| && Round(queues, p)[t] == queues[i][j]
  {
    FlatAt(queues, i, j);
  }

  lemma TurnBounds(queues: seq<seq<nat>>, r: nat, i: nat, j: nat, t: nat, wrapped: bool)
    requires AtTurn(queues, r, i, j, t, wrapped)
    ensures i < |queues| && j <= |queues[i]|
  {
  }

  lemma TurnMoves(queues: seq<seq<nat>>, r: nat, i: nat, j: nat, t: nat, wrapped: bool)
    requires AtTurn(queues, r, i, j, t, wrapped) && j < |queues[i]|
    ensures AtTurn(queues, r, i, j + 1, t + 1, wrapped)
  {
  }

  lemma RoundLength(queues: seq<seq<nat>>, p: nat)
    requires p in Flat(queues)
    ensures |Round(queues, p)| == |Flat(queues)|
  {
  }

  lemma SkipNotReady(procs: map<nat, Pcb>, s: seq<nat>, t: nat)
    requires t <= FirstReady(procs, s) && t < |s|
    ensures if IsReady(procs, s[t]) then t == FirstReady(procs, s) else t < FirstReady(procs, s)
  {
  }

  lemma QueueMembers(k: Kernel, i: nat)
    requires Queued(k) && i < PRIORITY_COUNT
    ensures |k.queues| == PRIORITY_COUNT
    ensures Distinct(k.queues[i]) && forall p :: p in k.queues[i] <==> p in k.procs && k.procs[p].priority == i
  {
    assert QueueHolds(k, i);
  }

  lemma QueuePlace(k: Kernel, p: nat)
    requires Queued(k)
    ensures |k.queues| == PRIORITY_COUNT
    ensures p in k.procs ==> k.procs[p].priority < PRIORITY_COUNT && p in k.queues[k.procs[p].priority]
  {
    if p in k.procs {
      QueueMembers(k, k.procs[p].priority);
    }
  }

  lemma ListMembers(k: Kernel, s: Source)
    requires BlockedListed(k) && s != NoBlock
    ensures s in k.blocked && Distinct(k.blocked[s]) && forall p :: p in k.blocked[s] ==> p in k.procs
  {
    assert SourceHolds(k, s);
  }

  lemma BlockCanTick(k: Kernel, p: nat, s: Source, id: int)
    requires Queued(k) && Sane(k) && p != INIT && p in k.procs && s in k.blocked
    ensures Queued(Block(k, p, s, id)) && CanTick(Block(k, p, s, id))
  {
    QueuedFrame(k, Block(k, p, s, id));
    SearchEnds(Block(k, p, s, id));
  }

  lemma QueuedKept(k: Kernel, p: nat)
    requires Queued(k) && p in k.procs && k.procs[p].source in k.blocked
    ensures Queued(Unblock(k, p, k.procs[p].source))
  {
    QueuedFrame(k, Unblock(k, p, k.procs[p].source));
  }

  lemma LeaveParts(k: Kernel, p: nat)
    requires Inv(k)
    ensures Distinct(k.deathList) && Queued(LeaveDeathList(k, p)) && k.running in k.procs
  {
    LeaveInv(k, p);
  }

  lemma ExceptNone(gone: set<nat>)
    ensures Except([], gone) == []
  {
  }

  lemma {:induction false} ExceptOne(s: seq<nat>, x: nat)
    requires Distinct(s)
    ensures Except(s, {x}) == Without(s, x)
  {
    if s != [] {
      DistinctTail(s);
      if s[0] == x {
        ExceptNothing(s[1..], x);
      } else {
        ExceptOne(s[1..], x);
      }
    }
  }

  lemma {:induction false} ExceptNothing(s: seq<nat>, x: nat)
    requires x !in s
    ensures Except(s, {x}) == s
  {
    if s != [] {
      ExceptNothing(s[1..], x);
    }
  }

  // Unlinking the first node that holds x.
  lemma {:induction false} WithoutAt<T(!new)>(s: seq<T>, x: T, i: nat)
    requires i <= |s| && x !in s[..i]
    ensures Without(s, x) == if i == |s| then s else if s[i] == x then s[..i] + s[i + 1..] else Without(s, x)
  {
    if s != [] && i > 0 {
      assert s[0] == s[..i][0] && s[..i][1..] == s[1..][..i - 1];
      WithoutAt(s[1..], x, i - 1);
      assert s == [s[0]] + s[1..];
    }
  }

  lemma {:induction false} ExceptConcat(s: seq<nat>, t: seq<nat>, gone: set<nat>)
    ensures Except(s + t, gone) == Except(s, gone) + Except(t, gone)
  {
    if s == [] {
      assert s + t == t;
    } else {
      assert (s + t)[1..] == s[1..] + t;
      ExceptConcat(s[1..], t, gone);
    }
  }

  // One more element of the list has been looked at.
  lemma ExceptNext(s: seq<nat>, n: nat, gone: set<nat>)
    requires n < |s|
    ensures Except(s[..n + 1], gone) == Except(s[..n], gone) + if s[n] in gone then [] else [s[n]]
  {
    assert s[..n + 1] == s[..n] + [s[n]];
    ExceptConcat(s[..n], [s[n]], gone);
  }

  // The first n nodes of the list of source s have been looked at: the matching ones are
  // awake and unlinked, and the walk stands at place i of what is left.
  ghost predicate WokenSoFar(k: Kernel, s: Source, id: int, n: nat, i: nat, procs: map<nat, Pcb>, list: seq<nat>)
    requires s in k.blocked
  {
    var woken := Matching(k, s, id);
    && n <= |k.blocked[s]|
    && i == |Except(k.blocked[s][..n], woken)|
    && list == Except(k.blocked[s][..n], woken) + k.blocked[s][n..]
    && procs.Keys == k.procs.Keys
    && (forall p :: p in k.procs ==> procs[p] == if p in woken && p in k.blocked[s][..n] then Woken(k.procs[p])
         else k.procs[p])
  }

  lemma WalkStarts(k: Kernel, s: Source, id: int)
    requires s in k.blocked
    ensures WokenSoFar(k, s, id, 0, 0, k.procs, k.blocked[s])
  {
  }

  lemma WalkGoesOn(k: Kernel, s: Source, id: int, n: nat, i: nat, procs: map<nat, Pcb>, list: seq<nat>)
    requires s in k.blocked && Distinct(k.blocked[s]) && forall p :: p in k.blocked[s] ==> p in k.procs
    requires WokenSoFar(k, s, id, n, i, procs, list) && i < |list|
    ensures n < |k.blocked[s]| && list[i] in procs
    ensures if procs[list[i]].id == id
            then WokenSoFar(k, s, id, n + 1, i, procs[list[i] := Woken(procs[list[i]])], list[..i] + list[i + 1..])
            else WokenSoFar(k, s, id, n + 1, i + 1, procs, list)
  {
    hide Except;
    var all, woken := k.blocked[s], Matching(k, s, id);
    ExceptNext(all, n, woken);
    SpliceNext(Except(all[..n], woken), all, n);
    assert all[n] !in all[..n] && all[..n + 1] == all[..n] + [all[n]];
  }

  // Behind what has been kept of the list comes the next node; it is unlinked or passed.
  lemma SpliceNext(done: seq<nat>, all: seq<nat>, n: nat)
    requires n < |all|
    ensures var list, i := done + all[n..], |done|;
            list[i] == all[n] && list[..i] + list[i + 1..] == done + all[n + 1..] &&
                list == done + [all[n]] + all[n + 1..]
  {
  }

  lemma WalkEnds(k: Kernel, s: Source, id: int, n: nat, i: nat, procs: map<nat, Pcb>, list: seq<nat>)
    requires s in k.blocked && WokenSoFar(k, s, id, n, i, procs, list) && i == |list|
    ensures procs == UnblockAll(k, s, id).procs && list == Except(k.blocked[s], Matching(k, s, id))
  {
    hide Except;
    assert k.blocked[s][..n] == k.blocked[s];
    assert forall p :: p in k.procs <==> p in k.procs.Keys;
  }

  // One turn of the closing loop of a kill.
  lemma WakeNext(k: Kernel, pipes: seq<Files.Pipe>, table: seq<Files.Fd>, i: nat)
    requires i < |table| && Files.NamesPipe(table[i]) && PipeRead in k.blocked
    ensures var k' := if Files.WakesReaders(pipes, table[i]) then UnblockAll(k, PipeRead, table[i].file) else k;
            M.WakeReaders(k, Counts.Wakes(pipes, table, i)) ==
            M.WakeReaders(k', Counts.Wakes(Files.Release(pipes, table[i]), table, i + 1))
  {
    hide UnblockAll, Files.WakesReaders, Files.Release;
    var rest := Counts.Wakes(Files.Release(pipes, table[i]), table, i + 1);
    if Files.WakesReaders(pipes, table[i]) {
      assert ([table[i].file] + rest)[1..] == rest;
      assert M.WakeReaders(k, [table[i].file] + rest) == M.WakeReaders(UnblockAll(k, PipeRead, table[i].file), rest);
    } else {
      assert [] + rest == rest;
    }
  }

  lemma StillThere(k: Kernel, k': Kernel, p: nat)
    requires M.OnlyWoken(k, k') && p in k.procs
    ensures p in k'.procs && (k.procs[p].state != Finished ==> k'.procs[p].state != Finished)
  {
  }

  lemma ListedSource(k: Kernel, p: nat)
    requires Inv(k) && p in k.procs
    ensures k.procs[p].source in k.blocked && WaitChild in k.blocked
  {
    assert SourceHolds(k, k.procs[p].source) && SourceHolds(k, WaitChild);
  }

  // What a dead process's children and init look like once init has adopted them.
  function Adopted(pcb: Pcb, q: nat, orphans: seq<nat>): Pcb {
    pcb.(children := if q == INIT then pcb.children + orphans else pcb.children,
         ppid := if q in orphans then INIT else pcb.ppid)
  }

  // init has s and the orphans as children, and is the parent of the orphans.
  function Hung(before: map<nat, Pcb>, s: seq<nat>, orphans: seq<nat>): map<nat, Pcb> {
    map q | q in before :: before[q].(
      children := if q == INIT then s + orphans else before[q].children,
      ppid := if q in orphans then INIT else before[q].ppid)
  }

  // The same with the first i of the orphans.
  ghost predicate HungSoFar(before: map<nat, Pcb>, procs: map<nat, Pcb>, s: seq<nat>, orphans: seq<nat>, i: nat) {
    && i <= |orphans| && procs.Keys == before.Keys
    && forall q :: q in before ==>
         procs[q] == before[q].(children := if q == INIT then s + orphans else before[q].children,
                                ppid := if q in orphans[..i] then INIT else before[q].ppid)
  }

  lemma HangStarts(procs: map<nat, Pcb>, s: seq<nat>, orphans: seq<nat>)
    requires INIT in procs
    ensures HungSoFar(procs, procs[INIT := procs[INIT].(children := s + orphans)], s, orphans, 0)
  {
  }

  lemma HangNext(before: map<nat, Pcb>, procs: map<nat, Pcb>, s: seq<nat>, orphans: seq<nat>, i: nat)
    requires HungSoFar(before, procs, s, orphans, i) && i < |orphans| && orphans[i] in before
    ensures orphans[i] in procs
    ensures HungSoFar(before, procs[orphans[i] := procs[orphans[i]].(ppid := INIT)], s, orphans, i + 1)
  {
    assert orphans[..i + 1] == orphans[..i] + [orphans[i]];
    assert orphans[i] in procs.Keys;
  }

  lemma HangEnds(before: map<nat, Pcb>, procs: map<nat, Pcb>, s: seq<nat>, orphans: seq<nat>)
    requires HungSoFar(before, procs, s, orphans, |orphans|)
    ensures procs == Hung(before, s, orphans)
  {
    assert orphans[..|orphans|] == orphans;
    assert forall q :: q in procs <==> q in procs.Keys;
  }

  lemma HungAsAdopted(before: map<nat, Pcb>, procs: map<nat, Pcb>, orphans: seq<nat>)
    requires INIT in before && procs == Hung(before, before[INIT].children, orphans)
    ensures procs == map q | q in before :: Adopted(before[q], q, orphans)
  {
  }

  // What init finds when it begins to collect c, and when it ends.
  lemma BeginParts(k: Kernel, c: nat)
    requires Inv(k) && CanReap(k, c)
    ensures INIT in k.procs && c != INIT && c in k.procs[INIT].children && Links.LimboApart(k.procs, k.limbo)
    ensures c in k.procs && k.procs[c].priority < |k.queues| == PRIORITY_COUNT && k.limbo == Nobody
    ensures c in k.queues[k.procs[c].priority]
  {
    ReapParts(k, c);
    QueueSole(k, c);
  }

  lemma BeginByParts(k: Kernel, c: nat)
    requires CanReap(k, c) && c != INIT
    ensures var kids := Without(k.procs[INIT].children, c);
            var own := k.procs[INIT := k.procs[INIT].(children := kids, waiting := Outside)];
            && c in own && own[c].children == k.procs[c].children
            && Reap(k, c) == k.(queues := k.queues[k.procs[c].priority := Without(k.queues[k.procs[c].priority], c)],
                                procs := own - {c}, limbo := Reaped(c, k.procs[c].children, kids))
  {
  }

  lemma EndByParts(k: Kernel)
    requires k.limbo.Reaped? && INIT in k.procs && k.limbo.pid !in k.procs
    ensures var procs := Hung(k.procs, k.limbo.seen, k.limbo.orphans);
            Adopt(k) == k.(procs := procs - {k.limbo.pid}, limbo := Nobody)
  {
    var procs := Hung(k.procs, k.limbo.seen, k.limbo.orphans);
    assert k.limbo.pid !in procs;
    assert procs - {k.limbo.pid} == procs;
  }

  lemma EndParts(k: Kernel)
    requires Inv(k) && k.limbo.Reaped?
    ensures INIT in k.procs && k.limbo.pid != INIT && k.limbo.pid !in k.procs && Links.LimboApart(k.procs, k.limbo)
    ensures Links.Unlisted(k.procs, k.limbo, k.limbo.pid) && k.limbo.seen <= k.procs[INIT].children
    ensures forall o :: o in k.limbo.orphans ==> o in k.procs && o !in k.limbo.seen
    ensures forall j :: 0 <= j < |k.queues| ==> k.limbo.pid !in k.queues[j]
  {
    AdoptParts(k);
    forall q | q in k.procs ensures k.limbo.pid !in k.procs[q].children {
      assert HasChildren(k, q);
    }
    forall j | 0 <= j < |k.queues| ensures k.limbo.pid !in k.queues[j] {
      QueueMembers(k, j);
    }
  }

  // The links once init has begun to collect c: c's list of children is there still.
  lemma BeganLinked(procs: map<nat, Pcb>, c: nat, seen: seq<nat>, first: map<nat, nat>, prev: map<nat, nat>,
      next: map<nat, nat>)
    requires c in procs && Links.Siblings(procs, Nobody, first, prev, next)
    ensures Links.Siblings(procs - {c}, Reaped(c, procs[c].children, seen), first, prev, next)
  {
    Links.LimboKids(procs, c, seen);
  }

  lemma LateLinked(before: map<nat, Pcb>, procs: map<nat, Pcb>, limbo: Limbo, first: map<nat, nat>, prev: map<nat, nat>,
      next: map<nat, nat>, first': map<nat, nat>, prev': map<nat, nat>, next': map<nat, nat>)
    requires Links.Siblings(before, limbo, first, prev, next) && limbo.Reaped? && Links.LimboApart(before, limbo)
    requires Links.Unlisted(before, limbo, limbo.pid) && INIT in before && limbo.seen <= before[INIT].children
    requires procs == Hung(before, limbo.seen, limbo.orphans) && INIT in first && limbo.pid in first
    requires first' == first[INIT := if limbo.seen == [] then first[limbo.pid] else first[INIT]]
    requires prev' == if first[limbo.pid] == Chains.NULL then prev
                      else prev[first[limbo.pid] := Chains.At(limbo.seen, |limbo.seen| - 1)]
    requires next' == Chains.NextJoined(limbo.seen, first[limbo.pid], next)
    ensures Links.Siblings(procs - {limbo.pid}, Nobody, first' - {limbo.pid}, prev' - {limbo.pid}, next' - {limbo.pid})
  {
    hide Links.Siblings;
    assert procs - {limbo.pid} == procs;
    Links.SiblingLate(before, procs, limbo, first, prev, next);
  }

  // The links once c has been removed without interruption.
  lemma RemovedLinked(before: map<nat, Pcb>, after: map<nat, Pcb>, limbo: Limbo, first: map<nat, nat>,
      prev: map<nat, nat>, next: map<nat, nat>, c: nat, first': map<nat, nat>, prev': map<nat, nat>,
      next': map<nat, nat>)
    requires Links.Siblings(before, limbo, first, prev, next) && Links.Bequeathed(before, after, INIT, c)
    requires Links.Unlisted(before, limbo, c) && Links.LimboApart(before, limbo) && INIT in first && c in first
    requires var s := before[INIT].children;
             && first' == first[INIT := if s == [] then first[c] else first[INIT]]
             && prev' == (if first[c] == Chains.NULL then prev else prev[first[c] := Chains.At(s, |s| - 1)])
             && next' == Chains.NextJoined(s, first[c], next)
    ensures Links.Siblings(after, limbo, first' - {c}, prev' - {c}, next' - {c})
  {
    hide Links.Siblings, Chains.Chain;
    Links.ChildChain(before, limbo, first, prev, next, INIT);
    Links.ChildChain(before, limbo, first, prev, next, c);
    if before[c].children == [] {
      LastIsNull(before[INIT].children, first[INIT], prev, next);
      assert first' == first && next' == next;
      Links.SiblingFreed(before, after, limbo, first, prev, next, INIT, c);
    } else {
      Links.SiblingBequeath(before, after, limbo, first, prev, next, INIT, c);
    }
  }

  lemma LastIsNull(s: seq<nat>, head: nat, prev: map<nat, nat>, next: map<nat, nat>)
    requires Chains.Chain(s, head, prev, next)
    ensures Chains.NextJoined(s, Chains.NULL, next) == next
  {
    if s != [] {
      Chains.ChainNode(s, head, prev, next, |s| - 1);
    }
  }

  lemma AdoptedKids(before: map<nat, Pcb>, after: map<nat, Pcb>, c: nat)
    requires c in before && INIT in before && c != INIT
    requires after == (map q | q in before :: Adopted(before[q], q, before[c].children)) - {c}
    ensures Links.Bequeathed(before, after, INIT, c)
    ensures after == map q | q in before && q != c :: Adopted(before[q], q, before[c].children)
  {
  }

  // What the end of waitchild needs: its caller p and the finished child c.
  ghost predicate BuryReady(k: Kernel, p: nat, c: nat) {
    && p in k.procs && c in k.procs && INIT in k.procs && |k.queues| == PRIORITY_COUNT
    && Links.LimboApart(k.procs, k.limbo)
    && k.procs[c].priority < PRIORITY_COUNT && c != INIT && c != p && c in k.procs[p].children
    && (forall i :: 0 <= i < PRIORITY_COUNT ==> (c in k.queues[i] <==> i == k.procs[c].priority))
    && Distinct(k.procs[c].children) && forall o :: o in k.procs[c].children ==> o in k.procs && o != c
  }

  // p lets go of c; then c leaves its queue, init adopts, and c is freed.
  lemma BuryByParts(k: Kernel, p: nat, c: nat)
    requires BuryReady(k, p, c)
    ensures var orphans := k.procs[c].children;
            var i := k.procs[c].priority;
            var procs := k.procs[p := k.procs[p].(children := Without(k.procs[p].children, c), waiting := Outside)];
            Bury(k, p, c) == k.(procs := map q | q in procs && q != c :: Adopted(procs[q], q, orphans),
                                queues := k.queues[i := Without(k.queues[i], c)])
  {
    var orphans := k.procs[c].children;
    var procs := k.procs[p := k.procs[p].(children := Without(k.procs[p].children, c), waiting := Outside)];
    var after := map q | q in procs && q != c :: Adopted(procs[q], q, orphans);
    assert Bury(k, p, c).procs == after;
  }

  lemma WaitParts(k: Kernel, p: nat, c: nat)
    requires Inv(k) && p in k.procs && c in k.procs[p].children
    ensures BuryReady(k, p, c)
  {
    assert HasChildren(k, p) && HasChildren(k, c) && HasParent(k, c);
    QueueSole(k, c);
  }

  lemma WaitCanTick(k: Kernel, p: nat, c: nat, t: nat)
    requires Inv(k) && p in k.procs && p != INIT
    ensures WaitChild in k.blocked && Queued(WaitFor(k, p, c, t)) && CanTick(WaitFor(k, p, c, t))
  {
    ListMembers(k, WaitChild);
    QueuedFrame(k, WaitFor(k, p, c, t));
    SearchEnds(WaitFor(k, p, c, t));
  }

  // A process is in the queue of its priority and in no other.
  lemma QueueSole(k: Kernel, p: nat)
    requires Queued(k) && p in k.procs
    ensures |k.queues| == PRIORITY_COUNT
    ensures forall i :: 0 <= i < PRIORITY_COUNT ==> (p in k.queues[i] <==> i == k.procs[p].priority)
  {
    forall i | 0 <= i < PRIORITY_COUNT ensures p in k.queues[i] <==> i == k.procs[p].priority {
      QueueMembers(k, i);
    }
  }

  // No list knows the pid that the next process gets.
  lemma NewPid(k: Kernel)
    requires Inv(k)
    ensures k.nextPid != 0 && k.nextPid !in k.procs && |k.queues| == PRIORITY_COUNT
    ensures forall i :: 0 <= i < PRIORITY_COUNT ==> k.nextPid !in k.queues[i]
    ensures Links.Unlisted(k.procs, k.limbo, k.nextPid) && Links.LimboApart(k.procs, k.limbo)
    ensures k.limbo.Reaped? ==> k.limbo.pid != k.nextPid
  {
    forall i | 0 <= i < PRIORITY_COUNT ensures k.nextPid !in k.queues[i] {
      QueueMembers(k, i);
    }
    forall q | q in k.procs ensures k.nextPid !in k.procs[q].children {
      assert HasChildren(k, q);
    }
  }

  // The first process on the death list, once it is taken off.
  lemma ReprieveParts(k: Kernel)
    requires Inv(k) && k.deathList != []
    ensures var p := k.deathList[0];
            && p in k.procs && p != INIT && k.procs[p].state != Finished
            && Inv(k.(deathList := k.deathList[1..], procs := k.procs[p := k.procs[p].(inDeathList := false)]))
  {
    var p := k.deathList[0];
    assert p in k.deathList;
    Runs.ReprievedInv(k, k.(deathList := k.deathList[1..], procs := k.procs[p := k.procs[p].(inDeathList := false)]),
        p);
  }

  // A kill leaves every process where it is, finishes p and revives nobody.
  lemma KillKeeps(k: Kernel, wakes: seq<int>, p: nat)
    requires Inv(k) && p in k.procs && p != INIT && k.procs[p].state != Finished && !k.procs[p].inDeathList
    requires !Orphaned(k, p)
    ensures var woken := M.WakeReaders(k, wakes);
            && p in woken.procs && woken.procs[p].source in woken.blocked && WaitChild in woken.blocked
            && var k' := Finish(LeaveDeathList(woken, p), p);
            && k'.procs.Keys == k.procs.Keys && k'.deathList == k.deathList
            && forall q :: q in k.procs ==> (k'.procs[q].state == Finished <==> q == p || k.procs[q].state == Finished)
  {
    hide Inv, M.WakeReaders, Finish;
    M.WakeReadersInv(k, wakes);
    var woken := M.WakeReaders(k, wakes);
    StillThere(k, woken, p);
    FinishInv(woken, p);
    M.KillEffect(k, woken, p);
  }

  lemma DeathListed(k: Kernel)
    requires Inv(k)
    ensures forall p :: p in k.deathList ==> p in k.procs
  {
  }

  // The pipe table once the files of all processes of the list have been closed, one after
  // the other.
  ghost function CloseTables(pipes: seq<Files.Pipe>, fds: map<nat, seq<Files.Fd>>, list: seq<nat>): seq<Files.Pipe>
    requires forall p :: p in list ==> p in fds
    decreases |list|
  {
    if list == [] then pipes else CloseTables(Counts.CloseAll(pipes, fds[list[0]], 0), fds, list[1..])
  }

  lemma CloseNoTables(pipes: seq<Files.Pipe>, fds: map<nat, seq<Files.Fd>>)
    ensures CloseTables(pipes, fds, []) == pipes
  {
  }

  lemma CloseTablesNext(pipes: seq<Files.Pipe>, fds: map<nat, seq<Files.Fd>>, list: seq<nat>, n: nat)
    requires n < |list| && forall p :: p in list ==> p in fds
    ensures list[n..][0] == list[n] && list[n..][1..] == list[n + 1..]
    ensures CloseTables(pipes, fds, list[n..]) ==
              CloseTables(Counts.CloseAll(pipes, fds[list[n]], 0), fds, list[n + 1..])
  {
    hide Counts.CloseAll;
    assert list[n..][1..] == list[n + 1..];
  }

  // The first n processes of the list have been finished, and nobody else has.
  ghost predicate EndedSoFar(before: map<nat, Pcb>, procs: map<nat, Pcb>, list: seq<nat>, n: nat) {
    && n <= |list| && procs.Keys == before.Keys
    && forall p :: p in procs ==> (procs[p].state == Finished <==> p in list[..n] || before[p].state == Finished)
  }

  lemma EndedNone(procs: map<nat, Pcb>, list: seq<nat>)
    ensures EndedSoFar(procs, procs, list, 0)
  {
  }

  lemma EndedNext(before: map<nat, Pcb>, procs: map<nat, Pcb>, procs': map<nat, Pcb>, list: seq<nat>, n: nat)
    requires EndedSoFar(before, procs, list, n) && n < |list| && procs'.Keys == procs.Keys
    requires forall p :: p in procs' ==>
               p in procs && (procs'[p].state == Finished <==> p == list[n] || procs[p].state == Finished)
    ensures EndedSoFar(before, procs', list, n + 1)
  {
    assert list[..n + 1] == list[..n] + [list[n]];
  }

  lemma EndedAll(before: map<nat, Pcb>, procs: map<nat, Pcb>, list: seq<nat>)
    requires EndedSoFar(before, procs, list, |list|)
    ensures forall p :: p in procs ==>
              p in before && (procs[p].state == Finished <==> p in list || before[p].state == Finished)
  {
    assert list[..|list|] == list;
    assert forall p :: p in procs <==> p in procs.Keys;
  }
}
