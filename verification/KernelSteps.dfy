/** Every routine of the scheduler keeps the whole-state invariant. */
module KernelSteps {
  import opened Options
  import opened Lists
  import opened Kernel

  // Frames: an invariant survives a change of fields it does not look at.
  lemma QueuedFrame(k: Kernel, k': Kernel)
    requires Queued(k) && k'.queues == k.queues && k'.procs.Keys == k.procs.Keys
    requires forall p :: p in k.procs ==> k'.procs[p].priority == k.procs[p].priority
    ensures Queued(k')
  {
    assert forall p :: p in k'.procs <==> p in k'.procs.Keys;
    forall i | 0 <= i < PRIORITY_COUNT
      ensures QueueHolds(k', i)
    {
      assert QueueHolds(k, i);
    }
  }

  lemma FamilyFrame(k: Kernel, k': Kernel)
    requires Family(k) && k'.nextPid == k.nextPid && k'.limbo == k.limbo && k'.procs.Keys == k.procs.Keys
    requires forall p :: p in k.procs ==>
               k'.procs[p].ppid == k.procs[p].ppid && k'.procs[p].children == k.procs[p].children
    ensures Family(k')
  {
    assert forall p :: p in k'.procs <==> p in k'.procs.Keys;
    forall p | p in k'.procs
      ensures HasChildren(k', p) && (p != INIT ==> HasParent(k', p))
    {
      assert HasChildren(k, p) && (p != INIT ==> HasParent(k, p));
    }
  }

  lemma SaneFrame(k: Kernel, k': Kernel)
    requires Sane(k) && k'.running == k.running && k'.procs.Keys == k.procs.Keys
    requires forall p :: p in k.procs ==>
               k'.procs[p].priority == k.procs[p].priority && k'.procs[p].quantum == k.procs[p].quantum
    requires k'.procs[INIT].state == Ready
    ensures Sane(k')
  {
    assert forall p :: p in k'.procs <==> p in k'.procs.Keys;
  }

  lemma MortalFrame(k: Kernel, k': Kernel)
    requires Mortal(k) && k'.deathList == k.deathList && k'.procs.Keys == k.procs.Keys
    requires forall p :: p in k.procs ==>
               k'.procs[p].inDeathList == k.procs[p].inDeathList &&
                   (k'.procs[p].state == Finished ==> k.procs[p].state == Finished)
    ensures Mortal(k')
  {
    assert forall p :: p in k'.procs <==> p in k'.procs.Keys;
  }

  // Waking or blocking some processes without touching a wait for a child.
  lemma WaitsFrame(k: Kernel, k': Kernel)
    requires Waits(k) && k'.procs.Keys == k.procs.Keys
    requires forall p :: p in k.procs ==>
               && k'.procs[p].children == k.procs[p].children && k'.procs[p].waiting == k.procs[p].waiting
               && (k'.procs[p].state == Finished <==> k.procs[p].state == Finished)
               && (k'.procs[p].source == WaitChild <==> k.procs[p].source == WaitChild)
               && (k'.procs[p].source == WaitChild ==> k'.procs[p].id == k.procs[p].id)
    ensures Waits(k')
  {
    assert forall p :: p in k'.procs <==> p in k'.procs.Keys;
    forall p | p in k'.procs && k'.procs[p].state != Finished
      ensures WaitsWell(k', p)
    {
      assert WaitsWell(k, p);
    }
  }

  // Fields that no blocking or waking changes.
  ghost predicate SameShape(k: Kernel, k': Kernel) {
    && k'.procs.Keys == k.procs.Keys && k'.queues == k.queues && k'.running == k.running
    && k'.deathList == k.deathList && k'.nextPid == k.nextPid && k'.limbo == k.limbo
    && forall p :: p in k.procs ==>
         k'.procs[p] == k.procs[p].(state := k'.procs[p].state, source := k'.procs[p].source, id := k'.procs[p].id,
             waiting := k'.procs[p].waiting)
  }

  lemma ShapeFrames(k: Kernel, k': Kernel)
    requires Queued(k) && Family(k) && Sane(k) && Mortal(k) && SameShape(k, k')
    requires k'.procs[INIT].state == Ready
    requires forall p :: p in k.procs && k'.procs[p].state == Finished ==> k.procs[p].state == Finished
    ensures Queued(k') && Family(k') && Sane(k') && Mortal(k')
  {
    QueuedFrame(k, k');
    FamilyFrame(k, k');
    SaneFrame(k, k');
    MortalFrame(k, k');
  }

  lemma UnblockLists(k: Kernel, p: nat, s: Source)
    requires BlockedListed(k) && p in k.procs && k.procs[p].state == Blocked && k.procs[p].source == s
    ensures s in k.blocked && BlockedListed(Unblock(k, p, s))
  {
    assert SourceHolds(k, s);
    var k' := Unblock(k, p, s);
    WithoutDistinct(k.blocked[s], p);
    forall t: Source ensures SourceHolds(k', t) {
      assert SourceHolds(k, t);
    }
  }

  lemma UnblockInv(k: Kernel, p: nat, s: Source)
    requires Inv(k) && p in k.procs && k.procs[p].state == Blocked && k.procs[p].source == s && s != WaitChild
    ensures s in k.blocked && Inv(Unblock(k, p, s))
  {
    hide Queued, Family, Mortal, Waits;
    UnblockLists(k, p, s);
    ShapeFrames(k, Unblock(k, p, s));
    WaitsFrame(k, Unblock(k, p, s));
  }

  lemma UnblockAllLists(k: Kernel, s: Source, id: int)
    requires BlockedListed(k) && s != NoBlock
    ensures s in k.blocked && BlockedListed(UnblockAll(k, s, id))
  {
    assert SourceHolds(k, s);
    var k' := UnblockAll(k, s, id);
    ExceptDistinct(k.blocked[s], Matching(k, s, id));
    forall t: Source ensures SourceHolds(k', t) {
      assert SourceHolds(k, t);
    }
  }

  lemma UnblockAllInv(k: Kernel, s: Source, id: int)
    requires Inv(k) && s != WaitChild && s != NoBlock
    ensures s in k.blocked && Inv(UnblockAll(k, s, id))
  {
    hide Queued, Family, Mortal, Waits;
    UnblockAllLists(k, s, id);
    assert SourceHolds(k, s);
    ShapeFrames(k, UnblockAll(k, s, id));
    WaitsFrame(k, UnblockAll(k, s, id));
  }

  // The processes woken are exactly those that were blocked for that reason.
  lemma UnblockAllWakes(k: Kernel, s: Source, id: int, p: nat)
    requires BlockedListed(k) && s != NoBlock && p in k.procs
    ensures s in k.blocked
    ensures UnblockAll(k, s, id).procs[p] == if BlockedFor(k, p, s, id) then Woken(k.procs[p]) else k.procs[p]
  {
    assert SourceHolds(k, s);
  }

  lemma BlockLists(k: Kernel, p: nat, s: Source, id: int)
    requires BlockedListed(k) && p in k.procs && k.procs[p].state == Ready && s != NoBlock
    ensures s in k.blocked && BlockedListed(Block(k, p, s, id))
  {
    assert SourceHolds(k, s);
    var k' := Block(k, p, s, id);
    DistinctCons(p, k.blocked[s]);
    forall t: Source ensures SourceHolds(k', t) {
      assert SourceHolds(k, t);
    }
  }

  lemma BlockInv(k: Kernel, p: nat, s: Source, id: int)
    requires Inv(k) && p in k.procs && p != INIT && k.procs[p].state == Ready && s != NoBlock && s != WaitChild
    ensures s in k.blocked && Inv(Block(k, p, s, id))
  {
    hide Queued, Family, Mortal, Waits;
    BlockLists(k, p, s, id);
    ShapeFrames(k, Block(k, p, s, id));
    WaitsFrame(k, Block(k, p, s, id));
  }

  lemma ListsFrame(k: Kernel, k': Kernel)
    requires BlockedListed(k) && k'.blocked == k.blocked && k'.procs.Keys == k.procs.Keys
    requires forall p :: p in k.procs ==>
               k'.procs[p].state == k.procs[p].state && k'.procs[p].source == k.procs[p].source &&
                   k'.procs[p].id == k.procs[p].id
    ensures BlockedListed(k')
  {
    assert forall p :: p in k'.procs <==> p in k'.procs.Keys;
    forall t: Source ensures SourceHolds(k', t) {
      assert SourceHolds(k, t);
    }
  }

  lemma ReprioritiseQueues(k: Kernel, p: nat, priority: nat)
    requires Queued(k) && p in k.procs && priority < PRIORITY_COUNT
    ensures Queued(Reprioritise(k, p, priority))
  {
    var k' := Reprioritise(k, p, priority);
    var from := k.procs[p].priority;
    assert QueueHolds(k, from);
    WithoutDistinct(k.queues[from], p);
    var removed := k.queues[from := Without(k.queues[from], p)];
    forall i | 0 <= i < PRIORITY_COUNT
      ensures QueueHolds(k', i)
    {
      assert QueueHolds(k, i);
      if i == priority {
        DistinctCons(p, removed[priority]);
      }
    }
  }

  lemma ReprioritiseInv(k: Kernel, p: nat, priority: nat)
    requires Inv(k) && p in k.procs && priority < PRIORITY_COUNT
    ensures Inv(Reprioritise(k, p, priority))
  {
    var k' := Reprioritise(k, p, priority);
    ReprioritiseQueues(k, p, priority);
    FamilyFrame(k, k');
    MortalFrame(k, k');
    ListsFrame(k, k');
    WaitsFrame(k, k');
  }

  lemma StartInv(k: Kernel, parent: nat, priority: nat, dies: bool)
    requires Inv(k) && parent in k.procs && k.procs[parent].state == Ready && parent < 256 && priority < PRIORITY_COUNT
    ensures Inv(Start(k, parent, priority, dies))
  {
    hide WaitsWell, QueueHolds, HasParent, HasChildren;
    StartQueues(k, parent, priority, dies);
    StartFamily(k, parent, priority, dies);
    StartWaits(k, parent, priority, dies);
    var k' := Start(k, parent, priority, dies);
    forall t: Source ensures SourceHolds(k', t) {
      assert SourceHolds(k, t);
    }
    if dies {
      DistinctCons(k.nextPid, k.deathList);
    }
    assert Mortal(k');
  }

  lemma StartWaits(k: Kernel, parent: nat, priority: nat, dies: bool)
    requires Waits(k) && Family(k) && BlockedListed(k) && |k.queues| == PRIORITY_COUNT
    requires parent in k.procs && k.procs[parent].state == Ready && priority < PRIORITY_COUNT
    ensures Waits(Start(k, parent, priority, dies))
  {
    var k' := Start(k, parent, priority, dies);
    forall p | p in k'.procs && k'.procs[p].state != Finished
      ensures WaitsWell(k', p)
    {
      if p in k.procs {
        assert WaitsWell(k, p) && HasChildren(k, p);
        assert k.nextPid !in k.procs[p].children;
        if p != parent {
          assert LivingChildren(k', p) == LivingChildren(k, p);
        }
      }
    }
  }

  lemma StartQueues(k: Kernel, parent: nat, priority: nat, dies: bool)
    requires Queued(k) && Family(k) && parent in k.procs && priority < PRIORITY_COUNT
    ensures Queued(Start(k, parent, priority, dies))
  {
    var k' := Start(k, parent, priority, dies);
    forall i | 0 <= i < PRIORITY_COUNT
      ensures QueueHolds(k', i)
    {
      assert QueueHolds(k, i);
      if i == priority {
        DistinctCons(k.nextPid, k.queues[i]);
      }
    }
  }

  lemma StartFamily(k: Kernel, parent: nat, priority: nat, dies: bool)
    requires Queued(k) && Family(k) && parent in k.procs && parent < 256 && priority < PRIORITY_COUNT
    ensures Family(Start(k, parent, priority, dies))
  {
    hide LimboHolds;
    var k' := Start(k, parent, priority, dies);
    var pid := k.nextPid;
    StartLimbo(k, parent, priority, dies);
    assert HasChildren(k, parent);
    assert k'.procs[parent].children[|k.procs[parent].children|] == pid;
    forall p | p in k'.procs
      ensures HasChildren(k', p) && (p != INIT ==> HasParent(k', p))
    {
      if p != pid {
        assert HasChildren(k, p) && (p != INIT ==> HasParent(k, p));
        if p == parent {
          DistinctConcat(k.procs[p].children, [pid]);
        }
      }
    }
  }

  lemma StartLimbo(k: Kernel, parent: nat, priority: nat, dies: bool)
    requires Family(k) && parent in k.procs && |k.queues| == PRIORITY_COUNT && priority < PRIORITY_COUNT
    ensures var k' := Start(k, parent, priority, dies); INIT in k'.procs && LimboHolds(k')
    ensures forall q :: Orphaned(k, q) ==> q in k.procs
  {
  }

  // The parent recorded in a new process is its parent exactly while pids fit in the
  // eight bits of startProcess's parameter.
  lemma StartKeepsFamilyIff(k: Kernel, parent: nat, priority: nat, dies: bool)
    requires Inv(k) && parent in k.procs && priority < PRIORITY_COUNT
    ensures Family(Start(k, parent, priority, dies)) <==> parent < 256
  {
    if parent < 256 {
      StartFamily(k, parent, priority, dies);
    } else {
      var k' := Start(k, parent, priority, dies);
      var pid := k.nextPid;
      assert k'.procs[parent].children[|k.procs[parent].children|] == pid;
      assert pid in k'.procs[parent].children && k'.procs[pid].ppid != parent;
      assert !HasChildren(k', parent);
    }
  }

  lemma WaitForInv(k: Kernel, p: nat, c: nat, t: nat)
    requires Inv(k) && p in k.procs && p != INIT && k.procs[p].state == Ready && k.procs[p].waiting == Outside
    requires Target(k, p, c) == Some(t) && t in k.procs && k.procs[t].state != Finished
    ensures WaitChild in k.blocked && Inv(WaitFor(k, p, c, t))
  {
    hide Queued, Family, Mortal;
    BlockLists(k, p, WaitChild, c);
    var k1 := Block(k, p, WaitChild, c);
    var k' := WaitFor(k, p, c, t);
    ListsFrame(k1, k');
    ShapeFrames(k, k');
    WaitForWaits(k, p, c, t);
  }

  lemma WaitForWaits(k: Kernel, p: nat, c: nat, t: nat)
    requires Waits(k) && Family(k) && p in k.procs && p != INIT && k.procs[p].state == Ready && WaitChild in k.blocked
    requires Target(k, p, c) == Some(t) && t in k.procs && k.procs[t].state != Finished
    ensures Waits(WaitFor(k, p, c, t))
  {
    var k' := WaitFor(k, p, c, t);
    assert HasChildren(k, p) && HasParent(k, t);
    assert LivingChildren(k', p) == LivingChildren(k, p);
    forall q | q in k'.procs && k'.procs[q].state != Finished
      ensures WaitsWell(k', q)
    {
      assert WaitsWell(k, q);
      assert LivingChildren(k', q) == LivingChildren(k, q);
    }
  }

  // Leaving the death list and then finishing, as every kill does.
  lemma FinishInv(k: Kernel, p: nat)
    requires Inv(k) && p in k.procs && p != INIT && k.procs[p].state != Finished && !Orphaned(k, p)
    ensures k.procs[p].source in k.blocked && WaitChild in k.blocked
    ensures Inv(Finish(LeaveDeathList(k, p), p))
  {
    hide SourceHolds, Without, Finish, WaitsWell, HasParent, HasChildren, QueueHolds;
    assert SourceHolds(k, k.procs[p].source) && SourceHolds(k, WaitChild);
    LeaveInv(k, p);
    var k0 := LeaveDeathList(k, p);
    FinishLists(k0, p);
    FinishWaits(k0, p);
    FinishShape(k0, p);
    var k' := Finish(k0, p);
    QueuedFrame(k0, k');
    FamilyFrame(k0, k');
    SaneFrame(k0, k');
  }

  lemma LeaveInv(k: Kernel, p: nat)
    requires Inv(k)
    ensures Inv(LeaveDeathList(k, p)) && p !in LeaveDeathList(k, p).deathList
  {
    var k' := LeaveDeathList(k, p);
    WithoutDistinct(k.deathList, p);
    QueuedFrame(k, k');
    FamilyFrame(k, k');
    SaneFrame(k, k');
    ListsFrame(k, k');
    WaitsFrame(k, k');
  }

  // Waking a blocked process, or doing nothing.
  lemma WakeLists(k: Kernel, q: nat, wake: bool)
    requires BlockedListed(k) && q in k.procs && (wake ==> k.procs[q].state == Blocked)
    ensures k.procs[q].source in k.blocked
    ensures BlockedListed(if wake then Unblock(k, q, k.procs[q].source) else k)
  {
    assert SourceHolds(k, k.procs[q].source);
    if wake {
      UnblockLists(k, q, k.procs[q].source);
    }
  }

  lemma FinishLists(k: Kernel, p: nat)
    requires BlockedListed(k) && Family(k) && p in k.procs && p != INIT && k.procs[p].state != Finished
    requires !Orphaned(k, p)
    ensures k.procs[p].source in k.blocked && WaitChild in k.blocked
    ensures BlockedListed(Finish(k, p)) && Finish(k, p).procs.Keys == k.procs.Keys
  {
    hide Without;
    assert SourceHolds(k, WaitChild) && HasParent(k, p);
    WakeLists(k, p, k.procs[p].state == Blocked);
    var k1 := if k.procs[p].state == Blocked then Unblock(k, p, k.procs[p].source) else k;
    var parent := k1.procs[p].ppid;
    var wake := k1.procs[parent].source == WaitChild && (k1.procs[parent].id == p || k1.procs[parent].id == 0);
    WakeLists(k1, parent, wake);
    var k2 := if wake then Unblock(k1, parent, WaitChild) else k1;
    MarkLists(k2, p);
  }

  lemma MarkLists(k: Kernel, p: nat)
    requires BlockedListed(k) && p in k.procs && k.procs[p].state == Ready
    ensures BlockedListed(k.(procs := k.procs[p := k.procs[p].(state := Finished)]))
  {
    var k' := k.(procs := k.procs[p := k.procs[p].(state := Finished)]);
    forall t: Source ensures SourceHolds(k', t) {
      assert SourceHolds(k, t);
    }
  }

  // Only blocking fields change, nobody but p gets finished, and who is ready stays ready.
  ghost predicate Gentle(k: Kernel, k': Kernel, p: nat) {
    && SameShape(k, k')
    && forall q :: q in k.procs && q != p ==>
         && (k.procs[q].state != Finished ==> k'.procs[q].state != Finished)
         && (k.procs[q].state == Ready ==> k'.procs[q].state == Ready)
  }

  lemma GentleTwice(k: Kernel, k1: Kernel, k2: Kernel, p: nat)
    requires Gentle(k, k1, p) && Gentle(k1, k2, p)
    ensures Gentle(k, k2, p)
  {
    assert forall q :: q in k1.procs <==> q in k1.procs.Keys;
  }

  lemma UnblockGentle(k: Kernel, q: nat, s: Source, p: nat)
    requires q in k.procs && s in k.blocked
    ensures Gentle(k, Unblock(k, q, s), p)
  {
  }

  lemma MarkGentle(k: Kernel, p: nat)
    requires p in k.procs
    ensures Gentle(k, k.(procs := k.procs[p := k.procs[p].(state := Finished)]), p)
  {
  }

  lemma NothingGentle(k: Kernel, p: nat)
    ensures Gentle(k, k, p)
  {
  }

  // Finish leaves everything but the blocking fields alone.
  lemma FinishShape(k: Kernel, p: nat)
    requires p in k.procs && k.procs[p].source in k.blocked && WaitChild in k.blocked
    ensures SameShape(k, Finish(k, p))
    ensures forall q :: q in k.procs && q != p && k.procs[q].state != Finished ==>
              Finish(k, p).procs[q].state != Finished
    ensures INIT in k.procs && INIT != p && k.procs[INIT].state == Ready ==> Finish(k, p).procs[INIT].state == Ready
  {
    assert Gentle(k, Finish(k, p), p) by {
      hide Gentle, Without;
      NothingGentle(k, p);
      UnblockGentle(k, p, k.procs[p].source, p);
      var k1 := if k.procs[p].state == Blocked then Unblock(k, p, k.procs[p].source) else k;
      var q := k1.procs[p].ppid;
      if q in k1.procs {
        var wake := k1.procs[q].source == WaitChild && (k1.procs[q].id == p || k1.procs[q].id == 0);
        NothingGentle(k1, p);
        UnblockGentle(k1, q, WaitChild, p);
        var k2 := if wake then Unblock(k1, q, WaitChild) else k1;
        MarkGentle(k2, p);
        GentleTwice(k, k1, k2, p);
        GentleTwice(k, k2, Finish(k, p), p);
      }
    }
  }

  // Who waits for p and is woken by its end.
  ghost predicate WakesParent(k: Kernel, p: nat, q: nat)
    requires p in k.procs && q in k.procs
  {
    q == k.procs[p].ppid && k.procs[q].source == WaitChild && (k.procs[q].id == p || k.procs[q].id == 0)
  }

  ghost predicate FinishedEach(k: Kernel, k': Kernel, p: nat)
    requires p in k.procs
  {
    && k'.procs.Keys == k.procs.Keys && p in k'.procs && k'.procs[p].state == Finished
    && forall q :: q in k.procs && q != p ==>
         q in k'.procs && k'.procs[q] == if WakesParent(k, p, q) then Woken(k.procs[q]) else k.procs[q]
  }

  lemma FinishEach(k: Kernel, p: nat)
    requires p in k.procs && k.procs[p].ppid in k.procs && k.procs[p].ppid != p
    requires k.procs[p].source in k.blocked && WaitChild in k.blocked
    ensures FinishedEach(k, Finish(k, p), p)
  {
    hide Without;
  }

  lemma FinishWaitsOne(k: Kernel, k': Kernel, p: nat, q: nat)
    requires p in k.procs && FinishedEach(k, k', p) && k.procs[p].state != Finished
    requires q in k.procs && q != p && k.procs[q].state != Finished && WaitsWell(k, q) && HasChildren(k, q)
    requires k.procs[p].ppid in k.procs && p in k.procs[k.procs[p].ppid].children
    requires forall e :: e in k.procs && k.procs[e].state == Finished ==> k.procs[e].source == NoBlock
    requires 0 !in k.procs
    ensures WaitsWell(k', q)
  {
    assert forall e :: e in k'.procs <==> e in k'.procs.Keys;
    var w := k.procs[q].waiting;
    assert forall e :: e in k.procs && e != p ==> (k'.procs[e].state == Finished <==> k.procs[e].state == Finished);
    if WakesParent(k, p, q) {
      assert p in LivingChildren(k, q);
      assert p in w.awaited;
    } else if k.procs[q].source == WaitChild {
      assert p !in w.awaited;
    }
  }

  lemma FinishWaits(k: Kernel, p: nat)
    requires Waits(k) && Family(k) && BlockedListed(k) && p in k.procs && p != INIT && k.procs[p].state != Finished
    requires !Orphaned(k, p)
    requires k.procs[p].source in k.blocked && WaitChild in k.blocked
    ensures Waits(Finish(k, p))
  {
    hide LimboHolds, Finish, WaitsWell, HasChildren, SourceHolds;
    assert HasParent(k, p);
    var k' := Finish(k, p);
    FinishEach(k, p);
    forall q | q in k'.procs && k'.procs[q].state != Finished
      ensures WaitsWell(k', q)
    {
      assert q in k'.procs.Keys;
      FinishWaitsOne(k, k', p, q);
    }
  }

  lemma BuryInv(k: Kernel, p: nat, c: nat)
    requires Inv(k) && p in k.procs && k.procs[p].state == Ready
    requires c in k.procs[p].children && c in k.procs && k.procs[c].state == Finished
    requires k.procs[p].waiting == Outside || (k.procs[p].waiting.Inside? && k.procs[p].waiting.child == c)
    requires k.running != c && (p != INIT || k.limbo == Nobody)
    ensures Inv(Bury(k, p, c))
  {
    hide LimboHolds;
    assert HasChildren(k, p);
    BuryQueues(k, p, c);
    BuryFamily(k, p, c);
    var k' := Bury(k, p, c);
    forall t: Source ensures SourceHolds(k', t) {
      assert SourceHolds(k, t);
    }
    BuryWaits(k, p, c);
    assert Mortal(k');
    assert Sane(k');
  }

  lemma BuryQueues(k: Kernel, p: nat, c: nat)
    requires Queued(k) && p in k.procs && c in k.procs && INIT in k.procs && c != p
    ensures Queued(Bury(k, p, c))
  {
    var k' := Bury(k, p, c);
    var own := k.procs[c].priority;
    assert QueueHolds(k, own);
    WithoutDistinct(k.queues[own], c);
    forall i | 0 <= i < PRIORITY_COUNT
      ensures QueueHolds(k', i)
    {
      assert QueueHolds(k, i);
    }
  }

  lemma BuryFamily(k: Kernel, p: nat, c: nat)
    requires Queued(k) && Family(k) && p in k.procs && c in k.procs[p].children && c in k.procs
    requires p != INIT || k.limbo == Nobody
    ensures Family(Bury(k, p, c))
    ensures forall o :: o in k.procs[c].children ==>
              o in Bury(k, p, c).procs && Bury(k, p, c).procs[o].ppid == INIT && o in Bury(k, p, c).procs[INIT].children
  {
    hide LimboHolds, HasParent, Bury, Without;
    var k' := Bury(k, p, c);
    assert HasChildren(k, p) && HasChildren(k, c);
    BuryParents(k, p, c);
    BuryLimbo(k, p, c);
    BuryChildren(k, p, c, INIT);
    forall q | q in k'.procs
      ensures HasChildren(k', q) && (q != INIT ==> HasParent(k', q))
    {
      assert HasChildren(k, q);
      BuryChildren(k, p, c, q);
      if q != INIT {
        assert HasParent(k, q);
        BuryHasParent(k, p, c, q);
      }
    }
  }

  lemma BuryParents(k: Kernel, p: nat, c: nat)
    requires Queued(k) && Family(k) && p in k.procs && c in k.procs[p].children && c in k.procs
    ensures var k' := Bury(k, p, c);
            && c != INIT && c != p && k'.nextPid == k.nextPid && k'.limbo == k.limbo
            && (forall q :: q in k'.procs <==> q in k.procs && q != c)
            && forall q :: q in k'.procs ==> k'.procs[q].ppid == if q in k.procs[c].children then INIT
                 else k.procs[q].ppid
  {
    assert HasChildren(k, p) && HasParent(k, c);
  }

  lemma BuryHasParent(k: Kernel, p: nat, c: nat, q: nat)
    requires Queued(k) && Family(k) && p in k.procs && c in k.procs[p].children && c in k.procs
    requires p != INIT || k.limbo == Nobody
    requires q in Bury(k, p, c).procs && q != INIT && q in k.procs && HasParent(k, q)
    ensures HasParent(Bury(k, p, c), q)
  {
    hide LimboHolds, Bury;
    BuryParents(k, p, c);
    BuryLimbo(k, p, c);
    assert HasChildren(k, p) && HasChildren(k, c);
    BuryChildren(k, p, c, INIT);
    if k.procs[q].ppid in k.procs && k.procs[q].ppid != c {
      BuryChildren(k, p, c, k.procs[q].ppid);
    }
  }

  // Nobody's parent is in limbo but that of those listed there.
  lemma BuryLimbo(k: Kernel, p: nat, c: nat)
    requires Queued(k) && Family(k) && p in k.procs && c in k.procs[p].children && c in k.procs
    requires p != INIT || k.limbo == Nobody
    ensures INIT in Bury(k, p, c).procs && LimboHolds(Bury(k, p, c))
    ensures forall q :: Orphaned(k, q) ==>
              q in k.procs && q != c && k.procs[q].ppid !in k.procs && q !in k.procs[c].children
  {
    assert HasChildren(k, p) && HasChildren(k, c);
  }

  // Who the children of a surviving process are afterwards.
  lemma BuryChildren(k: Kernel, p: nat, c: nat, q: nat)
    requires Queued(k) && Family(k) && p in k.procs && c in k.procs[p].children && c in k.procs && q in k.procs &&
               q != c
    ensures Distinct(Bury(k, p, c).procs[q].children)
    ensures forall x :: x in Bury(k, p, c).procs[q].children <==>
              (x in k.procs[q].children && x != c) || (q == INIT && x in k.procs[c].children)
  {
    assert HasChildren(k, p) && HasChildren(k, c) && HasChildren(k, q);
    WithoutDistinct(k.procs[q].children, c);
    var kids := if q == p then Without(k.procs[q].children, c) else k.procs[q].children;
    DistinctConcat(kids, k.procs[c].children);
  }

  lemma BuryWaits(k: Kernel, p: nat, c: nat)
    requires Inv(k) && p in k.procs && k.procs[p].state == Ready && c in k.procs[p].children && c in k.procs &&
               k.procs[c].state == Finished
    requires k.procs[p].waiting == Outside || (k.procs[p].waiting.Inside? && k.procs[p].waiting.child == c)
    ensures Waits(Bury(k, p, c))
  {
    var k' := Bury(k, p, c);
    assert HasChildren(k, p);
    forall q | q in k'.procs && k'.procs[q].state != Finished
      ensures WaitsWell(k', q)
    {
      assert WaitsWell(k, q) && HasChildren(k, q);
      BuryChildren(k, p, c, q);
    }
  }
}
