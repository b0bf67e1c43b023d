/** How init collects a finished child: in two steps between which other processes run, and
    when that comes to the same as in one. */
module Reaping {
  import opened Lists
  import opened Kernel
  import opened KernelSteps

  // init can begin to collect c.
  ghost predicate CanReap(k: Kernel, c: nat) {
    && k.limbo == Nobody && INIT in k.procs && c in k.procs[INIT].children
    && c in k.procs && k.procs[c].state == Finished && k.running == INIT
    && |k.queues| == PRIORITY_COUNT && k.procs[c].priority < PRIORITY_COUNT
  }

  // Nobody has come behind the end of init's children that the walk met.
  ghost predicate SameEnd(k: Kernel)
    requires INIT in k.procs
  {
    k.limbo.Reaped? && k.procs[INIT].children == k.limbo.seen
  }

  lemma ReapParts(k: Kernel, c: nat)
    requires Family(k) && CanReap(k, c)
    ensures c != INIT && HasChildren(k, INIT) && HasChildren(k, c) && k.procs[c].ppid == INIT
    ensures Distinct(Without(k.procs[INIT].children, c))
    ensures forall x :: x in Without(k.procs[INIT].children, c) <==> x in k.procs[INIT].children && x != c
  {
    assert HasChildren(k, INIT) && HasChildren(k, c);
    WithoutDistinct(k.procs[INIT].children, c);
  }

  lemma ReapFamily(k: Kernel, c: nat)
    requires Family(k) && CanReap(k, c)
    ensures Family(Reap(k, c))
  {
    hide Without;
    ReapParts(k, c);
    var k' := Reap(k, c);
    assert LimboHolds(k');
    forall q | q in k'.procs
      ensures HasChildren(k', q) && (q != INIT ==> HasParent(k', q))
    {
      assert HasChildren(k, q) && (q != INIT ==> HasParent(k, q));
    }
  }

  lemma ReapQueues(k: Kernel, c: nat)
    requires Queued(k) && CanReap(k, c) && c != INIT
    ensures Queued(Reap(k, c))
  {
    var k' := Reap(k, c);
    var own := k.procs[c].priority;
    assert QueueHolds(k, own);
    WithoutDistinct(k.queues[own], c);
    forall i | 0 <= i < PRIORITY_COUNT
      ensures QueueHolds(k', i)
    {
      assert QueueHolds(k, i);
    }
  }

  lemma ReapWaits(k: Kernel, c: nat)
    requires Waits(k) && Family(k) && CanReap(k, c)
    ensures Waits(Reap(k, c))
  {
    hide Without;
    ReapParts(k, c);
    var k' := Reap(k, c);
    forall q | q in k'.procs && k'.procs[q].state != Finished
      ensures WaitsWell(k', q)
    {
      assert WaitsWell(k, q) && HasChildren(k, q);
      assert LivingChildren(k', q) == LivingChildren(k, q);
    }
  }

  // The kernel's invariant holds while a child of init is being collected.
  lemma ReapInv(k: Kernel, c: nat)
    requires Inv(k) && CanReap(k, c)
    ensures Inv(Reap(k, c))
  {
    hide HasParent, HasChildren, QueueHolds, WaitsWell, LimboHolds, Without;
    ReapParts(k, c);
    ReapQueues(k, c);
    ReapFamily(k, c);
    ReapWaits(k, c);
    var k' := Reap(k, c);
    forall t: Source ensures SourceHolds(k', t) {
      assert SourceHolds(k, t);
    }
    assert Mortal(k');
    assert Sane(k');
  }

  lemma AdoptParts(k: Kernel)
    requires Family(k) && k.limbo.Reaped?
    ensures HasChildren(k, INIT) && LimboHolds(k)
    ensures forall o :: o in k.limbo.orphans ==> o !in k.procs[INIT].children
    ensures Distinct(k.limbo.seen) && Distinct(k.limbo.seen + k.limbo.orphans)
    ensures forall o :: o in k.limbo.seen ==> o in k.procs[INIT].children
  {
    assert HasChildren(k, INIT);
    DistinctConcat(k.limbo.seen, k.limbo.orphans);
  }

  lemma AdoptFamily(k: Kernel)
    requires Family(k) && SameEnd(k)
    ensures Family(Adopt(k))
  {
    AdoptParts(k);
    var k' := Adopt(k);
    forall q | q in k'.procs
      ensures HasChildren(k', q) && (q != INIT ==> HasParent(k', q))
    {
      assert HasChildren(k, q) && (q != INIT ==> HasParent(k, q));
    }
  }

  // A process that came behind the end is in nobody's list of children afterwards, although
  // init is its parent.
  lemma AdoptLoses(k: Kernel)
    requires Family(k) && k.limbo.Reaped? && k.procs[INIT].children != k.limbo.seen
    ensures var x := k.procs[INIT].children[|k.limbo.seen|..];
            && x != [] && (forall n :: n in x ==>
                 && n in Adopt(k).procs && n != INIT && Adopt(k).procs[n].ppid == INIT
                 && forall q :: q in Adopt(k).procs ==> n !in Adopt(k).procs[q].children)
    ensures !Family(Adopt(k))
  {
    AdoptParts(k);
    var all, seen := k.procs[INIT].children, k.limbo.seen;
    var x := all[|seen|..];
    assert all == seen + x;
    forall n | n in x
      ensures n in Adopt(k).procs && n != INIT && Adopt(k).procs[n].ppid == INIT
      ensures forall q :: q in Adopt(k).procs ==> n !in Adopt(k).procs[q].children
    {
      assert n in all;
      forall q | q in k.procs && q != INIT ensures n !in k.procs[q].children {
        assert HasChildren(k, q);
      }
    }
    assert !HasParent(Adopt(k), x[0]);
  }

  // The collection ends well if and only if no child came behind the end that the walk met.
  lemma AdoptKeepsIff(k: Kernel)
    requires Inv(k) && k.limbo.Reaped?
    ensures Inv(Adopt(k)) <==> SameEnd(k)
  {
    hide HasParent, HasChildren, QueueHolds, WaitsWell, LimboHolds;
    if SameEnd(k) {
      AdoptFamily(k);
      AdoptWaits(k);
      var k' := Adopt(k);
      QueuedFrame(k, k');
      ListsFrame(k, k');
      SaneFrame(k, k');
      MortalFrame(k, k');
    } else {
      AdoptLoses(k);
    }
  }

  lemma AdoptWaits(k: Kernel)
    requires Waits(k) && Family(k) && SameEnd(k)
    ensures Waits(Adopt(k))
  {
    var k' := Adopt(k);
    forall q | q in k'.procs && k'.procs[q].state != Finished
      ensures WaitsWell(k', q)
    {
      assert WaitsWell(k, q);
      assert q != INIT ==> LivingChildren(k', q) == LivingChildren(k, q);
    }
  }

  // Without anything in between it is what waitchild does for any other process.
  lemma ReapThenAdopt(k: Kernel, c: nat)
    requires Inv(k) && CanReap(k, c)
    ensures Adopt(Reap(k, c)) == Bury(k, INIT, c) && SameEnd(Reap(k, c))
  {
    ReapParts(k, c);
    var k', k'' := Adopt(Reap(k, c)), Bury(k, INIT, c);
    assert k'.procs.Keys == k''.procs.Keys;
    forall q | q in k'.procs ensures k'.procs[q] == k''.procs[q] {
      assert HasChildren(k, q);
    }
    assert k'.procs == k''.procs;
  }
}
