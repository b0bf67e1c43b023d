/** A semaphore that starts at one guards what its holder does: at most one process holds
    it, and its queue is the set of the processes that wait for it. */
module Mutex {
  import opened Lists
  import opened Semaphore

  // Process p holds the semaphore if holds[p], and waits for it if waits[p].
  ghost predicate Guards(sem: Sem, holds: seq<bool>, waits: seq<bool>) {
    && |holds| == |waits|
    && sem.value <= 1
    && Distinct(sem.waiters)
    && (sem.value == 1 ==> sem.waiters == [] && forall p :: 0 <= p < |holds| ==> !holds[p])
    && (sem.value == 0 ==> exists p :: 0 <= p < |holds| && holds[p])
    && (forall p, q :: 0 <= p < |holds| && 0 <= q < |holds| && holds[p] && holds[q] ==> p == q)
    && (forall p: nat :: p in sem.waiters <==> p < |waits| && waits[p])
  }

  lemma Acquired(sem: Sem, holds: seq<bool>, waits: seq<bool>, p: nat)
    requires Guards(sem, holds, waits) && p < |holds| && !holds[p] && !waits[p]
    ensures var (sem', passed) := Wait(sem, p);
            if passed then Guards(sem', holds[p := true], waits) else Guards(sem', holds, waits[p := true])
  {
    var (sem', passed) := Wait(sem, p);
    if passed {
      assert holds[p := true][p];
    } else {
      DistinctCons(p, sem.waiters);
    }
  }

  // The holder leaves: the semaphore becomes free, or the first waiter becomes the holder.
  lemma Released(sem: Sem, holds: seq<bool>, waits: seq<bool>, p: nat)
    requires Guards(sem, holds, waits) && p < |holds| && holds[p] && !waits[p]
    ensures var (sem', woken) := Post(sem);
            if woken.Some?
            then && woken.value < |waits| && woken.value != p && waits[woken.value]
                 && Guards(sem', holds[p := false][woken.value := true], waits[woken.value := false])
            else Guards(sem', holds[p := false], waits)
  {
    var (sem', woken) := Post(sem);
    if woken.Some? {
      WithoutLast(sem.waiters);
      assert holds[p := false][woken.value := true][woken.value];
    }
  }

  lemma WithoutLast(s: seq<nat>)
    requires Distinct(s) && s != []
    ensures var last := |s| - 1;
            s[last] in s && Distinct(s[..last]) && forall x :: x in s[..last] <==> x in s && x != s[last]
  {
    assert s == s[..|s| - 1] + [s[|s| - 1]];
  }
}
