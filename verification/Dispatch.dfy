/** Which process gets the CPU next: the nearest ready one, first behind the running process in
    its own queue, then from queue to queue. */
module Dispatch {
  import opened Kernel
  import opened RoundRobin

  function Place(k: Kernel, y: nat): nat
    requires y in k.procs && k.procs[y].priority < |k.queues| && y in k.queues[k.procs[y].priority]
  {
    IndexOf(k.queues[k.procs[y].priority], y)
  }

  ghost predicate InQueue(k: Kernel, y: nat) {
    y in k.procs && |k.queues| == 5 && k.procs[y].priority < 5 && y in k.queues[k.procs[y].priority]
  }

  // How many queues the search passes before it comes to that of y: none if y is behind the
  // running process in the same queue, all five if it is not behind it.
  function Passed(k: Kernel, y: nat): nat
    requires InQueue(k, y) && InQueue(k, k.running)
  {
    var from, to := k.procs[k.running].priority, k.procs[y].priority;
    if to > from then to - from
    else if to < from then to + 5 - from
    else if Place(k, y) > Place(k, k.running) then 0
    else 5
  }

  // y comes before z in the search.
  ghost predicate Nearer(k: Kernel, y: nat, z: nat)
    requires InQueue(k, y) && InQueue(k, z) && InQueue(k, k.running)
  {
    Passed(k, y) < Passed(k, z) || (Passed(k, y) == Passed(k, z) && Place(k, y) < Place(k, z))
  }

  lemma EverybodyQueued(k: Kernel)
    requires Queued(k)
    ensures forall y :: y in k.procs ==> InQueue(k, y)
  {
    forall y | y in k.procs ensures InQueue(k, y) {
      assert QueueHolds(k, k.procs[y].priority);
    }
  }

  lemma {:induction false} OffsetGrows(queues: seq<seq<nat>>, i: nat, j: nat)
    requires i < j <= |queues|
    ensures Offset(queues, i) + |queues[i]| <= Offset(queues, j)
    decreases j
  {
    if i + 1 < j {
      OffsetGrows(queues, i, j - 1);
      OffsetNext(queues, j - 1);
    } else {
      OffsetNext(queues, i);
    }
  }

  // Number of y in the walk over all queues, and in the round behind the running process.
  function Number(k: Kernel, y: nat): nat
    requires InQueue(k, y)
  {
    Offset(k.queues, k.procs[y].priority) + Place(k, y)
  }

  function Turn(k: Kernel, y: nat): int
    requires InQueue(k, y) && InQueue(k, k.running)
  {
    if Number(k, y) > Number(k, k.running) then Number(k, y) - Number(k, k.running) - 1
    else Number(k, y) + |Flat(k.queues)| - Number(k, k.running) - 1
  }

  lemma NumberIs(k: Kernel, y: nat)
    requires Queued(k) && y in k.procs
    ensures InQueue(k, y) && y in Flat(k.queues) && IndexOf(Flat(k.queues), y) == Number(k, y) < |Flat(k.queues)|
  {
    hide Flat, Offset;
    EverybodyQueued(k);
    FlatProcs(k);
    FlatAt(k.queues, k.procs[y].priority, Place(k, y));
    IndexUnique(Flat(k.queues), Number(k, y));
  }

  lemma TurnIs(k: Kernel, y: nat)
    requires Queued(k) && y in k.procs && k.running in k.procs
    ensures InQueue(k, y) && InQueue(k, k.running) && k.running in Flat(k.queues)
    ensures 0 <= Turn(k, y) < |Round(k.queues, k.running)| && Round(k.queues, k.running)[Turn(k, y)] == y
  {
    hide Flat, Offset, Queued, IndexOf;
    NumberIs(k, y);
    NumberIs(k, k.running);
    var flat := Flat(k.queues);
    assert flat[Number(k, y)] == y by {
      IndexIs(flat, y);
    }
  }

  lemma IndexIs(s: seq<nat>, y: nat)
    requires y in s
    ensures IndexOf(s, y) < |s| && s[IndexOf(s, y)] == y
  {
  }

  lemma NumbersInOrder(k: Kernel, y: nat, z: nat)
    requires InQueue(k, y) && InQueue(k, z)
    ensures k.procs[y].priority < k.procs[z].priority ==> Number(k, y) < Number(k, z)
    ensures k.procs[y].priority == k.procs[z].priority && Place(k, y) < Place(k, z) ==> Number(k, y) < Number(k, z)
    ensures k.procs[y].priority == k.procs[z].priority && Place(k, y) == Place(k, z) ==> Number(k, y) == Number(k, z)
  {
    hide Offset;
    OffsetsInOrder(k.queues, k.procs[y].priority, k.procs[z].priority);
  }

  // Nearer means earlier in the round.
  lemma NearerFirst(k: Kernel, y: nat, z: nat)
    requires Queued(k) && y in k.procs && z in k.procs && k.running in k.procs
    ensures InQueue(k, y) && InQueue(k, z) && InQueue(k, k.running)
    ensures Nearer(k, y, z) ==> Turn(k, y) < Turn(k, z)
  {
    hide Flat, Number, Place, Queued;
    NumberIs(k, y);
    NumberIs(k, z);
    NumberIs(k, k.running);
    NumbersInOrder(k, y, z);
    NumbersInOrder(k, y, k.running);
    NumbersInOrder(k, k.running, y);
    NumbersInOrder(k, z, k.running);
    NumbersInOrder(k, k.running, z);
  }

  lemma OffsetsInOrder(queues: seq<seq<nat>>, i: nat, j: nat)
    requires i < |queues| && j < |queues|
    ensures i < j ==> Offset(queues, i) + |queues[i]| <= Offset(queues, j)
    ensures j < i ==> Offset(queues, j) + |queues[j]| <= Offset(queues, i)
  {
    if i < j {
      OffsetGrows(queues, i, j);
    } else if j < i {
      OffsetGrows(queues, j, i);
    }
  }

  // When the process on the CPU has to leave, the nearest ready process gets the CPU: nobody
  // who is ready comes before it in the search.
  lemma NearestNext(k: Kernel, y: nat)
    requires Inv(k) && IsReady(k.procs, y)
    requires k.running in k.procs && (k.procs[k.running].state != Ready || k.procs[k.running].quantum == 0)
    ensures CanTick(k) && IsReady(k.procs, Tick(k).running)
    ensures InQueue(k, y) && InQueue(k, Tick(k).running) && InQueue(k, k.running)
    ensures !Nearer(k, y, Tick(k).running)
    ensures y == Tick(k).running || Nearer(k, Tick(k).running, y)
  {
    hide Flat, Round, Nearer, Turn;
    InvParts(k);
    SearchEnds(k);
    var z := Tick(k).running;
    TurnIs(k, y);
    TurnIs(k, z);
    FlatProcs(k);
    RoundProcs(k.queues, k.running);
    var round := Round(k.queues, k.running);
    assert FirstReady(k.procs, round) <= Turn(k, y);
    assert round[FirstReady(k.procs, round)] == z && FirstReady(k.procs, round) == Turn(k, z);
    NearerFirst(k, y, z);
    NearerTotal(k, y, z);
  }

  lemma NearerTotal(k: Kernel, y: nat, z: nat)
    requires InQueue(k, y) && InQueue(k, z) && InQueue(k, k.running)
    ensures y == z || Nearer(k, y, z) || Nearer(k, z, y)
  {
  }
}
