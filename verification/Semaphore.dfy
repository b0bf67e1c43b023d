/** One counting semaphore: its value, its FIFO of waiters, and every run of it. */
module Semaphore {
  import opened Options

  // waiters is the list as the C code keeps it: the last to come first.
  datatype Sem = Sem(value: nat, waiters: seq<nat>)

  // waitSem by process p; true when it goes on without blocking.
  function Wait(s: Sem, p: nat): (Sem, bool) {
    if s.value > 0 then (s.(value := s.value - 1), true) else (s.(waiters := [p] + s.waiters), false)
  }

  // postSem, and the waiter that it lets through instead of counting up.
  function Post(s: Sem): (Sem, Option<nat>) {
    if s.value == 0 && s.waiters != [] then
      var last := |s.waiters| - 1;
      (s.(waiters := s.waiters[..last]), Some(s.waiters[last]))
    else (s.(value := s.value + 1), None)
  }

  datatype Op = WaitOp(pid: nat) | PostOp

  // A semaphore with its history: who blocked, in order, who was let through from
  // blocking, in order, and how many waits passed and posts were made.
  datatype Trace = Trace(sem: Sem, blocked: seq<nat>, handed: seq<nat>, passes: nat, posts: nat)

  function Start(initial: nat): Trace {
    Trace(Sem(initial, []), [], [], 0, 0)
  }

  function Step(t: Trace, op: Op): Trace {
    match op
    case WaitOp(p) =>
      var (s, passed) := Wait(t.sem, p);
      if passed then t.(sem := s, passes := t.passes + 1) else t.(sem := s, blocked := t.blocked + [p])
    case PostOp =>
      var (s, woken) := Post(t.sem);
      if woken.Some? then t.(sem := s, handed := t.handed + [woken.value], passes := t.passes + 1, posts := t.posts + 1)
      else t.(sem := s, posts := t.posts + 1)
  }

  function Run(t: Trace, ops: seq<Op>): Trace
    decreases |ops|
  {
    if ops == [] then t else Run(Step(t, ops[0]), ops[1..])
  }

  function Reversed(s: seq<nat>): (r: seq<nat>)
    ensures |r| == |s|
    ensures forall i :: 0 <= i < |s| ==> r[i] == s[|s| - 1 - i]
  {
    if s == [] then [] else Reversed(s[1..]) + [s[0]]
  }

  // Nothing is lost or made: value = initial + posts - passes; the count is positive only
  // when nobody waits; and those let through are, in order, the first that blocked.
  ghost predicate Fair(t: Trace, initial: nat) {
    && t.sem.value + t.passes == initial + t.posts
    && (t.sem.value > 0 ==> t.sem.waiters == [])
    && t.blocked == t.handed + Reversed(t.sem.waiters)
  }

  lemma StepFair(t: Trace, op: Op, initial: nat)
    requires Fair(t, initial)
    ensures Fair(Step(t, op), initial)
  {
    var w := t.sem.waiters;
    match op
    case WaitOp(p) =>
      if t.sem.value == 0 {
        assert ([p] + w)[1..] == w;
        assert t.handed + Reversed(w) + [p] == t.handed + (Reversed(w) + [p]);
      }
    case PostOp =>
      if t.sem.value == 0 && w != [] {
        var last := |w| - 1;
        assert [w[last]] + Reversed(w[..last]) == Reversed(w);
        assert t.handed + [w[last]] + Reversed(w[..last]) == t.handed + ([w[last]] + Reversed(w[..last]));
      }
  }

  lemma {:induction false} RunFair(t: Trace, ops: seq<Op>, initial: nat)
    requires Fair(t, initial)
    ensures Fair(Run(t, ops), initial)
    decreases |ops|
  {
    if ops != [] {
      StepFair(t, ops[0], initial);
      RunFair(Step(t, ops[0]), ops[1..], initial);
    }
  }

  // In every history: conservation, no waiter beside a positive count, and no overtaking.
  lemma HistoryFair(initial: nat, ops: seq<Op>)
    ensures var t := Run(Start(initial), ops);
            && t.sem.value == initial + t.posts - t.passes
            && (t.sem.value > 0 ==> t.sem.waiters == [])
            && t.handed <= t.blocked && t.blocked[|t.handed|..] == Reversed(t.sem.waiters)
  {
    RunFair(Start(initial), ops, initial);
  }

  function Posts(ops: seq<Op>): nat {
    if ops == [] then 0 else (if ops[0].PostOp? then 1 else 0) + Posts(ops[1..])
  }

  // Whoever blocks next, the waiter with j others ahead of it is let through by the post
  // number j + 1 from now: not earlier and not later.
  lemma {:induction false} ServedInTurn(t: Trace, ops: seq<Op>, j: nat, initial: nat)
    requires Fair(t, initial) && j < |t.sem.waiters|
    ensures var t' := Run(t, ops);
            var n := |t.handed| + j;
            && (Posts(ops) > j ==> |t'.handed| > n && t'.handed[n] == Reversed(t.sem.waiters)[j])
            && (Posts(ops) <= j ==> |t'.handed| <= n)
    decreases |ops|
  {
    hide Step, Reversed, Fair;
    if ops != [] {
      var u := Step(t, ops[0]);
      StepFair(t, ops[0], initial);
      PlaceInLine(t, ops[0], j, initial);
      if ops[0].WaitOp? {
        ServedInTurn(u, ops[1..], j, initial);
      } else if j > 0 {
        ServedInTurn(u, ops[1..], j - 1, initial);
      } else {
        HandedGrows(u, ops[1..]);
      }
    }
  }

  // A wait leaves a waiter's place as it is; a post moves it up by one, or through.
  lemma PlaceInLine(t: Trace, op: Op, j: nat, initial: nat)
    requires Fair(t, initial) && j < |t.sem.waiters|
    ensures var u := Step(t, op);
            var x := Reversed(t.sem.waiters)[j];
            if op.WaitOp? then u.handed == t.handed && j < |u.sem.waiters| && Reversed(u.sem.waiters)[j] == x
            else if j > 0 then |u.handed| == |t.handed| + 1 && j - 1 < |u.sem.waiters| &&
                Reversed(u.sem.waiters)[j - 1] == x
            else u.handed == t.handed + [x]
  {
  }

  lemma {:induction false} HandedGrows(t: Trace, ops: seq<Op>)
    ensures t.handed <= Run(t, ops).handed
    decreases |ops|
  {
    if ops != [] {
      HandedGrows(Step(t, ops[0]), ops[1..]);
    }
  }

  // A semaphore block as waitSem and postSem change it.
  class SemBlock {
    var value: nat
    var blockedProcessList: seq<nat>

    function View(): Sem
      reads this
    {
      Sem(value, blockedProcessList)
    }

    // initializeSemaphore for a new name
    constructor (initialValue: nat)
      ensures View() == Start(initialValue).sem
    {
      value, blockedProcessList := initialValue, [];
    }

    // waitSem; false when the caller now blocks.
    method WaitSem(pid: nat) returns (passes: bool)
      modifies this
      ensures (View(), passes) == Wait(old(View()), pid)
    {
      if value > 0 {
        value := value - 1;
        return true;
      }
      blockedProcessList := [pid] + blockedProcessList;
      return false;
    }

    // postSem: the walk ends at the last node, whose process goes on.
    method PostSem() returns (woken: Option<nat>)
      modifies this
      ensures (View(), woken) == Post(old(View()))
    {
      woken := None;
      if value == 0 {
        var i := 0;
        while i < |blockedProcessList|
          invariant 0 <= i <= |blockedProcessList|
          invariant woken == if i == 0 then None else Some(blockedProcessList[i - 1])
        {
          woken := Some(blockedProcessList[i]);
          i := i + 1;
        }
        if woken.Some? {
          assert blockedProcessList[..i - 1] + blockedProcessList[i..] == blockedProcessList[..i - 1];
          blockedProcessList := blockedProcessList[..i - 1] + blockedProcessList[i..];
          return;
        }
      }
      value := value + 1;
    }
  }
}
