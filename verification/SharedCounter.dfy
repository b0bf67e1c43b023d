/** The test of the semaphores: processes that add to one shared 64-bit counter, each by a
    separate load and store, under a semaphore that starts at one or under none. */
module SharedCounter {
  import opened Semaphore
  import opened Mutex

  // Two's complement of 64 bits.
  function Wrap(x: int): int {
    (x + 0x8000_0000_0000_0000) % 0x1_0000_0000_0000_0000 - 0x8000_0000_0000_0000
  }

  lemma WrapPlus(x: int, y: int)
    ensures Wrap(Wrap(x) + y) == Wrap(x + y)
  {
    SameWrap(Wrap(x) + y, x + y, -((x + 0x8000_0000_0000_0000) / 0x1_0000_0000_0000_0000));
  }

  lemma SameWrap(x: int, y: int, k: int)
    requires x - y == 0x1_0000_0000_0000_0000 * k
    ensures Wrap(x) == Wrap(y)
  {
  }

  // Where a process stands in its loop.
  datatype Phase = Outside | Waiting | Inside | Loaded(aux: int) | Stored

  datatype Proc = Proc(inc: int, n: nat, done: nat, phase: Phase)

  datatype State = State(sem: Sem, global: int, procs: seq<Proc>)

  // What my_process_inc is started with.
  datatype Args = Args(inc: int, n: nat)

  function Init(args: seq<Args>): State {
    State(Start(1).sem, 0, seq(|args|, i requires 0 <= i < |args| => Proc(args[i].inc, args[i].n, 0, Outside)))
  }

  predicate CanAct(s: State, p: nat) {
    p < |s.procs| && !s.procs[p].phase.Waiting? && (s.procs[p].phase.Outside? ==> s.procs[p].done < s.procs[p].n)
  }

  function Put(s: State, p: nat, phase: Phase): State
    requires p < |s.procs|
  {
    s.(procs := s.procs[p := s.procs[p].(phase := phase)])
  }

  // The next step of process p.
  function Act(s: State, useSem: bool, p: nat): State
    requires CanAct(s, p)
  {
    var proc := s.procs[p];
    match proc.phase
    case Outside =>
      if useSem then
        var (sem, passed) := Wait(s.sem, p);
        Put(s.(sem := sem), p, if passed then Inside else Waiting)
      else Put(s, p, Inside)
    case Inside => Put(s, p, Loaded(s.global))
    case Loaded(aux) =>
      s.(global := Wrap(aux + proc.inc), procs := s.procs[p := proc.(phase := Stored, done := proc.done + 1)])
    case Stored =>
      if useSem then
        var (sem, woken) := Post(s.sem);
        var left := Put(s.(sem := sem), p, Outside);
        if woken.Some? && woken.value < |s.procs| then Put(left, woken.value, Inside) else left
      else Put(s, p, Outside)
    case Waiting => s
  }

  predicate CanRun(s: State, useSem: bool, schedule: seq<nat>)
    decreases |schedule|
  {
    schedule == [] || (CanAct(s, schedule[0]) && CanRun(Act(s, useSem, schedule[0]), useSem, schedule[1..]))
  }

  function Run(s: State, useSem: bool, schedule: seq<nat>): State
    requires CanRun(s, useSem, schedule)
    decreases |schedule|
  {
    if schedule == [] then s else Run(Act(s, useSem, schedule[0]), useSem, schedule[1..])
  }

  predicate Finished(s: State) {
    forall p :: 0 <= p < |s.procs| ==> s.procs[p].phase.Outside? && s.procs[p].done == s.procs[p].n
  }

  // The sum of all increments so far, and of all that there will be.
  function Sum(procs: seq<Proc>): int {
    if procs == [] then 0 else procs[0].inc * procs[0].done + Sum(procs[1..])
  }

  function Goal(args: seq<Args>): int {
    if args == [] then 0 else args[0].inc * args[0].n + Goal(args[1..])
  }

  lemma {:induction false} SumUpdate(procs: seq<Proc>, p: nat, proc: Proc)
    requires p < |procs|
    ensures Sum(procs[p := proc]) == Sum(procs) - procs[p].inc * procs[p].done + proc.inc * proc.done
  {
    if p == 0 {
      assert procs[p := proc][1..] == procs[1..];
    } else {
      assert procs[p := proc][1..] == procs[1..][p - 1 := proc];
      SumUpdate(procs[1..], p - 1, proc);
    }
  }

  predicate Holds(phase: Phase) {
    phase.Inside? || phase.Loaded? || phase.Stored?
  }

  ghost function Holders(procs: seq<Proc>): seq<bool> {
    seq(|procs|, p requires 0 <= p < |procs| => Holds(procs[p].phase))
  }

  ghost function Waiters(procs: seq<Proc>): seq<bool> {
    seq(|procs|, p requires 0 <= p < |procs| => procs[p].phase.Waiting?)
  }

  // The semaphore guards the counter, which is the sum; a loaded value is not out of date.
  ghost predicate Inv(s: State) {
    && Guards(s.sem, Holders(s.procs), Waiters(s.procs))
    && s.global == Wrap(Sum(s.procs))
    && forall p :: 0 <= p < |s.procs| && s.procs[p].phase.Loaded? ==> s.procs[p].phase.aux == s.global
  }

  // The program of each process does not change.
  ghost predicate SameArgs(s: State, args: seq<Args>) {
    |s.procs| == |args| && forall p :: 0 <= p < |args| ==> s.procs[p].inc == args[p].inc && s.procs[p].n == args[p].n
  }

  lemma InitInv(args: seq<Args>)
    ensures Inv(Init(args)) && SameArgs(Init(args), args)
  {
    SumNone(Init(args).procs);
  }

  lemma {:induction false} SumNone(procs: seq<Proc>)
    requires forall p :: 0 <= p < |procs| ==> procs[p].done == 0
    ensures Sum(procs) == 0
  {
    if procs != [] {
      SumNone(procs[1..]);
    }
  }

  lemma ActInv(s: State, p: nat)
    requires Inv(s) && CanAct(s, p)
    ensures Inv(Act(s, true, p))
  {
    hide Guards, Wrap, Sum;
    var holds, waits := Holders(s.procs), Waiters(s.procs);
    var s' := Act(s, true, p);
    match s.procs[p].phase
    case Outside =>
      Acquired(s.sem, holds, waits, p);
      var passed := Wait(s.sem, p).1;
      assert Holders(s'.procs) == if passed then holds[p := true] else holds;
      assert Waiters(s'.procs) == if passed then waits else waits[p := true];
      SumUpdate(s.procs, p, s'.procs[p]);
    case Inside =>
      assert Holders(s'.procs) == holds && Waiters(s'.procs) == waits;
      SumUpdate(s.procs, p, s'.procs[p]);
    case Loaded(aux) =>
      assert Holders(s'.procs) == holds && Waiters(s'.procs) == waits;
      StoreInv(s, p);
    case Stored =>
      Released(s.sem, holds, waits, p);
      LeaveInv(s, p);
  }

  // Only the holder of the semaphore has a loaded value.
  lemma OneLoaded(s: State, p: nat)
    requires Inv(s) && p < |s.procs| && Holds(s.procs[p].phase)
    ensures forall q :: 0 <= q < |s.procs| && q != p ==> !s.procs[q].phase.Loaded?
  {
    var holds := Holders(s.procs);
    assert holds[p];
    forall q | 0 <= q < |s.procs| && q != p
      ensures !s.procs[q].phase.Loaded?
    {
      assert !holds[q];
    }
  }

  lemma StoreInv(s: State, p: nat)
    requires Inv(s) && CanAct(s, p) && s.procs[p].phase.Loaded?
    ensures var s' := Act(s, true, p);
            s'.global == Wrap(Sum(s'.procs)) && forall q :: 0 <= q < |s'.procs| ==> !s'.procs[q].phase.Loaded?
  {
    hide Wrap, Sum, Guards;
    var s' := Act(s, true, p);
    SumUpdate(s.procs, p, s'.procs[p]);
    WrapPlus(Sum(s.procs), s.procs[p].inc);
    OneLoaded(s, p);
    var proc := s.procs[p];
    assert proc.inc * (proc.done + 1) == proc.inc * proc.done + proc.inc;
  }

  lemma LeaveInv(s: State, p: nat)
    requires Inv(s) && CanAct(s, p) && s.procs[p].phase.Stored?
    ensures Inv(Act(s, true, p))
  {
    hide Guards, Wrap, Sum;
    var holds, waits := Holders(s.procs), Waiters(s.procs);
    var s' := Act(s, true, p);
    Released(s.sem, holds, waits, p);
    var left := s.procs[p := s.procs[p].(phase := Outside)];
    SumUpdate(s.procs, p, left[p]);
    var woken := Post(s.sem).1;
    if woken.Some? {
      var w := woken.value;
      SumUpdate(left, w, left[w].(phase := Inside));
      assert Holders(s'.procs) == holds[p := false][w := true];
      assert Waiters(s'.procs) == waits[w := false];
    } else {
      assert Holders(s'.procs) == holds[p := false] && Waiters(s'.procs) == waits;
    }
  }

  lemma {:induction false} RunInv(s: State, args: seq<Args>, schedule: seq<nat>)
    requires Inv(s) && SameArgs(s, args) && CanRun(s, true, schedule)
    ensures Inv(Run(s, true, schedule)) && SameArgs(Run(s, true, schedule), args)
    decreases |schedule|
  {
    hide Inv;
    if schedule != [] {
      ActInv(s, schedule[0]);
      RunInv(Act(s, true, schedule[0]), args, schedule[1..]);
    }
  }

  lemma {:induction false} SumReached(procs: seq<Proc>, args: seq<Args>)
    requires |procs| == |args|
    requires forall p :: 0 <= p < |args| ==>
               procs[p].inc == args[p].inc && procs[p].n == args[p].n && procs[p].done == procs[p].n
    ensures Sum(procs) == Goal(args)
  {
    if procs != [] {
      SumReached(procs[1..], args[1..]);
    }
  }

  // Whatever the processes and however their steps interleave, the counter ends with the
  // exact sum of all increments, if and only if they use the semaphore.
  ghost predicate Exact(useSem: bool) {
    forall args, schedule :: CanRun(Init(args), useSem, schedule) && Finished(Run(Init(args), useSem, schedule)) ==>
                               Run(Init(args), useSem, schedule).global == Wrap(Goal(args))
  }

  lemma ExactIffGuarded(useSem: bool)
    ensures Exact(useSem) <==> useSem
  {
    if useSem {
      forall args, schedule | CanRun(Init(args), true, schedule) && Finished(Run(Init(args), true, schedule))
        ensures Run(Init(args), true, schedule).global == Wrap(Goal(args))
      {
        InitInv(args);
        RunInv(Init(args), args, schedule);
        SumReached(Run(Init(args), true, schedule).procs, args);
      }
    } else {
      var args, schedule := LostUpdate();
    }
  }

  // The run of test_sync: so many pairs of processes that go down and up as often.
  function Pairs(pairs: nat, n: nat): seq<Args> {
    if pairs == 0 then [] else [Args(-1, n), Args(1, n)] + Pairs(pairs - 1, n)
  }

  lemma {:induction false} PairsCancel(pairs: nat, n: nat)
    ensures Goal(Pairs(pairs, n)) == 0
  {
    if pairs > 0 {
      PairsCancel(pairs - 1, n);
      var args := Pairs(pairs, n);
      assert args[1..][1..] == Pairs(pairs - 1, n);
      assert Goal(args) == Goal(args[1..]) - n && Goal(args[1..]) == n + Goal(args[1..][1..]);
    }
  }

  lemma MatchedPairsEndAtZero(pairs: nat, n: nat, schedule: seq<nat>)
    requires CanRun(Init(Pairs(pairs, n)), true, schedule) && Finished(Run(Init(Pairs(pairs, n)), true, schedule))
    ensures Run(Init(Pairs(pairs, n)), true, schedule).global == 0
  {
    ExactIffGuarded(true);
    PairsCancel(pairs, n);
  }

  lemma RunStep(s: State, useSem: bool, p: nat, rest: seq<nat>)
    requires CanAct(s, p) && CanRun(Act(s, useSem, p), useSem, rest)
    ensures CanRun(s, useSem, [p] + rest) && Run(s, useSem, [p] + rest) == Run(Act(s, useSem, p), useSem, rest)
  {
    assert ([p] + rest)[1..] == rest;
  }

  // Both load the counter before either stores it.
  lemma LostUpdate() returns (args: seq<Args>, schedule: seq<nat>)
    ensures CanRun(Init(args), false, schedule) && Finished(Run(Init(args), false, schedule))
    ensures Run(Init(args), false, schedule).global != Wrap(Goal(args))
  {
    args := [Args(1, 1), Args(-1, 1)];
    var a, b := Proc(1, 1, 0, Outside), Proc(-1, 1, 0, Outside);
    var sem := Sem(1, []);
    var s := Init(args);
    assert s == State(sem, 0, [a, b]);
    var s4 := State(sem, 0, [a.(phase := Loaded(0)), b.(phase := Loaded(0))]);
    assert Act(Act(Act(Act(s, false, 0), false, 1), false, 0), false, 1) == s4;
    var s6 := State(sem, -1, [a.(phase := Stored, done := 1), b.(phase := Stored, done := 1)]);
    assert Act(Act(s4, false, 0), false, 1) == s6;
    var s8 := State(sem, -1, [a.(done := 1), b.(done := 1)]);
    assert Act(Act(s6, false, 0), false, 1) == s8;
    schedule := [0] + ([1] + ([0] + ([1] + ([0] + ([1] + ([0] + ([1] + [])))))));
    RunStep(Act(s6, false, 0), false, 1, []);
    RunStep(s6, false, 0, [1] + []);
    RunStep(Act(s4, false, 0), false, 1, [0] + ([1] + []));
    RunStep(s4, false, 0, [1] + ([0] + ([1] + [])));
    var s3 := Act(Act(Act(s, false, 0), false, 1), false, 0);
    RunStep(s3, false, 1, [0] + ([1] + ([0] + ([1] + []))));
    RunStep(Act(Act(s, false, 0), false, 1), false, 0, [1] + ([0] + ([1] + ([0] + ([1] + [])))));
    RunStep(Act(s, false, 0), false, 1, [0] + ([1] + ([0] + ([1] + ([0] + ([1] + []))))));
    RunStep(s, false, 0, [1] + ([0] + ([1] + ([0] + ([1] + ([0] + ([1] + [])))))));
    assert Goal(args) == 1 + Goal([Args(-1, 1)]);
  }
}
