/** The dining philosophers on a table of any fixed size, over the kernel's semaphores.
    Processes 0 to n - 1 are the philosophers and process n is the father that starts them;
    semaphores 0 to n - 1 are the forks and semaphore n guards the counter of seats. The
    kernel numbers them: the guard has id first, fork f has id first + 1 + f. A philosopher
    keeps the ids of its forks in eight bits each. */
module Philosophers {
  import opened Options
  import opened Semaphore
  import opened Mutex

  // Where a process stands. The father begins, waits for or holds the seat semaphore while
  // it creates philosophers, and is done. A philosopher enters, gets a seat by loading and
  // storing the counter, and then gets hungry, eats and releases its forks for ever.
  datatype Phase =
    | Begins | FatherWaits | Creates(next: nat) | Done
    | Absent | Enters | AwaitsSeat | MayTakeSeat | Loaded(value: nat) | TookSeat(seat: nat)
    | Hungry(seat: nat) | AwaitsFirst(seat: nat) | HasFirst(seat: nat) | AwaitsSecond(seat: nat)
    | Eats(seat: nat) | HalfDone(seat: nat)

  datatype State = State(phases: seq<Phase>, sems: seq<Sem>, forSeat: nat, first: nat)

  // The forks of a seat in the order they are taken: even seats take the left one first.
  function First(n: nat, seat: nat): nat
    requires n > 0
  {
    if seat % 2 == 0 then seat else (seat + 1) % n
  }

  function Second(n: nat, seat: nat): nat
    requires n > 0
  {
    if seat % 2 == 0 then (seat + 1) % n else seat
  }

  predicate Shaped(s: State, n: nat) {
    |s.phases| == n + 1 && |s.sems| == n + 1
  }

  function Init(n: nat, first: nat): (s: State)
    ensures Shaped(s, n)
  {
    State(seq(n, _ => Absent) + [Begins], seq(n + 1, _ => Sem(1, [])), 0, first)
  }

  // The search of the kernel for a semaphore by its id.
  function Lookup(n: nat, first: nat, id: nat): (f: Option<nat>)
    ensures f.Some? ==> f.value <= n
  {
    if id == first then Some(n) else if first < id <= first + n then Some(id - first - 1) else None
  }

  // The semaphore that a philosopher reaches as its fork f, by the eight bits of the id.
  function Reached(n: nat, first: nat, f: nat): (g: Option<nat>)
    ensures g.Some? ==> g.value <= n
  {
    Lookup(n, first, (first + 1 + f) % 256)
  }

  lemma ReachedIff(n: nat, first: nat, f: nat)
    requires f < n
    ensures n < 256 ==> (Reached(n, first, f) == if first + 1 + f < 256 then Some(f) else None)
    ensures first + n < 256 ==> Reached(n, first, f) == Some(f)
  {
  }

  // waitSem(f) by process p, which goes on as passed or stays as blocked.
  function Acquire(s: State, p: nat, f: nat, passed: Phase, blocked: Phase): State
    requires p < |s.phases| && f < |s.sems|
  {
    var (sem, ok) := Wait(s.sems[f], p);
    s.(sems := s.sems[f := sem], phases := s.phases[p := if ok then passed else blocked])
  }

  // A wait for a fork. For an id that the kernel does not know waitSem returns -1, which
  // no philosopher looks at.
  function TakeFork(s: State, n: nat, p: nat, f: nat, passed: Phase, blocked: Phase): State
    requires Shaped(s, n) && p <= n
  {
    match Reached(n, s.first, f)
    case Some(g) => Acquire(s, p, g, passed, blocked)
    case None => s.(phases := s.phases[p := passed])
  }

  // Where a process goes on that postSem has let through.
  function Resumed(phase: Phase): Phase {
    match phase
    case FatherWaits => Creates(0)
    case AwaitsSeat => MayTakeSeat
    case AwaitsFirst(seat) => HasFirst(seat)
    case AwaitsSecond(seat) => Eats(seat)
    case _ => phase
  }

  // postSem(f) by process p, which goes on as next.
  function Release(s: State, p: nat, f: nat, next: Phase): State
    requires p < |s.phases| && f < |s.sems|
  {
    var (sem, woken) := Post(s.sems[f]);
    var phases := s.phases[p := next];
    s.(sems := s.sems[f := sem],
       phases := if woken.Some? && woken.value < |phases| then phases[woken.value := Resumed(phases[woken.value])]
           else phases)
  }

  function PutFork(s: State, n: nat, p: nat, f: nat, next: Phase): State
    requires Shaped(s, n) && p <= n
  {
    match Reached(n, s.first, f)
    case Some(g) => Release(s, p, g, next)
    case None => s.(phases := s.phases[p := next])
  }

  predicate CanAct(phase: Phase) {
    !(phase.Done? || phase.Absent? || phase.FatherWaits? || phase.AwaitsSeat? || phase.AwaitsFirst? ||
        phase.AwaitsSecond?)
  }

  predicate SeatInRange(phase: Phase, n: nat) {
    phase.TookSeat? || phase.Hungry? || phase.AwaitsFirst? || phase.HasFirst? || phase.AwaitsSecond? || phase.Eats? ||
        phase.HalfDone? ==>
      phase.seat < n
  }

  // The next step of process p.
  function Act(s: State, n: nat, p: nat): (s': State)
    requires Shaped(s, n) && p <= n && CanAct(s.phases[p]) && SeatInRange(s.phases[p], n)
    ensures Shaped(s', n) && s'.first == s.first
  {
    match s.phases[p]
    case Begins => Acquire(s, p, n, Creates(0), FatherWaits)
    case Creates(i) =>
      if i < n then s.(phases := s.phases[i := Enters][p := Creates(i + 1)]) else Release(s, p, n, Done)
    case Enters => Acquire(s, p, n, MayTakeSeat, AwaitsSeat)
    case MayTakeSeat => s.(phases := s.phases[p := Loaded(s.forSeat)])
    case Loaded(v) => s.(forSeat := v + 1, phases := s.phases[p := TookSeat(v)])
    case TookSeat(seat) => Release(s, p, n, Hungry(seat))
    case Hungry(seat) => TakeFork(s, n, p, First(n, seat), HasFirst(seat), AwaitsFirst(seat))
    case HasFirst(seat) => TakeFork(s, n, p, Second(n, seat), Eats(seat), AwaitsSecond(seat))
    case Eats(seat) => PutFork(s, n, p, First(n, seat), HalfDone(seat))
    case HalfDone(seat) => PutFork(s, n, p, Second(n, seat), Hungry(seat))
    case _ => s
  }

  // Who holds a semaphore and who waits for it.
  predicate Holds(phase: Phase, n: nat, f: nat)
    requires n > 0
  {
    match phase
    case Creates(_) => f == n
    case MayTakeSeat => f == n
    case Loaded(_) => f == n
    case TookSeat(_) => f == n
    case HasFirst(seat) => f == First(n, seat)
    case AwaitsSecond(seat) => f == First(n, seat)
    case Eats(seat) => f == First(n, seat) || f == Second(n, seat)
    case HalfDone(seat) => f == Second(n, seat)
    case _ => false
  }

  predicate WaitsFor(phase: Phase, n: nat, f: nat)
    requires n > 0
  {
    match phase
    case FatherWaits => f == n
    case AwaitsSeat => f == n
    case AwaitsFirst(seat) => f == First(n, seat)
    case AwaitsSecond(seat) => f == Second(n, seat)
    case _ => false
  }

  ghost function Holders(phases: seq<Phase>, n: nat, f: nat): seq<bool>
    requires n > 0
  {
    seq(|phases|, p requires 0 <= p < |phases| => Holds(phases[p], n, f))
  }

  ghost function Waiters(phases: seq<Phase>, n: nat, f: nat): seq<bool>
    requires n > 0
  {
    seq(|phases|, p requires 0 <= p < |phases| => WaitsFor(phases[p], n, f))
  }

  ghost predicate SemOk(phases: seq<Phase>, sem: Sem, n: nat, f: nat)
    requires n > 0
  {
    Guards(sem, Holders(phases, n, f), Waiters(phases, n, f))
  }

  lemma SemMeans(phases: seq<Phase>, sem: Sem, n: nat, f: nat)
    requires n > 0 && SemOk(phases, sem, n, f)
    ensures forall p: nat :: p < |phases| && (Holds(phases[p], n, f) || WaitsFor(phases[p], n, f)) ==> sem.value == 0
    ensures sem.value == 0 ==> exists p: nat :: p < |phases| && Holds(phases[p], n, f)
    ensures forall p: nat, q: nat ::
              p < |phases| && q < |phases| && Holds(phases[p], n, f) && Holds(phases[q], n, f) ==> p == q
  {
    var holds, waits := Holders(phases, n, f), Waiters(phases, n, f);
    assert forall p: nat :: p < |phases| ==>
        holds[p] == Holds(phases[p], n, f) && waits[p] == WaitsFor(phases[p], n, f);
  }

  ghost predicate SemsOk(s: State, n: nat)
    requires n > 0
  {
    Shaped(s, n) && forall f {:trigger SemOk(s.phases, s.sems[f], n, f)} :: 0 <= f <= n ==>
        SemOk(s.phases, s.sems[f], n, f)
  }

  // Replacing a phase by one that holds and awaits the same as far as f is concerned.
  lemma SemFrame(phases: seq<Phase>, sem: Sem, n: nat, f: nat, p: nat, phase: Phase)
    requires n > 0 && p < |phases| && SemOk(phases, sem, n, f)
    requires Holds(phase, n, f) == Holds(phases[p], n, f) && WaitsFor(phase, n, f) == WaitsFor(phases[p], n, f)
    ensures SemOk(phases[p := phase], sem, n, f)
  {
    assert Holders(phases[p := phase], n, f) == Holders(phases, n, f);
    assert Waiters(phases[p := phase], n, f) == Waiters(phases, n, f);
  }

  lemma SemAcquired(phases: seq<Phase>, sem: Sem, n: nat, f: nat, p: nat, passed: Phase, blocked: Phase)
    requires n > 0 && p < |phases| && SemOk(phases, sem, n, f)
    requires !Holds(phases[p], n, f) && !WaitsFor(phases[p], n, f)
    requires Holds(passed, n, f) && !WaitsFor(passed, n, f) && !Holds(blocked, n, f) && WaitsFor(blocked, n, f)
    ensures var (sem', ok) := Wait(sem, p);
            SemOk(phases[p := if ok then passed else blocked], sem', n, f)
  {
    hide Holds, WaitsFor, Guards;
    var (sem', ok) := Wait(sem, p);
    var phases' := phases[p := if ok then passed else blocked];
    var holds, waits := Holders(phases, n, f), Waiters(phases, n, f);
    Acquired(sem, holds, waits, p);
    assert Holders(phases', n, f) == if ok then holds[p := true] else holds;
    assert Waiters(phases', n, f) == if ok then waits else waits[p := true];
  }

  lemma AcquireOk(s: State, n: nat, p: nat, f: nat, passed: Phase, blocked: Phase)
    requires n > 0 && SemsOk(s, n) && p <= n && f <= n
    requires !Holds(s.phases[p], n, f) && !Holds(blocked, n, f) && WaitsFor(blocked, n, f)
    requires forall g :: 0 <= g <= n ==> !WaitsFor(s.phases[p], n, g) && !WaitsFor(passed, n, g)
    requires forall g :: 0 <= g <= n && g != f ==>
               !WaitsFor(blocked, n, g) && Holds(blocked, n, g) == Holds(s.phases[p], n, g)
    requires forall g :: 0 <= g <= n ==> (Holds(passed, n, g) <==> g == f || Holds(s.phases[p], n, g))
    ensures SemsOk(Acquire(s, p, f, passed, blocked), n)
  {
    hide Holds, WaitsFor, SemOk;
    var s' := Acquire(s, p, f, passed, blocked);
    forall g | 0 <= g <= n
      ensures SemOk(s'.phases, s'.sems[g], n, g)
    {
      assert SemOk(s.phases, s.sems[g], n, g);
      if g == f {
        SemAcquired(s.phases, s.sems[f], n, f, p, passed, blocked);
      } else {
        SemFrame(s.phases, s.sems[g], n, g, p, s'.phases[p]);
      }
    }
  }

  lemma SemReleased(phases: seq<Phase>, sem: Sem, n: nat, f: nat, p: nat, next: Phase)
    requires n > 0 && p < |phases| && f <= n && SemOk(phases, sem, n, f)
    requires Holds(phases[p], n, f) && !WaitsFor(phases[p], n, f) && !Holds(next, n, f) && !WaitsFor(next, n, f)
    ensures var (sem', woken) := Post(sem);
            if woken.Some?
            then woken.value < |phases| && woken.value != p && WaitsFor(phases[woken.value], n, f)
                 && SemOk(phases[p := next][woken.value := Resumed(phases[woken.value])], sem', n, f)
            else SemOk(phases[p := next], sem', n, f)
  {
    hide Holds, WaitsFor, Resumed, Guards;
    var (sem', woken) := Post(sem);
    var holds, waits := Holders(phases, n, f), Waiters(phases, n, f);
    Released(sem, holds, waits, p);
    if woken.Some? {
      var w := woken.value;
      ResumedHolds(phases[w], n, f);
      var phases' := phases[p := next][w := Resumed(phases[w])];
      assert Holders(phases', n, f) == holds[p := false][w := true];
      assert Waiters(phases', n, f) == waits[w := false];
    } else {
      assert Holders(phases[p := next], n, f) == holds[p := false];
      assert Waiters(phases[p := next], n, f) == waits;
    }
  }

  // A waiter that goes on holds what it held and what it waited for.
  lemma ResumedHolds(phase: Phase, n: nat, f: nat)
    requires n > 0 && f <= n && WaitsFor(phase, n, f)
    ensures forall g :: 0 <= g <= n ==> (Holds(Resumed(phase), n, g) <==> g == f || Holds(phase, n, g))
    ensures forall g :: 0 <= g <= n ==> !WaitsFor(Resumed(phase), n, g) && (WaitsFor(phase, n, g) ==> g == f)
  {
  }

  lemma ReleaseOk(s: State, n: nat, p: nat, f: nat, next: Phase)
    requires n > 0 && SemsOk(s, n) && p <= n && f <= n
    requires Holds(s.phases[p], n, f)
    requires forall g :: 0 <= g <= n ==> !WaitsFor(s.phases[p], n, g) && !WaitsFor(next, n, g)
    requires forall g :: 0 <= g <= n ==> (Holds(next, n, g) <==> g != f && Holds(s.phases[p], n, g))
    ensures SemsOk(Release(s, p, f, next), n)
  {
    hide Holds, WaitsFor, SemOk, Resumed;
    var s' := Release(s, p, f, next);
    var (sem', woken) := Post(s.sems[f]);
    assert SemOk(s.phases, s.sems[f], n, f);
    SemReleased(s.phases, s.sems[f], n, f, p, next);
    forall g | 0 <= g <= n
      ensures SemOk(s'.phases, s'.sems[g], n, g)
    {
      assert SemOk(s.phases, s.sems[g], n, g);
      if g != f {
        SemFrame(s.phases, s.sems[g], n, g, p, next);
        if woken.Some? {
          ResumedHolds(s.phases[woken.value], n, f);
          SemFrame(s.phases[p := next], s.sems[g], n, g, woken.value, Resumed(s.phases[woken.value]));
        }
      }
    }
  }

  function SeatOf(phase: Phase): Option<nat> {
    match phase
    case TookSeat(seat) => Some(seat)
    case Hungry(seat) => Some(seat)
    case AwaitsFirst(seat) => Some(seat)
    case HasFirst(seat) => Some(seat)
    case AwaitsSecond(seat) => Some(seat)
    case Eats(seat) => Some(seat)
    case HalfDone(seat) => Some(seat)
    case _ => None
  }

  predicate IsFather(phase: Phase) {
    phase.Begins? || phase.FatherWaits? || phase.Creates? || phase.Done?
  }

  ghost function Seated(phases: seq<Phase>, n: nat): set<nat>
    requires n <= |phases|
  {
    set p: nat | p < n && SeatOf(phases[p]).Some?
  }

  // The seats given out are the numbers below the counter, each to one philosopher; who has
  // loaded the counter will store its successor.
  ghost predicate SeatsOk(s: State, n: nat) {
    && Shaped(s, n)
    && (forall p: nat, q: nat :: p < q < n && SeatOf(s.phases[p]).Some? ==> SeatOf(s.phases[p]) != SeatOf(s.phases[q]))
    && (forall p: nat :: p < n && SeatOf(s.phases[p]).Some? ==> SeatOf(s.phases[p]).value < s.forSeat)
    && (forall p: nat :: p < n && s.phases[p].Loaded? ==> s.phases[p].value == s.forSeat)
    && s.forSeat == |Seated(s.phases, n)|
  }

  // The father has created the philosophers below its index.
  ghost predicate FatherOk(s: State, n: nat) {
    && Shaped(s, n)
    && IsFather(s.phases[n]) && (forall p: nat :: p < n ==> !IsFather(s.phases[p]))
    && (s.phases[n].Begins? || s.phases[n].FatherWaits? ==> forall p: nat :: p < n ==> s.phases[p].Absent?)
    && (s.phases[n].Creates? ==> s.phases[n].next <= n && forall p: nat :: p < n ==>
         (s.phases[p].Absent? <==> p >= s.phases[n].next))
    && (s.phases[n].Done? ==> forall p: nat :: p < n ==> !s.phases[p].Absent?)
  }

  ghost predicate Inv(s: State, n: nat)
    requires n > 0
  {
    SemsOk(s, n) && SeatsOk(s, n) && FatherOk(s, n)
  }

  // A step that gives out no seat and creates nobody.
  ghost predicate Alike(s: State, s': State, n: nat) {
    && Shaped(s, n) && Shaped(s', n) && s'.forSeat == s.forSeat
    && forall p: nat {:trigger s'.phases[p]} :: p <= n ==>
         && SeatOf(s'.phases[p]) == SeatOf(s.phases[p]) && (s'.phases[p].Loaded? ==> s'.phases[p] == s.phases[p])
         && (s'.phases[p].Absent? <==> s.phases[p].Absent?) && (IsFather(s'.phases[p]) <==> IsFather(s.phases[p]))
  }

  predicate SameKind(phase: Phase, next: Phase) {
    && SeatOf(next) == SeatOf(phase) && !next.Loaded?
    && !next.Absent? && !phase.Absent? && (IsFather(next) <==> IsFather(phase))
  }

  lemma AcquireAlike(s: State, n: nat, p: nat, f: nat, passed: Phase, blocked: Phase)
    requires Shaped(s, n) && p <= n && f <= n && SameKind(s.phases[p], passed) && SameKind(s.phases[p], blocked)
    ensures Alike(s, Acquire(s, p, f, passed, blocked), n)
    ensures p < n ==> Acquire(s, p, f, passed, blocked).phases[n] == s.phases[n]
    ensures Acquire(s, p, f, passed, blocked).phases[p] in {passed, blocked}
  {
  }

  lemma ReleaseAlike(s: State, n: nat, p: nat, f: nat, next: Phase)
    requires Shaped(s, n) && p <= n && f <= n && SameKind(s.phases[p], next) && (CanAct(next) || next.Done?)
    ensures Alike(s, Release(s, p, f, next), n)
    ensures p < n && IsFather(s.phases[n]) && !s.phases[n].FatherWaits? ==>
              Release(s, p, f, next).phases[n] == s.phases[n]
    ensures Release(s, p, f, next).phases[p] == next
  {
  }

  lemma AlikeSeats(s: State, s': State, n: nat)
    requires SeatsOk(s, n) && Alike(s, s', n)
    ensures SeatsOk(s', n)
  {
    assert Seated(s'.phases, n) == Seated(s.phases, n);
  }

  ghost function Below(n: nat): (r: set<nat>)
    ensures |r| == n && forall i: nat :: i in r <==> i < n
  {
    if n == 0 then {} else Below(n - 1) + {n - 1}
  }

  lemma SubsetCount(a: set<nat>, b: set<nat>)
    requires a <= b
    ensures |a| <= |b|
  {
    assert b == a + (b - a);
  }

  lemma SeatedBound(phases: seq<Phase>, n: nat)
    requires n <= |phases|
    ensures |Seated(phases, n)| <= n
    ensures (exists p: nat :: p < n && SeatOf(phases[p]).None?) ==> |Seated(phases, n)| < n
  {
    SubsetCount(Seated(phases, n), Below(n));
    if p: nat :| p < n && SeatOf(phases[p]).None? {
      SubsetCount(Seated(phases, n) + {p}, Below(n));
    }
  }

  lemma SeatsBelow(s: State, n: nat, p: nat)
    requires SeatsOk(s, n) && p < n
    ensures SeatOf(s.phases[p]).Some? ==> SeatOf(s.phases[p]).value < n
    ensures SeatInRange(s.phases[p], n)
  {
    SeatedBound(s.phases, n);
  }

  lemma ForksDiffer(n: nat, seat: nat)
    requires n >= 2 && seat < n
    ensures First(n, seat) < n && Second(n, seat) < n && First(n, seat) != Second(n, seat)
    ensures {First(n, seat), Second(n, seat)} == {seat, (seat + 1) % n}
  {
  }

  // With ids that fit into eight bits a philosopher reaches its own forks.
  lemma ForksReached(s: State, n: nat, seat: nat)
    requires n >= 2 && seat < n && s.first + n < 256
    ensures First(n, seat) < n && Second(n, seat) < n && First(n, seat) != Second(n, seat)
    ensures Reached(n, s.first, First(n, seat)) == Some(First(n, seat))
    ensures Reached(n, s.first, Second(n, seat)) == Some(Second(n, seat))
  {
    ForksDiffer(n, seat);
    ReachedIff(n, s.first, First(n, seat));
    ReachedIff(n, s.first, Second(n, seat));
  }

  // Replacing phases by ones that hold and await the same.
  lemma PhaseOnly(s: State, n: nat, p: nat, phase: Phase, forSeat: nat)
    requires n > 0 && SemsOk(s, n) && p <= n
    requires forall g :: 0 <= g <= n ==>
               Holds(phase, n, g) == Holds(s.phases[p], n, g) && WaitsFor(phase, n, g) == WaitsFor(s.phases[p], n, g)
    ensures SemsOk(s.(phases := s.phases[p := phase], forSeat := forSeat), n)
  {
    hide Holds, WaitsFor, SemOk;
    forall g | 0 <= g <= n
      ensures SemOk(s.phases[p := phase], s.sems[g], n, g)
    {
      assert SemOk(s.phases, s.sems[g], n, g);
      SemFrame(s.phases, s.sems[g], n, g, p, phase);
    }
  }

  lemma ActSems(s: State, n: nat, p: nat)
    requires n >= 2 && Inv(s, n) && p <= n && CanAct(s.phases[p]) && SeatInRange(s.phases[p], n)
    requires s.first + n < 256
    ensures SemsOk(Act(s, n, p), n)
  {
    hide SemsOk, Acquire, Release, SeatsOk, First, Second, Reached;
    match s.phases[p]
    case Begins => AcquireOk(s, n, p, n, Creates(0), FatherWaits);
    case Creates(i) =>
      if i < n {
        PhaseOnly(s, n, i, Enters, s.forSeat);
        PhaseOnly(s.(phases := s.phases[i := Enters]), n, p, Creates(i + 1), s.forSeat);
      } else {
        ReleaseOk(s, n, p, n, Done);
      }
    case Enters => AcquireOk(s, n, p, n, MayTakeSeat, AwaitsSeat);
    case MayTakeSeat => PhaseOnly(s, n, p, Loaded(s.forSeat), s.forSeat);
    case Loaded(v) => PhaseOnly(s, n, p, TookSeat(v), v + 1);
    case TookSeat(seat) => ForksDiffer(n, seat); ReleaseOk(s, n, p, n, Hungry(seat));
    case Hungry(seat) => ForksReached(s, n, seat);
        AcquireOk(s, n, p, First(n, seat), HasFirst(seat), AwaitsFirst(seat));
    case HasFirst(seat) => ForksReached(s, n, seat);
        AcquireOk(s, n, p, Second(n, seat), Eats(seat), AwaitsSecond(seat));
    case Eats(seat) => ForksReached(s, n, seat); ReleaseOk(s, n, p, First(n, seat), HalfDone(seat));
    case HalfDone(seat) => ForksReached(s, n, seat); ReleaseOk(s, n, p, Second(n, seat), Hungry(seat));
  }

  // Steps that neither give out seats nor create anybody.
  predicate Plain(phase: Phase, n: nat) {
    CanAct(phase) && !phase.MayTakeSeat? && !phase.Loaded? && (phase.Creates? ==> phase.next >= n)
  }

  lemma ActAlike(s: State, n: nat, p: nat)
    requires n >= 2 && Shaped(s, n) && p <= n && Plain(s.phases[p], n) && SeatInRange(s.phases[p], n)
    requires IsFather(s.phases[n]) && (p < n ==> !IsFather(s.phases[p]))
    requires s.first + n < 256
    ensures Alike(s, Act(s, n, p), n)
    ensures p < n && !s.phases[n].FatherWaits? ==> Act(s, n, p).phases[n] == s.phases[n]
    ensures s.phases[p].Creates? ==> Act(s, n, p).phases[p] == Done
    ensures s.phases[p].Begins? ==> Act(s, n, p).phases[p] in {Creates(0), FatherWaits}
  {
    hide Acquire, Release, First, Second, Alike, Reached;
    match s.phases[p]
    case Begins => AcquireAlike(s, n, p, n, Creates(0), FatherWaits);
    case Creates(i) => ReleaseAlike(s, n, p, n, Done);
    case Enters => AcquireAlike(s, n, p, n, MayTakeSeat, AwaitsSeat);
    case TookSeat(seat) => ReleaseAlike(s, n, p, n, Hungry(seat));
    case Hungry(seat) => ForksReached(s, n, seat);
        AcquireAlike(s, n, p, First(n, seat), HasFirst(seat), AwaitsFirst(seat));
    case HasFirst(seat) => ForksReached(s, n, seat);
        AcquireAlike(s, n, p, Second(n, seat), Eats(seat), AwaitsSecond(seat));
    case Eats(seat) => ForksReached(s, n, seat); ReleaseAlike(s, n, p, First(n, seat), HalfDone(seat));
    case HalfDone(seat) => ForksReached(s, n, seat); ReleaseAlike(s, n, p, Second(n, seat), Hungry(seat));
  }

  lemma ActSeats(s: State, n: nat, p: nat)
    requires n >= 2 && Inv(s, n) && p <= n && CanAct(s.phases[p]) && SeatInRange(s.phases[p], n)
    requires s.first + n < 256
    ensures SeatsOk(Act(s, n, p), n)
  {
    if Plain(s.phases[p], n) {
      ActAlike(s, n, p);
      AlikeSeats(s, Act(s, n, p), n);
    } else if s.phases[p].Creates? {
      assert Seated(Act(s, n, p).phases, n) == Seated(s.phases, n);
    } else if s.phases[p].MayTakeSeat? {
      assert Seated(Act(s, n, p).phases, n) == Seated(s.phases, n);
    } else {
      StoreSeats(s, n, p);
    }
  }

  // Storing the counter: nobody else has loaded it, for loading needs the semaphore too.
  lemma StoreSeats(s: State, n: nat, p: nat)
    requires n >= 2 && SemsOk(s, n) && SeatsOk(s, n) && p < n && s.phases[p].Loaded?
    ensures SeatsOk(Act(s, n, p), n)
  {
    hide SemsOk, Acquire, Release, First, Second;
    OnlyLoaded(s, n, p);
    assert Act(s, n, p).phases == s.phases[p := TookSeat(s.forSeat)];
    assert Seated(Act(s, n, p).phases, n) == Seated(s.phases, n) + {p};
  }

  lemma OnlyLoaded(s: State, n: nat, p: nat)
    requires n >= 2 && SemsOk(s, n) && p < n && s.phases[p].Loaded?
    ensures forall q: nat :: q < n && q != p ==> !s.phases[q].Loaded?
  {
    assert SemOk(s.phases, s.sems[n], n, n);
    SemMeans(s.phases, s.sems[n], n, n);
    assert Holds(s.phases[p], n, n);
    assert forall q: nat :: q < n && q != p ==> !Holds(s.phases[q], n, n);
  }

  lemma ActFather(s: State, n: nat, p: nat)
    requires n >= 2 && Inv(s, n) && p <= n && CanAct(s.phases[p]) && SeatInRange(s.phases[p], n)
    requires s.first + n < 256
    ensures FatherOk(Act(s, n, p), n)
  {
    if Plain(s.phases[p], n) {
      ActAlike(s, n, p);
    }
  }

  lemma ActInv(s: State, n: nat, p: nat)
    requires n >= 2 && Inv(s, n) && p <= n && CanAct(s.phases[p])
    requires s.first + n < 256
    ensures SeatInRange(s.phases[p], n) && Inv(Act(s, n, p), n)
  {
    hide SemsOk, SeatsOk;
    if p < n {
      SeatsBelow(s, n, p);
    }
    ActSems(s, n, p);
    ActSeats(s, n, p);
    ActFather(s, n, p);
  }

  lemma InitInv(n: nat, first: nat)
    requires n >= 2
    ensures Inv(Init(n, first), n)
  {
    var s := Init(n, first);
    forall f | 0 <= f <= n ensures SemOk(s.phases, s.sems[f], n, f) {
      assert forall p: nat :: p <= n ==> !Holders(s.phases, n, f)[p] && !Waiters(s.phases, n, f)[p];
    }
    assert Seated(s.phases, n) == {};
  }

  // A schedule lets one process after the other take its next step.
  predicate CanStep(s: State, n: nat, p: nat) {
    Shaped(s, n) && p <= n && CanAct(s.phases[p]) && SeatInRange(s.phases[p], n)
  }

  ghost predicate CanRun(s: State, n: nat, schedule: seq<nat>)
    decreases |schedule|
  {
    schedule == [] || (CanStep(s, n, schedule[0]) && CanRun(Act(s, n, schedule[0]), n, schedule[1..]))
  }

  ghost function Run(s: State, n: nat, schedule: seq<nat>): (s': State)
    requires Shaped(s, n) && CanRun(s, n, schedule)
    ensures Shaped(s', n) && s'.first == s.first
    decreases |schedule|
  {
    if schedule == [] then s else Run(Act(s, n, schedule[0]), n, schedule[1..])
  }

  lemma {:induction false} RunInv(s: State, n: nat, schedule: seq<nat>)
    requires n >= 2 && Inv(s, n) && s.first + n < 256 && CanRun(s, n, schedule)
    ensures Inv(Run(s, n, schedule), n)
    decreases |schedule|
  {
    if schedule != [] {
      ActInv(s, n, schedule[0]);
      RunInv(Act(s, n, schedule[0]), n, schedule[1..]);
    }
  }

  // Forks are taken in increasing rank: fork 0 in the middle, other even forks below it,
  // odd ones above.
  function Rank(f: nat): nat {
    if f == 0 then 1 else if f % 2 == 0 then 0 else 2
  }

  lemma RankClimbs(n: nat, seat: nat)
    requires n >= 2 && seat < n
    ensures Rank(First(n, seat)) < Rank(Second(n, seat))
  {
    hide First, Second;
    FirstSecond(n, seat);
  }

  lemma RightOf(n: nat, seat: nat)
    requires seat < n
    ensures (seat + 1) % n == if seat + 1 == n then 0 else seat + 1
  {
  }

  lemma FirstSecond(n: nat, seat: nat)
    requires n >= 2 && seat < n
    ensures var right := if seat + 1 == n then 0 else seat + 1;
            if seat % 2 == 0 then First(n, seat) == seat && Second(n, seat) == right
            else First(n, seat) == right && Second(n, seat) == seat
  {
    RightOf(n, seat);
  }

  // From whoever waits for a fork, the chain of holders leads to somebody who can act.
  lemma {:induction false} ChainEnds(s: State, n: nat, p: nat, f: nat) returns (q: nat)
    requires n >= 2 && Inv(s, n) && p < n && f < n && WaitsFor(s.phases[p], n, f)
    ensures q < n && CanAct(s.phases[q])
    decreases 3 - Rank(f)
  {
    assert SemOk(s.phases, s.sems[f], n, f);
    SemMeans(s.phases, s.sems[f], n, f);
    var h: nat :| h <= n && Holds(s.phases[h], n, f);
    HolderSits(s, n, h, f);
    if CanAct(s.phases[h]) {
      q := h;
    } else {
      var seat := s.phases[h].seat;
      SeatsBelow(s, n, h);
      ForksDiffer(n, seat);
      RankClimbs(n, seat);
      q := ChainEnds(s, n, h, Second(n, seat));
    }
  }

  lemma HolderSits(s: State, n: nat, h: nat, f: nat)
    requires n >= 2 && Inv(s, n) && h <= n && f < n && Holds(s.phases[h], n, f)
    ensures h < n && (CanAct(s.phases[h]) || s.phases[h].AwaitsSecond?) && f < n
    ensures s.phases[h].AwaitsSecond? ==> f == First(n, s.phases[h].seat)
  {
  }

  // Once the father is done there is always a philosopher that can act, and until then the
  // father can act or one of them can: nobody is ever blocked for good by all the others.
  lemma SomebodyActs(s: State, n: nat) returns (q: nat)
    requires n >= 2 && Inv(s, n)
    ensures q <= n && CanAct(s.phases[q])
    ensures s.phases[n].Done? ==> q < n
  {
    assert SemOk(s.phases, s.sems[n], n, n);
    SemMeans(s.phases, s.sems[n], n, n);
    if CanAct(s.phases[n]) {
      q := n;
    } else if s.sems[n].value == 0 {
      var h: nat :| h <= n && Holds(s.phases[h], n, n);
      if h < n {
        SeatsBelow(s, n, h);
        HoldsSeatSem(s.phases[h], n);
      }
      q := h;
    } else {
      var p: nat := 0;
      SeatsBelow(s, n, p);
      assert !WaitsFor(s.phases[n], n, n) && !WaitsFor(s.phases[p], n, n);
      if CanAct(s.phases[p]) {
        q := p;
      } else {
        var seat := s.phases[p].seat;
        ForksDiffer(n, seat);
        q := ChainEnds(s, n, p, if s.phases[p].AwaitsFirst? then First(n, seat) else Second(n, seat));
      }
    }
  }

  lemma HoldsSeatSem(phase: Phase, n: nat)
    requires n >= 2 && SeatInRange(phase, n) && Holds(phase, n, n)
    ensures CanAct(phase)
  {
    if SeatOf(phase).Some? {
      ForksDiffer(n, SeatOf(phase).value);
    }
  }

  // What every run of a table of n philosophers keeps: no two share a seat, neighbours do
  // not eat at the same time, and there is always somebody who can take a step.
  ghost predicate Safe(s: State, n: nat)
    requires Shaped(s, n)
  {
    && (forall p: nat, q: nat :: p < n && q < n && p != q && SeatOf(s.phases[p]).Some? ==>
         SeatOf(s.phases[p]) != SeatOf(s.phases[q]))
    && (forall p: nat :: p < n && SeatOf(s.phases[p]).Some? ==> SeatOf(s.phases[p]).value < n)
    && (forall p: nat, q: nat :: p < n && q < n && s.phases[p].Eats? && s.phases[q].Eats? ==>
          s.phases[q].seat != (s.phases[p].seat + 1) % n)
    && (exists q: nat :: q <= n && CanAct(s.phases[q]) && (s.phases[n].Done? ==> q < n))
  }

  lemma RunsAreSafe(n: nat, first: nat, schedule: seq<nat>)
    requires n >= 2 && first + n < 256 && CanRun(Init(n, first), n, schedule)
    ensures Safe(Run(Init(n, first), n, schedule), n)
  {
    InitInv(n, first);
    RunInv(Init(n, first), n, schedule);
    InvSafe(Run(Init(n, first), n, schedule), n);
  }

  lemma InvSafe(s: State, n: nat)
    requires n >= 2 && Inv(s, n)
    ensures Safe(s, n)
  {
    var actor := SomebodyActs(s, n);
    forall p: nat | p < n && SeatOf(s.phases[p]).Some?
      ensures SeatOf(s.phases[p]).value < n
    {
      SeatsBelow(s, n, p);
    }
    forall p: nat, q: nat | p < n && q < n && s.phases[p].Eats? && s.phases[q].Eats?
      ensures s.phases[q].seat != (s.phases[p].seat + 1) % n
    {
      NeighboursApart(s, n, p, q);
    }
  }

  // Both would hold the fork between them.
  lemma NeighboursApart(s: State, n: nat, p: nat, q: nat)
    requires n >= 2 && Inv(s, n) && p < n && q < n && s.phases[p].Eats? && s.phases[q].Eats?
    ensures s.phases[q].seat != (s.phases[p].seat + 1) % n
  {
    SeatsBelow(s, n, p);
    SeatsBelow(s, n, q);
    var f := (s.phases[p].seat + 1) % n;
    EatsHolds(n, s.phases[p].seat);
    EatsHolds(n, s.phases[q].seat);
    RightOf(n, s.phases[p].seat);
    assert SemOk(s.phases, s.sems[f], n, f);
    SemMeans(s.phases, s.sems[f], n, f);
  }

  lemma EatsHolds(n: nat, seat: nat)
    requires n >= 2 && seat < n
    ensures (seat + 1) % n < n && Holds(Eats(seat), n, seat) && Holds(Eats(seat), n, (seat + 1) % n)
  {
    ForksDiffer(n, seat);
    assert seat in {First(n, seat), Second(n, seat)} && (seat + 1) % n in {First(n, seat), Second(n, seat)};
  }

  lemma {:induction false} RunThen(s: State, n: nat, schedule: seq<nat>, p: nat)
    requires Shaped(s, n) && CanRun(s, n, schedule) && CanStep(Run(s, n, schedule), n, p)
    ensures CanRun(s, n, schedule + [p]) && Run(s, n, schedule + [p]) == Act(Run(s, n, schedule), n, p)
    decreases |schedule|
  {
    hide Act;
    if schedule == [] {
      assert ([] + [p])[1..] == [];
    } else {
      assert (schedule + [p])[1..] == schedule[1..] + [p];
      RunThen(Act(s, n, schedule[0]), n, schedule[1..], p);
    }
  }

  // The father holds the guard and has created i philosophers.
  function Creating(n: nat, first: nat, i: nat): (s: State)
    ensures Shaped(s, n)
  {
    State(seq(n, p => if p < i then Enters else Absent) + [Creates(i)],
        seq(n + 1, f => Sem(if f == n then 0 else 1, [])), 0, first)
  }

  // All are created, and the first i sit, each on the seat of its number.
  function Sitting(n: nat, first: nat, i: nat): (s: State)
    ensures Shaped(s, n)
  {
    State(seq(n, p requires 0 <= p => if p < i then Hungry(p) else Enters) + [Done], seq(n + 1, _ => Sem(1, [])), i,
        first)
  }

  lemma {:induction false} CreatingRun(n: nat, first: nat, i: nat) returns (schedule: seq<nat>)
    requires n >= 2 && i <= n
    ensures CanRun(Init(n, first), n, schedule) && Run(Init(n, first), n, schedule) == Creating(n, first, i)
  {
    schedule := [];
    if i > 0 {
      schedule := CreatingRun(n, first, i - 1);
      CreatingStep(n, first, i - 1);
    } else {
      GuardTaken(n, first);
    }
    RunThen(Init(n, first), n, schedule, n);
    schedule := schedule + [n];
  }

  lemma GuardTaken(n: nat, first: nat)
    requires n >= 2
    ensures CanStep(Init(n, first), n, n) && Act(Init(n, first), n, n) == Creating(n, first, 0)
  {
  }

  lemma CreatingStep(n: nat, first: nat, i: nat)
    requires n >= 2 && i < n
    ensures CanStep(Creating(n, first, i), n, n) && Act(Creating(n, first, i), n, n) == Creating(n, first, i + 1)
  {
  }

  lemma GuardReleased(n: nat, first: nat)
    requires n >= 2
    ensures CanStep(Creating(n, first, n), n, n) && Act(Creating(n, first, n), n, n) == Sitting(n, first, 0)
  {
  }

  // Philosopher i has sat down up to the given phase of that.
  function SittingDown(n: nat, first: nat, i: nat, phase: Phase): (s: State)
    requires i < n
    ensures Shaped(s, n)
  {
    var s := Sitting(n, first, i);
    s.(phases := s.phases[i := phase], sems := s.sems[n := Sem(0, [])], forSeat := if phase.TookSeat? then i + 1 else i)
  }

  lemma SitDown(n: nat, first: nat, i: nat)
    requires n >= 2 && i < n
    ensures CanStep(Sitting(n, first, i), n, i)
    ensures Act(Sitting(n, first, i), n, i) == SittingDown(n, first, i, MayTakeSeat)
    ensures CanStep(SittingDown(n, first, i, MayTakeSeat), n, i)
    ensures Act(SittingDown(n, first, i, MayTakeSeat), n, i) == SittingDown(n, first, i, Loaded(i))
    ensures CanStep(SittingDown(n, first, i, Loaded(i)), n, i)
    ensures Act(SittingDown(n, first, i, Loaded(i)), n, i) == SittingDown(n, first, i, TookSeat(i))
    ensures CanStep(SittingDown(n, first, i, TookSeat(i)), n, i)
    ensures Act(SittingDown(n, first, i, TookSeat(i)), n, i) == Sitting(n, first, i + 1)
  {
  }

  lemma {:induction false} SittingRun(n: nat, first: nat, i: nat) returns (schedule: seq<nat>)
    requires n >= 2 && i <= n
    ensures CanRun(Init(n, first), n, schedule) && Run(Init(n, first), n, schedule) == Sitting(n, first, i)
    decreases i
  {
    hide CanRun, Run, Act, CanStep, Sitting, SittingDown, Creating;
    if i == 0 {
      schedule := CreatingRun(n, first, n);
      GuardReleased(n, first);
      RunThen(Init(n, first), n, schedule, n);
      schedule := schedule + [n];
    } else {
      schedule := SittingRun(n, first, i - 1);
      SitDown(n, first, i - 1);
      for k := 0 to 4
        invariant CanRun(Init(n, first), n, schedule)
        invariant Run(Init(n, first), n, schedule) ==
                  match k case 0 => Sitting(n, first, i - 1) case 1 => SittingDown(n, first, i - 1, MayTakeSeat)
                  case 2 => SittingDown(n, first, i - 1, Loaded(i - 1)) case 3 => SittingDown(n, first, i - 1,
                      TookSeat(i - 1))
                  case _ => Sitting(n, first, i)
      {
        RunThen(Init(n, first), n, schedule, i - 1);
        schedule := schedule + [i - 1];
      }
    }
  }

  // A fork that p gets without waiting: it is on the table, or out of p's reach.
  predicate Passes(s: State, n: nat, f: nat)
    requires Shaped(s, n)
  {
    var g := Reached(n, s.first, f);
    g.Some? ==> s.sems[g.value].value > 0
  }

  lemma TakeBoth(s: State, n: nat, p: nat)
    requires n >= 2 && Shaped(s, n) && p < n && s.phases[p] == Hungry(p) && n < 256
    requires Passes(s, n, First(n, p)) && Passes(s, n, Second(n, p))
    ensures CanStep(s, n, p) && CanStep(Act(s, n, p), n, p)
    ensures var s' := Act(Act(s, n, p), n, p);
            && s'.phases == s.phases[p := Eats(p)] && s'.first == s.first
            && forall f :: 0 <= f < n && f != First(n, p) && f != Second(n, p) ==> s'.sems[f] == s.sems[f]
  {
    hide Reached, First, Second;
    ForksDiffer(n, p);
    ReachedIff(n, s.first, First(n, p));
    ReachedIff(n, s.first, Second(n, p));
  }

  // The fork between philosophers n - 2 and n - 1 is out of reach of both.
  lemma NeighboursTake(n: nat, first: nat) returns (s1: State, s2: State)
    requires 3 <= n < 256 && first + n >= 256
    ensures var s := Sitting(n, first, n);
            CanStep(s, n, n - 2) && CanStep(Act(s, n, n - 2), n, n - 2) && s1 == Act(Act(s, n, n - 2), n, n - 2)
    ensures CanStep(s1, n, n - 1) && CanStep(Act(s1, n, n - 1), n, n - 1) && s2 == Act(Act(s1, n, n - 1), n, n - 1)
    ensures s2.phases[n - 2] == Eats(n - 2) && s2.phases[n - 1] == Eats(n - 1)
  {
    hide Act, Reached;
    var s := Sitting(n, first, n);
    FirstSecond(n, n - 2);
    FirstSecond(n, n - 1);
    ReachedIff(n, first, 0);
    ReachedIff(n, first, n - 2);
    ReachedIff(n, first, n - 1);
    TakeBoth(s, n, n - 2);
    s1 := Act(Act(s, n, n - 2), n, n - 2);
    TakeBoth(s1, n, n - 1);
    s2 := Act(Act(s1, n, n - 1), n, n - 1);
  }

  // A run in which neighbours eat at the same time.
  lemma NeighboursEatRun(n: nat, first: nat) returns (schedule: seq<nat>)
    requires 3 <= n < 256 && first + n >= 256
    ensures CanRun(Init(n, first), n, schedule)
    ensures var s := Run(Init(n, first), n, schedule);
            s.phases[n - 2] == Eats(n - 2) && s.phases[n - 1] == Eats(n - 1) && !Safe(s, n)
  {
    hide Act, CanRun, Run, Sitting;
    schedule := SittingRun(n, first, n);
    var s1, s2 := NeighboursTake(n, first);
    RunThen(Init(n, first), n, schedule, n - 2);
    RunThen(Init(n, first), n, schedule + [n - 2], n - 2);
    RunThen(Init(n, first), n, schedule + [n - 2] + [n - 2], n - 1);
    RunThen(Init(n, first), n, schedule + [n - 2] + [n - 2] + [n - 1], n - 1);
    schedule := schedule + [n - 2] + [n - 2] + [n - 1] + [n - 1];
    RightOf(n, n - 2);
  }

  ghost predicate AlwaysSafe(n: nat, first: nat) {
    forall schedule: seq<nat> {:trigger CanRun(Init(n, first), n, schedule)} ::
      CanRun(Init(n, first), n, schedule) ==> Safe(Run(Init(n, first), n, schedule), n)
  }

  // Every run is safe exactly if the id of the last fork fits into eight bits.
  lemma AlwaysSafeIff(n: nat, first: nat)
    requires 3 <= n < 256
    ensures AlwaysSafe(n, first) <==> first + n < 256
  {
    if first + n < 256 {
      forall schedule | CanRun(Init(n, first), n, schedule)
        ensures Safe(Run(Init(n, first), n, schedule), n)
      {
        RunsAreSafe(n, first, schedule);
      }
    } else {
      var schedule := NeighboursEatRun(n, first);
      assert CanRun(Init(n, first), n, schedule);
    }
  }
}
