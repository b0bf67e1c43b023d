/** How long a process keeps the CPU: what ticks and yields make of quanta. */
module Quanta {
  import opened Kernel
  import opened RoundRobin

  // A tick takes one unit from a ready process that has some left, which stays on the CPU;
  // any other process leaves with what it has, or with a new quantum if it has nothing. The
  // quanta of the others are not touched.
  lemma TickQuanta(k: Kernel)
    requires Inv(k)
    ensures CanTick(k) && k.running in k.procs && k.running in Tick(k).procs
    ensures forall q :: q in k.procs && q != k.running ==> q in Tick(k).procs && Tick(k).procs[q] == k.procs[q]
    ensures var p, p' := k.procs[k.running], Tick(k).procs[k.running];
            && (p.state == Ready && p.quantum >= 1 ==> Tick(k).running == k.running && p'.quantum + 1 == p.quantum)
            && (p.state != Ready && p.quantum >= 1 ==> p'.quantum == p.quantum)
            && (p.quantum == 0 ==> p'.quantum + p.priority == 5)
  {
    hide Round, FirstReady, Flat;
    SearchEnds(k);
  }

  // Some other process could have the CPU.
  ghost predicate Contended(k: Kernel, x: nat) {
    exists y :: y != x && IsReady(k.procs, y)
  }

  // Without a unit left x leaves, if there is anybody to leave for.
  lemma TickLeaves(k: Kernel, x: nat)
    requires Inv(k) && k.running == x && IsReady(k.procs, x) && k.procs[x].quantum == 0 && Contended(k, x)
    ensures CanTick(k) && Tick(k).running != x
  {
    hide Flat, IndexOf;
    var y :| y != x && IsReady(k.procs, y);
    InLineInRound(k, y);
    SearchEnds(k);
    var round := Round(k.queues, x);
    var f, j := FirstReady(k.procs, round), IndexOf(round, y);
    assert round[j] == y;
    assert f <= j;
  }

  // So many ticks, one after the other.
  ghost function Ticks(k: Kernel, n: nat): (k': Kernel)
    requires Inv(k)
    ensures Inv(k')
    decreases n
  {
    TickInv(k);
    if n == 0 then k else Ticks(Tick(k), n - 1)
  }

  lemma ContendedStays(k: Kernel, k': Kernel, x: nat)
    requires Contended(k, x) && SameButQuanta(k, k')
    ensures Contended(k', x)
  {
    var y :| y != x && IsReady(k.procs, y);
    assert y in k'.procs.Keys;
    assert IsReady(k'.procs, y);
  }

  // A ready process on the CPU stays there for as many ticks as it has units left, and with
  // the next one it leaves.
  lemma {:induction false} TurnLength(k: Kernel, x: nat, n: nat)
    requires Inv(k) && k.running == x && IsReady(k.procs, x) && Contended(k, x)
    ensures n <= k.procs[x].quantum ==>
              Ticks(k, n).running == x && Ticks(k, n).procs[x].quantum + n == k.procs[x].quantum
    ensures n == k.procs[x].quantum + 1 ==> Ticks(k, n).running != x
    decreases n
  {
    hide Inv, Tick;
    TickInv(k);
    TickQuanta(k);
    if n > 0 {
      if k.procs[x].quantum > 0 {
        ContendedStays(k, Tick(k), x);
        QuantaOnly(k, Tick(k));
        TurnLength(Tick(k), x, n - 1);
      } else {
        TickLeaves(k, x);
      }
    }
  }

  // While x is not on the CPU it has a whole quantum: so it is when it has been started or
  // given another priority, and when it has left the CPU by a tick or a yield.
  ghost predicate WholeWhenOff(k: Kernel, x: nat) {
    x in k.procs && (k.running != x ==> k.procs[x].quantum + k.procs[x].priority == 5)
  }

  // yield leaves the quantum of the caller whole, and dispatches another process.
  lemma YieldLeaves(k: Kernel)
    requires Inv(k) && IsReady(k.procs, k.running)
    ensures Inv(After(k, YieldTick)) && k.running in After(k, YieldTick).procs
    ensures After(k, YieldTick).procs[k.running].quantum + k.procs[k.running].priority == 5
    ensures Contended(k, k.running) ==> After(k, YieldTick).running != k.running
    ensures forall q :: q in k.procs && q != k.running ==>
              q in After(k, YieldTick).procs && After(k, YieldTick).procs[q] == k.procs[q]
  {
    hide Inv, Tick;
    RunningThere(k);
    SpentInv(k);
    QuantaOnly(k, Spent(k));
    TickQuanta(Spent(k));
    TickInv(Spent(k));
    QuantaOnly(Spent(k), Tick(Spent(k)));
    if Contended(k, k.running) {
      ContendedStays(k, Spent(k), k.running);
      TickLeaves(Spent(k), k.running);
    }
  }

  lemma RunningThere(k: Kernel)
    requires Inv(k)
    ensures k.running in k.procs
  {
  }

  lemma TickWhole(k: Kernel, x: nat)
    requires Inv(k) && IsReady(k.procs, x) && Contended(k, x) && WholeWhenOff(k, x)
    ensures CanTick(k) && IsReady(Tick(k).procs, x) && Contended(Tick(k), x) && WholeWhenOff(Tick(k), x)
    ensures Tick(k).procs[x].priority == k.procs[x].priority
  {
    hide Inv, Tick;
    TickInv(k);
    TickQuanta(k);
    QuantaOnly(k, Tick(k));
    ContendedStays(k, Tick(k), x);
  }

  lemma AfterQuanta(k: Kernel, turn: Turn, x: nat)
    requires Inv(k) && IsReady(k.procs, x) && Contended(k, x) && WholeWhenOff(k, x)
    ensures IsReady(After(k, turn).procs, x) && Contended(After(k, turn), x) && WholeWhenOff(After(k, turn), x)
    ensures After(k, turn).procs[x].priority == k.procs[x].priority
  {
    hide Inv, Tick, Contended, Spent;
    RunningThere(k);
    SpentInv(k);
    ContendedStays(k, Spent(k), x);
    QuantaOnly(k, Spent(k));
    if turn.TimerTick? {
      TickWhole(k, x);
    } else if k.running == x {
      YieldLeaves(k);
      TickInv(Spent(k));
      QuantaOnly(Spent(k), Tick(Spent(k)));
      ContendedStays(Spent(k), Tick(Spent(k)), x);
    } else {
      SpentOthers(k, x);
      TickWhole(Spent(k), x);
    }
  }

  lemma SpentOthers(k: Kernel, x: nat)
    requires k.running in k.procs && x in k.procs && x != k.running
    ensures x in Spent(k).procs && Spent(k).procs[x] == k.procs[x] && Spent(k).running == k.running
  {
  }

  // However ticks and yields are mixed, x has a whole quantum whenever it is not on the CPU.
  lemma {:induction false} TurnsQuanta(k: Kernel, turns: seq<Turn>, x: nat)
    requires Inv(k) && IsReady(k.procs, x) && Contended(k, x) && WholeWhenOff(k, x)
    ensures var k' := Turns(k, turns);
            && IsReady(k'.procs, x) && Contended(k', x) && WholeWhenOff(k', x)
            && k'.procs[x].priority == k.procs[x].priority
    decreases |turns|
  {
    hide Inv, After, Contended, WholeWhenOff;
    if turns != [] {
      AfterQuanta(k, turns[0], x);
      TurnsQuanta(After(k, turns[0]), turns[1..], x);
    }
  }

  // From then on each of its turns is a whole one: after any mix of ticks and yields that
  // ends with the dispatch of x, ticks alone leave x on the CPU for exactly five ticks less
  // its priority, and the next one takes it off.
  lemma WholeTurns(k: Kernel, turns: seq<Turn>, last: Turn, x: nat, n: nat)
    requires Inv(k) && IsReady(k.procs, x) && Contended(k, x) && WholeWhenOff(k, x)
    requires Turns(k, turns).running != x && After(Turns(k, turns), last).running == x
    ensures var k' := After(Turns(k, turns), last);
            && (n + k.procs[x].priority <= 5 ==> Ticks(k', n).running == x)
            && (n + k.procs[x].priority == 6 ==> Ticks(k', n).running != x)
  {
    hide Inv, After, Contended, Ticks;
    TurnsQuanta(k, turns, x);
    var k1 := Turns(k, turns);
    AfterQuanta(k1, last, x);
    DispatchKeeps(k1, last, x);
    TurnLength(After(k1, last), x, n);
  }

  // Being dispatched does not change a quantum.
  lemma DispatchKeeps(k: Kernel, turn: Turn, x: nat)
    requires Inv(k) && k.running != x && x in k.procs
    ensures x in After(k, turn).procs && After(k, turn).procs[x] == k.procs[x]
  {
    hide Inv, Tick;
    RunningThere(k);
    SpentInv(k);
    TickQuanta(k);
    TickQuanta(Spent(k));
    SpentOthers(k, x);
  }

  // A process that leaves the CPU by a tick while it is ready has a whole quantum then.
  lemma LeavesWhole(k: Kernel, x: nat)
    requires Inv(k) && k.running == x && IsReady(k.procs, x) && CanTick(k) && Tick(k).running != x
    ensures WholeWhenOff(Tick(k), x)
  {
    hide Inv, Tick;
    TickQuanta(k);
    TickInv(k);
    QuantaOnly(k, Tick(k));
  }
}
