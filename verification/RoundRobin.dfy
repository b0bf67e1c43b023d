/** The walk of findNextProcess over the five queues, and how long a ready process waits. */
module RoundRobin {
  import opened Lists
  import opened Kernel
  import opened KernelSteps

  lemma {:induction false} FlatMembers(queues: seq<seq<nat>>, p: nat)
    ensures p in Flat(queues) <==> exists s :: s in queues && p in s
  {
    if queues != [] {
      FlatMembers(queues[1..], p);
      assert queues == [queues[0]] + queues[1..];
    }
  }

  lemma {:induction false} FlatDistinct(queues: seq<seq<nat>>)
    requires forall i :: 0 <= i < |queues| ==> Distinct(queues[i])
    requires forall i, j, p :: 0 <= i < j < |queues| && p in queues[i] ==> p !in queues[j]
    ensures Distinct(Flat(queues))
  {
    if queues != [] {
      FlatDistinct(queues[1..]);
      forall p | p in queues[0] ensures p !in Flat(queues[1..]) {
        FlatMembers(queues[1..], p);
        forall s | s in queues[1..] ensures p !in s {
          var j :| 0 <= j < |queues| - 1 && queues[1..][j] == s;
          assert s == queues[j + 1];
        }
      }
      DistinctConcat(queues[0], Flat(queues[1..]));
    }
  }

  // Where queue i begins in the walk over all queues.
  function Offset(queues: seq<seq<nat>>, i: nat): nat
    requires i <= |queues|
  {
    if i == 0 then 0 else |queues[0]| + Offset(queues[1..], i - 1)
  }

  lemma {:induction false} OffsetNext(queues: seq<seq<nat>>, i: nat)
    requires i < |queues|
    ensures Offset(queues, i + 1) == Offset(queues, i) + |queues[i]|
  {
    if i > 0 {
      OffsetNext(queues[1..], i - 1);
    }
  }

  lemma {:induction false} FlatAt(queues: seq<seq<nat>>, i: nat, j: nat)
    requires i < |queues| && j < |queues[i]|
    ensures Offset(queues, i) + j < |Flat(queues)| && Flat(queues)[Offset(queues, i) + j] == queues[i][j]
  {
    if i > 0 {
      FlatAt(queues[1..], i - 1, j);
    }
  }

  lemma {:induction false} FlatLength(queues: seq<seq<nat>>)
    ensures |Flat(queues)| == Offset(queues, |queues|)
  {
    if queues != [] {
      FlatLength(queues[1..]);
    }
  }

  // The walk meets every process of the system exactly once.
  lemma FlatProcs(k: Kernel)
    requires Queued(k)
    ensures Distinct(Flat(k.queues)) && forall p :: p in Flat(k.queues) <==> p in k.procs
  {
    forall i, j, p | 0 <= i < j < |k.queues| && p in k.queues[i]
      ensures p !in k.queues[j]
    {
      assert QueueHolds(k, i) && QueueHolds(k, j);
    }
    forall i | 0 <= i < |k.queues| ensures Distinct(k.queues[i]) {
      assert QueueHolds(k, i);
    }
    FlatDistinct(k.queues);
    forall p ensures p in Flat(k.queues) <==> p in k.procs {
      FlatMembers(k.queues, p);
      if p in k.procs {
        assert QueueHolds(k, k.procs[p].priority);
        assert k.queues[k.procs[p].priority] in k.queues;
      } else {
        forall s | s in k.queues ensures p !in s {
          var i :| 0 <= i < |k.queues| && k.queues[i] == s;
          assert QueueHolds(k, i);
        }
      }
    }
  }

  lemma RoundProcs(queues: seq<seq<nat>>, p: nat)
    requires p in Flat(queues) && Distinct(Flat(queues))
    ensures |Round(queues, p)| == |Flat(queues)| && Distinct(Round(queues, p))
    ensures Round(queues, p)[|Flat(queues)| - 1] == p
    ensures forall q :: q in Round(queues, p) <==> q in Flat(queues)
  {
    var flat := Flat(queues);
    var i := IndexOf(flat, p);
    var head, tail := flat[..i + 1], flat[i + 1..];
    assert flat == head + tail;
    forall q | q in tail ensures q !in head {
      var j :| 0 <= j < |tail| && tail[j] == q;
      assert flat[i + 1 + j] == q;
    }
    DistinctConcat(tail, head);
  }

  // Because init stays ready, the search for the next process always ends.
  lemma SearchEnds(k: Kernel)
    requires Queued(k) && Sane(k)
    ensures CanTick(k)
  {
    FlatProcs(k);
    RoundProcs(k.queues, k.running);
    assert INIT in Round(k.queues, k.running);
  }

  lemma TickInv(k: Kernel)
    requires Inv(k)
    ensures CanTick(k) && Inv(Tick(k)) && SameButQuanta(k, Tick(k))
  {
    hide Round, FirstReady, Flat;
    SearchEnds(k);
    var k' := Tick(k);
    QueuedFrame(k, k');
    FamilyFrame(k, k');
    MortalFrame(k, k');
    ListsFrame(k, k');
    WaitsFrame(k, k');
  }

  // A tick changes quanta and the process on the CPU, nothing else.
  ghost predicate SameButQuanta(k: Kernel, k': Kernel) {
    && k'.procs.Keys == k.procs.Keys && k'.queues == k.queues && k'.blocked == k.blocked
    && k'.deathList == k.deathList && k'.nextPid == k.nextPid && k'.limbo == k.limbo
    && forall p :: p in k.procs ==> k'.procs[p] == k.procs[p].(quantum := k'.procs[p].quantum)
  }

  lemma QuantaOnly(k: Kernel, k': Kernel)
    requires SameButQuanta(k, k')
    ensures forall q :: q in k.procs <==> q in k'.procs
    ensures forall q :: q in k.procs ==> k'.procs[q] == k.procs[q].(quantum := k'.procs[q].quantum)
  {
    assert forall q :: q in k'.procs <==> q in k'.procs.Keys;
  }

  lemma SpentInv(k: Kernel)
    requires Inv(k)
    ensures Inv(Spent(k)) && SameButQuanta(k, Spent(k))
  {
    var k' := Spent(k);
    QueuedFrame(k, k');
    FamilyFrame(k, k');
    MortalFrame(k, k');
    ListsFrame(k, k');
    WaitsFrame(k, k');
  }

  // What a process costs those behind it: a tick for each unit of quantum and one to leave.
  function Cost(procs: map<nat, Pcb>, p: nat): nat {
    if IsReady(procs, p) then procs[p].quantum + 1 else 0
  }

  function Costs(procs: map<nat, Pcb>, s: seq<nat>): nat {
    if s == [] then 0 else Cost(procs, s[0]) + Costs(procs, s[1..])
  }

  lemma {:induction false} CostsConcat(procs: map<nat, Pcb>, s: seq<nat>, t: seq<nat>)
    ensures Costs(procs, s + t) == Costs(procs, s) + Costs(procs, t)
  {
    if s == [] {
      assert s + t == t;
    } else {
      CostsConcat(procs, s[1..], t);
      assert (s + t)[1..] == s[1..] + t;
    }
  }

  // Processes that are not in s may change freely.
  lemma {:induction false} CostsFrame(procs: map<nat, Pcb>, procs': map<nat, Pcb>, s: seq<nat>)
    requires forall p :: p in s ==> Cost(procs, p) == Cost(procs', p)
    ensures Costs(procs, s) == Costs(procs', s)
  {
    if s != [] {
      assert s[0] in s && forall p :: p in s[1..] ==> p in s;
      CostsFrame(procs, procs', s[1..]);
    }
  }

  lemma {:induction false} CostsNone(procs: map<nat, Pcb>, s: seq<nat>)
    requires forall i :: 0 <= i < |s| ==> !IsReady(procs, s[i])
    ensures Costs(procs, s) == 0
  {
    if s != [] {
      CostsNone(procs, s[1..]);
    }
  }

  lemma IndexUnique(s: seq<nat>, g: nat)
    requires Distinct(s) && g < |s|
    ensures IndexOf(s, s[g]) == g
  {
  }

  // A rotation of a rotation.
  lemma RotatedAhead(flat: seq<nat>, i: nat, g: nat)
    requires i < g < |flat|
    ensures var round := flat[i + 1..] + flat[..i + 1];
            var f := g - i - 1;
            round[f] == flat[g] && flat[g + 1..] + flat[..g + 1] == round[f + 1..] + round[..f + 1]
  {
    var round := flat[i + 1..] + flat[..i + 1];
    var f := g - i - 1;
    assert round[f + 1..] == flat[g + 1..] + flat[..i + 1];
    assert round[..f + 1] == flat[i + 1..g + 1];
    assert flat[..i + 1] + flat[i + 1..g + 1] == flat[..g + 1];
  }

  lemma RotatedBehind(flat: seq<nat>, i: nat, g: nat)
    requires g <= i < |flat|
    ensures var round := flat[i + 1..] + flat[..i + 1];
            var f := |flat| - i - 1 + g;
            round[f] == flat[g] && flat[g + 1..] + flat[..g + 1] == round[f + 1..] + round[..f + 1]
  {
    var round := flat[i + 1..] + flat[..i + 1];
    var f := |flat| - i - 1 + g;
    assert round[f + 1..] == flat[g + 1..i + 1];
    assert round[..f + 1] == flat[i + 1..] + flat[..g + 1];
    assert flat[g + 1..i + 1] + flat[i + 1..] == flat[g + 1..];
  }

  // The round that starts behind a later process is the same round, rotated.
  lemma RoundShift(queues: seq<seq<nat>>, p: nat, f: nat)
    requires p in Flat(queues) && Distinct(Flat(queues)) && f < |Round(queues, p)|
    ensures var round := Round(queues, p);
            round[f] in Flat(queues) && Round(queues, round[f]) == round[f + 1..] + round[..f + 1]
  {
    hide Flat, Distinct, IndexOf;
    var flat := Flat(queues);
    var i := IndexOf(flat, p);
    var g := if f < |flat| - i - 1 then i + 1 + f else f - (|flat| - i - 1);
    IndexUnique(flat, g);
    if f < |flat| - i - 1 {
      RotatedAhead(flat, i, g);
    } else {
      RotatedBehind(flat, i, g);
    }
    assert Round(queues, p)[f] == flat[g];
    assert Round(queues, flat[g]) == flat[g + 1..] + flat[..g + 1];
  }

  // Ticks until x is dispatched.
  function Rank(k: Kernel, x: nat): nat
    requires k.running in Flat(k.queues) && x in Round(k.queues, k.running)
  {
    var round := Round(k.queues, k.running);
    (if IsReady(k.procs, k.running) then k.procs[k.running].quantum + 1
        else 1) + Costs(k.procs, round[..IndexOf(round, x)])
  }

  // x is ready and waits its turn.
  ghost predicate InLine(k: Kernel, x: nat) {
    Inv(k) && IsReady(k.procs, x) && x != k.running
  }

  lemma InLineInRound(k: Kernel, x: nat)
    requires InLine(k, x)
    ensures k.running in k.procs && k.running in Flat(k.queues) && Distinct(Flat(k.queues))
    ensures x in Round(k.queues, k.running) && Distinct(Round(k.queues, k.running))
    ensures IndexOf(Round(k.queues, k.running), x) < |Round(k.queues, k.running)| - 1
    ensures Round(k.queues, k.running)[|Round(k.queues, k.running)| - 1] == k.running
    ensures Rank(k, x) >= 1
  {
    FlatProcs(k);
    RoundProcs(k.queues, k.running);
  }

  // Each tick brings x one step closer, and the last step dispatches it.
  lemma TickCloser(k: Kernel, x: nat)
    requires InLine(k, x)
    ensures k.running in Flat(k.queues) && x in Round(k.queues, k.running)
    ensures CanTick(k)
    ensures if Rank(k, x) == 1 then Tick(k).running == x
            else InLine(Tick(k), x) && x in Round(Tick(k).queues, Tick(k).running) && Rank(Tick(k), x) == Rank(k, x) - 1
  {
    hide Flat, Inv;
    TickInv(k);
    InLineInRound(k, x);
    var round := Round(k.queues, k.running);
    var j := IndexOf(round, x);
    var p := k.procs[k.running];
    if p.state == Ready && p.quantum > 0 {
      TickStays(k, x);
    } else {
      TickSwitches(k, x);
    }
  }

  lemma TickStays(k: Kernel, x: nat)
    requires InLine(k, x) && k.procs[k.running].state == Ready && k.procs[k.running].quantum > 0
    ensures k.running in Flat(k.queues) && x in Round(k.queues, k.running)
    ensures CanTick(k)
    ensures InLine(Tick(k), x) && Tick(k).queues == k.queues && Tick(k).running == k.running &&
              Rank(Tick(k), x) == Rank(k, x) - 1
    ensures Rank(k, x) > 1
  {
    hide Flat, Round, FirstReady, Costs;
    TickInv(k);
    InLineInRound(k, x);
    var round := Round(k.queues, k.running);
    var ahead := round[..IndexOf(round, x)];
    assert k.running !in ahead;
    CostsFrame(k.procs, Tick(k).procs, ahead);
  }

  lemma TickSwitches(k: Kernel, x: nat)
    requires InLine(k, x) && !(k.procs[k.running].state == Ready && k.procs[k.running].quantum > 0)
    ensures k.running in Flat(k.queues) && x in Round(k.queues, k.running)
    ensures CanTick(k)
    ensures if Rank(k, x) == 1 then Tick(k).running == x
            else InLine(Tick(k), x) && x in Round(Tick(k).queues, Tick(k).running) && Rank(Tick(k), x) == Rank(k, x) - 1
  {
    hide Flat, Round, Costs, Queued, BlockedListed, Family, Waits, Mortal;
    TickInv(k);
    InLineInRound(k, x);
    var round := Round(k.queues, k.running);
    var j, f := IndexOf(round, x), FirstReady(k.procs, round);
    assert f <= j;
    CostsNone(k.procs, round[..f]);
    if f == j {
      assert Rank(k, x) == 1;
    } else {
      var k' := Tick(k);
      assert k'.running == round[f] != x;
      SplitCosts(k.procs, round, f, j);
      RoundShift(k.queues, k.running, f);
      var between := round[f + 1..j];
      var round' := round[f + 1..] + round[..f + 1];
      assert round' == Round(k'.queues, k'.running);
      assert round'[j - f - 1] == x && round'[..j - f - 1] == between;
      InLineInRound(k', x);
      assert IndexOf(round', x) == j - f - 1;
      assert k.running !in between;
      CostsFrame(k.procs, k'.procs, between);
    }
  }

  lemma SplitCosts(procs: map<nat, Pcb>, s: seq<nat>, f: nat, j: nat)
    requires f < j <= |s|
    ensures Costs(procs, s[..j]) == Costs(procs, s[..f]) + Cost(procs, s[f]) + Costs(procs, s[f + 1..j])
  {
    assert s[..j] == s[..f] + ([s[f]] + s[f + 1..j]);
    CostsConcat(procs, s[..f], [s[f]] + s[f + 1..j]);
  }

  lemma InLineNow(k: Kernel, x: nat)
    requires InLine(k, x)
    ensures Inv(k) && k.running != x
  {
  }

  // What the other ready processes may cost at most, each with a full quantum.
  function Budget(procs: map<nat, Pcb>, s: seq<nat>, x: nat): nat {
    if s == [] then 0
    else
      (if s[0] != x && IsReady(procs, s[0]) && procs[s[0]].priority <= PRIORITY_COUNT
       then PRIORITY_COUNT - procs[s[0]].priority + 1 else 0)
      + Budget(procs, s[1..], x)
  }

  lemma {:induction false} BudgetConcat(procs: map<nat, Pcb>, s: seq<nat>, t: seq<nat>, x: nat)
    ensures Budget(procs, s + t, x) == Budget(procs, s, x) + Budget(procs, t, x)
  {
    if s == [] {
      assert s + t == t;
    } else {
      BudgetConcat(procs, s[1..], t, x);
      assert (s + t)[1..] == s[1..] + t;
    }
  }

  lemma {:induction false} CostsWithinBudget(k: Kernel, s: seq<nat>, x: nat)
    requires Queued(k) && Sane(k) && x !in s
    ensures Costs(k.procs, s) <= Budget(k.procs, s, x)
  {
    if s != [] {
      assert forall p :: p in s[1..] ==> p in s;
      CostsWithinBudget(k, s[1..], x);
      assert s[0] in s;
    }
  }

  // With a ready process on the CPU, x waits no longer than the full quanta of the other
  // ready processes, and a tick for each of them to leave the CPU.
  lemma RankBounded(k: Kernel, x: nat)
    requires InLine(k, x) && IsReady(k.procs, k.running)
    ensures k.running in Flat(k.queues) && x in Round(k.queues, k.running)
    ensures Rank(k, x) <= Budget(k.procs, Flat(k.queues), x)
  {
    hide Flat, Inv, Costs, Budget, IndexOf;
    InLineNow(k, x);
    InLineInRound(k, x);
    InvParts(k);
    var round := Round(k.queues, k.running);
    var j, last := IndexOf(round, x), |round| - 1;
    var ahead := round[..j];
    assert x !in ahead;
    CostsWithinBudget(k, ahead, x);
    assert round == ahead + (round[j..last] + [k.running]);
    BudgetConcat(k.procs, ahead, round[j..last] + [k.running], x);
    BudgetConcat(k.procs, round[j..last], [k.running], x);
    RunningCost(k, x);
    BudgetRound(k, x);
  }

  lemma RunningCost(k: Kernel, x: nat)
    requires Queued(k) && Sane(k) && IsReady(k.procs, k.running) && x != k.running
    ensures k.procs[k.running].quantum + 1 <= Budget(k.procs, [k.running], x)
  {
    assert [k.running][1..] == [];
  }

  // A round is a rotation, so it has the budget of the queues.
  lemma BudgetRound(k: Kernel, x: nat)
    requires k.running in Flat(k.queues)
    ensures Budget(k.procs, Round(k.queues, k.running), x) == Budget(k.procs, Flat(k.queues), x)
  {
    var flat := Flat(k.queues);
    var i := IndexOf(flat, k.running);
    BudgetConcat(k.procs, flat[i + 1..], flat[..i + 1], x);
    assert flat == flat[..i + 1] + flat[i + 1..];
    BudgetConcat(k.procs, flat[..i + 1], flat[i + 1..], x);
  }

  lemma InvParts(k: Kernel)
    requires Inv(k)
    ensures Queued(k) && Sane(k)
  {
  }

  // The running process may also give up the CPU before its quantum is spent.
  datatype Turn = TimerTick | YieldTick

  ghost function After(k: Kernel, turn: Turn): (k': Kernel)
    requires Inv(k)
    ensures Inv(k')
  {
    SpentInv(k);
    TickInv(k);
    TickInv(Spent(k));
    if turn.TimerTick? then Tick(k) else Tick(Spent(k))
  }

  ghost function Turns(k: Kernel, turns: seq<Turn>): (k': Kernel)
    requires Inv(k)
    ensures Inv(k')
    decreases |turns|
  {
    if turns == [] then k else Turns(After(k, turns[0]), turns[1..])
  }

  lemma SpentCloser(k: Kernel, x: nat)
    requires InLine(k, x)
    ensures InLine(Spent(k), x) && RankOf(Spent(k), x) <= RankOf(k, x)
  {
    hide Flat, Round, Costs;
    SpentInv(k);
    InLineInRound(k, x);
    InLineInRound(Spent(k), x);
    var round := Round(k.queues, k.running);
    var ahead := round[..IndexOf(round, x)];
    assert k.running !in ahead;
    CostsFrame(k.procs, Spent(k).procs, ahead);
  }

  // Every turn dispatches x or brings it closer; a timer tick by exactly one.
  lemma TurnCloser(k: Kernel, x: nat, turn: Turn)
    requires InLine(k, x)
    ensures RankOf(k, x) >= 1
    ensures After(k, turn).running == x || (InLine(After(k, turn), x) && RankOf(After(k, turn), x) < RankOf(k, x))
    ensures turn.TimerTick? ==>
              && (After(k, turn).running == x <==> RankOf(k, x) == 1)
              && (RankOf(k, x) > 1 ==> InLine(After(k, turn), x) && RankOf(After(k, turn), x) == RankOf(k, x) - 1)
  {
    hide Inv, Tick, Rank, Round, Flat, FirstReady, Spent, CanTick;
    InLineInRound(k, x);
    TickCloser(k, x);
    SpentCloser(k, x);
    InLineInRound(Spent(k), x);
    TickCloser(Spent(k), x);
  }

  ghost function RankOf(k: Kernel, x: nat): nat
    requires InLine(k, x)
  {
    InLineInRound(k, x);
    Rank(k, x)
  }

  ghost predicate AllTicks(turns: seq<Turn>) {
    forall i :: 0 <= i < |turns| ==> turns[i].TimerTick?
  }

  // Under timer ticks alone x is dispatched at tick RankOf(k, x), and not before.
  lemma {:induction false} DispatchedAtRank(k: Kernel, x: nat, turns: seq<Turn>)
    requires InLine(k, x) && AllTicks(turns) && |turns| <= RankOf(k, x)
    ensures Inv(k) && (Turns(k, turns).running == x <==> |turns| == RankOf(k, x))
    decreases |turns|
  {
    hide Inv, InLine, After, RankOf;
    InLineNow(k, x);
    if turns != [] {
      TurnCloser(k, x, TimerTick);
      assert AllTicks(turns[1..]);
      if RankOf(k, x) > 1 {
        DispatchedAtRank(After(k, TimerTick), x, turns[1..]);
      }
    } else {
      TurnCloser(k, x, TimerTick);
    }
  }

  // However ticks and yields are mixed, x is dispatched within RankOf(k, x) of them.
  lemma {:induction false} DispatchedWithinRank(k: Kernel, x: nat, turns: seq<Turn>) returns (m: nat)
    requires InLine(k, x) && RankOf(k, x) <= |turns|
    ensures 0 < m <= RankOf(k, x) && Inv(k) && Turns(k, turns[..m]).running == x
    decreases |turns|
  {
    hide Inv, InLine, After, RankOf;
    InLineNow(k, x);
    TurnCloser(k, x, TimerTick);
    TurnCloser(k, x, turns[0]);
    if After(k, turns[0]).running == x {
      m := 1;
      assert turns[..1][1..] == [];
    } else {
      var n := DispatchedWithinRank(After(k, turns[0]), x, turns[1..]);
      m := n + 1;
      assert turns[..m][1..] == turns[1..][..n];
    }
  }

  // Bounded waiting: within the sum, over the other ready processes, of their full quanta
  // and one tick each.
  lemma BoundedWaiting(k: Kernel, x: nat, turns: seq<Turn>) returns (m: nat)
    requires InLine(k, x) && IsReady(k.procs, k.running) && Budget(k.procs, Flat(k.queues), x) <= |turns|
    ensures 0 < m <= Budget(k.procs, Flat(k.queues), x) && Inv(k) && Turns(k, turns[..m]).running == x
  {
    hide Flat, Round, Rank, Budget, Turns;
    RankBounded(k, x);
    m := DispatchedWithinRank(k, x, turns);
  }
}
