/** Whole histories of the first-fit allocator. */
module KrRuns {
  import opened Options
  import opened Totals
  import opened KrHeap

  function Size(b: Run): nat { b.size }

  function Sum(runs: seq<Run>): nat {
    if runs == [] then 0 else runs[0].size + Sum(runs[1..])
  }

  lemma {:induction false} SumConcat(a: seq<Run>, b: seq<Run>)
    ensures Sum(a + b) == Sum(a) + Sum(b)
  {
    if a == [] {
      assert a + b == b;
    } else {
      SumConcat(a[1..], b);
      assert (a + b)[1..] == a[1..] + b;
    }
  }

  lemma SumSplice(runs: seq<Run>, p: nat, q: nat, mid: seq<Run>)
    requires p <= q <= |runs|
    ensures Sum(runs[..p] + mid + runs[q..]) == Sum(runs[..p]) + Sum(mid) + Sum(runs[q..])
    ensures Sum(runs) == Sum(runs[..p]) + Sum(runs[p..q]) + Sum(runs[q..])
  {
    SumConcat(runs[..p] + mid, runs[q..]);
    SumConcat(runs[..p], mid);
    SumConcat(runs[..p] + runs[p..q], runs[q..]);
    SumConcat(runs[..p], runs[p..q]);
    assert runs[..p] + runs[p..q] + runs[q..] == runs;
  }

  ghost predicate Whole(s: State, amount: nat) {
    Inv(s.runs, s.live, amount) && Sum(s.runs) + Total(s.live, Size) == amount
  }

  // What memfree may be given: NULL or an address outside the heap (ignored), in bytes
  // from its base, or a pointer that memalloc returned and that was not freed since.
  ghost predicate Freeable(s: State, ap: int, baseSize: nat) {
    (0 <= ap < baseSize) ==> exists b :: b in s.live && ap == HEADER_SIZE * (b.start + 1)
  }

  // Exactly the block behind the address stops being live, the free list is again the list of
  // all free runs, and no unit is lost; any other address changes nothing.
  ghost function MemFree(s: State, ap: int, baseSize: nat): (r: State)
    requires Freeable(s, ap, baseSize)
    ensures !(0 <= ap < baseSize) ==> r == s
    ensures Inv(s.runs, s.live, baseSize / HEADER_SIZE) ==> Inv(r.runs, r.live, baseSize / HEADER_SIZE)
    ensures Whole(s, baseSize / HEADER_SIZE) ==> Whole(r, baseSize / HEADER_SIZE)
    ensures Inv(s.runs, s.live, baseSize / HEADER_SIZE) ==>
              forall b :: b in s.live && HEADER_SIZE * (b.start + 1) == ap ==> r.live == s.live - {b}
  {
    if !(0 <= ap < baseSize) then
      LiveInside(s, baseSize);
      s
    else
      var b :| b in s.live && ap == HEADER_SIZE * (b.start + 1);
      FreeKeeps(s, b, baseSize);
      State(Insert(s.runs, b), s.live - {b})
  }

  lemma LiveInside(s: State, baseSize: nat)
    ensures Inv(s.runs, s.live, baseSize / HEADER_SIZE) ==>
              forall b :: b in s.live ==> 0 <= HEADER_SIZE * (b.start + 1) < baseSize
  {
    if Inv(s.runs, s.live, baseSize / HEADER_SIZE) {
      forall b | b in s.live ensures 0 <= HEADER_SIZE * (b.start + 1) < baseSize {
        assert b.start + 1 < baseSize / HEADER_SIZE;
      }
    }
  }

  lemma FreeKeeps(s: State, b: Run, baseSize: nat)
    requires b in s.live
    ensures var amount, r := baseSize / HEADER_SIZE, State(Insert(s.runs, b), s.live - {b});
            && (Inv(s.runs, s.live, amount) ==> Inv(r.runs, r.live, amount))
            && (Whole(s, amount) ==> Whole(r, amount))
            && (Inv(s.runs, s.live, amount) ==> forall c :: c in s.live && c.start == b.start ==> c == b)
  {
    hide Insert;
    var amount := baseSize / HEADER_SIZE;
    if Inv(s.runs, s.live, amount) {
      FreeInv(s, b, amount);
      if Whole(s, amount) {
        FreeWhole(s, b, amount);
      }
    }
  }

  // The address identifies the block: no two live blocks start together.
  lemma MemFreeOf(s: State, b: Run, baseSize: nat)
    requires Inv(s.runs, s.live, baseSize / HEADER_SIZE) && b in s.live
    ensures var ap := HEADER_SIZE * (b.start + 1);
            && 0 <= ap < baseSize && Freeable(s, ap, baseSize)
            && MemFree(s, ap, baseSize) == State(Insert(s.runs, b), s.live - {b})
  {
    var ap := HEADER_SIZE * (b.start + 1);
    assert b.start + 1 < baseSize / HEADER_SIZE;
    assert forall c :: c in s.live && ap == HEADER_SIZE * (c.start + 1) ==> c == b;
  }

  lemma SumCut(runs: seq<Run>, i: nat, n: nat)
    requires i < |runs| && n <= runs[i].size
    ensures Sum(Cut(runs, i, n)) == Sum(runs) - n
  {
    SumUpToTwo(runs[i..i + 1]);
    SumUpToTwo(Rest(runs[i], n));
    hide Sum;
    SumSplice(runs, i, i + 1, Rest(runs[i], n));
  }

  lemma SumJoin(runs: seq<Run>, k: nat, b: Run)
    requires k <= |runs|
    ensures Sum(Join(runs, k, b)) == Sum(runs) + b.size
  {
    var p, q := First(runs, k, b), Next(runs, k, b);
    SumSplice(runs, p, q, [Joined(runs, k, b)]);
    SumUpToTwo(runs[p..q]);
    SumUpToTwo([Joined(runs, k, b)]);
  }

  lemma SumUpToTwo(runs: seq<Run>)
    requires |runs| <= 2
    ensures Sum(runs) == if |runs| == 0 then 0 else if |runs| == 1 then runs[0].size else runs[0].size + runs[1].size
  {
    if |runs| == 2 {
      assert runs[1..] == [runs[1]];
    }
  }

  lemma GiveWhole(s: State, i: nat, n: nat, amount: nat)
    requires Whole(s, amount) && i < |s.runs| && 2 <= n <= s.runs[i].size
    ensures Whole(Give(s, i, n), amount)
  {
    hide Inv, Cut;
    CutInv(s, i, n, amount);
    SumCut(s.runs, i, n);
    TotalPlus(s.live, Tail(s.runs[i], n), Size);
  }

  lemma AllocWhole(s: State, nbytes: nat, amount: nat)
    requires Whole(s, amount)
    ensures Whole(Alloc(s, nbytes).0, amount)
  {
    hide Whole, Give, FirstFit;
    var i := FirstFit(s.runs, UnitsFor(nbytes));
    if nbytes != 0 && i < |s.runs| {
      GiveWhole(s, i, UnitsFor(nbytes), amount);
    }
  }

  lemma FreeWhole(s: State, b: Run, amount: nat)
    requires Whole(s, amount) && b in s.live
    ensures Whole(State(Insert(s.runs, b), s.live - {b}), amount)
  {
    FreeInv(s, b, amount);
    SumJoin(s.runs, Below(s.runs, b.start), b);
    TotalMinus(s.live, b, Size);
  }

  datatype Op = Malloc(nbytes: nat) | Release(ap: int)

  ghost predicate Step(p: State, op: Op, s: State, baseSize: nat) {
    match op
    case Malloc(n) => s == Alloc(p, n).0
    case Release(ap) => Freeable(p, ap, baseSize) && s == MemFree(p, ap, baseSize)
  }

  // History ops, over a heap of baseSize bytes, ends in s.
  ghost predicate Reaches(ops: seq<Op>, s: State, baseSize: nat) {
    if ops == [] then s == Init(baseSize / HEADER_SIZE)
    else
      var last := |ops| - 1;
      exists p :: Reaches(ops[..last], p, baseSize) && Step(p, ops[last], s, baseSize)
  }

  lemma {:induction false} ReachesWhole(ops: seq<Op>, s: State, baseSize: nat)
    requires HEADER_SIZE <= baseSize && Reaches(ops, s, baseSize)
    ensures Whole(s, baseSize / HEADER_SIZE)
  {
    var amount := baseSize / HEADER_SIZE;
    if ops == [] {
      assert forall u :: 0 <= u < amount ==> s.runs[0].Has(u);
    } else {
      var last := |ops| - 1;
      var p :| Reaches(ops[..last], p, baseSize) && Step(p, ops[last], s, baseSize);
      ReachesWhole(ops[..last], p, baseSize);
      match ops[last]
      case Malloc(n) => AllocWhole(p, n, amount);
      case Release(ap) =>
        if 0 <= ap < baseSize {
          var b :| b in p.live && ap == HEADER_SIZE * (b.start + 1);
          MemFreeOf(p, b, baseSize);
          FreeWhole(p, b, amount);
        }
    }
  }

  // After any history the free list is, in address order, the list of maximal runs of
  // units outside the live blocks, and no unit is lost.
  lemma HistoryExact(ops: seq<Op>, s: State, baseSize: nat)
    requires HEADER_SIZE <= baseSize && Reaches(ops, s, baseSize)
    ensures forall r :: r in s.runs <==> MaximalRun(r, s.live, baseSize / HEADER_SIZE)
    ensures forall i, j :: 0 <= i < j < |s.runs| ==> s.runs[i].End() < s.runs[j].start
    ensures Sum(s.runs) + Total(s.live, Size) == baseSize / HEADER_SIZE
  {
    var amount := baseSize / HEADER_SIZE;
    ReachesWhole(ops, s, baseSize);
    forall r ensures r in s.runs <==> MaximalRun(r, s.live, amount) {
      if r in s.runs {
        var i :| 0 <= i < |s.runs| && s.runs[i] == r;
        RunsAreMaximal(s.runs, s.live, amount, i);
      } else if MaximalRun(r, s.live, amount) {
        MaximalIsListed(s.runs, s.live, amount, r);
      }
    }
  }

  // Histories that end with the same live blocks end with the identical free list.
  lemma HistoryIndependence(ops1: seq<Op>, s1: State, ops2: seq<Op>, s2: State, baseSize: nat)
    requires HEADER_SIZE <= baseSize && Reaches(ops1, s1, baseSize) && Reaches(ops2, s2, baseSize)
    requires s1.live == s2.live
    ensures s1.runs == s2.runs
  {
    ReachesWhole(ops1, s1, baseSize);
    ReachesWhole(ops2, s2, baseSize);
    FreeListDetermined(s1.runs, s2.runs, s1.live, baseSize / HEADER_SIZE);
  }

  // memfree right after memalloc gives back the identical list.
  lemma FreeUndoesAlloc(s: State, nbytes: nat, baseSize: nat)
    requires Inv(s.runs, s.live, baseSize / HEADER_SIZE) && Alloc(s, nbytes).1.Some?
    ensures var (s', r) := Alloc(s, nbytes);
            Freeable(s', HEADER_SIZE * r.value, baseSize) && MemFree(s', HEADER_SIZE * r.value, baseSize) == s
  {
    hide Inv, Cut, MemFree, Freeable, FirstFit;
    GiveUndone(s, FirstFit(s.runs, UnitsFor(nbytes)), UnitsFor(nbytes), baseSize);
  }

  lemma GiveUndone(s: State, i: nat, n: nat, baseSize: nat)
    requires Inv(s.runs, s.live, baseSize / HEADER_SIZE) && i < |s.runs| && 2 <= n <= s.runs[i].size
    ensures var ap := HEADER_SIZE * (Tail(s.runs[i], n).start + 1);
            Freeable(Give(s, i, n), ap, baseSize) && MemFree(Give(s, i, n), ap, baseSize) == s
  {
    hide Inv, Insert, Cut, MemFree;
    var b := Tail(s.runs[i], n);
    CutInv(s, i, n, baseSize / HEADER_SIZE);
    InsertNew(Give(s, i, n).runs, s.runs, s.live, b, baseSize / HEADER_SIZE);
    MemFreeOf(Give(s, i, n), b, baseSize);
    assert s.live + {b} - {b} == s.live;
  }

  lemma InsertNew(runs': seq<Run>, runs: seq<Run>, live: set<Run>, b: Run, amount: nat)
    requires Inv(runs, live, amount) && b !in live && Inv(runs', live + {b}, amount)
    ensures Insert(runs', b) == runs
  {
    FreeInv(State(runs', live + {b}), b, amount);
    assert live + {b} - {b} == live;
    FreeListDetermined(Insert(runs', b), runs, live, amount);
  }

  // n units of 16 bytes are a header and room for so many bytes, and no fewer would do.
  ghost predicate LeastUnits(n: nat, nbytes: nat) {
    n >= 1 && 16 * (n - 1) >= nbytes && forall k: nat :: k + 1 < n ==> 16 * k < nbytes
  }

  lemma UnitsAreLeast(nbytes: nat, n: nat)
    ensures LeastUnits(n, nbytes) <==> n == UnitsFor(nbytes)
  {
    var u := UnitsFor(nbytes);
    assert 16 * (u - 1) >= nbytes > 16 * (u - 2);
  }

  // A request fails exactly when it is empty or nowhere do the units that it needs lie free
  // in a row.
  lemma AllocFailsIff(s: State, nbytes: nat, n: nat, amount: nat)
    requires Inv(s.runs, s.live, amount) && LeastUnits(n, nbytes)
    ensures Alloc(s, nbytes).1 == None <==>
            nbytes == 0 || !exists start: nat :: start + n <= amount && Clear(s.live, start, n)
  {
    UnitsAreLeast(nbytes, n);
    var i := FirstFit(s.runs, n);
    if i < |s.runs| {
      RunsAreMaximal(s.runs, s.live, amount, i);
      assert Clear(s.live, s.runs[i].start, n) by {
        assert forall u :: s.runs[i].start <= u < s.runs[i].start + n ==> s.runs[i].Has(u);
      }
    }
    forall start: nat | start + n <= amount && Clear(s.live, start, n)
      ensures i < |s.runs|
    {
      var r := Run(start, n);
      assert r.Has(start) && Free(s.runs, start);
      var j :| 0 <= j < |s.runs| && s.runs[j].Has(start);
      InsideOneRun(s.runs, s.live, amount, r, j, start + n - 1);
      assert n <= s.runs[j].size;
    }
  }

  ghost predicate Clear(live: set<Run>, start: nat, n: nat) {
    forall u :: start <= u < start + n ==> !Taken(live, u)
  }

  // First fit: the block is the end of the lowest run that is long enough.
  lemma AllocTakesFirstFit(s: State, nbytes: nat, n: nat, amount: nat)
    requires Inv(s.runs, s.live, amount) && Alloc(s, nbytes).1.Some? && LeastUnits(n, nbytes)
    ensures exists r :: MaximalRun(r, s.live, amount) && n <= r.size
              && Alloc(s, nbytes).1.value - 1 == r.End() - n
              && forall q :: MaximalRun(q, s.live, amount) && q.start < r.start ==> q.size < n
  {
    hide MaximalRun, Cut, Free, Taken, Apart;
    UnitsAreLeast(nbytes, n);
    hide LeastUnits;
    var i := FirstFit(s.runs, n);
    RunsAreMaximal(s.runs, s.live, amount, i);
    forall q | MaximalRun(q, s.live, amount) && q.start < s.runs[i].start
      ensures q.size < n
    {
      MaximalIsListed(s.runs, s.live, amount, q);
      var j :| 0 <= j < |s.runs| && s.runs[j] == q;
      assert forall k :: i < k < |s.runs| ==> s.runs[i].End() < s.runs[k].start;
    }
  }
}
