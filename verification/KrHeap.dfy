/** The first-fit allocator: an address-ordered list of free runs of 16-byte units.
    The list before and after each call as values, and what every history preserves. */
module KrHeap {
  import opened Options

  const HEADER_SIZE := 16

  // size units from unit start; free runs and live blocks alike, header included.
  datatype Run = Run(start: nat, size: nat) {
    function End(): nat { start + size }

    predicate Has(u: int) { start <= u < End() }
  }

  ghost predicate Free(runs: seq<Run>, u: int) {
    exists i :: 0 <= i < |runs| && runs[i].Has(u)
  }

  ghost predicate Taken(live: set<Run>, u: int) {
    exists b :: b in live && b.Has(u)
  }

  // Address order, with at least one unit between neighbours.
  ghost predicate Ordered(runs: seq<Run>, amount: nat) {
    && (forall i :: 0 <= i < |runs| ==> 1 <= runs[i].size && runs[i].End() <= amount)
    && (forall i, j :: 0 <= i < j < |runs| ==> runs[i].End() < runs[j].start)
  }

  ghost predicate Apart(live: set<Run>, amount: nat) {
    && (forall b :: b in live ==> 2 <= b.size && b.End() <= amount)
    && (forall b, c :: b in live && c in live && b != c ==> b.End() <= c.start || c.End() <= b.start)
  }

  // The free list holds exactly the units outside the live blocks.
  ghost predicate Inv(runs: seq<Run>, live: set<Run>, amount: nat) {
    && Ordered(runs, amount) && Apart(live, amount)
    && forall u :: 0 <= u < amount ==> (Free(runs, u) <==> !Taken(live, u))
  }

  // A run that cannot be extended in either direction without meeting a live block.
  ghost predicate MaximalRun(r: Run, live: set<Run>, amount: nat) {
    && 1 <= r.size && r.End() <= amount
    && (forall u :: r.Has(u) ==> !Taken(live, u))
    && (r.start == 0 || Taken(live, r.start - 1))
    && (r.End() == amount || Taken(live, r.End()))
  }

  // The units on both sides of a free run are not free.
  lemma NotFreeAround(runs: seq<Run>, amount: nat, i: nat)
    requires Ordered(runs, amount) && i < |runs|
    ensures !Free(runs, runs[i].start - 1) && !Free(runs, runs[i].End())
  {
    forall j | 0 <= j < |runs|
      ensures !runs[j].Has(runs[i].start - 1) && !runs[j].Has(runs[i].End())
    {
      assert j < i || j == i || i < j;
    }
  }

  lemma RunsAreMaximal(runs: seq<Run>, live: set<Run>, amount: nat, i: nat)
    requires Inv(runs, live, amount) && i < |runs|
    ensures MaximalRun(runs[i], live, amount)
  {
    var r := runs[i];
    forall u | r.Has(u) ensures !Taken(live, u) {
      assert Free(runs, u);
    }
    NotFreeAround(runs, amount, i);
  }

  // Consecutive units outside the live blocks are all in the run of the first of them.
  lemma {:induction false} InsideOneRun(runs: seq<Run>, live: set<Run>, amount: nat, r: Run, i: nat, u: int)
    requires Inv(runs, live, amount) && i < |runs|
    requires r.End() <= amount && forall v :: r.Has(v) ==> !Taken(live, v)
    requires runs[i].Has(r.start) && r.start <= u < r.End()
    ensures runs[i].Has(u)
    decreases u - r.start
  {
    if r.start < u {
      InsideOneRun(runs, live, amount, r, i, u - 1);
      assert r.Has(u) && Free(runs, u);
      NotFreeAround(runs, amount, i);
    }
  }

  lemma MaximalIsListed(runs: seq<Run>, live: set<Run>, amount: nat, r: Run)
    requires Inv(runs, live, amount) && MaximalRun(r, live, amount)
    ensures r in runs
  {
    assert r.Has(r.start) && Free(runs, r.start);
    var i :| 0 <= i < |runs| && runs[i].Has(r.start);
    InsideOneRun(runs, live, amount, r, i, r.End() - 1);
    RunsAreMaximal(runs, live, amount, i);
    assert r.start == runs[i].start by {
      assert r.start > 0 ==> !runs[i].Has(r.start - 1);
    }
    assert r.End() == runs[i].End() by {
      assert r.End() < amount ==> !runs[i].Has(r.End());
    }
    assert r == runs[i];
  }

  // Two ordered lists with the same runs are the same list.
  lemma {:induction false} OrderedUnique(runs1: seq<Run>, runs2: seq<Run>, amount: nat)
    requires Ordered(runs1, amount) && Ordered(runs2, amount)
    requires forall r :: r in runs1 <==> r in runs2
    ensures runs1 == runs2
  {
    assert runs1 != [] ==> runs1[0] in runs1;
    assert runs2 != [] ==> runs2[0] in runs2;
    if runs1 != [] {
      var i :| 0 <= i < |runs1| && runs1[i] == runs2[0];
      var j :| 0 <= j < |runs2| && runs2[j] == runs1[0];
      assert i == 0;
      forall r ensures r in runs1[1..] <==> r in runs2[1..] {
        assert r in runs1[1..] ==> r in runs1 && r != runs1[0];
        assert r in runs2[1..] ==> r in runs2 && r != runs2[0];
      }
      OrderedUnique(runs1[1..], runs2[1..], amount);
    }
  }

  // Equal live blocks mean the identical free list.
  lemma FreeListDetermined(runs1: seq<Run>, runs2: seq<Run>, live: set<Run>, amount: nat)
    requires Inv(runs1, live, amount) && Inv(runs2, live, amount)
    ensures runs1 == runs2
  {
    forall r ensures r in runs1 <==> r in runs2 {
      if r in runs1 {
        var i :| 0 <= i < |runs1| && runs1[i] == r;
        RunsAreMaximal(runs1, live, amount, i);
        MaximalIsListed(runs2, live, amount, r);
      } else if r in runs2 {
        var i :| 0 <= i < |runs2| && runs2[i] == r;
        RunsAreMaximal(runs2, live, amount, i);
        MaximalIsListed(runs1, live, amount, r);
      }
    }
    OrderedUnique(runs1, runs2, amount);
  }

  datatype State = State(runs: seq<Run>, live: set<Run>)

  // memInitialize: everything is one free run.
  function Init(amount: nat): State {
    State([Run(0, amount)], {})
  }

  // Units for the request, rounded up, and one for the header.
  function UnitsFor(nbytes: nat): nat {
    (nbytes + HEADER_SIZE - 1) / HEADER_SIZE + 1
  }

  function FirstFit(runs: seq<Run>, n: nat): (i: nat)
    ensures i <= |runs| && (i < |runs| ==> n <= runs[i].size)
    ensures forall k :: 0 <= k < i ==> runs[k].size < n
  {
    if runs == [] || n <= runs[0].size then 0 else 1 + FirstFit(runs[1..], n)
  }

  // The list after n units are cut from the end of run i.
  function Cut(runs: seq<Run>, i: nat, n: nat): seq<Run>
    requires i < |runs| && n <= runs[i].size
  {
    runs[..i] + Rest(runs[i], n) + runs[i + 1..]
  }

  // What is left of a run: nothing, or the run with its size reduced.
  function Rest(r: Run, n: nat): seq<Run>
    requires n <= r.size
  {
    if r.size == n then [] else [Run(r.start, r.size - n)]
  }

  // memalloc; what it returns counts units, just behind the header.
  function Alloc(s: State, nbytes: nat): (State, Option<nat>) {
    var n := UnitsFor(nbytes);
    var i := FirstFit(s.runs, n);
    if nbytes == 0 || i == |s.runs| then (s, None) else (Give(s, i, n), Some(Tail(s.runs[i], n).start + 1))
  }

  // The last n units of a run.
  function Tail(r: Run, n: nat): (b: Run)
    requires n <= r.size
    ensures b.End() == r.End() && r.start <= b.start
  {
    Run(r.End() - n, n)
  }

  // The state once the last n units of run i are live.
  function Give(s: State, i: nat, n: nat): State
    requires i < |s.runs| && n <= s.runs[i].size
  {
    State(Cut(s.runs, i, n), s.live + {Tail(s.runs[i], n)})
  }

  // How many runs lie before unit x.
  function Below(runs: seq<Run>, x: nat): (k: nat)
    ensures k <= |runs| && (k < |runs| ==> x <= runs[k].start)
    ensures forall i :: 0 <= i < k ==> runs[i].start < x
  {
    if runs == [] || x <= runs[0].start then 0 else 1 + Below(runs[1..], x)
  }

  // The list after block b comes back, joined with the runs it touches.
  function Insert(runs: seq<Run>, b: Run): seq<Run> {
    Join(runs, Below(runs, b.start), b)
  }

  // b goes between runs[k - 1] and runs[k].
  function Join(runs: seq<Run>, k: nat, b: Run): seq<Run>
    requires k <= |runs|
  {
    runs[..First(runs, k, b)] + [Joined(runs, k, b)] + runs[Next(runs, k, b)..]
  }

  function First(runs: seq<Run>, k: nat, b: Run): (p: nat)
    requires k <= |runs|
    ensures p <= k <= p + 1
  {
    if k > 0 && runs[k - 1].End() == b.start then k - 1 else k
  }

  function Next(runs: seq<Run>, k: nat, b: Run): (q: nat)
    requires k <= |runs|
    ensures k <= q <= k + 1 && q <= |runs|
  {
    if k < |runs| && b.End() == runs[k].start then k + 1 else k
  }

  function Joined(runs: seq<Run>, k: nat, b: Run): (r: Run)
    requires k <= |runs|
    ensures r.size == b.size + (if First(runs, k, b) < k then runs[k - 1].size else 0) +
                      (if k < Next(runs, k, b) then runs[k].size else 0)
    ensures r.start == if First(runs, k, b) < k then runs[k - 1].start else b.start
    ensures r.End() == if k < Next(runs, k, b) then runs[k].End() else b.End()
  {
    var left := if First(runs, k, b) < k then runs[k - 1].size else 0;
    var right := if k < Next(runs, k, b) then runs[k].size else 0;
    Run(b.start - left, left + b.size + right)
  }

  lemma FreeConcat(a: seq<Run>, b: seq<Run>, u: int)
    ensures Free(a + b, u) <==> Free(a, u) || Free(b, u)
  {
    if Free(a, u) {
      var i :| 0 <= i < |a| && a[i].Has(u);
      assert (a + b)[i].Has(u);
    } else if Free(b, u) {
      var i :| 0 <= i < |b| && b[i].Has(u);
      assert (a + b)[|a| + i].Has(u);
    }
  }

  // Replacing runs[p..q] by mid, when mid covers the units that u is asked about.
  lemma FreeSplice(runs: seq<Run>, p: nat, q: nat, mid: seq<Run>, u: int)
    requires p <= q <= |runs|
    ensures Free(runs[..p] + mid + runs[q..], u) <==> Free(runs[..p], u) || Free(mid, u) || Free(runs[q..], u)
    ensures Free(runs, u) <==> Free(runs[..p], u) || Free(runs[p..q], u) || Free(runs[q..], u)
  {
    FreeConcat(runs[..p] + mid, runs[q..], u);
    FreeConcat(runs[..p], mid, u);
    FreeConcat(runs[..p] + runs[p..q], runs[q..], u);
    FreeConcat(runs[..p], runs[p..q], u);
    assert runs[..p] + runs[p..q] + runs[q..] == runs;
  }

  lemma OrderedConcat(a: seq<Run>, b: seq<Run>, amount: nat)
    requires Ordered(a, amount) && Ordered(b, amount)
    requires a != [] && b != [] ==> a[|a| - 1].End() < b[0].start
    ensures Ordered(a + b, amount)
  {
    var c := a + b;
    forall i, j | 0 <= i < j < |c|
      ensures c[i].End() < c[j].start
    {
      if i < |a| <= j {
        assert c[i] == a[i] && c[j] == b[j - |a|];
        assert i < |a| - 1 ==> a[i].End() < a[|a| - 1].start;
        assert 0 < j - |a| ==> b[0].End() < b[j - |a|].start;
      }
    }
  }

  lemma OrderedSplice(runs: seq<Run>, p: nat, q: nat, mid: seq<Run>, amount: nat)
    requires Ordered(runs, amount) && p <= q <= |runs|
    requires |mid| <= 1 && (mid == [] ==> p < q)
    requires forall r :: r in mid ==> 1 <= r.size && r.End() <= amount
    requires forall r :: r in mid && p > 0 ==> runs[p - 1].End() < r.start
    requires forall r :: r in mid && q < |runs| ==> r.End() < runs[q].start
    ensures Ordered(runs[..p] + mid + runs[q..], amount)
  {
    OrderedConcat(runs[..p], mid, amount);
    OrderedConcat(runs[..p] + mid, runs[q..], amount);
  }

  lemma CutOrdered(runs: seq<Run>, amount: nat, i: nat, n: nat)
    requires Ordered(runs, amount) && i < |runs| && 1 <= n <= runs[i].size
    ensures Ordered(Cut(runs, i, n), amount)
  {
    OrderedSplice(runs, i, i + 1, Rest(runs[i], n), amount);
  }

  lemma CutUnits(runs: seq<Run>, amount: nat, i: nat, n: nat, u: int)
    requires Ordered(runs, amount) && i < |runs| && 1 <= n <= runs[i].size
    ensures Free(Cut(runs, i, n), u) <==> Free(runs, u) && !Tail(runs[i], n).Has(u)
  {
    FreeSplice(runs, i, i + 1, Rest(runs[i], n), u);
    CutOne(runs, i, Rest(runs[i], n), Tail(runs[i], n), u);
  }

  lemma CutOne(runs: seq<Run>, i: nat, mid: seq<Run>, b: Run, u: int)
    requires i < |runs| && (forall j :: 0 <= j < i ==> runs[j].End() < runs[i].start)
    requires forall j :: i < j < |runs| ==> runs[i].End() < runs[j].start
    requires runs[i].start <= b.start && b.End() == runs[i].End()
    requires mid == if b.start == runs[i].start then [] else [Run(runs[i].start, b.start - runs[i].start)]
    ensures Free(mid, u) <==> Free(runs[i..i + 1], u) && !b.Has(u)
    ensures b.Has(u) ==> !Free(runs[..i], u) && !Free(runs[i + 1..], u)
  {
    assert Free(runs[i..i + 1], u) <==> runs[i].Has(u) by {
      assert runs[i..i + 1][0] == runs[i];
    }
    if mid != [] {
      assert Free(mid, u) <==> mid[0].Has(u);
    }
  }

  // A block of the right size that was not live before is the only new one.
  ghost predicate HandedOut(s: State, s': State, pointer: nat, nbytes: nat) {
    && 1 <= pointer
    && var b := Run(pointer - 1, UnitsFor(nbytes));
       b !in s.live && s'.live == s.live + {b} && nbytes <= HEADER_SIZE * (b.size - 1)
  }

  lemma CutInv(s: State, i: nat, n: nat, amount: nat)
    requires Inv(s.runs, s.live, amount) && i < |s.runs| && 2 <= n <= s.runs[i].size
    ensures Tail(s.runs[i], n) !in s.live && Inv(Give(s, i, n).runs, Give(s, i, n).live, amount)
  {
    var b := Tail(s.runs[i], n);
    CutOrdered(s.runs, amount, i, n);
    RunsAreMaximal(s.runs, s.live, amount, i);
    forall c | c in s.live
      ensures b.End() <= c.start || c.End() <= b.start
    {
      assert c.Has(c.start) && b.Has(b.start) && s.runs[i].Has(b.start);
      assert !s.runs[i].Has(c.start) && !c.Has(b.start);
    }
    forall u | 0 <= u < amount
      ensures Free(Cut(s.runs, i, n), u) <==> !Taken(s.live + {b}, u)
    {
      CutUnits(s.runs, amount, i, n, u);
      if Taken(s.live, u) {
        var c :| c in s.live && c.Has(u);
        assert c in s.live + {b};
      }
      if b.Has(u) {
        assert b in s.live + {b};
      }
    }
  }

  lemma AllocInv(s: State, nbytes: nat, amount: nat)
    requires Inv(s.runs, s.live, amount)
    ensures Inv(Alloc(s, nbytes).0.runs, Alloc(s, nbytes).0.live, amount)
    ensures Alloc(s, nbytes).1 == None ==> Alloc(s, nbytes).0 == s
    ensures Alloc(s, nbytes).1.Some? ==> HandedOut(s, Alloc(s, nbytes).0, Alloc(s, nbytes).1.value, nbytes)
  {
    hide Inv, Cut, FirstFit;
    var i := FirstFit(s.runs, UnitsFor(nbytes));
    if nbytes != 0 && i < |s.runs| {
      CutInv(s, i, UnitsFor(nbytes), amount);
    }
  }

  // Block b fits between runs[k - 1] and runs[k].
  ghost predicate Fits(runs: seq<Run>, k: nat, b: Run) {
    && k <= |runs|
    && (k > 0 ==> runs[k - 1].End() <= b.start)
    && (k < |runs| ==> b.End() <= runs[k].start)
  }

  lemma JoinOrdered(runs: seq<Run>, k: nat, b: Run, amount: nat)
    requires Ordered(runs, amount) && 1 <= b.size && b.End() <= amount && Fits(runs, k, b)
    ensures Ordered(Join(runs, k, b), amount)
  {
    OrderedSplice(runs, First(runs, k, b), Next(runs, k, b), [Joined(runs, k, b)], amount);
  }

  lemma JoinUnits(runs: seq<Run>, k: nat, b: Run, u: int)
    requires Fits(runs, k, b)
    ensures Free(Join(runs, k, b), u) <==> Free(runs, u) || b.Has(u)
  {
    var p, q, r := First(runs, k, b), Next(runs, k, b), Joined(runs, k, b);
    FreeSplice(runs, p, q, [r], u);
    UpToTwo([r], u);
    UpToTwo(runs[p..q], u);
    assert r.Has(u) <==> b.Has(u) || (p < k && runs[k - 1].Has(u)) || (k < q && runs[k].Has(u));
  }

  lemma UpToTwo(runs: seq<Run>, u: int)
    requires |runs| <= 2
    ensures Free(runs, u) <==> runs != [] && (runs[0].Has(u) || runs[|runs| - 1].Has(u))
  {
  }

  lemma BelowFits(runs: seq<Run>, b: Run)
    requires forall i :: 0 <= i < |runs| ==> b.End() <= runs[i].start || runs[i].End() <= b.start
    requires 1 <= b.size && forall i :: 0 <= i < |runs| ==> 1 <= runs[i].size
    ensures Fits(runs, Below(runs, b.start), b)
  {
  }

  lemma LiveBeside(s: State, b: Run, amount: nat)
    requires Inv(s.runs, s.live, amount) && b in s.live
    ensures forall i :: 0 <= i < |s.runs| ==> b.End() <= s.runs[i].start || s.runs[i].End() <= b.start
  {
    forall i | 0 <= i < |s.runs|
      ensures b.End() <= s.runs[i].start || s.runs[i].End() <= b.start
    {
      RunsAreMaximal(s.runs, s.live, amount, i);
      assert s.runs[i].Has(b.start) ==> b.Has(b.start);
      assert b.Has(s.runs[i].start) ==> s.runs[i].Has(s.runs[i].start);
    }
  }

  lemma FreeInv(s: State, b: Run, amount: nat)
    requires Inv(s.runs, s.live, amount) && b in s.live
    ensures Inv(Insert(s.runs, b), s.live - {b}, amount)
  {
    LiveBeside(s, b, amount);
    BelowFits(s.runs, b);
    JoinOrdered(s.runs, Below(s.runs, b.start), b, amount);
    forall u | 0 <= u < amount
      ensures Free(Insert(s.runs, b), u) <==> !Taken(s.live - {b}, u)
    {
      JoinUnits(s.runs, Below(s.runs, b.start), b, u);
      if Taken(s.live - {b}, u) {
        var c :| c in s.live - {b} && c.Has(u);
        assert c in s.live && !b.Has(u) && Taken(s.live, u);
      } else if Taken(s.live, u) {
        assert b.Has(u);
      }
    }
  }
}
