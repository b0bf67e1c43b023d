/** The first-fit allocator as it runs: headers linked through the memory they manage.
    Headers are numbered by unit; pointers given to callers are byte offsets from the base. */
module KrAllocator {
  import opened Options
  import opened KrHeap
  import opened KrRuns

  const NULL := -1

  // The header of run i holds its size and the unit of the next run.
  ghost predicate Header(runs: seq<Run>, i: int, next: seq<int>, size: seq<nat>)
    requires 0 <= i < |runs|
  {
    && runs[i].start < |next| && runs[i].start < |size|
    && size[runs[i].start] == runs[i].size
    && next[runs[i].start] == if i + 1 < |runs| then runs[i + 1].start else NULL
  }

  ghost predicate Linked(s: State, freep: int, next: seq<int>, size: seq<nat>) {
    && freep == (if s.runs == [] then NULL else s.runs[0].start)
    && (forall i :: 0 <= i < |s.runs| ==> Header(s.runs, i, next, size))
    && (forall b :: b in s.live ==> b.start < |size| && size[b.start] == b.size)
  }

  // Free runs and live blocks all have headers of their own.
  ghost predicate OwnHeaders(s: State) {
    && (forall i, j :: 0 <= i < j < |s.runs| ==> s.runs[i].start < s.runs[j].start)
    && (forall i, b :: 0 <= i < |s.runs| && b in s.live ==> b.start != s.runs[i].start)
    && (forall b, c :: b in s.live && c in s.live && b != c ==> b.start != c.start)
  }

  lemma InvOwnHeaders(s: State, amount: nat)
    requires Inv(s.runs, s.live, amount)
    ensures OwnHeaders(s)
  {
    forall i, b | 0 <= i < |s.runs| && b in s.live
      ensures b.start != s.runs[i].start
    {
      LiveBeside(s, b, amount);
    }
  }

  lemma EmptyList(s: State, freep: int, next: seq<int>, size: seq<nat>)
    requires Linked(s, freep, next, size)
    ensures freep == NULL ==> s.runs == []
  {
  }

  lemma GiveReady(s: State, i: nat, n: nat, amount: nat)
    requires Inv(s.runs, s.live, amount) && i < |s.runs| && 2 <= n <= s.runs[i].size
    ensures OwnHeaders(s) && OwnHeaders(Give(s, i, n)) && Tail(s.runs[i], n) !in s.live
    ensures s.runs[i].End() <= amount && Inv(Give(s, i, n).runs, Give(s, i, n).live, amount)
  {
    InvOwnHeaders(s, amount);
    CutInv(s, i, n, amount);
    InvOwnHeaders(Give(s, i, n), amount);
  }

  // What memalloc writes when it takes the whole of run i.
  lemma TakenLinked(s: State, i: nat, n: nat, freep: int, next: seq<int>, size: seq<nat>)
    requires OwnHeaders(s) && Linked(s, freep, next, size)
    requires i < |s.runs| && n == s.runs[i].size
    ensures Header(s.runs, i, next, size) && (i > 0 ==> s.runs[i - 1].start < |next|)
    ensures var after := next[s.runs[i].start];
            Linked(Give(s, i, n), if i == 0 then after else freep,
                   if i > 0 then next[s.runs[i - 1].start := after] else next, size)
  {
    var runs, cut := s.runs, Cut(s.runs, i, n);
    assert Header(runs, i, next, size);
    assert i > 0 ==> Header(runs, i - 1, next, size);
    var next' := if i > 0 then next[runs[i - 1].start := next[runs[i].start]] else next;
    assert cut == runs[..i] + runs[i + 1..];
    forall k | 0 <= k < |cut|
      ensures Header(cut, k, next', size)
    {
      assert Header(runs, if k < i then k else k + 1, next, size);
      TakenHeader(runs, i, next, size, k);
    }
  }

  lemma TakenHeader(runs: seq<Run>, i: nat, next: seq<int>, size: seq<nat>, k: nat)
    requires i < |runs| && k < |runs| - 1 && Header(runs, i, next, size)
    requires Header(runs, if k < i then k else k + 1, next, size)
    requires i > 0 ==> runs[i - 1].start < |next|
    requires i > 0 && runs[i - 1].start == runs[if k < i then k else k + 1].start ==> k == i - 1
    ensures Header(runs[..i] + runs[i + 1..], k, if i > 0 then next[runs[i - 1].start := next[runs[i].start]]
              else next, size)
  {
    var cut := runs[..i] + runs[i + 1..];
    assert cut[k] == runs[if k < i then k else k + 1];
    assert k + 1 < |cut| ==> cut[k + 1] == runs[if k + 1 < i then k + 1 else k + 2];
  }

  // What memalloc writes when it splits run i.
  lemma SplitLinked(s: State, i: nat, n: nat, freep: int, next: seq<int>, size: seq<nat>)
    requires i < |s.runs| && n < s.runs[i].size && Tail(s.runs[i], n) !in s.live && Tail(s.runs[i], n).start < |size|
    requires OwnHeaders(s) && OwnHeaders(Give(s, i, n)) && Linked(s, freep, next, size)
    ensures Header(s.runs, i, next, size)
    ensures Linked(Give(s, i, n), freep, next,
                   size[s.runs[i].start := s.runs[i].size - n][Tail(s.runs[i], n).start := n])
  {
    var cut := Cut(s.runs, i, n);
    assert Header(s.runs, i, next, size);
    var size' := size[s.runs[i].start := s.runs[i].size - n][Tail(s.runs[i], n).start := n];
    assert Tail(s.runs[i], n) in Give(s, i, n).live;
    forall k | 0 <= k < |cut|
      ensures Header(cut, k, next, size')
    {
      SplitHeader(s.runs, i, n, next, size, k);
    }
    forall c | c in s.live ensures c in Give(s, i, n).live {
    }
  }

  lemma SplitHeader(runs: seq<Run>, i: nat, n: nat, next: seq<int>, size: seq<nat>, k: nat)
    requires i < |runs| && k < |runs| && n < runs[i].size && Tail(runs[i], n).start < |size|
    requires Header(runs, k, next, size) && runs[i].start < |size|
    requires k != i ==> runs[k].start != runs[i].start
    requires Cut(runs, i, n)[k].start != Tail(runs[i], n).start
    ensures Header(Cut(runs, i, n), k, next, size[runs[i].start := runs[i].size - n][Tail(runs[i], n).start := n])
  {
    var cut := Cut(runs, i, n);
    assert cut[k] == if k == i then Run(runs[i].start, runs[i].size - n) else runs[k];
    assert k + 1 < |runs| ==> cut[k + 1].start == runs[k + 1].start;
  }

  // The header of run i, which is followed by r when i + 1 == p.
  ghost predicate Kept(runs: seq<Run>, i: int, p: nat, r: Run, next: seq<int>, size: seq<nat>)
    requires 0 <= i < |runs|
  {
    && runs[i].start < |next| && runs[i].start < |size|
    && size[runs[i].start] == runs[i].size
    && next[runs[i].start] == if i + 1 == p then r.start else if i + 1 < |runs| then runs[i + 1].start else NULL
  }

  // Headers of a list in which run r replaced runs[p..q].
  lemma SplicedHeader(runs: seq<Run>, p: nat, q: nat, r: Run, next: seq<int>, size: seq<nat>, j: nat)
    requires p <= q <= |runs| && j < |runs[..p] + [r] + runs[q..]|
    requires r.start < |next| && r.start < |size| && size[r.start] == r.size
    requires next[r.start] == if q < |runs| then runs[q].start else NULL
    requires forall i :: 0 <= i < |runs| && (i < p || q <= i) ==> Kept(runs, i, p, r, next, size)
    ensures Header(runs[..p] + [r] + runs[q..], j, next, size)
  {
    var join := runs[..p] + [r] + runs[q..];
    if j < p {
      assert join[j] == runs[j] && Kept(runs, j, p, r, next, size);
      assert join[j + 1] == if j + 1 == p then r else runs[j + 1];
    } else if j == p {
      assert join[j] == r;
      assert j + 1 < |join| ==> join[j + 1] == runs[q];
    } else {
      var i := j - p - 1 + q;
      assert join[j] == runs[i] && Kept(runs, i, p, r, next, size);
      assert j + 1 < |join| ==> join[j + 1] == runs[i + 1];
    }
  }

  // What memfree writes when block b goes back between runs[k - 1] and runs[k].
  lemma JoinLinked(s: State, k: nat, b: Run, freep: int, next: seq<int>, size: seq<nat>)
    requires OwnHeaders(s) && Linked(s, freep, next, size)
    requires |next| == |size| && b in s.live && k <= |s.runs|
    requires forall i :: 0 <= i < |s.runs| ==> (i < k <==> s.runs[i].start < b.start)
    ensures Linked(State(Join(s.runs, k, b), s.live - {b}), if k == 0 then b.start else freep,
                   NextAfter(s.runs, k, b, next), SizeAfter(s.runs, k, b, size))
  {
    var runs, join := s.runs, Join(s.runs, k, b);
    var next', size' := NextAfter(runs, k, b, next), SizeAfter(runs, k, b, size);
    assert k < |runs| ==> Header(runs, k, next, size);
    assert k > 0 ==> Header(runs, k - 1, next, size);
    forall i | 0 <= i < |runs| && (i < First(runs, k, b) || Next(runs, k, b) <= i)
      ensures Kept(runs, i, First(runs, k, b), Joined(runs, k, b), next', size')
    {
      KeptHeader(s, k, b, next, size, i);
    }
    hide NextAfter, SizeAfter, Kept;
    OwnHeader(runs, k, b, next, size);
    forall j | 0 <= j < |join|
      ensures Header(join, j, next', size')
    {
      SplicedHeader(runs, First(runs, k, b), Next(runs, k, b), Joined(runs, k, b), next', size', j);
    }
    forall c | c in s.live - {b}
      ensures size'[c.start] == c.size
    {
      assert k > 0 ==> c.start != runs[k - 1].start;
    }
  }

  lemma KeptHeader(s: State, k: nat, b: Run, next: seq<int>, size: seq<nat>, i: nat)
    requires OwnHeaders(s) && |next| == |size| && b in s.live && k <= |s.runs| && i < |s.runs| && b.start < |size|
    requires forall j :: 0 <= j < |s.runs| ==> Header(s.runs, j, next, size)
    requires i < First(s.runs, k, b) || Next(s.runs, k, b) <= i
    ensures Kept(s.runs, i, First(s.runs, k, b), Joined(s.runs, k, b), NextAfter(s.runs, k, b, next),
              SizeAfter(s.runs, k, b, size))
  {
    assert Header(s.runs, i, next, size) && (k > 0 ==> Header(s.runs, k - 1, next, size));
    OtherHeader(s.runs, k, b, next, size, i);
  }

  lemma OwnHeader(runs: seq<Run>, k: nat, b: Run, next: seq<int>, size: seq<nat>)
    requires |next| == |size| && k <= |runs| && b.start < |size|
    requires k > 0 ==> runs[k - 1].start < b.start
    ensures SizeAfter(runs, k, b, size)[Joined(runs, k, b).start] == Joined(runs, k, b).size
    ensures NextAfter(runs, k, b, next)[Joined(runs, k, b).start] ==
            if Next(runs, k, b) < |runs| then runs[Next(runs, k, b)].start else NULL
  {
  }

  lemma OtherHeader(runs: seq<Run>, k: nat, b: Run, next: seq<int>, size: seq<nat>, i: nat)
    requires |next| == |size| && k <= |runs| && i < |runs| && runs[i].start < |size| && b.start < |size|
    requires b.start != runs[i].start && (k > 0 && runs[k - 1].start == runs[i].start ==> i == k - 1)
    requires i < First(runs, k, b) || Next(runs, k, b) <= i
    requires k > 0 ==> runs[k - 1].start < |size|
    ensures SizeAfter(runs, k, b, size)[runs[i].start] == size[runs[i].start]
    ensures NextAfter(runs, k, b, next)[runs[i].start] == if i == k - 1 then b.start else next[runs[i].start]
  {
  }

  ghost function NextAfter(runs: seq<Run>, k: nat, b: Run, next: seq<int>): seq<int>
    requires k <= |runs| && b.start < |next|
  {
    var after := if Next(runs, k, b) < |runs| then runs[Next(runs, k, b)].start else NULL;
    var own := next[b.start := after];
    if k == 0 || |next| <= runs[k - 1].start then own
    else own[runs[k - 1].start := if First(runs, k, b) < k then after else b.start]
  }

  ghost function SizeAfter(runs: seq<Run>, k: nat, b: Run, size: seq<nat>): seq<nat>
    requires k <= |runs| && b.start < |size|
  {
    var own := b.size + if k < Next(runs, k, b) then runs[k].size else 0;
    if k == First(runs, k, b) || |size| <= runs[k - 1].start then size[b.start := own]
    else size[b.start := own][runs[k - 1].start := runs[k - 1].size + own]
  }

  class Allocator {
    const baseSize: nat
    const next: array<int>
    const size: array<nat>
    var freep: int
    ghost var runs: seq<Run>
    ghost var live: set<Run>

    ghost function View(): State
      reads this
    {
      State(runs, live)
    }

    ghost predicate Valid()
      reads this, next, size
    {
      && next.Length == size.Length == baseSize / HEADER_SIZE
      && Inv(runs, live, baseSize / HEADER_SIZE)
      && Linked(View(), freep, next[..], size[..])
    }

    // memInitialize; the memory must have room for the first header.
    constructor (memSize: nat)
      requires HEADER_SIZE <= memSize
      ensures Valid() && baseSize == memSize && View() == Init(memSize / HEADER_SIZE)
      ensures fresh(next) && fresh(size)
    {
      var amount := memSize / HEADER_SIZE;
      baseSize := memSize;
      next := new int[amount](_ => NULL);
      size := new nat[amount](_ => 0);
      freep := 0;
      runs := [Run(0, amount)];
      live := {};
      new;
      next[freep] := NULL;
      size[freep] := amount;
      assert forall u :: 0 <= u < amount ==> runs[0].Has(u);
    }

    // memalloc
    method Memalloc(nbytes: nat) returns (ap: int)
      requires Valid()
      modifies this, next, size
      ensures Valid()
      ensures View() == Alloc(old(View()), nbytes).0
      ensures ap == if Alloc(old(View()), nbytes).1 == None then NULL
                else HEADER_SIZE * Alloc(old(View()), nbytes).1.value
    {
      hide Inv, Linked, Give, FirstFit;
      EmptyList(View(), freep, next[..], size[..]);
      ap := NULL;
      if freep != NULL && nbytes != 0 {
        var nunits := (nbytes + HEADER_SIZE - 1) / HEADER_SIZE + 1;
        ap := AllocUnits(nunits);
      }
    }

    // memalloc once the request is counted in units.
    method AllocUnits(nunits: nat) returns (ap: int)
      requires Valid() && 2 <= nunits
      modifies this, next, size
      ensures Valid()
      ensures var i := FirstFit(old(runs), nunits);
              if i == |old(runs)| then ap == NULL && View() == old(View())
              else ap == HEADER_SIZE * (Tail(old(runs)[i], nunits).start + 1) && View() == Give(old(View()), i, nunits)
    {
      hide Inv, Linked, OwnHeaders, Cut, FirstFit;
      var currp, prevp;
      ghost var i;
      currp, prevp, i := FindFit(nunits);
      if currp == NULL {
        return NULL;
      }
      GiveReady(View(), i, nunits, baseSize / HEADER_SIZE);
      var block := TakeFrom(currp, prevp, nunits, i);
      return HEADER_SIZE * (block + 1);
    }

    // The loop of memalloc: the first run, number i, with at least nunits units.
    method FindFit(nunits: nat) returns (currp: int, prevp: int, ghost i: nat)
      requires Linked(View(), freep, next[..], size[..])
      ensures i == FirstFit(runs, nunits)
      ensures (currp == NULL <==> i == |runs|) && (i < |runs| ==> currp == runs[i].start)
      ensures prevp == if i == 0 then freep else runs[i - 1].start
    {
      prevp := freep;
      currp := freep;
      i := 0;
      while currp != NULL
        invariant 0 <= i <= |runs| && currp == if i < |runs| then runs[i].start else NULL
        invariant prevp == if i == 0 then freep else runs[i - 1].start
        invariant forall k :: 0 <= k < i ==> runs[k].size < nunits
        decreases |runs| - i
      {
        assert Header(runs, i, next[..], size[..]);
        if size[currp] >= nunits {
          FitIsFirst(runs, nunits, i);
          return;
        }
        prevp := currp;
        currp := next[currp];
        i := i + 1;
      }
      NoFit(runs, nunits);
    }

    // The part of memalloc that takes nunits off the run at currp, which is run i.
    method TakeFrom(currp: nat, prevp: int, nunits: nat, ghost i: nat) returns (block: nat)
      requires Linked(View(), freep, next[..], size[..]) && OwnHeaders(View())
      requires i < |runs| && 2 <= nunits <= runs[i].size && runs[i].End() <= size.Length == next.Length
      requires currp == runs[i].start && prevp == if i == 0 then freep else runs[i - 1].start
      requires OwnHeaders(Give(View(), i, nunits)) && Tail(runs[i], nunits) !in live
      modifies this, next, size
      ensures Linked(View(), freep, next[..], size[..])
      ensures View() == Give(old(View()), i, nunits) && block == Tail(old(runs)[i], nunits).start
    {
      block := currp;
      assert Header(runs, i, next[..], size[..]);
      if size[block] == nunits {
        TakeWhole(block, prevp, nunits, i);
      } else {
        block := SplitOff(block, nunits, i);
      }
    }

    method SplitOff(currp: nat, nunits: nat, ghost i: nat) returns (block: nat)
      requires Linked(View(), freep, next[..], size[..]) && OwnHeaders(View())
      requires i < |runs| && nunits < runs[i].size && runs[i].End() <= size.Length && 1 <= nunits
      requires currp == runs[i].start && Tail(runs[i], nunits) !in live && OwnHeaders(Give(View(), i, nunits))
      modifies this, size
      ensures Linked(View(), freep, next[..], size[..])
      ensures View() == Give(old(View()), i, nunits) && block == Tail(old(runs)[i], nunits).start
    {
      SplitLinked(View(), i, nunits, freep, next[..], size[..]);
      ghost var after := Give(View(), i, nunits);
      size[currp] := size[currp] - nunits;
      block := currp + size[currp];
      size[block] := nunits;
      runs, live := after.runs, after.live;
    }

    method TakeWhole(block: nat, prevp: int, nunits: nat, ghost i: nat)
      requires Linked(View(), freep, next[..], size[..]) && OwnHeaders(View())
      requires i < |runs| && nunits == runs[i].size && block == runs[i].start < next.Length
      requires prevp == if i == 0 then freep else runs[i - 1].start
      modifies this, next
      ensures Linked(View(), freep, next[..], size[..]) && View() == Give(old(View()), i, nunits)
    {
      TakenLinked(View(), i, nunits, freep, next[..], size[..]);
      ghost var after := Give(View(), i, nunits);
      if block == freep {
        freep := next[block];
      } else {
        next[prevp] := next[block];
      }
      runs, live := after.runs, after.live;
    }

    // memfree
    method Memfree(ap: int)
      requires Valid() && Freeable(View(), ap, baseSize)
      modifies this, next, size
      ensures Valid() && View() == MemFree(old(View()), ap, baseSize)
    {
      if ap < 0 || ap >= baseSize {
        return;
      }
      ghost var b :| b in live && ap == HEADER_SIZE * (b.start + 1);
      ghost var s := View();
      MemFreeOf(s, b, baseSize);
      InvOwnHeaders(s, baseSize / HEADER_SIZE);
      var insertp := ap / HEADER_SIZE - 1;
      if freep == NULL || insertp < freep {
        InsertFirst(insertp, b);
      } else {
        InsertAfter(insertp, b);
      }
      FreeInv(s, b, baseSize / HEADER_SIZE);
    }

    // memfree when the block becomes the head of the list.
    method InsertFirst(insertp: nat, ghost b: Run)
      requires Linked(View(), freep, next[..], size[..]) && OwnHeaders(View())
      requires b in live && insertp == b.start && next.Length == size.Length
      requires freep == NULL || insertp < freep
      modifies this, next, size
      ensures Linked(View(), freep, next[..], size[..])
      ensures View() == State(Insert(old(runs), b), old(live) - {b})
    {
      JoinLinked(View(), 0, b, freep, next[..], size[..]);
      BelowIs(runs, b.start, 0);
      assert runs != [] ==> Header(runs, 0, next[..], size[..]);
      LinkFirst(insertp, b);
      freep := insertp;
      runs := Insert(runs, b);
      live := live - {b};
    }

    // Joins the block to the first run, where they touch.
    method LinkFirst(insertp: nat, ghost b: Run)
      requires next.Length == size.Length && insertp == b.start < size.Length && size[insertp] == b.size
      requires freep == if runs == [] then NULL else runs[0].start
      requires runs != [] ==> insertp < freep && Header(runs, 0, next[..], size[..])
      modifies next, size
      ensures next[..] == NextAfter(runs, 0, b, old(next[..])) && size[..] == SizeAfter(runs, 0, b, old(size[..]))
    {
      if freep == NULL {
        next[insertp] := freep;
      } else if insertp + size[insertp] == freep {
        size[insertp] := size[insertp] + size[freep];
        next[insertp] := next[freep];
      } else {
        next[insertp] := freep;
      }
    }

    // memfree when the block goes behind the run at currp.
    method InsertAfter(insertp: nat, ghost b: Run)
      requires Linked(View(), freep, next[..], size[..]) && OwnHeaders(View())
      requires b in live && insertp == b.start && next.Length == size.Length
      requires freep != NULL && freep <= insertp
      modifies this, next, size
      ensures Linked(View(), freep, next[..], size[..])
      ensures View() == State(Insert(old(runs), b), old(live) - {b})
    {
      hide NextAfter, SizeAfter, Join, Below;
      var currp, i := FindBefore(insertp, b);
      ghost var k := i + 1;
      JoinLinked(View(), k, b, freep, next[..], size[..]);
      BelowIs(runs, b.start, k);
      assert Header(runs, i, next[..], size[..]);
      assert k < |runs| ==> Header(runs, k, next[..], size[..]);
      LinkBehind(currp, insertp, b, k);
      runs := Insert(runs, b);
      live := live - {b};
    }

    // Joins the block to the run behind it and to the run before it, where they touch.
    method LinkBehind(currp: nat, insertp: nat, ghost b: Run, ghost k: nat)
      requires next.Length == size.Length && 0 < k <= |runs|
      requires currp == runs[k - 1].start < insertp == b.start < size.Length && size[insertp] == b.size
      requires Header(runs, k - 1, next[..], size[..])
      requires k < |runs| ==> insertp < runs[k].start && Header(runs, k, next[..], size[..])
      modifies next, size
      ensures next[..] == NextAfter(runs, k, b, old(next[..])) && size[..] == SizeAfter(runs, k, b, old(size[..]))
    {
      if insertp + size[insertp] == next[currp] {
        size[insertp] := size[insertp] + size[next[currp]];
        next[insertp] := next[next[currp]];
      } else {
        next[insertp] := next[currp];
      }
      if currp + size[currp] == insertp {
        size[currp] := size[currp] + size[insertp];
        next[currp] := next[insertp];
      } else {
        next[currp] := insertp;
      }
    }

    // The walk of memfree: the last run before the block.
    method FindBefore(insertp: nat, ghost b: Run) returns (currp: nat, ghost i: nat)
      requires Linked(View(), freep, next[..], size[..]) && OwnHeaders(View())
      requires b in live && insertp == b.start && freep != NULL && freep <= insertp
      ensures i < |runs| && currp == runs[i].start
      ensures forall j :: 0 <= j < |runs| ==> (j <= i <==> runs[j].start < b.start)
    {
      currp := freep;
      i := 0;
      assert Header(runs, 0, next[..], size[..]);
      while next[currp] < insertp && next[currp] != NULL
        invariant 0 <= i < |runs| && currp == runs[i].start < insertp
        invariant Header(runs, i, next[..], size[..])
        decreases |runs| - i
      {
        currp := next[currp];
        i := i + 1;
        assert Header(runs, i, next[..], size[..]);
      }
    }
  }

  lemma {:induction false} BelowIs(runs: seq<Run>, x: nat, k: nat)
    requires k <= |runs| && forall j :: 0 <= j < |runs| ==> (j < k <==> runs[j].start < x)
    ensures Below(runs, x) == k
  {
    if k > 0 {
      BelowIs(runs[1..], x, k - 1);
    }
  }

  lemma FitIsFirst(runs: seq<Run>, n: nat, i: nat)
    requires i < |runs| && n <= runs[i].size && forall k :: 0 <= k < i ==> runs[k].size < n
    ensures FirstFit(runs, n) == i
  {
  }

  lemma NoFit(runs: seq<Run>, n: nat)
    requires forall k :: 0 <= k < |runs| ==> runs[k].size < n
    ensures FirstFit(runs, n) == |runs|
  {
  }
}
