/** Whole histories of memalloc, memfree and stores by the programs that own the memory. */
module BuddyRuns {
  import opened Options
  import opened Lists
  import opened Powers
  import opened BuddyBlocks
  import opened BuddyHeap
  import opened Totals

  datatype State = State(heap: Heap, live: set<Block>, used: nat)

  function Size(b: Block): nat { Pow2(b.order) }

  // Live blocks are at least MIN_SIZE long and memUsed is their total size.
  ghost predicate Inv(s: State, top: nat) {
    && Sound(s.heap, s.live, top)
    && (forall b :: b in s.live ==> 5 <= b.order)
    && s.used == Total(s.live, Size)
  }

  ghost function Init(top: nat): (s: State)
    requires top < MAX_DIVISIONS
    ensures Inv(s, top) && s.live == {}
  {
    Pow2Monotone(0, top);
    var none := seq(MAX_DIVISIONS, _ => []);
    var empty := Heap(none, seq(Pow2(top), _ => 0));
    assert Listed(none) == {};
    ListedAdd(none, top, 0);
    InitialTiling(top);
    assert Listed(none) + {Block(0, top)} == {Block(0, top)};
    assert {Block(0, top)} + {} == {Block(0, top)};
    State(AddToList(empty, top, 0), {}, 0)
  }

  lemma InitFrom(empty: Heap, top: nat)
    requires top < MAX_DIVISIONS
    requires empty == Heap(seq(MAX_DIVISIONS, _ => []), seq(Pow2(top), _ => 0))
    ensures Init(top) == State(AddToList(empty, top, 0), {}, 0)
  {
  }

  lemma RequestOrderFits(nbytes: nat)
    ensures nbytes + 1 <= Pow2(RequestOrder(nbytes)) && 5 <= RequestOrder(nbytes)
    ensures RequestOrder(nbytes) > 5 ==> Pow2(RequestOrder(nbytes) - 1) < nbytes + 1
  {
    var d := RequestOrder(nbytes);
    assert Pow2(5) == 32;
    if d < 5 {
      Pow2Monotone(d, 4);
    } else if d > 5 {
      Pow2Monotone(5, d - 1);
    }
  }

  // memalloc; the address returned is relative to the arena.
  ghost function MemAlloc(s: State, nbytes: nat, top: nat): (r: (State, Option<nat>))
    requires Inv(s, top)
    ensures r.1 == None ==> r.0 == s
    ensures r.1.Some? ==>
              && r.1.value >= 1
              && var b := Block(r.1.value - 1, RequestOrder(nbytes));
              b !in s.live && r.0.live == s.live + {b}
    ensures Inv(r.0, top)
  {
    if nbytes > Pow2(top) || nbytes == 0 then (s, None)
    else
      var d := RequestOrder(nbytes);
      var (h, a) := Carve(s.heap, d, s.live, top);
      if a == None then (s, None)
      else
        HandOut(s, nbytes, h, Block(a.value, d), top);
        (State(h, s.live + {Block(a.value, d)}, s.used + Pow2(d)), Some(a.value + 1))
  }

  lemma HandOut(s: State, nbytes: nat, h: Heap, b: Block, top: nat)
    requires (forall l :: l in s.live ==> 5 <= l.order) && s.used == Total(s.live, Size)
    requires b.order == RequestOrder(nbytes) && b !in s.live && Sound(h, s.live + {b}, top)
    ensures Inv(State(h, s.live + {b}, s.used + Pow2(b.order)), top)
  {
    TotalPlus(s.live, b, Size);
    RequestOrderFits(nbytes);
  }

  // What memfree may be given: an address outside the arena (NULL is one), which it
  // ignores, or one that memalloc returned and that was not freed since.
  ghost predicate Freeable(s: State, ap: int, top: nat) {
    (0 <= ap < Pow2(top)) ==> exists b :: b in s.live && b.start + 1 == ap
  }

  ghost function MemFree(s: State, ap: int, top: nat): (r: State)
    requires Inv(s, top) && Freeable(s, ap, top)
    ensures Inv(r, top)
    ensures !(0 <= ap < Pow2(top)) ==> r == s
    ensures forall b :: b in s.live && b.start + 1 == ap ==> r.live == s.live - {b}
  {
    if !(0 <= ap < Pow2(top)) then
      FreeInside(s, top);
      s
    else
      var b :| b in s.live && b.start + 1 == ap;
      FreeBlock(s, b, top);
      var d := s.heap.bytes[ap - 1];
      State(Restore(s.heap, d, ap - 1, s.live - {b}, top), s.live - {b}, s.used - Pow2(d))
  }

  lemma FreeInside(s: State, top: nat)
    requires Inv(s, top)
    ensures forall b :: b in s.live ==> b.start + 1 < Pow2(top)
  {
    forall b | b in s.live
      ensures b.start + 1 < Pow2(top)
    {
      assert b in Listed(s.heap.occupied) + s.live;
      Pow2Monotone(1, b.order);
      assert Pow2(1) == 2;
    }
  }

  lemma FreeBlock(s: State, b: Block, top: nat)
    requires Inv(s, top) && b in s.live
    ensures b.start < |s.heap.bytes| && s.heap.bytes[b.start] == b.order <= top
    ensures s.live - {b} + {b} == s.live
    ensures s.used - Pow2(b.order) == Total(s.live - {b}, Size)
    ensures forall c :: c in s.live && c.start == b.start ==> c == b
  {
    assert b in Listed(s.heap.occupied) + s.live;
    TotalMinus(s.live, b, Size);
    forall c | c in s.live && c.start == b.start
      ensures c == b
    {
      assert c in Listed(s.heap.occupied) + s.live;
      assert s.heap.bytes[b.start] == c.order;
    }
  }

  lemma MemFreeOf(s: State, b: Block, top: nat)
    requires Inv(s, top) && b in s.live
    ensures 0 <= b.start + 1 < Pow2(top) && Freeable(s, b.start + 1, top)
    ensures b !in s.live - {b} && Shaped(s.heap, (s.live - {b}) + {b}, top)
    ensures Labelled(s.heap, Listed(s.heap.occupied) + (s.live - {b}))
    ensures MemFree(s, b.start + 1, top) ==
            State(Restore(s.heap, b.order, b.start, s.live - {b}, top), s.live - {b}, s.used - Pow2(b.order))
  {
    FreeInside(s, top);
    FreeBlock(s, b, top);
  }

  // Programs write only behind the first byte of blocks they own.
  ghost predicate Owned(s: State, addr: nat) {
    exists b :: b in s.live && b.start < addr < b.End()
  }

  ghost function Store(s: State, addr: nat, value: nat, top: nat): (r: State)
    requires Inv(s, top) && Owned(s, addr)
    ensures Inv(r, top) && r.live == s.live && r.heap.occupied == s.heap.occupied
  {
    var b :| b in s.live && b.start < addr < b.End();
    assert b in Listed(s.heap.occupied) + s.live;
    assert forall c :: c in Listed(s.heap.occupied) + s.live ==> c.start != addr by {
      forall c | c in Listed(s.heap.occupied) + s.live ensures c.start != addr {
        assert c == b || !Overlap(c, b);
      }
    }
    s.(heap := s.heap.(bytes := s.heap.bytes[addr := value]))
  }

  // A free block is no smaller than the smallest request, so the list node of 24 bytes that
  // the C code keeps at its beginning lies inside it, and no byte of the node belongs to a
  // live block.
  lemma FreeNodeInside(s: State, top: nat, f: Block)
    requires 5 <= top && Inv(s, top) && f in Listed(s.heap.occupied)
    ensures 5 <= f.order && f.start + 24 <= f.End() <= Pow2(top)
    ensures forall x, b :: f.start <= x < f.start + 24 && b in s.live ==> !b.Covers(x)
  {
    var free := Listed(s.heap.occupied);
    assert f in free + s.live;
    NoSmallerFree(free, s.live, top, 5, f);
    Pow2Monotone(5, f.order);
    assert Pow2(5) == 32;
    forall x, b | f.start <= x < f.start + 24 && b in s.live ensures !b.Covers(x) {
      assert b in free + s.live && !Overlap(f, b);
    }
  }

  datatype Op = Alloc(nbytes: nat) | Free(ap: int) | Write(addr: nat, value: nat)

  ghost predicate Allowed(s: State, op: Op, top: nat) {
    match op
    case Alloc(_) => true
    case Free(ap) => Freeable(s, ap, top)
    case Write(addr, _) => Owned(s, addr)
  }

  ghost function Apply(s: State, op: Op, top: nat): (r: State)
    requires Inv(s, top) && Allowed(s, op, top)
    ensures Inv(r, top)
  {
    match op
    case Alloc(n) => MemAlloc(s, n, top).0
    case Free(ap) => MemFree(s, ap, top)
    case Write(addr, value) => Store(s, addr, value, top)
  }

  // Each operation of a history is allowed in the state that the ones before it lead to.
  ghost predicate CanRun(s: State, ops: seq<Op>, top: nat)
    requires Inv(s, top)
    decreases |ops|
  {
    ops == [] || (Allowed(s, ops[0], top) && CanRun(Apply(s, ops[0], top), ops[1..], top))
  }

  ghost function Run(s: State, ops: seq<Op>, top: nat): (r: State)
    requires Inv(s, top) && CanRun(s, ops, top)
    ensures Inv(r, top)
    decreases |ops|
  {
    if ops == [] then s else Run(Apply(s, ops[0], top), ops[1..], top)
  }

  // History ops leads from the freshly initialised allocator to s.
  ghost predicate Reaches(ops: seq<Op>, s: State, top: nat)
    requires top < MAX_DIVISIONS
  {
    CanRun(Init(top), ops, top) && s == Run(Init(top), ops, top)
  }

  lemma ReachesInv(ops: seq<Op>, s: State, top: nat)
    requires top < MAX_DIVISIONS && Reaches(ops, s, top)
    ensures Inv(s, top)
  {
  }

  // After any history the free blocks are the maximal aligned ones that touch no live
  // block; they and the live ones fill the arena; and every live block keeps its label.
  lemma HistoryExact(ops: seq<Op>, s: State, top: nat)
    requires top < MAX_DIVISIONS && Reaches(ops, s, top)
    ensures forall b :: b in Listed(s.heap.occupied) <==> MaximalFree(b, s.live, top)
    ensures forall b :: b in s.live ==> b.start < |s.heap.bytes| && s.heap.bytes[b.start] == b.order
    ensures s.used + Total(Listed(s.heap.occupied), Size) == Pow2(top)
  {
    ReachesInv(ops, s, top);
    FreeIsMaximal(Listed(s.heap.occupied), s.live, top);
    TilesFill(Listed(s.heap.occupied), s.live, top);
  }

  // Histories that end with the same live blocks end with the same free blocks.
  lemma HistoryIndependence(ops1: seq<Op>, s1: State, ops2: seq<Op>, s2: State, top: nat)
    requires top < MAX_DIVISIONS && Reaches(ops1, s1, top) && Reaches(ops2, s2, top)
    requires s1.live == s2.live
    ensures Listed(s1.heap.occupied) == Listed(s2.heap.occupied) && s1.used == s2.used
  {
    ReachesInv(ops1, s1, top);
    ReachesInv(ops2, s2, top);
    FreeDeterminedByLive(Listed(s1.heap.occupied), Listed(s2.heap.occupied), s1.live, top);
  }

  // Freeing everything, in whatever order, brings back the very lists of the beginning.
  lemma FreeingAllRestoresInit(ops: seq<Op>, s: State, top: nat)
    requires top < MAX_DIVISIONS && Reaches(ops, s, top) && s.live == {}
    ensures s.heap.occupied == Init(top).heap.occupied && s.used == 0
  {
    var start := Init(top);
    assert Reaches([], start, top);
    HistoryIndependence(ops, s, [], start, top);
    ReachesInv(ops, s, top);
    InitListed(top);
    WholeArenaList(s.heap.occupied, top);
    WholeArenaList(start.heap.occupied, top);
  }

  lemma InitListed(top: nat)
    requires top < MAX_DIVISIONS
    ensures Listed(Init(top).heap.occupied) == {Block(0, top)}
  {
    var none := seq(MAX_DIVISIONS, _ => []);
    assert Listed(none) == {};
    ListedAdd(none, top, 0);
  }

  lemma WholeArenaList(occ: seq<seq<nat>>, top: nat)
    requires |occ| == MAX_DIVISIONS && top < MAX_DIVISIONS
    requires forall d :: 0 <= d < MAX_DIVISIONS ==> Distinct(occ[d])
    requires Listed(occ) == {Block(0, top)}
    ensures occ == seq(MAX_DIVISIONS, d => if d == top then [0] else [])
  {
    assert Block(0, top) in Listed(occ);
    forall d | 0 <= d < MAX_DIVISIONS
      ensures occ[d] == if d == top then [0] else []
    {
      FirstTwoListed(occ, d);
      if d == top {
        var i: nat :| i < |occ[top]| && occ[top][i] == 0;
      }
    }
  }

  lemma FirstTwoListed(occ: seq<seq<nat>>, d: nat)
    requires d < |occ|
    ensures 0 < |occ[d]| ==> Block(occ[d][0], d) in Listed(occ)
    ensures 1 < |occ[d]| ==> Block(occ[d][1], d) in Listed(occ)
  {
  }

  lemma ListedInOrder(h: Heap, f: Block, live: set<Block>, top: nat)
    requires Sound(h, live, top) && f in Listed(h.occupied)
    ensures f.order <= top && h.occupied[f.order] != []
  {
    assert f in Listed(h.occupied) + live;
  }

  // memalloc fails exactly when the request is empty or no aligned block of the size it
  // rounds up to avoids all live blocks.
  lemma AllocFailsIff(s: State, nbytes: nat, top: nat)
    requires Inv(s, top)
    ensures MemAlloc(s, nbytes, top).1 == None <==>
            nbytes == 0 || !exists b :: InArena(b, top) && b.order == RequestOrder(nbytes) && Untouched(b, s.live)
  {
    var d := RequestOrder(nbytes);
    RequestOrderFits(nbytes);
    var (s', r) := MemAlloc(s, nbytes, top);
    if r.Some? {
      var b := Block(r.value - 1, d);
      assert b in Listed(s'.heap.occupied) + s'.live;
      forall l | l in s.live ensures !Overlap(b, l) {
        assert l in Listed(s'.heap.occupied) + s'.live;
      }
    } else if nbytes != 0 {
      forall b | InArena(b, top) && b.order == d
        ensures !Untouched(b, s.live)
      {
        if Untouched(b, s.live) {
          var f := FreeRegion(b, Listed(s.heap.occupied), s.live, top);
          ListedInOrder(s.heap, f, s.live, top);
          assert false;
        }
      }
    }
  }

  // Which block is handed out: the last of the first nonempty list from the requested
  // order upwards, of which the allocation takes the top end.
  lemma {:induction false} CarveTakes(h: Heap, d: nat, live: set<Block>, top: nat, e: nat)
    requires Sound(h, live, top) && d <= e <= top
    requires h.occupied[e] != [] && forall k :: d <= k < e ==> h.occupied[k] == []
    ensures var (h', r) := Carve(h, d, live, top);
            var a := h.occupied[e][|h.occupied[e]| - 1];
            && r == Some(a + Pow2(e) - Pow2(d))
            && (forall k :: 0 <= k < MAX_DIVISIONS && (k < d || k > e) ==> h'.occupied[k] == h.occupied[k])
            && h'.occupied[e] == h.occupied[e][..|h.occupied[e]| - 1]
            && (forall k :: d <= k < e ==> h'.occupied[k] == [a + Pow2(e) - Pow2(k + 1)])
    decreases e - d
  {
    hide Tiling, Labelled, Distinct, Listed, Carve;
    if d == e {
      CarveHere(h, d, live, top);
    } else {
      CarveTakes(h, d + 1, live, top, e);
      CarveAbove(h, d, live, top);
    }
  }

  lemma CarveHere(h: Heap, d: nat, live: set<Block>, top: nat)
    requires Sound(h, live, top) && d <= top && h.occupied[d] != []
    ensures var (h', r) := Carve(h, d, live, top);
            var last := |h.occupied[d]| - 1;
            r == Some(h.occupied[d][last]) && h'.occupied == h.occupied[d := h.occupied[d][..last]]
  {
    hide Tiling, Labelled, Distinct, Listed;
    var last := |h.occupied[d]| - 1;
    assert RemoveAt(h.occupied[d], last) == h.occupied[d][..last];
  }

  lemma CarveAbove(h: Heap, d: nat, live: set<Block>, top: nat)
    requires Sound(h, live, top) && d < top && h.occupied[d] == [] && Carve(h, d + 1, live, top).1.Some?
    ensures |Carve(h, d + 1, live, top).0.occupied| == MAX_DIVISIONS
    ensures var (h1, r1) := Carve(h, d + 1, live, top);
            var (h', r) := Carve(h, d, live, top);
            r == Some(r1.value + Pow2(d)) && h'.occupied == h1.occupied[d := [r1.value] + h1.occupied[d]]
  {
    hide Tiling, Labelled, Distinct, Listed;
  }

  // memfree right after memalloc gives back the same free blocks.
  lemma FreeUndoesAlloc(s: State, nbytes: nat, top: nat)
    requires Inv(s, top) && MemAlloc(s, nbytes, top).1.Some?
    ensures var (s', r) := MemAlloc(s, nbytes, top);
            && Freeable(s', r.value, top)
            && var t := MemFree(s', r.value, top);
               t.live == s.live && t.used == s.used && Listed(t.heap.occupied) == Listed(s.heap.occupied)
  {
    var (s', r) := MemAlloc(s, nbytes, top);
    var b := Block(r.value - 1, RequestOrder(nbytes));
    assert b in s'.live && b.start + 1 == r.value;
    var t := MemFree(s', r.value, top);
    assert s.live + {b} - {b} == s.live;
    FreeDeterminedByLive(Listed(t.heap.occupied), Listed(s.heap.occupied), s.live, top);
  }

  // The bytes under a set of disjoint blocks are as many as their sizes add up to.
  ghost function Bytes(blocks: set<Block>, top: nat): set<int> {
    set x: int | 0 <= x < Pow2(top) && Covered(x, blocks)
  }

  ghost function Range(lo: int, hi: int): (r: set<int>)
    requires lo <= hi
    ensures |r| == hi - lo && forall x :: x in r <==> lo <= x < hi
    decreases hi - lo
  {
    if lo == hi then {} else Range(lo, hi - 1) + {hi - 1}
  }

  lemma BytesUnion(s: set<Block>, t: set<Block>, top: nat)
    requires Apart(s + t) && s !! t
    ensures Bytes(s + t, top) == Bytes(s, top) + Bytes(t, top) && Bytes(s, top) !! Bytes(t, top)
  {
    forall x | x in Bytes(s + t, top) ensures x in Bytes(s, top) + Bytes(t, top) {
      var b :| b in s + t && b.Covers(x);
      assert b in s || b in t;
    }
    forall x | x in Bytes(s, top) || x in Bytes(t, top) ensures x in Bytes(s + t, top) {
      var b :| (b in s || b in t) && b.Covers(x);
      assert b in s + t;
    }
    forall x | x in Bytes(s, top) ensures x !in Bytes(t, top) {
      var b :| b in s && b.Covers(x);
      forall c | c in t ensures !c.Covers(x) {
        assert b in s + t && c in s + t && !Overlap(b, c);
      }
    }
  }

  lemma {:induction false} BytesTotal(blocks: set<Block>, top: nat)
    requires Apart(blocks) && forall b :: b in blocks ==> InArena(b, top)
    ensures |Bytes(blocks, top)| == Total(blocks, Size)
  {
    if blocks == {} {
      assert Bytes(blocks, top) == {};
    } else {
      var b :| b in blocks;
      BytesTotal(blocks - {b}, top);
      TotalMinus(blocks, b, Size);
      assert blocks == (blocks - {b}) + {b};
      BytesUnion(blocks - {b}, {b}, top);
      BytesOfOne(b, top);
    }
  }

  lemma BytesOfOne(b: Block, top: nat)
    requires InArena(b, top)
    ensures |Bytes({b}, top)| == Pow2(b.order)
  {
    assert Bytes({b}, top) == Range(b.start, b.End());
  }

  lemma TilesFill(free: set<Block>, live: set<Block>, top: nat)
    requires Tiling(free, live, top)
    ensures Total(free, Size) + Total(live, Size) == Pow2(top)
  {
    BytesTotal(free, top);
    BytesTotal(live, top);
    BytesUnion(free, live, top);
    assert Bytes(free + live, top) == Range(0, Pow2(top));
  }
}
