/** What the routines of the buddy allocator do to its per-order lists and to the first
    byte of each block, as functions; and what every run of them preserves. */
module BuddyHeap {
  import opened Options
  import opened Lists
  import opened Powers
  import opened BuddyBlocks

  const MAX_DIVISIONS := 27
  const MIN_SIZE := 32

  // occupied[d] lists the offsets of the free blocks of order d, head first;
  // bytes is the arena itself.
  datatype Heap = Heap(occupied: seq<seq<nat>>, bytes: seq<nat>)

  ghost function Listed(occupied: seq<seq<nat>>): set<Block> {
    set d: nat, i: nat | d < |occupied| && i < |occupied[d]| :: Block(occupied[d][i], d)
  }

  // The first byte of every block holds its order.
  ghost predicate Labelled(h: Heap, blocks: set<Block>) {
    forall b :: b in blocks ==> b.start < |h.bytes| && h.bytes[b.start] == b.order
  }

  ghost predicate Shaped(h: Heap, live: set<Block>, top: nat) {
    && |h.occupied| == MAX_DIVISIONS && top < MAX_DIVISIONS && |h.bytes| == Pow2(top)
    && (forall d :: 0 <= d < MAX_DIVISIONS ==> Distinct(h.occupied[d]))
    && Tiling(Listed(h.occupied), live, top)
  }

  ghost predicate Sound(h: Heap, live: set<Block>, top: nat) {
    Shaped(h, live, top) && Labelled(h, Listed(h.occupied) + live)
  }

  function RemoveAt<T>(s: seq<T>, i: nat): (r: seq<T>)
    requires i < |s|
    ensures |r| == |s| - 1
  {
    s[..i] + s[i + 1..]
  }

  lemma ListedAdd(occ: seq<seq<nat>>, d: nat, a: nat)
    requires d < |occ|
    ensures Listed(occ[d := [a] + occ[d]]) == Listed(occ) + {Block(a, d)}
  {
    var after := occ[d := [a] + occ[d]];
    assert after[d][0] == a;
    forall e: nat, i: nat | e < |occ| && i < |occ[e]|
      ensures Block(occ[e][i], e) in Listed(after)
    {
      assert occ[e][i] == after[e][if e == d then i + 1 else i];
    }
    forall e: nat, i: nat | e < |after| && i < |after[e]|
      ensures Block(after[e][i], e) in Listed(occ) + {Block(a, d)}
    {
      if e == d && i > 0 {
        assert after[e][i] == occ[e][i - 1];
      }
    }
  }

  lemma ListedRemove(occ: seq<seq<nat>>, d: nat, i: nat)
    requires d < |occ| && i < |occ[d]| && Distinct(occ[d])
    ensures Distinct(RemoveAt(occ[d], i))
    ensures Block(occ[d][i], d) in Listed(occ)
    ensures Listed(occ[d := RemoveAt(occ[d], i)]) == Listed(occ) - {Block(occ[d][i], d)}
  {
    var after := occ[d := RemoveAt(occ[d], i)];
    forall e: nat, k: nat | e < |occ| && k < |occ[e]| && !(e == d && k == i)
      ensures Block(occ[e][k], e) in Listed(after)
    {
      assert occ[e][k] == after[e][if e == d && k > i then k - 1 else k];
    }
    forall e: nat, k: nat | e < |after| && k < |after[e]|
      ensures Block(after[e][k], e) in Listed(occ) - {Block(occ[d][i], d)}
    {
      assert after[e][k] == occ[e][if e == d && k >= i then k + 1 else k];
    }
  }

  function AddToList(h: Heap, d: nat, a: nat): Heap
    requires d < |h.occupied| && a < |h.bytes|
  {
    Heap(h.occupied[d := [a] + h.occupied[d]], h.bytes[a := d])
  }

  // Two blocks of a tiling never share their first byte.
  lemma LabelOne(h: Heap, b: Block, others: set<Block>, top: nat)
    requires b !in others && Apart(others + {b}) && InArena(b, top) && |h.bytes| == Pow2(top)
    requires Labelled(h, others)
    ensures Labelled(Heap(h.occupied, h.bytes[b.start := b.order]), others + {b})
  {
    forall o | o in others
      ensures o.start != b.start
    {
      assert !Overlap(o, b);
    }
  }

  // The smallest v with n <= 2^v.
  function CeilLog2(n: nat): (v: nat)
    ensures n <= Pow2(v)
    ensures v > 0 ==> Pow2(v - 1) < n
  {
    if n <= 1 then 0 else LogFrom(n, 0)
  }

  function LogFrom(n: nat, from: nat): (v: nat)
    requires from > 0 ==> Pow2(from - 1) < n
    ensures n <= Pow2(v)
    ensures v > 0 ==> Pow2(v - 1) < n
    decreases n - Pow2(from)
  {
    if n <= Pow2(from) then from else LogFrom(n, from + 1)
  }

  // The order memalloc looks for: room for the request and for the order byte.
  function RequestOrder(nbytes: nat): nat {
    CeilLog2(if nbytes + 1 < MIN_SIZE then MIN_SIZE else nbytes + 1)
  }

  // Takes a block of order d off the lists, splitting the nearest larger free block when
  // there is none: the lower halves stay free, the upper half goes on being split.
  ghost function Carve(h: Heap, d: nat, live: set<Block>, top: nat): (r: (Heap, Option<nat>))
    requires Sound(h, live, top)
    ensures r.1 == None ==> r.0 == h && forall e :: d <= e <= top ==> h.occupied[e] == []
    ensures r.1.Some? ==>
              var held := Block(r.1.value, d);
              held !in live && Sound(r.0, live + {held}, top) && d <= top
    decreases top + 1 - d
  {
    hide Tiling, Labelled, Distinct, Listed;
    if d > top then
      (h, None)
    else if h.occupied[d] != [] then
      var last := |h.occupied[d]| - 1;
      var a := h.occupied[d][last];
      var h' := h.(occupied := h.occupied[d := RemoveAt(h.occupied[d], last)]);
      CarveListed(h, d, last, live, top);
      (h', Some(a))
    else
      var (h1, r) := Carve(h, d + 1, live, top);
      if r == None then
        (h1, None)
      else
        var a := r.value;
        CarveHalf(h1, d, a, live, top);
        (AddToList(h1.(bytes := h1.bytes[a + Pow2(d) := d]), d, a), Some(a + Pow2(d)))
  }

  lemma CarveListed(h: Heap, d: nat, i: nat, live: set<Block>, top: nat)
    requires Sound(h, live, top) && d <= top && i < |h.occupied[d]|
    ensures var b := Block(h.occupied[d][i], d);
            && b !in live
            && Sound(h.(occupied := h.occupied[d := RemoveAt(h.occupied[d], i)]), live + {b}, top)
  {
    var b := Block(h.occupied[d][i], d);
    ListedRemove(h.occupied, d, i);
    TakeFree(b, Listed(h.occupied), live, top);
  }

  lemma CarveHalf(h: Heap, d: nat, a: nat, live: set<Block>, top: nat)
    requires Block(a, d + 1) !in live && Sound(h, live + {Block(a, d + 1)}, top)
    ensures d < top && a + Pow2(d) < |h.bytes|
    ensures Block(a + Pow2(d), d) !in live
    ensures Sound(AddToList(h.(bytes := h.bytes[a + Pow2(d) := d]), d, a), live + {Block(a + Pow2(d), d)}, top)
  {
    hide Listed, Tiling, InArena, Apart, Distinct, Labelled;
    var whole, lower, upper := Block(a, d + 1), Block(a, d), Block(a + Pow2(d), d);
    var free := Listed(h.occupied);
    HalfInside(free, live, a, d, top);
    SplitHeld(a, d, free, live, top);
    ListedAdd(h.occupied, d, a);
    DistinctAdd(h.occupied, d, a);
    HalvesApart(free, live, lower, upper, top);
    LabelFewer(h, free + (live + {whole}), free + live);
    LabelHalves(h, a, d, free + live, top);
    assert free + live + {upper} + {lower} == (free + {lower}) + (live + {upper});
  }

  lemma HalfInside(free: set<Block>, live: set<Block>, a: nat, d: nat, top: nat)
    requires Tiling(free, live + {Block(a, d + 1)}, top)
    ensures d < top && a + Pow2(d) < Pow2(top)
  {
    assert InArena(Block(a, d + 1), top);
    Pow2Monotone(d, d + 1);
  }

  lemma HalvesApart(free: set<Block>, live: set<Block>, lower: Block, upper: Block, top: nat)
    requires Tiling(free + {lower}, live + {upper}, top) && lower !in free && upper !in live && lower != upper
    ensures lower !in free + live && upper !in free + live
    ensures Apart(free + live + {upper} + {lower}) && InArena(lower, top) && InArena(upper, top)
  {
    assert lower in free + {lower} && upper in live + {upper};
    assert free + live + {upper} + {lower} == (free + {lower}) + (live + {upper});
  }

  lemma LabelFewer(h: Heap, blocks: set<Block>, fewer: set<Block>)
    requires Labelled(h, blocks) && fewer <= blocks
    ensures Labelled(h, fewer)
  {
  }

  lemma DistinctAdd(occ: seq<seq<nat>>, d: nat, a: nat)
    requires d < |occ| && Distinct(occ[d]) && Block(a, d) !in Listed(occ)
    ensures Distinct([a] + occ[d])
  {
    forall k | 0 <= k < |occ[d]| ensures occ[d][k] != a {
      assert Block(occ[d][k], d) in Listed(occ);
    }
  }

  lemma LabelledBytes(h: Heap, h': Heap, blocks: set<Block>)
    requires Labelled(h, blocks) && h'.bytes == h.bytes
    ensures Labelled(h', blocks)
  {
  }

  lemma LabelHalves(h: Heap, a: nat, d: nat, others: set<Block>, top: nat)
    requires d < |h.occupied| && |h.bytes| == Pow2(top) && Labelled(h, others)
    requires var lower, upper := Block(a, d), Block(a + Pow2(d), d);
             && lower !in others && upper !in others && Apart(others + {upper} + {lower})
             && InArena(lower, top) && InArena(upper, top)
    ensures a + Pow2(d) < |h.bytes|
    ensures Labelled(AddToList(h.(bytes := h.bytes[a + Pow2(d) := d]), d, a), others + {Block(a + Pow2(d), d)} +
              {Block(a, d)})
  {
    var lower, upper := Block(a, d), Block(a + Pow2(d), d);
    assert Apart(others + {upper});
    hide Apart, Labelled;
    LabelOne(h, upper, others, top);
    LabelOne(Heap(h.occupied, h.bytes[upper.start := d]), lower, others + {upper}, top);
    LabelledBytes(Heap(h.occupied, h.bytes[upper.start := d][lower.start := d]),
                  AddToList(h.(bytes := h.bytes[upper.start := d]), d, a), others + {upper} + {lower});
  }

  // Position of the first offset of s in [lo, lo + size), or |s|.
  function IndexWithin(s: seq<nat>, lo: nat, size: nat): (i: nat)
    ensures i <= |s| && (i < |s| ==> lo <= s[i] < lo + size)
    ensures forall k :: 0 <= k < i ==> !(lo <= s[k] < lo + size)
  {
    if s == [] || lo <= s[0] < lo + size then 0 else 1 + IndexWithin(s[1..], lo, size)
  }

  // Gives block (a, d) back: joins it with its buddy while that one is free.
  ghost function Restore(h: Heap, d: nat, a: nat, live: set<Block>, top: nat): (r: Heap)
    requires Block(a, d) !in live && Shaped(h, live + {Block(a, d)}, top)
    requires Labelled(h, Listed(h.occupied) + live)
    ensures Sound(r, live, top)
    decreases top + 1 - d
  {
    var held := Block(a, d);
    assert InArena(held, top);
    var pair := Parent(held).start;
    var i := IndexWithin(h.occupied[d], pair, Pow2(d + 1));
    if i == |h.occupied[d]| then
      RestoreAlone(h, d, a, live, top);
      AddToList(h, d, a)
    else
      RestoreMerged(h, d, a, live, top);
      Restore(h.(occupied := h.occupied[d := RemoveAt(h.occupied[d], i)]), d + 1, pair, live, top)
  }

  lemma RestoreAlone(h: Heap, d: nat, a: nat, live: set<Block>, top: nat)
    requires Block(a, d) !in live && Shaped(h, live + {Block(a, d)}, top)
    requires Labelled(h, Listed(h.occupied) + live)
    requires d <= top && Aligned(a, d)
    requires IndexWithin(h.occupied[d], Parent(Block(a, d)).start, Pow2(d + 1)) == |h.occupied[d]|
    ensures a < |h.bytes| && Sound(AddToList(h, d, a), live, top)
  {
    var held := Block(a, d);
    var free := Listed(h.occupied);
    assert held in live + {held} && held !in free && InArena(held, top);
    var p := Parent(held);
    forall f | f in free
      ensures !Buddies(f, held) && !Buddies(held, f)
    {
      if f.order == d {
        assert f.start in h.occupied[d];
        assert !(p.start <= f.start < p.start + Pow2(d + 1));
        if Buddies(f, held) && Aligned(a, d + 1) {
          MultiplesApart(f.start, a, Pow2(d + 1));
        }
      }
    }
    ReleaseHeld(held, free, live, top);
    ListedAdd(h.occupied, d, a);
    DistinctAdd(h.occupied, d, a);
    assert (free + live) + {held} == (free + {held}) + live;
    LabelOne(h, held, free + live, top);
  }

  // A block of the same size inside the same pair is the buddy.
  lemma OtherHalf(b: Block, f: Block)
    requires Aligned(b.start, b.order) && f.order == b.order && Aligned(f.start, b.order) && f != b
    requires Parent(b).start <= f.start < Parent(b).End()
    ensures Buddies(f, b) || Buddies(b, f)
  {
    var p, d := Parent(b), b.order;
    AlignedHalves(p.start, d);
    if f.start != p.start {
      MultiplesApart(p.start, f.start, Pow2(d));
      if f.start != p.start + Pow2(d) {
        MultiplesApart(p.start + Pow2(d), f.start, Pow2(d));
      }
    }
  }

  lemma RestoreMerged(h: Heap, d: nat, a: nat, live: set<Block>, top: nat)
    requires Block(a, d) !in live && Shaped(h, live + {Block(a, d)}, top)
    requires Labelled(h, Listed(h.occupied) + live)
    requires d <= top && Aligned(a, d)
    requires IndexWithin(h.occupied[d], Parent(Block(a, d)).start, Pow2(d + 1)) < |h.occupied[d]|
    ensures var p := Parent(Block(a, d));
            var i := IndexWithin(h.occupied[d], p.start, Pow2(d + 1));
            var h' := h.(occupied := h.occupied[d := RemoveAt(h.occupied[d], i)]);
            && d < top && p !in live && Shaped(h', live + {p}, top)
            && Labelled(h', Listed(h'.occupied) + live)
  {
    var held := Block(a, d);
    var free := Listed(h.occupied);
    var p := Parent(held);
    var i := IndexWithin(h.occupied[d], p.start, Pow2(d + 1));
    var f := Block(h.occupied[d][i], d);
    ListedRemove(h.occupied, d, i);
    assert f in free + (live + {held}) && held in free + (live + {held});
    assert InArena(f, top) && f != held;
    OtherHalf(held, f);
    MergeHeld(held, f, free, live, top);
  }
}
