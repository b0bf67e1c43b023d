/** The buddy allocator as it runs: heads of linked lists, the links kept inside the free
    blocks, order bytes, all changed in place. Addresses are offsets from the arena's start. */
module BuddyAllocator {
  import opened Options
  import opened Powers
  import opened BuddyBlocks
  import opened BuddyHeap
  import opened BuddyLists
  import opened BuddyRuns

  const SIZEOF_BASE := 232

  // logBase2: rounded up when ceiling, down otherwise.
  method LogBase2(nbytes: nat, ceiling: bool) returns (value: nat)
    ensures nbytes == 0 ==> value == 0
    ensures nbytes > 0 && ceiling ==> nbytes <= Pow2(value) && (value > 0 ==> Pow2(value - 1) < nbytes)
    ensures nbytes > 0 && !ceiling ==> Pow2(value) <= nbytes < Pow2(value + 1)
  {
    value := 0;
    if nbytes == 0 {
      return;
    }
    while if ceiling then Pow2(value) < nbytes else Pow2(value + 1) <= nbytes
      invariant ceiling && value > 0 ==> Pow2(value - 1) < nbytes
      invariant !ceiling ==> Pow2(value) <= nbytes
      decreases nbytes - Pow2(value)
    {
      value := value + 1;
    }
  }

  // The exponent found is the only one with that property.
  lemma CeilLog2Unique(n: nat, v: nat)
    requires n <= Pow2(v) && (v > 0 ==> Pow2(v - 1) < n)
    ensures v == CeilLog2(n)
  {
    var w := CeilLog2(n);
    if v < w {
      Pow2Monotone(v, w - 1);
    } else if w < v {
      Pow2Monotone(w, v - 1);
    }
  }

  ghost function PointerOf(r: Option<nat>): int {
    if r.Some? then r.value else NULL
  }

  ghost function WithoutBuddy(h: Heap, d: nat, pair: nat): Heap
    requires d < |h.occupied| && IndexWithin(h.occupied[d], pair, Pow2(d + 1)) < |h.occupied[d]|
  {
    h.(occupied := h.occupied[d := RemoveAt(h.occupied[d], IndexWithin(h.occupied[d], pair, Pow2(d + 1)))])
  }

  ghost function AllocOutcome(s: State, r: (Heap, Option<nat>), d: nat): (State, Option<nat>) {
    if r.1 == None then (s, None)
    else (State(r.0, s.live + {Block(r.1.value, d)}, s.used + Pow2(d)), Some(r.1.value + 1))
  }

  lemma AllocRefused(s: State, nbytes: nat, top: nat)
    requires Inv(s, top) && (nbytes == 0 || Pow2(top) < nbytes)
    ensures MemAlloc(s, nbytes, top) == (s, None)
  {
  }

  lemma AllocTried(s: State, nbytes: nat, top: nat)
    requires Inv(s, top) && 0 < nbytes <= Pow2(top)
    ensures Sound(s.heap, s.live, top)
    ensures MemAlloc(s, nbytes, top) ==
              AllocOutcome(s, Carve(s.heap, RequestOrder(nbytes), s.live, top), RequestOrder(nbytes))
  {
  }

  // The start of the buddy pair, as the C code computes it.
  function PairStart(a: nat, d: nat): int {
    a - if a % Pow2(d + 1) == 0 then 0 else Pow2(d + 1) / 2
  }

  lemma HeldInArena(h: Heap, d: nat, a: nat, live: set<Block>, top: nat)
    requires Shaped(h, live + {Block(a, d)}, top)
    ensures d <= top && a < |h.bytes| && Aligned(a, d)
    ensures PairStart(a, d) == Parent(Block(a, d)).start
  {
    assert Block(a, d) in Listed(h.occupied) + (live + {Block(a, d)}) && InArena(Block(a, d), top);
  }

  // One level of restoreToList.
  lemma RestoreStep(h: Heap, d: nat, a: nat, live: set<Block>, top: nat)
    requires Block(a, d) !in live && Shaped(h, live + {Block(a, d)}, top)
    requires Labelled(h, Listed(h.occupied) + live)
    ensures d <= top && a < |h.bytes| && 0 <= PairStart(a, d)
    ensures var pair := PairStart(a, d);
            if IndexWithin(h.occupied[d], pair, Pow2(d + 1)) == |h.occupied[d]| then
              Restore(h, d, a, live, top) == AddToList(h, d, a)
            else
              var h' := WithoutBuddy(h, d, pair);
              && Block(pair, d + 1) !in live && Shaped(h', live + {Block(pair, d + 1)}, top)
              && Labelled(h', Listed(h'.occupied) + live)
              && Restore(h, d, a, live, top) == Restore(h', d + 1, pair, live, top)
  {
    HeldInArena(h, d, a, live, top);
    var p := Parent(Block(a, d));
    assert p == Block(PairStart(a, d), d + 1);
    if IndexWithin(h.occupied[d], p.start, Pow2(d + 1)) < |h.occupied[d]| {
      RestoreMerged(h, d, a, live, top);
    }
  }

  class Allocator {
    const largestDivision: nat
    const occupied: array<int>
    const prev: array<int>
    const next: array<int>
    const bytes: array<nat>
    var memUsed: nat
    ghost var lists: seq<seq<nat>>
    ghost var live: set<Block>

    ghost predicate Lists()
      reads this`lists, occupied, prev, next
    {
      && largestDivision < MAX_DIVISIONS && occupied.Length == MAX_DIVISIONS
      && prev.Length == next.Length == bytes.Length == Pow2(largestDivision)
      && occupied != prev && occupied != next && prev != next
      && Linked(lists, occupied[..], prev[..], next[..])
    }

    ghost function Contents(): Heap
      reads this`lists, bytes
    {
      Heap(lists, bytes[..])
    }

    ghost function View(): State
      reads this, bytes
    {
      State(Contents(), live, memUsed)
    }

    ghost predicate Valid()
      reads this, occupied, prev, next, bytes
    {
      Lists() && Inv(View(), largestDivision)
    }

    // memInitialize, for the memory sizes that it accepts.
    constructor (memSize: nat)
      requires SIZEOF_BASE < memSize
      ensures Valid() && View() == Init(largestDivision)
      ensures largestDivision <= 26 && Pow2(largestDivision) <= memSize - 232
      ensures largestDivision < 26 ==> memSize - 232 < Pow2(largestDivision + 1)
      ensures fresh(occupied) && fresh(prev) && fresh(next) && fresh(bytes)
    {
      var top := LogBase2(memSize - SIZEOF_BASE, false);
      if top >= MAX_DIVISIONS {
        Pow2Monotone(MAX_DIVISIONS - 1, top);
        top := MAX_DIVISIONS - 1;
      }
      largestDivision := top;
      occupied := new int[MAX_DIVISIONS](_ => NULL);
      prev := new int[Pow2(top)](_ => NULL);
      next := new int[Pow2(top)](_ => NULL);
      bytes := new nat[Pow2(top)](_ => 0);
      memUsed := 0;
      live := {};
      lists := seq(MAX_DIVISIONS, _ => []);
      new;
      assert bytes[..] == seq(Pow2(top), _ => 0);
      ghost var empty := Contents();
      AddToFreeList(top, 0);
      assert View() == State(AddToList(empty, top, 0), {}, 0);
      InitFrom(empty, top);
    }

    // addToList
    method AddToFreeList(division: nat, bp: nat)
      requires Lists() && division < MAX_DIVISIONS && bp < bytes.Length
      requires forall d, i :: 0 <= d < MAX_DIVISIONS && 0 <= i < |lists[d]| ==> lists[d][i] != bp
      modifies occupied, prev, next, bytes, this`lists
      ensures Lists() && Contents() == AddToList(old(Contents()), division, bp)
    {
      PushNode(lists, occupied[..], prev[..], next[..], division, bp);
      var aux := occupied[division];
      if aux != NULL {
        prev[aux] := bp;
      }
      occupied[division] := bp;
      bytes[bp] := division;
      prev[bp] := NULL;
      next[bp] := aux;
      lists := lists[division := [bp] + lists[division]];
    }

    // removeLast
    method RemoveLast(division: nat) returns (curr: int)
      requires Lists() && division < MAX_DIVISIONS
      modifies occupied, next, this`lists
      ensures Lists()
      ensures old(lists[division]) == [] ==> curr == NULL && lists == old(lists)
      ensures old(lists[division]) != [] ==>
                var last := |old(lists[division])| - 1;
                curr == old(lists[division])[last] &&
                    lists == old(lists)[division := RemoveAt(old(lists[division]), last)]
    {
      curr := occupied[division];
      ghost var s := lists[division];
      assert Chain(s, occupied[division], prev[..], next[..]);
      if curr == NULL {
        return;
      }
      assert Node(s, 0, prev[..], next[..]);
      if next[curr] == NULL {
        SkipNode(lists, occupied[..], prev[..], next[..], division, 0);
        occupied[division] := NULL;
        lists := lists[division := RemoveAt(s, 0)];
        return;
      }
      ghost var i := 0;
      while next[curr] != NULL
        invariant 0 <= i < |s| && curr == s[i] < next.Length
        invariant i == 0 ==> next[curr] != NULL
        decreases |s| - i
      {
        assert Node(s, i, prev[..], next[..]);
        curr := next[curr];
        i := i + 1;
        assert Node(s, i, prev[..], next[..]);
      }
      SkipNode(lists, occupied[..], prev[..], next[..], division, i);
      next[prev[curr]] := NULL;
      lists := lists[division := RemoveAt(s, i)];
    }

    // findAndRemove: unlinks the first node found in [lo, lo + size).
    method FindAndRemove(division: nat, lo: nat, size: nat) returns (found: bool)
      requires Lists() && division < MAX_DIVISIONS
      modifies occupied, prev, next, this`lists
      ensures Lists()
      ensures var i := IndexWithin(old(lists[division]), lo, size);
              && found == (i < |old(lists[division])|)
              && lists == if found then old(lists)[division := RemoveAt(old(lists[division]), i)] else old(lists)
    {
      var possibleBuddy := occupied[division];
      ghost var s := lists[division];
      assert Chain(s, occupied[division], prev[..], next[..]);
      if possibleBuddy == NULL {
        return false;
      }
      assert Node(s, 0, prev[..], next[..]);
      if lo <= possibleBuddy < lo + size {
        SkipNode(lists, occupied[..], prev[..], next[..], division, 0);
        if next[possibleBuddy] != NULL {
          prev[next[possibleBuddy]] := NULL;
        }
        occupied[division] := next[possibleBuddy];
        lists := lists[division := RemoveAt(s, 0)];
        return true;
      }
      possibleBuddy := next[possibleBuddy];
      ghost var i := 1;
      while possibleBuddy != NULL
        invariant 1 <= i <= |s|
        invariant possibleBuddy == if i < |s| then s[i] else NULL
        invariant forall k :: 0 <= k < i ==> !(lo <= s[k] < lo + size)
        decreases |s| - i
      {
        assert Node(s, i, prev[..], next[..]);
        if lo <= possibleBuddy < lo + size {
          SkipNode(lists, occupied[..], prev[..], next[..], division, i);
          if prev[possibleBuddy] != NULL {
            next[prev[possibleBuddy]] := next[possibleBuddy];
          }
          if next[possibleBuddy] != NULL {
            prev[next[possibleBuddy]] := prev[possibleBuddy];
          }
          lists := lists[division := RemoveAt(s, i)];
          return true;
        }
        possibleBuddy := next[possibleBuddy];
        i := i + 1;
      }
      return false;
    }

    // updatingLists, with the live blocks of the moment.
    method UpdatingLists(division: nat, ghost held: set<Block>) returns (mem: int)
      requires Lists() && Sound(Contents(), held, largestDivision)
      modifies occupied, prev, next, bytes, this`lists
      ensures Lists()
      ensures Contents() == Carve(old(Contents()), division, held, largestDivision).0
      ensures mem == PointerOf(Carve(old(Contents()), division, held, largestDivision).1)
      decreases largestDivision + 1 - division
    {
      if division > largestDivision {
        return NULL;
      }
      assert Chain(lists[division], occupied[division], prev[..], next[..]);
      if occupied[division] != NULL {
        mem := RemoveLast(division);
        return;
      }
      var actualMemory := UpdatingLists(division + 1, held);
      if actualMemory == NULL {
        return NULL;
      }
      ghost var whole := Contents();
      CarveHalf(whole, division, actualMemory, held, largestDivision);
      var size := Pow2(division);
      var secondHalf := actualMemory + size;
      HeldNotListed(whole, Block(actualMemory, division + 1), held, largestDivision);
      bytes[secondHalf] := division;
      assert Contents() == whole.(bytes := whole.bytes[secondHalf := division]);
      AddToFreeList(division, actualMemory);
      return secondHalf;
    }

    static lemma HeldNotListed(h: Heap, b: Block, others: set<Block>, top: nat)
      requires Shaped(h, others + {b}, top)
      ensures forall d, i :: 0 <= d < MAX_DIVISIONS && 0 <= i < |h.occupied[d]| ==> h.occupied[d][i] != b.start
    {
      forall d, i | 0 <= d < MAX_DIVISIONS && 0 <= i < |h.occupied[d]|
        ensures h.occupied[d][i] != b.start
      {
        var f := Block(h.occupied[d][i], d);
        assert f in Listed(h.occupied);
        assert b in Listed(h.occupied) + (others + {b}) && f in Listed(h.occupied) + (others + {b});
        assert !Overlap(f, b);
      }
    }

    // restoreToList
    method RestoreToList(division: nat, pointerToBlock: nat, ghost held: set<Block>)
      requires Lists() && Block(pointerToBlock, division) !in held
      requires Shaped(Contents(), held + {Block(pointerToBlock, division)}, largestDivision)
      requires Labelled(Contents(), Listed(lists) + held)
      modifies occupied, prev, next, bytes, this`lists
      ensures Lists()
      ensures Contents() == Restore(old(Contents()), division, pointerToBlock, held, largestDivision)
      decreases largestDivision + 1 - division
    {
      ghost var before := Contents();
      RestoreStep(before, division, pointerToBlock, held, largestDivision);
      var buddyPairSize := Pow2(division + 1);
      var pointerToBuddyPair := pointerToBlock - if pointerToBlock % buddyPairSize == 0 then 0 else buddyPairSize / 2;
      assert pointerToBuddyPair == PairStart(pointerToBlock, division);
      var found := FindAndRemove(division, pointerToBuddyPair, buddyPairSize);
      if !found {
        assert Contents() == before;
        HeldNotListed(before, Block(pointerToBlock, division), held, largestDivision);
        AddToFreeList(division, pointerToBlock);
        return;
      }
      assert Contents() == WithoutBuddy(before, division, pointerToBuddyPair);
      RestoreToList(division + 1, pointerToBuddyPair, held);
    }

    // memalloc: NULL, or the address behind the order byte of a block that is now live.
    method Memalloc(nbytes: nat) returns (mem: int)
      requires Valid()
      modifies this, occupied, prev, next, bytes
      ensures Valid()
      ensures View() == MemAlloc(old(View()), nbytes, largestDivision).0
      ensures mem == PointerOf(MemAlloc(old(View()), nbytes, largestDivision).1)
    {
      hide Inv, Sound, MemAlloc, Carve, CeilLog2;
      ghost var s := View();
      if nbytes > bytes.Length || nbytes == 0 {
        AllocRefused(s, nbytes, largestDivision);
        return NULL;
      }
      AllocTried(s, nbytes, largestDivision);
      var request := if nbytes + 1 < MIN_SIZE then MIN_SIZE else nbytes + 1;
      var divisionSelected := LogBase2(request, true);
      CeilLog2Unique(request, divisionSelected);
      mem := TakeBlock(divisionSelected);
      if mem != NULL {
        mem := mem + 1;
      }
    }

    // The part of memalloc behind its checks.
    method TakeBlock(division: nat) returns (mem: int)
      requires Lists() && Sound(Contents(), live, largestDivision)
      modifies this, occupied, prev, next, bytes
      ensures Lists()
      ensures var r := Carve(old(Contents()), division, old(live), largestDivision);
              mem == PointerOf(r.1) && View() == AllocOutcome(old(View()), r, division).0
    {
      mem := UpdatingLists(division, live);
      if mem == NULL {
        return;
      }
      memUsed := memUsed + Pow2(division);
      live := live + {Block(mem, division)};
    }

    // memfree: ignores addresses outside the arena, NULL among them.
    method Memfree(ap: int)
      requires Valid() && Freeable(View(), ap, largestDivision)
      modifies this, occupied, prev, next, bytes
      ensures Valid() && View() == MemFree(old(View()), ap, largestDivision)
    {
      hide Inv, Shaped, Labelled, MemFree, Restore;
      if 0 <= ap < bytes.Length {
        ghost var b :| b in live && b.start + 1 == ap;
        FreeBlock(View(), b, largestDivision);
        MemFreeOf(View(), b, largestDivision);
        var pointerToStart := ap - 1;
        var division := bytes[pointerToStart];
        if division <= largestDivision {
          ReleaseBlock(division, pointerToStart);
        }
      }
    }

    // The part of memfree behind its checks.
    method ReleaseBlock(division: nat, start: nat)
      requires Lists() && Block(start, division) in live && Pow2(division) <= memUsed
      requires Shaped(Contents(), (live - {Block(start, division)}) + {Block(start, division)}, largestDivision)
      requires Labelled(Contents(), Listed(lists) + (live - {Block(start, division)}))
      modifies this, occupied, prev, next, bytes
      ensures Lists()
      ensures View() == State(Restore(old(Contents()), division, start, old(live) - {Block(start, division)},
                largestDivision),
                              old(live) - {Block(start, division)}, old(memUsed) - Pow2(division))
    {
      live := live - {Block(start, division)};
      RestoreToList(division, start, live);
      memUsed := memUsed - Pow2(division);
    }
  }
}
