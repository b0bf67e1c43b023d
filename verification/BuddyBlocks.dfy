/** The block structure of the buddy allocator, free of lists and bytes: which sets of
    free and live blocks can occur, and that the live blocks alone decide the free ones. */
module BuddyBlocks {
  import opened Powers

  // 2^order bytes beginning at offset start.
  datatype Block = Block(start: nat, order: nat) {
    function End(): nat { start + Pow2(order) }

    predicate Covers(x: int) { start <= x < End() }
  }

  predicate Overlap(a: Block, b: Block) {
    a.start < b.End() && b.start < a.End()
  }

  // Blocks of the arena [0, 2^top) are aligned to their size.
  ghost predicate InArena(b: Block, top: nat) {
    b.order <= top && Aligned(b.start, b.order) && b.End() <= Pow2(top)
  }

  ghost predicate Untouched(b: Block, live: set<Block>) {
    forall l :: l in live ==> !Overlap(b, l)
  }

  // The block of twice the size that b is one half of.
  ghost function Parent(b: Block): (p: Block)
    requires Aligned(b.start, b.order)
    ensures p.order == b.order + 1 && Aligned(p.start, p.order)
    ensures p.start <= b.start && b.End() <= p.End()
    ensures b.start == p.start || b.End() == p.End()
  {
    if Aligned(b.start, b.order + 1) then
      Block(b.start, b.order + 1)
    else
      AlignedUpperHalf(b.start, b.order);
      Block(b.start - Pow2(b.order), b.order + 1)
  }

  // An aligned block that touches no live block and cannot be doubled.
  ghost predicate MaximalFree(b: Block, live: set<Block>, top: nat) {
    InArena(b, top) && Untouched(b, live) && (b.order == top || !Untouched(Parent(b), live))
  }

  ghost predicate Buddies(a: Block, b: Block) {
    a.order == b.order && b.start == a.End() && Aligned(a.start, a.order + 1)
  }

  ghost predicate Covered(x: int, blocks: set<Block>) {
    exists b :: b in blocks && b.Covers(x)
  }

  ghost predicate Apart(blocks: set<Block>) {
    forall a, b :: a in blocks && b in blocks && a != b ==> !Overlap(a, b)
  }

  // Free and live blocks tile the arena, and no two free blocks are each other's buddy.
  ghost predicate Tiling(free: set<Block>, live: set<Block>, top: nat) {
    && free !! live
    && (forall b :: b in free + live ==> InArena(b, top))
    && Apart(free + live)
    && (forall x :: 0 <= x < Pow2(top) ==> Covered(x, free + live))
    && (forall a, b :: a in free && b in free ==> !Buddies(a, b))
  }

  lemma InitialTiling(top: nat)
    ensures Tiling({Block(0, top)}, {}, top)
  {
    forall x | 0 <= x < Pow2(top)
      ensures Covered(x, {Block(0, top)} + {})
    {
      assert Block(0, top).Covers(x);
    }
  }

  // A region that touches no live block lies inside one free block.
  lemma {:induction false} FreeRegion(r: Block, free: set<Block>, live: set<Block>, top: nat) returns (f: Block)
    requires Tiling(free, live, top) && InArena(r, top) && Untouched(r, live)
    ensures f in free && r.order <= f.order && f.start <= r.start && r.End() <= f.End()
    decreases r.order
  {
    if r.order == 0 {
      assert Covered(r.start, free + live);
      f :| f in free + live && f.Covers(r.start);
    } else {
      var lower := Block(r.start, r.order - 1);
      var upper := Block(lower.End(), r.order - 1);
      AlignedHalves(r.start, r.order - 1);
      f := FreeRegion(lower, free, live, top);
      if f.order < r.order {
        var g := FreeRegion(upper, free, live, top);
        assert !Buddies(f, g);
        NestedOrApart(r.start, r.order, g.start, g.order);
        f := g;
      } else {
        NestedOrApart(r.start, r.order, f.start, f.order);
      }
    }
  }

  // The free blocks are exactly the maximal aligned blocks that touch no live block.
  lemma FreeIsMaximal(free: set<Block>, live: set<Block>, top: nat)
    requires Tiling(free, live, top)
    ensures forall b :: b in free <==> MaximalFree(b, live, top)
  {
    forall b
      ensures b in free <==> MaximalFree(b, live, top)
    {
      if b in free {
        if b.order < top && Untouched(Parent(b), live) {
          NestedOrApart(b.start, b.order, 0, top);
          NestedOrApart(Parent(b).start, b.order + 1, 0, top);
          var f := FreeRegion(Parent(b), free, live, top);
          assert Overlap(b, f) && b in free + live && f in free + live;
          assert false;
        }
      } else if MaximalFree(b, live, top) {
        var f := FreeRegion(b, free, live, top);
        assert b != f;
        var p := Parent(b);
        NestedOrApart(p.start, p.order, f.start, f.order);
        assert Untouched(p, live) by {
          forall l | l in live ensures !Overlap(p, l) {
            assert f in free + live && l in free + live && !Overlap(f, l);
          }
        }
        assert false;
      }
    }
  }

  // If no live block is smaller than order d, no free one is, for the pair of a smaller one
  // would lie inside the live block that keeps it apart.
  lemma NoSmallerFree(free: set<Block>, live: set<Block>, top: nat, d: nat, f: Block)
    requires Tiling(free, live, top) && d <= top && f in free
    requires forall l :: l in live ==> d <= l.order
    ensures d <= f.order
  {
    FreeIsMaximal(free, live, top);
    assert MaximalFree(f, live, top);
    hide Tiling;
    if f.order < d {
      var p := Parent(f);
      assert !Untouched(p, live);
      var l :| l in live && Overlap(p, l);
      LiveAligned(free, live, top, l);
      NestedOrApart(p.start, p.order, l.start, l.order);
    }
  }

  lemma LiveAligned(free: set<Block>, live: set<Block>, top: nat, l: Block)
    requires Tiling(free, live, top) && l in live
    ensures Aligned(l.start, l.order)
  {
    assert l in free + live;
  }

  // Whatever happened before, equal live blocks mean equal free blocks.
  lemma FreeDeterminedByLive(free1: set<Block>, free2: set<Block>, live: set<Block>, top: nat)
    requires Tiling(free1, live, top) && Tiling(free2, live, top)
    ensures free1 == free2
  {
    FreeIsMaximal(free1, live, top);
    FreeIsMaximal(free2, live, top);
  }

  lemma TakeFree(b: Block, free: set<Block>, live: set<Block>, top: nat)
    requires Tiling(free, live, top) && b in free
    ensures Tiling(free - {b}, live + {b}, top)
  {
    assert (free - {b}) + (live + {b}) == free + live;
  }

  lemma SplitHeld(p: nat, d: nat, free: set<Block>, live: set<Block>, top: nat)
    requires Block(p, d + 1) !in live && Tiling(free, live + {Block(p, d + 1)}, top)
    ensures Block(p + Pow2(d), d) !in live && Block(p, d) !in free
    ensures Tiling(free + {Block(p, d)}, live + {Block(p + Pow2(d), d)}, top)
  {
    var whole, lower, upper := Block(p, d + 1), Block(p, d), Block(p + Pow2(d), d);
    var before, after := free + (live + {whole}), (free + {lower}) + (live + {upper});
    assert InArena(whole, top);
    AlignedHalves(p, d);
    forall b | b in free + live
      ensures b in before && b != whole && !Overlap(b, lower) && !Overlap(b, upper)
    {
      assert b in before && !Overlap(b, whole);
    }
    assert Overlap(lower, lower) && Overlap(upper, upper);
    forall x | 0 <= x < Pow2(top)
      ensures Covered(x, after)
    {
      assert Covered(x, before);
      var b :| b in before && b.Covers(x);
      if b == whole {
        assert lower.Covers(x) || upper.Covers(x);
        assert lower in after && upper in after;
      } else {
        assert b in after;
      }
    }
    forall a, b | a in free + {lower} && b in free + {lower}
      ensures !Buddies(a, b)
    {
      if a == lower {
        assert upper !in free + {lower} && b != upper;
      } else if b == lower {
        if Buddies(a, b) {
          AlignedHalves(p, d);
          MultiplesApart(a.start, p, Pow2(d + 1));
        }
      }
    }
  }

  lemma ReleaseHeld(h: Block, free: set<Block>, live: set<Block>, top: nat)
    requires h !in live && Tiling(free, live + {h}, top)
    requires forall f :: f in free ==> !Buddies(f, h) && !Buddies(h, f)
    ensures Tiling(free + {h}, live, top)
  {
    assert free + (live + {h}) == (free + {h}) + live;
  }

  lemma MergeHeld(h: Block, f: Block, free: set<Block>, live: set<Block>, top: nat)
    requires h !in live && Tiling(free, live + {h}, top)
    requires f in free && (Buddies(f, h) || Buddies(h, f))
    ensures Parent(h) !in live && InArena(Parent(h), top)
    ensures Tiling(free - {f}, live + {Parent(h)}, top)
  {
    var p := Parent(h);
    var before, after := free + (live + {h}), (free - {f}) + (live + {p});
    assert h in before && f in before && InArena(h, top) && InArena(f, top);
    if Buddies(h, f) {
    } else if Aligned(h.start, h.order + 1) {
      MultiplesApart(f.start, h.start, Pow2(h.order + 1));
    }
    assert p.start == if Buddies(h, f) then h.start else f.start;
    assert h.order < top by {
      Pow2Reflects(h.order + 1, top);
    }
    assert forall b :: b in before && b != h && b != f ==> !Overlap(b, p);
    assert Overlap(p, p);
    assert p !in before by {
      assert Overlap(p, h) && p != h && p != f;
    }
    forall x | 0 <= x < Pow2(top)
      ensures Covered(x, after)
    {
      assert Covered(x, before);
      var b :| b in before && b.Covers(x);
      if b == h || b == f {
        assert p.Covers(x) && p in after;
      } else {
        assert b in after;
      }
    }
  }
}
