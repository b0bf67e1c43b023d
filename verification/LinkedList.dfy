/** The doubly linked list that the kernel uses everywhere, with an iterator that can remove
    the element it last returned. */
module LinkedList {
  import opened Options

  class Node<T> {
    var elem: T
    var next: Node?<T>
    var prev: Node?<T>

    constructor (elem: T, next: Node?<T>)
      ensures this.elem == elem && this.next == next && this.prev == null
    {
      this.elem, this.next, prev := elem, next, null;
    }
  }

  // Node number i, or NULL where there is none.
  function At<T>(nodes: seq<Node<T>>, i: int): Node?<T> {
    if 0 <= i < |nodes| then nodes[i] else null
  }

  lemma AtIs<T>(nodes: seq<Node<T>>, i: int)
    ensures At(nodes, i) == if 0 <= i < |nodes| then nodes[i] else null
  {
  }

  lemma AtRemoved<T>(nodes: seq<Node<T>>, r: nat, i: int)
    requires r < |nodes|
    ensures At(nodes[..r] + nodes[r + 1..], i) == At(nodes, if i < r then i else i + 1)
  {
  }

  lemma AtAdded<T>(node: Node<T>, nodes: seq<Node<T>>, i: int)
    ensures At([node] + nodes, i) == if i == 0 then node else At(nodes, i - 1)
  {
  }

  // Node i points forward to the next one and back to the one before.
  ghost predicate LinkedAt<T>(nodes: seq<Node<T>>, i: int)
    requires 0 <= i < |nodes|
    reads nodes[i]
  {
    nodes[i].next == At(nodes, i + 1) && nodes[i].prev == At(nodes, i - 1)
  }

  // The elements for which the test comes out as wanted.
  function Filter<T>(s: seq<T>, test: T -> bool, want: bool): seq<T> {
    if s == [] then []
    else if test(s[0]) == want then [s[0]] + Filter(s[1..], test, want)
    else Filter(s[1..], test, want)
  }

  lemma {:induction false} FilterConcat<T>(s: seq<T>, t: seq<T>, test: T -> bool, want: bool)
    ensures Filter(s + t, test, want) == Filter(s, test, want) + Filter(t, test, want)
  {
    if s == [] {
      assert s + t == t;
    } else {
      assert (s + t)[1..] == s[1..] + t;
      FilterConcat(s[1..], t, test, want);
    }
  }

  lemma FilterNext<T>(all: seq<T>, n: nat, test: T -> bool, want: bool)
    requires n < |all|
    ensures Filter(all[..n + 1], test, want) == Filter(all[..n], test, want) + if test(all[n]) == want then [all[n]]
              else []
  {
    assert all[..n + 1] == all[..n] + [all[n]];
    FilterConcat(all[..n], [all[n]], test, want);
  }

  // Behind what is left of the list comes element n.
  lemma NextOfRest<T>(kept: seq<T>, all: seq<T>, n: nat)
    requires n < |all|
    ensures var s, i := kept + all[n..], |kept|;
            s[i] == all[n] && s[..i] + s[i + 1..] == kept + all[n + 1..] && s == kept + [all[n]] + all[n + 1..]
  {
  }

  class List<T> {
    var first: Node?<T>
    var current: Node?<T>
    var toRemove: Node?<T>
    var size: nat

    // The nodes in order, and where current and toRemove stand among them.
    ghost var nodes: seq<Node<T>>
    ghost var pos: nat
    ghost var last: int

    ghost function Repr(): set<Node<T>>
      reads this
    {
      set node | node in nodes
    }

    // The list itself, and the node to remove.
    ghost predicate Chained()
      reads this, nodes
    {
      && (forall i, j :: 0 <= i < j < |nodes| ==> nodes[i] != nodes[j])
      && (forall i {:trigger LinkedAt(nodes, i)} :: 0 <= i < |nodes| ==> LinkedAt(nodes, i))
      && first == At(nodes, 0)
      && -1 <= last < |nodes| && toRemove == At(nodes, last)
      && size == |nodes|
    }

    // And the iteration stands in it.
    ghost predicate Valid()
      reads this, nodes
    {
      Chained() && pos <= |nodes| && current == At(nodes, pos)
    }

    lemma IsChained()
      requires Valid()
      ensures Chained()
    {
    }

    ghost function Elements(): (s: seq<T>)
      reads this, nodes
      ensures |s| == |nodes|
    {
      seq(|nodes|, i requires 0 <= i < |nodes| reads this, nodes => nodes[i].elem)
    }

    // newList
    constructor ()
      ensures Valid() && Elements() == [] && nodes == []
    {
      first, current, toRemove, size := null, null, null, 0;
      nodes, pos, last := [], 0, -1;
    }

    // add, at the beginning; an iteration goes on where it was.
    method Add(elem: T)
      requires Valid()
      modifies this, Repr()
      ensures Valid() && |nodes| == old(|nodes|) + 1 && fresh(nodes[0]) && nodes[1..] == old(nodes)
      ensures Elements() == [elem] + old(Elements())
      ensures current == old(current) && (current != null ==> pos == old(pos) + 1)
      ensures toRemove == old(toRemove)
    {
      hide At;
      AtIs(nodes, 0);
      AtIs(nodes, -1);
      var second := first;
      var node := new Node(elem, second);
      first := node;
      if second != null {
        second.prev := node;
      }
      size := size + 1;
      ghost var was := nodes;
      nodes := [node] + nodes;
      pos := pos + 1;
      last := if last == -1 then -1 else last + 1;
      AtIs(nodes, -1);
      AtAdded(node, was, 0);
      AtAdded(node, was, pos);
      AtAdded(node, was, last);
      forall i | 0 <= i < |nodes| ensures LinkedAt(nodes, i) {
        AtAdded(node, was, i - 1);
        AtAdded(node, was, i + 1);
        if i > 0 {
          assert old(LinkedAt(was, i - 1));
        }
      }
      assert Elements() == [elem] + old(Elements());
    }

    // toBegin
    method ToBegin()
      requires Chained()
      modifies this
      ensures Valid() && pos == 0 && nodes == old(nodes) && last == old(last) && toRemove == old(toRemove)
      ensures Repr() == old(Repr())
      ensures Elements() == old(Elements())
    {
      current := first;
      pos := 0;
    }

    // hasNext
    method HasNext() returns (b: bool)
      requires Valid()
      ensures b <==> pos < |nodes|
    {
      b := current != null;
    }

    // next
    method Next() returns (elem: Option<T>)
      requires Valid()
      modifies this
      ensures Valid() && nodes == old(nodes) && Elements() == old(Elements()) && Repr() == old(Repr())
      ensures if old(pos) < |nodes|
              then elem == Some(Elements()[old(pos)]) && pos == old(pos) + 1 && last == old(pos)
              else elem == None && pos == old(pos) && last == old(last)
    {
      if current == null {
        return None;
      }
      assert LinkedAt(nodes, pos);
      elem := Some(current.elem);
      toRemove := current;
      current := current.next;
      last := pos;
      pos := pos + 1;
    }

    // remove, of the element that next returned. The iteration still stands in the list if
    // and only if that element was not the current one again, as it is after toBegin.
    method Remove()
      requires Valid()
      modifies this, Repr()
      ensures Chained() && last == -1 && Repr() <= old(Repr())
      ensures Valid() <==> old(last < 0 || last != pos)
      ensures if old(last) < 0 then nodes == old(nodes) && pos == old(pos) && Elements() == old(Elements())
              else && nodes == old(nodes[..last] + nodes[last + 1..])
                   && Elements() == old(Elements()[..last] + Elements()[last + 1..])
                   && pos == old(if pos > last then pos - 1 else pos)
    {
      hide LinkedAt, At;
      ghost var was := nodes;
      RemoveNode();
      assert forall i :: 0 <= i < |was| ==> was[i].elem == old(Elements()[i]);
    }

    method RemoveNode()
      requires Valid()
      modifies this, Repr()
      ensures Chained() && last == -1 && (Valid() <==> old(last < 0 || last != pos))
      ensures if old(last) < 0 then nodes == old(nodes) && pos == old(pos)
              else && nodes == old(nodes[..last] + nodes[last + 1..])
                   && pos == old(if pos > last then pos - 1 else pos)
      ensures forall i :: 0 <= i < |old(nodes)| ==> old(nodes)[i].elem == old(nodes[i].elem)
    {
      hide At, Repr;
      AtIs(nodes, last);
      AtIs(nodes, pos);
      if toRemove != null {
        ghost var was, r := nodes, last;
        Unlink(toRemove);
        toRemove := null;
        size := size - 1;
        nodes := was[..r] + was[r + 1..];
        pos := if pos > r then pos - 1 else pos;
        last := -1;
        AtIs(nodes, -1);
        AtIs(nodes, pos);
        AtRemoved(was, r, 0);
        AtRemoved(was, r, pos);
        forall i | 0 <= i < |nodes| ensures LinkedAt(nodes, i) {
          assert old(LinkedAt(was, if i < r then i else i + 1));
          AtRemoved(was, r, i - 1);
          AtRemoved(was, r, i + 1);
        }
        assert r == old(pos) && pos < |nodes| ==> nodes[pos] == was[r + 1] && was[r + 1] != was[r];
      }
    }

    // The two neighbours of a node let go of it.
    method Unlink(node: Node<T>)
      requires Valid() && last >= 0 && node == At(nodes, last)
      modifies `first, Repr()
      ensures first == if last == 0 then At(nodes, 1) else old(first)
      ensures forall i :: 0 <= i < |nodes| ==>
                && nodes[i].elem == old(nodes[i].elem)
                && nodes[i].next == (if i == last - 1 then At(nodes, last + 1) else old(nodes[i].next))
                && nodes[i].prev == (if i == last + 1 then At(nodes, last - 1) else old(nodes[i].prev))
    {
      hide At;
      AtIs(nodes, last);
      AtIs(nodes, last - 1);
      AtIs(nodes, last + 1);
      assert LinkedAt(nodes, last);
      if node.prev == null {
        first := node.next;
      } else {
        node.prev.next := node.next;
      }
      if node.next != null {
        node.next.prev := node.prev;
      }
    }

    // find
    method Find(matches: T -> bool) returns (elem: Option<T>)
      requires Valid()
      ensures elem.Some? ==> exists i :: 0 <= i < |Elements()| && elem == Some(Elements()[i]) && matches(elem.value)
                                         && forall j :: 0 <= j < i ==> !matches(Elements()[j])
      ensures elem.None? ==> forall i :: 0 <= i < |Elements()| ==> !matches(Elements()[i])
    {
      var searcher := first;
      ghost var i := 0;
      while searcher != null
        invariant 0 <= i <= |nodes| && searcher == At(nodes, i)
        invariant forall j :: 0 <= j < i ==> !matches(Elements()[j])
        decreases |nodes| - i
      {
        assert LinkedAt(nodes, i);
        if matches(searcher.elem) {
          assert searcher.elem == Elements()[i];
          return Some(searcher.elem);
        }
        searcher := searcher.next;
        i := i + 1;
      }
      return None;
    }

    // One turn of such a walk: the next element, removed if it matches.
    method Pass(matches: T -> bool) returns (elem: T, gone: bool)
      requires Valid() && pos < |nodes|
      modifies this, Repr()
      ensures Valid() && elem == old(Elements()[pos]) && gone == matches(elem)
      ensures Repr() <= old(Repr())
      ensures Elements() == if gone then old(Elements()[..pos] + Elements()[pos + 1..]) else old(Elements())
      ensures pos == if gone then old(pos) else old(pos) + 1
    {
      hide Valid, Elements, Repr;
      var returned := Next();
      elem, gone := returned.value, matches(returned.value);
      if gone {
        Remove();
      }
    }

    // A walk that removes every matching element, as unblockAllProcessesBecauseReason makes
    // it: exactly the others are left, in their order.
    method RemoveMatching(matches: T -> bool) returns (removed: seq<T>)
      requires Valid()
      modifies this, Repr()
      ensures Valid()
      ensures Elements() == Filter(old(Elements()), matches, false)
      ensures removed == Filter(old(Elements()), matches, true)
    {
      hide Walked, Filter, Valid, Chained, Elements, Repr;
      IsChained();
      removed := [];
      ghost var all, n := Elements(), 0;
      ToBegin();
      WalkStarts(all, matches);
      var more := HasNext();
      while more
        invariant Valid() && more == (pos < |nodes|)
        invariant Walked(all, n, matches, Elements(), pos, removed)
        invariant Repr() <= old(Repr())
        decreases |all| - n
      {
        WalkGoesOn(all, n, matches, Elements(), pos, removed);
        var elem, gone := Pass(matches);
        if gone {
          removed := removed + [elem];
        }
        n := n + 1;
        more := HasNext();
      }
      WalkEnds(all, n, matches, Elements(), pos, removed);
    }
  }

  // The first n elements of all have been looked at: of them the matching ones are gone, and
  // the walk stands at place pos of what is left.
  ghost predicate Walked<T>(all: seq<T>, n: nat, matches: T -> bool, elements: seq<T>, pos: nat, removed: seq<T>) {
    && n <= |all|
    && elements == Filter(all[..n], matches, false) + all[n..]
    && pos == |Filter(all[..n], matches, false)|
    && removed == Filter(all[..n], matches, true)
  }

  lemma WalkStarts<T>(all: seq<T>, matches: T -> bool)
    ensures Walked(all, 0, matches, all, 0, [])
  {
  }

  lemma WalkGoesOn<T>(all: seq<T>, n: nat, matches: T -> bool, elements: seq<T>, pos: nat, removed: seq<T>)
    requires Walked(all, n, matches, elements, pos, removed) && pos < |elements|
    ensures n < |all|
    ensures if matches(elements[pos])
            then Walked(all, n + 1, matches, elements[..pos] + elements[pos + 1..], pos, removed + [elements[pos]])
            else Walked(all, n + 1, matches, elements, pos + 1, removed)
  {
    hide Filter;
    NextOfRest(Filter(all[..n], matches, false), all, n);
    FilterNext(all, n, matches, false);
    FilterNext(all, n, matches, true);
  }

  lemma WalkEnds<T>(all: seq<T>, n: nat, matches: T -> bool, elements: seq<T>, pos: nat, removed: seq<T>)
    requires Walked(all, n, matches, elements, pos, removed) && pos >= |elements|
    ensures elements == Filter(all, matches, false) && removed == Filter(all, matches, true)
  {
    assert all[..n] == all && all[n..] == [];
  }
}
