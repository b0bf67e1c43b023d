/** The doubly linked free lists of the buddy allocator: heads, and links stored per node. */
module BuddyLists {
  import opened BuddyHeap

  const NULL := -1

  // Node i of list s is linked to its neighbours in the list.
  ghost predicate Node(s: seq<nat>, i: int, prev: seq<int>, next: seq<int>)
    requires 0 <= i < |s|
  {
    && s[i] < |next| && s[i] < |prev|
    && next[s[i]] == (if i + 1 < |s| then s[i + 1] else NULL)
    && prev[s[i]] == (if i > 0 then s[i - 1] else NULL)
  }

  // The nodes reached from head are those of s, in both directions.
  ghost predicate Chain(s: seq<nat>, head: int, prev: seq<int>, next: seq<int>) {
    && head == (if s == [] then NULL else s[0])
    && forall i :: 0 <= i < |s| ==> Node(s, i, prev, next)
  }

  // No offset occurs twice in the lists.
  ghost predicate Unshared(lists: seq<seq<nat>>) {
    forall d, i, e, j :: 0 <= d < |lists| && 0 <= i < |lists[d]| && 0 <= e < |lists| && 0 <= j < |lists[e]| ==>
      lists[d][i] != lists[e][j] || (d == e && i == j)
  }

  ghost predicate Linked(lists: seq<seq<nat>>, heads: seq<int>, prev: seq<int>, next: seq<int>) {
    && |lists| == |heads| && Unshared(lists)
    && forall d :: 0 <= d < |lists| ==> Chain(lists[d], heads[d], prev, next)
  }

  // addToList keeps the lists linked.
  lemma PushNode(lists: seq<seq<nat>>, heads: seq<int>, prev: seq<int>, next: seq<int>, d: nat, a: nat)
    requires Linked(lists, heads, prev, next) && d < |lists| && a < |prev| && a < |next|
    requires forall e, i :: 0 <= e < |lists| && 0 <= i < |lists[e]| ==> lists[e][i] != a
    ensures heads[d] != NULL ==> 0 <= heads[d] < |prev|
    ensures var prev' := if heads[d] == NULL then prev else prev[heads[d] := a];
            Linked(lists[d := [a] + lists[d]], heads[d := a], prev'[a := NULL], next[a := heads[d]])
  {
    var s := lists[d];
    assert Chain(s, heads[d], prev, next);
    assert s != [] ==> Node(s, 0, prev, next);
    var prev' := (if heads[d] == NULL then prev else prev[heads[d] := a])[a := NULL];
    var next' := next[a := heads[d]];
    var after := lists[d := [a] + s];
    assert Unshared(after) by {
      assert forall i :: 0 < i < |after[d]| ==> after[d][i] == s[i - 1];
    }
    forall e | 0 <= e < |after|
      ensures Chain(after[e], heads[d := a][e], prev', next')
    {
      assert Chain(lists[e], heads[e], prev, next);
      forall i | 0 <= i < |after[e]|
        ensures Node(after[e], i, prev', next')
      {
        var k := if e == d then i - 1 else i;
        if 0 <= k {
          assert Node(lists[e], k, prev, next) && after[e][i] == lists[e][k];
        }
      }
    }
  }

  // Unlinking node i of list d, by whichever of the three fields that point at it exist.
  lemma SkipNode(lists: seq<seq<nat>>, heads: seq<int>, prev: seq<int>, next: seq<int>, d: nat, i: nat)
    requires Linked(lists, heads, prev, next) && d < |lists| && i < |lists[d]|
    ensures Node(lists[d], i, prev, next)
    ensures i > 0 ==> lists[d][i - 1] < |next|
    ensures i + 1 < |lists[d]| ==> lists[d][i + 1] < |prev|
    ensures var s := lists[d];
            var heads' := if i == 0 then heads[d := next[s[i]]] else heads;
            var next' := if i > 0 then next[s[i - 1] := next[s[i]]] else next;
            var prev' := if i + 1 < |s| then prev[s[i + 1] := prev[s[i]]] else prev;
            Linked(lists[d := RemoveAt(s, i)], heads', prev', next')
  {
    var s := lists[d];
    assert Chain(s, heads[d], prev, next) && Node(s, i, prev, next);
    assert i > 0 ==> Node(s, i - 1, prev, next);
    assert i + 1 < |s| ==> Node(s, i + 1, prev, next);
    var heads' := if i == 0 then heads[d := next[s[i]]] else heads;
    var next' := if i > 0 then next[s[i - 1] := next[s[i]]] else next;
    var prev' := if i + 1 < |s| then prev[s[i + 1] := prev[s[i]]] else prev;
    var after := lists[d := RemoveAt(s, i)];
    assert forall k :: 0 <= k < |after[d]| ==> after[d][k] == s[if k < i then k else k + 1];
    forall e | 0 <= e < |after|
      ensures Chain(after[e], heads'[e], prev', next')
    {
      assert Chain(lists[e], heads[e], prev, next);
      forall k | 0 <= k < |after[e]|
        ensures Node(after[e], k, prev', next')
      {
        var j := if e == d && k >= i then k + 1 else k;
        assert Node(lists[e], j, prev, next) && after[e][k] == lists[e][j];
      }
    }
  }

  // addToList with what the head was some time ago. Whatever has happened to the lists since:
  // the node is in front of its list, and every list is well linked, if and only if the head
  // is still the one that was read.
  lemma LatePushIff(lists: seq<seq<nat>>, heads: seq<int>, prev: seq<int>, next: seq<int>, d: nat, a: nat, aux: int)
    requires Linked(lists, heads, prev, next) && d < |lists| && a < |prev| == |next|
    requires forall e, i :: 0 <= e < |lists| && 0 <= i < |lists[e]| ==> lists[e][i] != a
    requires aux == NULL || (0 <= aux < |prev| && aux != a)
    ensures var prev' := if aux == NULL then prev else prev[aux := a];
            Linked(lists[d := [a] + lists[d]], heads[d := a], prev'[a := NULL], next[a := aux]) <==> aux == heads[d]
  {
    var s := lists[d];
    assert Chain(s, heads[d], prev, next);
    assert s != [] ==> Node(s, 0, prev, next);
    if aux == heads[d] {
      PushNode(lists, heads, prev, next, d, a);
    }
    var prev' := (if aux == NULL then prev else prev[aux := a])[a := NULL];
    var after := lists[d := [a] + s];
    if Linked(after, heads[d := a], prev', next[a := aux]) {
      assert Chain(after[d], a, prev', next[a := aux]);
      assert Node(after[d], 0, prev', next[a := aux]);
    }
  }

  // The list was empty when its head was read, and block 4 has been freed since: it is lost.
  lemma StaleHead()
    ensures Linked([[4]], [4], seq(8, _ => NULL), seq(8, _ => NULL))
    ensures !Linked([[0, 4]], [0], seq(8, _ => NULL)[0 := NULL], seq(8, _ => NULL)[0 := NULL])
  {
    var links := seq(8, _ => NULL);
    assert Node([4], 0, links, links);
    var lists: seq<seq<nat>> := [[4]];
    assert [0] + lists[0] == [0, 4] && lists[0 := [0, 4]] == [[0, 4]];
    assert [4][0 := 0] == [0];
    LatePushIff(lists, [4], links, links, 0, 0, NULL);
  }
}
