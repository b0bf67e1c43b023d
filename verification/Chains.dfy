/** Doubly linked lists threaded through records: what the link fields of the queues and of
    the siblings spell, and what the pointer writes of the scheduler do to it. */
module Chains {
  import opened Lists

  const NULL: nat := 0

  // Element i, or NULL where there is none.
  function At(s: seq<nat>, i: int): nat {
    if 0 <= i < |s| then s[i] else NULL
  }

  ghost predicate Node(s: seq<nat>, i: int, prev: map<nat, nat>, next: map<nat, nat>)
    requires 0 <= i < |s|
  {
    s[i] in prev && s[i] in next && prev[s[i]] == At(s, i - 1) && next[s[i]] == At(s, i + 1)
  }

  // From head the next fields spell s, and the prev fields spell it backwards.
  ghost predicate Chain(s: seq<nat>, head: nat, prev: map<nat, nat>, next: map<nat, nat>) {
    && NULL !in s && Distinct(s) && head == At(s, 0)
    && forall i {:trigger Node(s, i, prev, next)} :: 0 <= i < |s| ==> Node(s, i, prev, next)
  }

  lemma ChainNode(s: seq<nat>, head: nat, prev: map<nat, nat>, next: map<nat, nat>, i: nat)
    requires Chain(s, head, prev, next) && i < |s|
    ensures Node(s, i, prev, next) && s[i] != NULL
  {
  }

  lemma ChainHead(s: seq<nat>, head: nat, prev: map<nat, nat>, next: map<nat, nat>)
    requires Chain(s, head, prev, next)
    ensures head == At(s, 0) && (head == NULL <==> s == []) && Distinct(s) && NULL !in s
  {
  }

  // A list is untouched by writes to nodes of others.
  lemma ChainFrame(s: seq<nat>, head: nat, prev: map<nat, nat>, next: map<nat, nat>, prev': map<nat, nat>,
      next': map<nat, nat>)
    requires Chain(s, head, prev, next)
    requires forall x :: x in s && x in prev && x in next ==>
               x in prev' && x in next' && prev'[x] == prev[x] && next'[x] == next[x]
    ensures Chain(s, head, prev', next')
  {
    forall i | 0 <= i < |s| ensures Node(s, i, prev', next') {
      assert Node(s, i, prev, next) && s[i] in s;
    }
  }

  // A walk that has come to NULL has come to the end.
  lemma AtEnd(s: seq<nat>, i: nat)
    requires NULL !in s && i <= |s| && At(s, i) == NULL
    ensures i == |s|
  {
  }

  // The writes that put node a in front.
  function PrevPushed(head: nat, a: nat, prev: map<nat, nat>): map<nat, nat> {
    (if head != NULL then prev[head := a] else prev)[a := NULL]
  }

  lemma ChainPush(s: seq<nat>, head: nat, prev: map<nat, nat>, next: map<nat, nat>, a: nat)
    requires Chain(s, head, prev, next) && a != NULL && a !in s
    ensures Chain([a] + s, a, PrevPushed(head, a, prev), next[a := head])
  {
    var prev', next' := PrevPushed(head, a, prev), next[a := head];
    forall i | 0 <= i < |[a] + s| ensures Node([a] + s, i, prev', next') {
      if i > 0 {
        assert Node(s, i - 1, prev, next) && s[i - 1] in s;
        assert i > 1 ==> s[i - 1] != s[0];
      }
    }
    DistinctCons(a, s);
  }

  // The writes that take node n out.
  function HeadSkipped(head: nat, n: nat, prev: map<nat, nat>, next: map<nat, nat>): nat
    requires n in prev && n in next
  {
    if prev[n] != NULL then head else next[n]
  }

  function NextSkipped(n: nat, prev: map<nat, nat>, next: map<nat, nat>): map<nat, nat>
    requires n in prev && n in next
  {
    if prev[n] != NULL then next[prev[n] := next[n]] else next
  }

  function PrevSkipped(n: nat, prev: map<nat, nat>, next: map<nat, nat>): map<nat, nat>
    requires n in prev && n in next
  {
    if next[n] != NULL then prev[next[n] := prev[n]] else prev
  }

  lemma ChainSkip(s: seq<nat>, head: nat, prev: map<nat, nat>, next: map<nat, nat>, i: nat)
    requires Chain(s, head, prev, next) && i < |s|
    ensures s[i] in prev && s[i] in next
    ensures Chain(s[..i] + s[i + 1..], HeadSkipped(head, s[i], prev, next),
                  PrevSkipped(s[i], prev, next), NextSkipped(s[i], prev, next))
    ensures prev[s[i]] == At(s, i - 1) != s[i] && next[s[i]] == At(s, i + 1) != s[i]
  {
    assert Node(s, i, prev, next);
    var n := s[i];
    var rest := s[..i] + s[i + 1..];
    var prev', next' := PrevSkipped(n, prev, next), NextSkipped(n, prev, next);
    forall j | 0 <= j < |rest| ensures Node(rest, j, prev', next') {
      var k := if j < i then j else j + 1;
      assert Node(s, k, prev, next) && rest[j] == s[k];
      assert j + 1 < |rest| ==> rest[j + 1] == s[if j + 1 < i then j + 1 else j + 2];
      assert j > 0 ==> rest[j - 1] == s[if j - 1 < i then j - 1 else j];
    }
  }

  // The writes that hang list t behind list s.
  function NextJoined(s: seq<nat>, first: nat, next: map<nat, nat>): map<nat, nat> {
    if s == [] then next else next[s[|s| - 1] := first]
  }

  lemma ChainJoin(s: seq<nat>, head: nat, t: seq<nat>, first: nat, prev: map<nat, nat>, next: map<nat, nat>)
    requires Chain(s, head, prev, next) && Chain(t, first, prev, next) && t != []
    requires forall x :: x in s ==> x !in t
    ensures Chain(s + t, if s == [] then first else head, prev[first := At(s, |s| - 1)], NextJoined(s, first, next))
  {
    var prev', next' := prev[first := At(s, |s| - 1)], NextJoined(s, first, next);
    DistinctConcat(s, t);
    forall i | 0 <= i < |s + t| ensures Node(s + t, i, prev', next') {
      if i < |s| {
        assert Node(s, i, prev, next) && s[i] in s;
        assert i < |s| - 1 ==> s[i] != s[|s| - 1];
      } else {
        assert Node(t, i - |s|, prev, next) && t[i - |s|] in t;
        assert i > |s| ==> t[i - |s|] != t[0];
      }
    }
  }

  // Several lists over the same link fields, with no node in common.
  ghost predicate Apart(lists: map<nat, seq<nat>>) {
    forall a, b, x :: a in lists && b in lists && x in lists[a] && x in lists[b] ==> a == b
  }

  ghost predicate Threaded(lists: map<nat, seq<nat>>, heads: map<nat, nat>, prev: map<nat, nat>, next: map<nat, nat>) {
    && Apart(lists) && lists.Keys == heads.Keys
    && forall a {:trigger lists[a]} :: a in lists ==> a in heads && Chain(lists[a], heads[a], prev, next)
  }

  lemma ThreadedAt(lists: map<nat, seq<nat>>, heads: map<nat, nat>, prev: map<nat, nat>, next: map<nat, nat>, a: nat)
    requires Threaded(lists, heads, prev, next) && a in lists
    ensures a in heads && Chain(lists[a], heads[a], prev, next)
  {
  }

  lemma ThreadedPush(lists: map<nat, seq<nat>>, heads: map<nat, nat>, prev: map<nat, nat>, next: map<nat, nat>,
      a: nat, x: nat)
    requires Threaded(lists, heads, prev, next) && a in lists && x != NULL
    requires forall b {:trigger lists[b]} :: b in lists ==> x !in lists[b]
    ensures a in heads
    ensures Threaded(lists[a := [x] + lists[a]], heads[a := x], PrevPushed(heads[a], x, prev), next[x := heads[a]])
  {
    hide Chain;
    ThreadedAt(lists, heads, prev, next, a);
    ChainPush(lists[a], heads[a], prev, next, x);
    ChainHead(lists[a], heads[a], prev, next);
    var lists' := lists[a := [x] + lists[a]];
    forall b | b in lists' ensures b in heads[a := x] &&
        Chain(lists'[b], heads[a := x][b], PrevPushed(heads[a], x, prev), next[x := heads[a]]) {
      if b != a {
        assert heads[a] != NULL ==> heads[a] in lists[a];
        ChainFrame(lists[b], heads[b], prev, next, PrevPushed(heads[a], x, prev), next[x := heads[a]]);
      }
    }
  }

  lemma ThreadedSkip(lists: map<nat, seq<nat>>, heads: map<nat, nat>, prev: map<nat, nat>, next: map<nat, nat>,
      a: nat, i: nat)
    requires Threaded(lists, heads, prev, next) && a in lists && i < |lists[a]|
    ensures a in heads && lists[a][i] in prev && lists[a][i] in next
    ensures var x := lists[a][i];
            Threaded(lists[a := lists[a][..i] + lists[a][i + 1..]], heads[a := HeadSkipped(heads[a], x, prev, next)],
                     PrevSkipped(x, prev, next), NextSkipped(x, prev, next))
  {
    hide Chain;
    ThreadedAt(lists, heads, prev, next, a);
    ChainSkip(lists[a], heads[a], prev, next, i);
    var x := lists[a][i];
    var rest := lists[a][..i] + lists[a][i + 1..];
    var lists', heads' := lists[a := rest], heads[a := HeadSkipped(heads[a], x, prev, next)];
    assert forall y :: y in rest ==> y in lists[a];
    forall b | b in lists' ensures b in heads' &&
        Chain(lists'[b], heads'[b], PrevSkipped(x, prev, next), NextSkipped(x, prev, next)) {
      if b != a {
        assert x in lists[a];
        ChainFrame(lists[b], heads[b], prev, next, PrevSkipped(x, prev, next), NextSkipped(x, prev, next));
      }
    }
  }

  // List b is emptied into list a.
  lemma ThreadedJoin(lists: map<nat, seq<nat>>, heads: map<nat, nat>, prev: map<nat, nat>, next: map<nat, nat>,
      a: nat, b: nat)
    requires Threaded(lists, heads, prev, next) && a in lists && b in lists && a != b && lists[b] != []
    ensures a in heads && b in heads
    ensures var s := lists[a];
            Threaded(lists[a := s + lists[b]][b := []], heads[a := if s == [] then heads[b] else heads[a]][b := NULL],
                     prev[heads[b] := At(s, |s| - 1)], NextJoined(s, heads[b], next))
  {
    hide Chain;
    ThreadedAt(lists, heads, prev, next, a);
    ThreadedAt(lists, heads, prev, next, b);
    var s, t := lists[a], lists[b];
    ChainJoin(s, heads[a], t, heads[b], prev, next);
    ChainHead(t, heads[b], prev, next);
    var lists' := lists[a := s + t][b := []];
    var heads' := heads[a := if s == [] then heads[b] else heads[a]][b := NULL];
    var prev', next' := prev[heads[b] := At(s, |s| - 1)], NextJoined(s, heads[b], next);
    forall c | c in lists' ensures c in heads' && Chain(lists'[c], heads'[c], prev', next') {
      if c == b {
        EmptyChain(prev', next');
      } else if c != a {
        assert t[0] in t && (s != [] ==> s[|s| - 1] in s);
        ChainFrame(lists[c], heads[c], prev, next, prev', next');
      }
    }
  }

  lemma EmptyChain(prev: map<nat, nat>, next: map<nat, nat>)
    ensures Chain([], NULL, prev, next)
  {
  }

  // A new record with a list of its own, and link fields for itself.
  lemma ThreadedNew(lists: map<nat, seq<nat>>, heads: map<nat, nat>, prev: map<nat, nat>, next: map<nat, nat>, a: nat)
    requires Threaded(lists, heads, prev, next) && a !in lists && forall b {:trigger lists[b]} :: b in lists ==>
               a !in lists[b]
    ensures Threaded(lists[a := []], heads[a := NULL], prev[a := NULL], next[a := NULL])
  {
    hide Chain;
    var lists', heads' := lists[a := []], heads[a := NULL];
    forall b | b in lists'
      ensures b in heads' && Chain(lists'[b], heads'[b], prev[a := NULL], next[a := NULL])
    {
      if b == a {
        EmptyChain(prev[a := NULL], next[a := NULL]);
      } else {
        ThreadedAt(lists, heads, prev, next, b);
        ChainFrame(lists[b], heads[b], prev, next, prev[a := NULL], next[a := NULL]);
      }
    }
  }

  // A record with an empty list goes away.
  lemma ThreadedFree(lists: map<nat, seq<nat>>, heads: map<nat, nat>, prev: map<nat, nat>, next: map<nat, nat>, a: nat)
    requires Threaded(lists, heads, prev, next)
    ensures Threaded(lists - {a}, heads - {a}, prev, next)
  {
  }

  // A node that is in no list loses its link fields.
  lemma ThreadedForget(lists: map<nat, seq<nat>>, heads: map<nat, nat>, prev: map<nat, nat>, next: map<nat, nat>,
      x: nat)
    requires Threaded(lists, heads, prev, next)
    requires forall b {:trigger lists[b]} :: b in lists ==> x !in lists[b]
    ensures Threaded(lists, heads, prev - {x}, next - {x})
  {
    hide Chain;
    forall b | b in lists ensures b in heads && Chain(lists[b], heads[b], prev - {x}, next - {x}) {
      ThreadedAt(lists, heads, prev, next, b);
      assert x !in lists[b];
      ChainFrame(lists[b], heads[b], prev, next, prev - {x}, next - {x});
    }
  }

  lemma SingleChain(x: nat, prev: map<nat, nat>, next: map<nat, nat>)
    requires x != NULL && x in prev && x in next && prev[x] == NULL == next[x]
    ensures Chain([x], x, prev, next)
  {
    assert Node([x], 0, prev, next);
  }

  // A node that is in no list goes to the end of one.
  lemma ThreadedAppend(lists: map<nat, seq<nat>>, heads: map<nat, nat>, prev: map<nat, nat>, next: map<nat, nat>,
      a: nat, x: nat)
    requires Threaded(lists, heads, prev, next) && a in lists && x != NULL
    requires x in prev && x in next && prev[x] == NULL == next[x]
    requires forall b {:trigger lists[b]} :: b in lists ==> x !in lists[b]
    ensures a in heads
    ensures var s := lists[a];
            Threaded(lists[a := s + [x]], heads[a := if s == [] then x else heads[a]],
                     prev[x := At(s, |s| - 1)], NextJoined(s, x, next))
  {
    hide Chain;
    ThreadedAt(lists, heads, prev, next, a);
    SingleChain(x, prev, next);
    var s := lists[a];
    ChainJoin(s, heads[a], [x], x, prev, next);
    var lists', heads' := lists[a := s + [x]], heads[a := if s == [] then x else heads[a]];
    var prev', next' := prev[x := At(s, |s| - 1)], NextJoined(s, x, next);
    forall c | c in lists' ensures c in heads' && Chain(lists'[c], heads'[c], prev', next') {
      if c != a {
        assert s != [] ==> s[|s| - 1] in s;
        ChainFrame(lists[c], heads[c], prev, next, prev', next');
      }
    }
  }

  lemma PrefixChain(s: seq<nat>, x: seq<nat>, head: nat, prev: map<nat, nat>, next: map<nat, nat>)
    requires Chain(s + x, head, prev, next)
    ensures Chain(s, if s == [] then NULL else head, prev, NextJoined(s, NULL, next))
  {
    forall i | 0 <= i < |s| ensures Node(s, i, prev, NextJoined(s, NULL, next)) {
      assert Node(s + x, i, prev, next) && (s + x)[i] == s[i];
      assert i + 1 < |s| ==> (s + x)[i + 1] == s[i + 1];
      assert i < |s| - 1 ==> s[i] != s[|s| - 1] by {
        assert (s + x)[i] != (s + x)[|s| - 1] || i >= |s| - 1;
      }
      assert i > 0 ==> (s + x)[i - 1] == s[i - 1];
    }
    assert forall i :: 0 <= i < |s| ==> (s + x)[i] == s[i];
    assert s != [] ==> s[0] == (s + x)[0];
  }

  // Storing NULL behind the end of s cuts off what has come behind it.
  lemma ThreadedCut(lists: map<nat, seq<nat>>, heads: map<nat, nat>, prev: map<nat, nat>, next: map<nat, nat>, a: nat,
      s: seq<nat>)
    requires Threaded(lists, heads, prev, next) && a in lists && s <= lists[a]
    ensures a in heads
    ensures Threaded(lists[a := s], heads[a := if s == [] then NULL else heads[a]], prev, NextJoined(s, NULL, next))
  {
    hide Chain;
    ThreadedAt(lists, heads, prev, next, a);
    var x := lists[a][|s|..];
    assert lists[a] == s + x;
    PrefixChain(s, x, heads[a], prev, next);
    var lists', heads', next' := lists[a := s], heads[a := if s == [] then NULL else heads[a]],
        NextJoined(s, NULL, next);
    assert forall y :: y in s ==> y in lists[a];
    forall c | c in lists' ensures c in heads' && Chain(lists'[c], heads'[c], prev, next') {
      if c != a {
        assert s != [] ==> s[|s| - 1] in lists[a];
        ChainFrame(lists[c], heads[c], prev, next, prev, next');
      }
    }
  }

  // Unlinking node x with what its two links were some time ago: p in front of it and n
  // behind. A node without a predecessor is looked for among the heads.
  function HeadLate(head: nat, x: nat, p: nat, n: nat): nat {
    if p == NULL && head == x then n else head
  }

  function NextLate(p: nat, n: nat, next: map<nat, nat>): map<nat, nat> {
    if p != NULL then next[p := n] else next
  }

  function PrevLate(p: nat, n: nat, prev: map<nat, nat>): map<nat, nat> {
    if n != NULL then prev[n := p] else prev
  }

  // Whatever has happened to the lists since the links were read: the node is out and every
  // list well linked if and only if its neighbours are the ones that were read.
  lemma LateSkipIff(lists: map<nat, seq<nat>>, heads: map<nat, nat>, prev: map<nat, nat>, next: map<nat, nat>, a: nat,
      i: nat, p: nat, n: nat)
    requires Threaded(lists, heads, prev, next) && a in lists && i < |lists[a]|
    ensures a in heads
    ensures var x := lists[a][i];
            Threaded(lists[a := lists[a][..i] + lists[a][i + 1..]], heads[a := HeadLate(heads[a], x, p, n)],
                     PrevLate(p, n, prev), NextLate(p, n, next)) <==>
              p == At(lists[a], i - 1) && n == At(lists[a], i + 1)
  {
    hide Chain;
    ThreadedAt(lists, heads, prev, next, a);
    var s := lists[a];
    var x := s[i];
    ChainSkip(s, heads[a], prev, next, i);
    ChainHead(s, heads[a], prev, next);
    var rest := s[..i] + s[i + 1..];
    var lists', heads' := lists[a := rest], heads[a := HeadLate(heads[a], x, p, n)];
    if p == At(s, i - 1) && n == At(s, i + 1) {
      ThreadedSkip(lists, heads, prev, next, a, i);
      HeadBefore(s, heads[a], prev, next, i);
    }
    if Threaded(lists', heads', PrevLate(p, n, prev), NextLate(p, n, next)) {
      ThreadedAt(lists', heads', PrevLate(p, n, prev), NextLate(p, n, next), a);
      ChainHead(rest, heads'[a], PrevLate(p, n, prev), NextLate(p, n, next));
      assert At(rest, i) == At(s, i + 1);
      if i > 0 {
        ChainNode(rest, heads'[a], PrevLate(p, n, prev), NextLate(p, n, next), i - 1);
        ChainNode(s, heads[a], prev, next, i - 1);
        assert rest[i - 1] == s[i - 1];
      }
    }
  }

  // The first node has no predecessor, and only the first.
  lemma HeadBefore(s: seq<nat>, head: nat, prev: map<nat, nat>, next: map<nat, nat>, i: nat)
    requires Chain(s, head, prev, next) && i < |s|
    ensures At(s, i - 1) == NULL <==> i == 0
    ensures i == 0 <==> head == s[i]
    ensures Node(s, i, prev, next)
  {
    assert i > 0 ==> s[i - 1] in s;
  }

  // Between the two stores of unlinking node i of list a another node y is put in front of
  // list b: that does no harm if and only if it is not in front of the node that came next.
  lemma HalfPushIff(lists: map<nat, seq<nat>>, heads: map<nat, nat>, prev: map<nat, nat>, next: map<nat, nat>, a: nat,
      i: nat, b: nat, y: nat)
    requires Threaded(lists, heads, prev, next) && a in lists && i < |lists[a]| && b in lists && y != NULL
    requires forall d {:trigger lists[d]} :: d in lists ==> y !in lists[d]
    ensures a in heads && b in heads && lists[a][i] in prev && lists[a][i] in next
    ensures var s, x := lists[a], lists[a][i];
            var lists1: map<nat, seq<nat>> := lists[a := s[..i] + s[i + 1..]];
            var heads1: map<nat, nat> := heads[a := HeadSkipped(heads[a], x, prev, next)];
            var prev2, next2 := PrevPushed(heads1[b], y, prev), NextSkipped(x, prev, next)[y := heads1[b]];
            Threaded(lists1[b := [y] + lists1[b]], heads1[b := y], PrevSkipped(x, prev2, next2), next2) <==>
              !(b == a && i == 0 && |s| > 1)
  {
    hide Chain;
    ThreadedAt(lists, heads, prev, next, a);
    var s, x := lists[a], lists[a][i];
    ChainSkip(s, heads[a], prev, next, i);
    ChainHead(s, heads[a], prev, next);
    HeadBefore(s, heads[a], prev, next, i);
    var lists1: map<nat, seq<nat>> := lists[a := s[..i] + s[i + 1..]];
    var heads1: map<nat, nat> := heads[a := HeadSkipped(heads[a], x, prev, next)];
    var prev1, next1 := PrevSkipped(x, prev, next), NextSkipped(x, prev, next);
    ThreadedSkip(lists, heads, prev, next, a, i);
    ThreadedAt(lists1, heads1, prev1, next1, b);
    ChainHead(lists1[b], heads1[b], prev1, next1);
    assert x in s && forall q :: q in lists1[a] ==> q in s;
    var prev2, next2 := PrevPushed(heads1[b], y, prev), next1[y := heads1[b]];
    var prev3 := PrevSkipped(x, prev2, next2);
    if i + 1 < |s| {
      assert s[i + 1] in s && y !in s;
    }
    if heads1[b] != NULL {
      assert heads1[b] in lists1[b];
    }
    if b == a && i == 0 && |s| > 1 {
      assert prev3[s[1]] == NULL;
      if Threaded(lists1[b := [y] + lists1[b]], heads1[b := y], prev3, next2) {
        ThreadedAt(lists1[b := [y] + lists1[b]], heads1[b := y], prev3, next2, b);
        ChainNode([y] + lists1[b], y, prev3, next2, 1);
      }
    } else {
      NotThatHead(lists, heads, prev, next, a, i, b);
      ThreadedPush(lists1, heads1, prev1, next1, b, y);
      assert prev3 == PrevPushed(heads1[b], y, prev1);
    }
  }

  // Another list, or the same one with x not in front, begins with another node than the one
  // behind x.
  lemma NotThatHead(lists: map<nat, seq<nat>>, heads: map<nat, nat>, prev: map<nat, nat>, next: map<nat, nat>, a: nat,
      i: nat, b: nat)
    requires Threaded(lists, heads, prev, next) && a in lists && i < |lists[a]| && b in lists
    requires !(b == a && i == 0 && |lists[a]| > 1)
    ensures a in heads && lists[a][i] in prev && lists[a][i] in next && b in heads
    ensures var n := next[lists[a][i]];
            n != NULL ==> heads[a := HeadSkipped(heads[a], lists[a][i], prev, next)][b] != n
    ensures heads[a := HeadSkipped(heads[a], lists[a][i], prev, next)][b] != lists[a][i]
  {
    var s := lists[a];
    ThreadedAt(lists, heads, prev, next, a);
    ThreadedAt(lists, heads, prev, next, b);
    ChainSkip(s, heads[a], prev, next, i);
    HeadBefore(s, heads[a], prev, next, i);
    if i + 1 < |s| {
      assert s[i + 1] in s;
    }
    assert lists[b] != [] ==> lists[b][0] in lists[b];
    assert s[i] in s;
  }

  lemma XNotInRest(lists: map<nat, seq<nat>>, heads: map<nat, nat>, prev: map<nat, nat>, next: map<nat, nat>, a: nat,
      i: nat, b: nat)
    requires Threaded(lists, heads, prev, next) && a in lists && i < |lists[a]| && b in lists
    ensures lists[a][i] !in (if b == a then lists[a][..i] + lists[a][i + 1..] else lists[b])
    ensures b != a ==> forall q :: q in lists[b] ==> q !in lists[a]
  {
    var s := lists[a];
    ThreadedAt(lists, heads, prev, next, a);
    ChainHead(s, heads[a], prev, next);
    assert s[i] in s;
  }

  lemma BehindIt(lists: map<nat, seq<nat>>, heads: map<nat, nat>, prev: map<nat, nat>, next: map<nat, nat>, a: nat,
      i: nat)
    requires Threaded(lists, heads, prev, next) && a in lists && i + 1 < |lists[a]|
    ensures a in heads && Node(lists[a], i + 1, prev, next) && lists[a][i + 1] != NULL
    ensures Distinct(lists[a]) && lists[a][i + 1] in lists[a] && lists[a][i] != NULL
    ensures i > 0 ==> lists[a][i - 1] in lists[a] && Node(lists[a], i - 1, prev, next)
  {
    ThreadedAt(lists, heads, prev, next, a);
    ChainHead(lists[a], heads[a], prev, next);
    ChainNode(lists[a], heads[a], prev, next, i);
  }

  // What the links are between the two stores of unlinking node i of list a, and once node z
  // has been unlinked then and the second store has been made.
  ghost predicate HalfSkipped(lists: map<nat, seq<nat>>, heads: map<nat, nat>, prev: map<nat, nat>,
      next: map<nat, nat>, x: nat, b: nat, j: nat)
    requires b in lists && b in heads && j < |lists[b]| && lists[b][j] in prev && lists[b][j] in next
  {
    var z := lists[b][j];
    var prev2, next2 := PrevSkipped(z, prev, next), NextSkipped(z, prev, next);
    && x in prev2 && x in next2
    && Threaded(lists[b := lists[b][..j] + lists[b][j + 1..]], heads[b := HeadSkipped(heads[b], z, prev, next)],
                PrevSkipped(x, prev2, next2), next2)
  }

  lemma WithoutNext(s: seq<nat>, i: nat, rest: seq<nat>, head: nat, prev: map<nat, nat>, next: map<nat, nat>)
    requires Distinct(s) && NULL !in s && i + 1 < |s| && rest == s[..i] + s[i + 2..]
    requires if i > 0 then s[i - 1] in next && next[s[i - 1]] == s[i + 1] else head == s[1]
    ensures !Chain(rest, head, prev, next)
  {
    assert At(rest, i) == At(s, i + 2) && s[i + 1] in s;
    assert i > 0 ==> rest[i - 1] == s[i - 1];
    if Chain(rest, head, prev, next) && i > 0 {
      ChainNode(rest, head, prev, next, i - 1);
    }
  }

  lemma WithoutPrevious(s: seq<nat>, i: nat, rest: seq<nat>, head: nat, prev: map<nat, nat>, next: map<nat, nat>)
    requires Distinct(s) && NULL !in s && 0 < i && i + 1 < |s| && rest == s[..i - 1] + s[i + 1..]
    requires s[i + 1] in prev && prev[s[i + 1]] == s[i - 1]
    ensures !Chain(rest, head, prev, next)
  {
    assert rest[i - 1] == s[i + 1] && s[i - 1] in s;
    assert i > 1 ==> rest[i - 2] == s[i - 2];
    if Chain(rest, head, prev, next) {
      ChainNode(rest, head, prev, next, i - 1);
    }
  }

  // Or node j of what is then list b is unlinked: no harm if and only if it is neither of the
  // neighbours of x, or nothing came behind x.
  lemma HalfSkipIff(lists: map<nat, seq<nat>>, heads: map<nat, nat>, prev: map<nat, nat>, next: map<nat, nat>, a: nat,
      i: nat, b: nat, j: nat)
    requires Threaded(lists, heads, prev, next) && a in lists && i < |lists[a]| && b in lists
    requires j < |if b == a then lists[a][..i] + lists[a][i + 1..] else lists[b]|
    ensures a in heads && b in heads && lists[a][i] in prev && lists[a][i] in next
    ensures var s, x := lists[a], lists[a][i];
            var lists1: map<nat, seq<nat>> := lists[a := s[..i] + s[i + 1..]];
            var heads1: map<nat, nat> := heads[a := HeadSkipped(heads[a], x, prev, next)];
            var next1, z := NextSkipped(x, prev, next), lists1[b][j];
            && z in prev && z in next1
            && (HalfSkipped(lists1, heads1, prev, next1, x, b, j) <==>
                  i + 1 == |s| || (z != s[i + 1] && (i > 0 ==> z != s[i - 1])))
  {
    hide Chain, Threaded;
    HalfFacts(lists, heads, prev, next, a, i, b, j);
    var s, x := lists[a], lists[a][i];
    var lists1: map<nat, seq<nat>> := lists[a := s[..i] + s[i + 1..]];
    var heads1: map<nat, nat> := heads[a := HeadSkipped(heads[a], x, prev, next)];
    var next1 := NextSkipped(x, prev, next);
    var t, z := lists1[b], lists1[b][j];
    var lists2: map<nat, seq<nat>> := lists1[b := t[..j] + t[j + 1..]];
    var heads2: map<nat, nat> := heads1[b := HeadSkipped(heads1[b], z, prev, next1)];
    var prev2, next2 := PrevSkipped(z, prev, next1), NextSkipped(z, prev, next1);
    if i + 1 < |s| && z == s[i + 1] {
      assert b == a && j == i && lists2[a] == s[..i] + s[i + 2..];
      WithoutNext(s, i, lists2[a], heads2[a], PrevSkipped(x, prev2, next2), next2);
    } else if 0 < i && i + 1 < |s| && z == s[i - 1] {
      assert b == a && j == i - 1 && lists2[a] == s[..i - 1] + s[i + 1..];
      WithoutPrevious(s, i, lists2[a], heads2[a], PrevSkipped(x, prev2, next2), next2);
    } else {
      assert PrevSkipped(x, prev2, next2) == PrevSkipped(z, PrevSkipped(x, prev, next), next1);
    }
    if HalfSkipped(lists1, heads1, prev, next1, x, b, j) {
      ThreadedAt(lists2, heads2, PrevSkipped(x, prev2, next2), next2, a);
    }
  }

  lemma HalfFacts(lists: map<nat, seq<nat>>, heads: map<nat, nat>, prev: map<nat, nat>, next: map<nat, nat>, a: nat,
      i: nat, b: nat, j: nat)
    requires Threaded(lists, heads, prev, next) && a in lists && i < |lists[a]| && b in lists
    requires j < |if b == a then lists[a][..i] + lists[a][i + 1..] else lists[b]|
    ensures a in heads && b in heads && lists[a][i] in prev && lists[a][i] in next
    ensures var s, x := lists[a], lists[a][i];
            var lists1: map<nat, seq<nat>> := lists[a := s[..i] + s[i + 1..]];
            var heads1: map<nat, nat> := heads[a := HeadSkipped(heads[a], x, prev, next)];
            var prev1, next1, t := PrevSkipped(x, prev, next), NextSkipped(x, prev, next), lists1[b];
            var z := t[j];
            && Distinct(s) && NULL !in s && Distinct(t) && NULL !in t && x !in t && x in s && z in t
            && (b != a ==> forall q :: q in t ==> q !in s)
            && prev[x] == At(s, i - 1) && next[x] == At(s, i + 1)
            && (i == 0 <==> heads[a] == x) && (At(s, i - 1) == NULL <==> i == 0)
            && z in prev && z in prev1 && z in next1 && prev1[z] == At(t, j - 1) && next1[z] == At(t, j + 1)
            && (i + 1 < |s| ==> s[i + 1] in prev && prev[s[i + 1]] == x && s[i + 1] in s)
            && (i > 0 ==> s[i - 1] in s)
            && Threaded(lists1[b := t[..j] + t[j + 1..]], heads1[b := HeadSkipped(heads1[b], z, prev1, next1)],
                        PrevSkipped(z, prev1, next1), NextSkipped(z, prev1, next1))
  {
    hide Chain;
    ThreadedAt(lists, heads, prev, next, a);
    var s, x := lists[a], lists[a][i];
    ChainSkip(s, heads[a], prev, next, i);
    ChainHead(s, heads[a], prev, next);
    HeadBefore(s, heads[a], prev, next, i);
    var lists1: map<nat, seq<nat>> := lists[a := s[..i] + s[i + 1..]];
    var heads1: map<nat, nat> := heads[a := HeadSkipped(heads[a], x, prev, next)];
    var prev1, next1 := PrevSkipped(x, prev, next), NextSkipped(x, prev, next);
    ThreadedSkip(lists, heads, prev, next, a, i);
    ThreadedAt(lists1, heads1, prev1, next1, b);
    var t := lists1[b];
    ChainSkip(t, heads1[b], prev1, next1, j);
    ChainHead(t, heads1[b], prev1, next1);
    ThreadedSkip(lists1, heads1, prev1, next1, b, j);
    XNotInRest(lists, heads, prev, next, a, i, b);
    assert t[j] in t;
    if i + 1 < |s| {
      BehindIt(lists, heads, prev, next, a, i);
    }
  }

  // Node 5 stood in front of 7 and 9 when the links of 7 were read, and is gone since.
  lemma StaleLinks()
    ensures var lists: map<nat, seq<nat>> := map[0 := [7, 9]];
            var heads: map<nat, nat> := map[0 := 7];
            var prev: map<nat, nat>, next: map<nat, nat> := map[7 := NULL, 9 := 7], map[7 := 9, 9 := NULL];
            && Threaded(lists, heads, prev, next)
            && !Threaded(lists[0 := [9]], heads[0 := HeadLate(7, 7, 5, 9)], PrevLate(5, 9, prev), NextLate(5, 9, next))
  {
    var lists: map<nat, seq<nat>> := map[0 := [7, 9]];
    var heads: map<nat, nat> := map[0 := 7];
    var prev: map<nat, nat>, next: map<nat, nat> := map[7 := NULL, 9 := 7], map[7 := 9, 9 := NULL];
    assert Node([7, 9], 0, prev, next) && Node([7, 9], 1, prev, next);
    assert Chain([7, 9], 7, prev, next);
    assert lists[0][..0] + lists[0][1..] == [9];
    LateSkipIff(lists, heads, prev, next, 0, 0, 5, 9);
  }
}
