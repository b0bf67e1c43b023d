/** The five queues and the lists of children as the link fields of the nodes spell them,
    and what each routine's pointer writes make of them. */
module Links {
  import opened Lists
  import opened Kernel
  import opened Chains

  function Indexed<T>(s: seq<T>): map<nat, T> {
    map i: nat | i < |s| :: s[i]
  }

  lemma IndexedUpdate<T>(s: seq<T>, i: nat, x: T)
    requires i < |s|
    ensures Indexed(s[i := x]) == Indexed(s)[i := x]
  {
  }

  // From heads[i] the link fields spell queue i, and no node is in two queues.
  ghost predicate Queues(queues: seq<seq<nat>>, heads: seq<nat>, prev: map<nat, nat>, next: map<nat, nat>) {
    Threaded(Indexed(queues), Indexed(heads), prev, next)
  }

  lemma QueueChain(queues: seq<seq<nat>>, heads: seq<nat>, prev: map<nat, nat>, next: map<nat, nat>, i: nat)
    requires Queues(queues, heads, prev, next) && i < |queues|
    ensures i < |heads| && Chain(queues[i], heads[i], prev, next)
    ensures heads[i] == At(queues[i], 0) && (heads[i] == NULL <==> queues[i] == []) && NULL !in queues[i]
  {
    ThreadedAt(Indexed(queues), Indexed(heads), prev, next, i);
    assert i in Indexed(heads);
  }

  lemma QueueCount(queues: seq<seq<nat>>, heads: seq<nat>, prev: map<nat, nat>, next: map<nat, nat>)
    requires Queues(queues, heads, prev, next)
    ensures |heads| == |queues|
  {
    assert forall i: nat :: i in Indexed(queues).Keys <==> i < |queues|;
    assert forall i: nat :: i in Indexed(heads).Keys <==> i < |heads|;
    assert |queues| !in Indexed(queues).Keys && |heads| !in Indexed(heads).Keys;
  }

  lemma QueueApart(queues: seq<seq<nat>>, heads: seq<nat>, prev: map<nat, nat>, next: map<nat, nat>, i: nat, j: nat,
      x: nat)
    requires Queues(queues, heads, prev, next) && i < |queues| && j < |queues| && x in queues[i] && x in queues[j]
    ensures i == j
  {
    assert Indexed(queues)[i] == queues[i] && Indexed(queues)[j] == queues[j];
  }

  lemma QueuePush(queues: seq<seq<nat>>, heads: seq<nat>, prev: map<nat, nat>, next: map<nat, nat>, i: nat, x: nat)
    requires Queues(queues, heads, prev, next) && i < |queues| && x != NULL
    requires forall j :: 0 <= j < |queues| ==> x !in queues[j]
    ensures i < |heads|
    ensures Queues(queues[i := [x] + queues[i]], heads[i := x], PrevPushed(heads[i], x, prev), next[x := heads[i]])
  {
    hide Threaded;
    QueueCount(queues, heads, prev, next);
    ThreadedPush(Indexed(queues), Indexed(heads), prev, next, i, x);
    IndexedUpdate(queues, i, [x] + queues[i]);
    IndexedUpdate(heads, i, x);
  }

  lemma QueueSkip(queues: seq<seq<nat>>, heads: seq<nat>, prev: map<nat, nat>, next: map<nat, nat>, i: nat, x: nat)
    requires Queues(queues, heads, prev, next) && i < |queues| && x in queues[i]
    ensures i < |heads| && x in prev && x in next && prev[x] != x && next[x] != x
    ensures prev[x] == NULL <==> heads[i] == x
    ensures x !in Without(queues[i], x) && forall y :: y in Without(queues[i], x) ==> y in queues[i]
    ensures Queues(queues[i := Without(queues[i], x)], heads[i := HeadSkipped(heads[i], x, prev, next)],
                   PrevSkipped(x, prev, next), NextSkipped(x, prev, next))
  {
    hide Threaded, Chain;
    QueueCount(queues, heads, prev, next);
    QueueChain(queues, heads, prev, next, i);
    var j := IndexOf(queues[i], x);
    ThreadedSkip(Indexed(queues), Indexed(heads), prev, next, i, j);
    ChainSkip(queues[i], heads[i], prev, next, j);
    ChainHead(queues[i], heads[i], prev, next);
    WithoutIndex(queues[i], x);
    WithoutDistinct(queues[i], x);
    IndexedUpdate(queues, i, Without(queues[i], x));
    IndexedUpdate(heads, i, HeadSkipped(heads[i], x, prev, next));
  }

  lemma {:induction false} WithoutIndex(s: seq<nat>, x: nat)
    requires x in s
    ensures Without(s, x) == s[..IndexOf(s, x)] + s[IndexOf(s, x) + 1..]
  {
    if s[0] != x {
      WithoutIndex(s[1..], x);
    }
  }

  lemma QueueForget(queues: seq<seq<nat>>, heads: seq<nat>, prev: map<nat, nat>, next: map<nat, nat>, x: nat)
    requires Queues(queues, heads, prev, next) && forall j :: 0 <= j < |queues| ==> x !in queues[j]
    ensures Queues(queues, heads, prev - {x}, next - {x})
  {
    ThreadedForget(Indexed(queues), Indexed(heads), prev, next, x);
  }

  // The lists of children: those of all processes, and that of a process that init collects.
  function Kids(procs: map<nat, Pcb>, limbo: Limbo): map<nat, seq<nat>> {
    var own := map p | p in procs :: procs[p].children;
    if limbo.Reaped? && limbo.pid !in procs then own[limbo.pid := limbo.orphans] else own
  }

  ghost predicate LimboApart(procs: map<nat, Pcb>, limbo: Limbo) {
    limbo.Reaped? ==> limbo.pid !in procs
  }

  lemma KidsAt(procs: map<nat, Pcb>, limbo: Limbo)
    ensures forall p :: p in procs ==> p in Kids(procs, limbo) && Kids(procs, limbo)[p] == procs[p].children
    ensures limbo.Reaped? && LimboApart(procs, limbo) ==>
              limbo.pid in Kids(procs, limbo) && Kids(procs, limbo)[limbo.pid] == limbo.orphans
    ensures forall b: nat :: b in Kids(procs, limbo) ==> b in procs || (limbo.Reaped? && b == limbo.pid)
  {
  }

  // From first[p] the sibling fields spell the children of p, and nobody has two parents.
  ghost predicate Siblings(procs: map<nat, Pcb>, limbo: Limbo, first: map<nat, nat>, prev: map<nat, nat>,
      next: map<nat, nat>)
  {
    Threaded(Kids(procs, limbo), first, prev, next)
  }

  lemma SiblingsFrame(procs: map<nat, Pcb>, procs': map<nat, Pcb>, limbo: Limbo, first: map<nat, nat>,
      prev: map<nat, nat>, next: map<nat, nat>)
    requires Siblings(procs, limbo, first, prev, next) && procs'.Keys == procs.Keys
    requires forall p :: p in procs ==> p in procs' && procs'[p].children == procs[p].children
    ensures Siblings(procs', limbo, first, prev, next)
  {
    SameKids(procs, procs', limbo);
  }

  lemma SameKids(procs: map<nat, Pcb>, procs': map<nat, Pcb>, limbo: Limbo)
    requires procs'.Keys == procs.Keys
    requires forall p :: p in procs ==> p in procs' && procs'[p].children == procs[p].children
    ensures Kids(procs', limbo) == Kids(procs, limbo)
  {
    var own, own' := map p | p in procs :: procs[p].children, map p | p in procs' :: procs'[p].children;
    assert forall p :: p in procs' <==> p in procs'.Keys;
    assert own' == own;
  }

  lemma ChildChain(procs: map<nat, Pcb>, limbo: Limbo, first: map<nat, nat>, prev: map<nat, nat>,
      next: map<nat, nat>, p: nat)
    requires Siblings(procs, limbo, first, prev, next) && p in procs
    ensures p in first && Chain(procs[p].children, first[p], prev, next)
    ensures first[p] == At(procs[p].children, 0) && (first[p] == NULL <==> procs[p].children == []) &&
              NULL !in procs[p].children
  {
    KidsAt(procs, limbo);
    ThreadedAt(Kids(procs, limbo), first, prev, next, p);
  }

  lemma LimboChain(procs: map<nat, Pcb>, limbo: Limbo, first: map<nat, nat>, prev: map<nat, nat>, next: map<nat, nat>)
    requires Siblings(procs, limbo, first, prev, next) && limbo.Reaped? && LimboApart(procs, limbo)
    ensures limbo.pid in first && Chain(limbo.orphans, first[limbo.pid], prev, next)
    ensures first[limbo.pid] == At(limbo.orphans, 0) && (first[limbo.pid] == NULL <==> limbo.orphans == [])
    ensures NULL !in limbo.orphans
  {
    KidsAt(procs, limbo);
    ThreadedAt(Kids(procs, limbo), first, prev, next, limbo.pid);
  }

  // A process that nobody lists.
  ghost predicate Unlisted(procs: map<nat, Pcb>, limbo: Limbo, x: nat) {
    (forall q :: q in procs ==> x !in procs[q].children) && (limbo.Reaped? ==> x !in limbo.orphans)
  }

  lemma UnlistedKids(procs: map<nat, Pcb>, limbo: Limbo, x: nat)
    requires Unlisted(procs, limbo, x)
    ensures forall b: nat {:trigger Kids(procs, limbo)[b]} :: b in Kids(procs, limbo) ==> x !in Kids(procs, limbo)[b]
  {
  }

  lemma KidsUpdate(procs: map<nat, Pcb>, limbo: Limbo, p: nat, pcb: Pcb)
    requires limbo.Reaped? ==> p != limbo.pid
    ensures Kids(procs[p := pcb], limbo) == Kids(procs, limbo)[p := pcb.children]
  {
    var procs' := procs[p := pcb];
    var own, own' := map q | q in procs :: procs[q].children, map q | q in procs' :: procs'[q].children;
    assert own' == own[p := pcb.children];
  }

  // A new process has no children, and its node has NULL links to siblings.
  lemma SiblingNew(procs: map<nat, Pcb>, limbo: Limbo, first: map<nat, nat>, prev: map<nat, nat>, next: map<nat, nat>,
      parent: nat, pid: nat, pcb: Pcb)
    requires Siblings(procs, limbo, first, prev, next) && parent in procs && pid !in procs && pid != NULL
    requires pcb.children == [] && Unlisted(procs, limbo, pid)
    requires limbo.Reaped? ==> limbo.pid != pid && limbo.pid !in procs
    ensures parent in first
    ensures var s := procs[parent].children;
            Siblings(procs[parent := procs[parent].(children := s + [pid])][pid := pcb], limbo,
                     first[pid := NULL][parent := if s == [] then pid else first[parent]],
                     prev[pid := At(s, |s| - 1)], NextJoined(s, pid, next[pid := NULL]))
  {
    hide Threaded, Chain, Kids, Unlisted;
    var s := procs[parent].children;
    var kin := procs[parent].(children := s + [pid]);
    ChildChain(procs, limbo, first, prev, next, parent);
    var lists: map<nat, seq<nat>> := Kids(procs, limbo);
    KidsAt(procs, limbo);
    UnlistedKids(procs, limbo, pid);
    ThreadedNew(lists, first, prev, next, pid);
    ThreadedAppend(lists[pid := []], first[pid := NULL], prev[pid := NULL], next[pid := NULL], parent, pid);
    assert prev[pid := NULL][pid := At(s, |s| - 1)] == prev[pid := At(s, |s| - 1)];
    KidsUpdate(procs, limbo, parent, kin);
    KidsUpdate(procs[parent := kin], limbo, pid, pcb);
    assert lists[parent := s + [pid]][pid := []] == lists[pid := []][parent := s + [pid]];
  }

  lemma SiblingSkip(procs: map<nat, Pcb>, limbo: Limbo, first: map<nat, nat>, prev: map<nat, nat>, next: map<nat, nat>,
      p: nat, c: nat, pcb: Pcb)
    requires Siblings(procs, limbo, first, prev, next) && p in procs && c in procs[p].children
    requires pcb.children == Without(procs[p].children, c) && LimboApart(procs, limbo)
    ensures p in first && c in prev && c in next && prev[c] != c && next[c] != c
    ensures Unlisted(procs[p := pcb], limbo, c)
    ensures Siblings(procs[p := pcb], limbo, first[p := HeadSkipped(first[p], c, prev, next)],
                     PrevSkipped(c, prev, next), NextSkipped(c, prev, next))
  {
    hide Chain, Threaded, Kids;
    ChildChain(procs, limbo, first, prev, next, p);
    var children := procs[p].children;
    var j := IndexOf(children, c);
    var lists: map<nat, seq<nat>> := Kids(procs, limbo);
    KidsAt(procs, limbo);
    ThreadedSkip(lists, first, prev, next, p, j);
    ChainSkip(children, first[p], prev, next, j);
    ChainHead(children, first[p], prev, next);
    WithoutIndex(children, c);
    WithoutDistinct(children, c);
    KidsUpdate(procs, limbo, p, pcb);
    forall b: nat | b in lists && b != p ensures c !in lists[b] {
      ListsApart(lists, first, prev, next, p, b, c);
    }
    assert forall q :: q in procs && q != p ==> lists[q] == procs[q].children;
  }

  lemma ListsApart(lists: map<nat, seq<nat>>, heads: map<nat, nat>, prev: map<nat, nat>, next: map<nat, nat>, a: nat,
      b: nat, x: nat)
    requires Threaded(lists, heads, prev, next) && a in lists && b in lists && a != b && x in lists[a]
    ensures x !in lists[b]
  {
  }

  // Process c goes away; a has the children of both.
  ghost predicate Bequeathed(procs: map<nat, Pcb>, procs': map<nat, Pcb>, a: nat, c: nat) {
    && a in procs && c in procs && a != c
    && procs'.Keys == procs.Keys - {c}
    && forall q :: q in procs && q != c ==>
         q in procs' && procs'[q].children ==
             if q == a then procs[a].children + procs[c].children else procs[q].children
  }

  lemma BequeathedKids(procs: map<nat, Pcb>, procs': map<nat, Pcb>, limbo: Limbo, a: nat, c: nat)
    requires Bequeathed(procs, procs', a, c) && LimboApart(procs, limbo)
    ensures Kids(procs', limbo) == Kids(procs, limbo)[a := procs[a].children + procs[c].children] - {c}
  {
    var l: map<nat, seq<nat>> := Kids(procs', limbo);
    var r: map<nat, seq<nat>> := Kids(procs, limbo)[a := procs[a].children + procs[c].children] - {c};
    assert forall q :: q in procs' <==> q in procs'.Keys;
    assert l.Keys == r.Keys;
    forall q: nat | q in l ensures l[q] == r[q] {
    }
  }

  lemma NotListed(procs: map<nat, Pcb>, procs': map<nat, Pcb>, limbo: Limbo, a: nat, c: nat)
    requires Bequeathed(procs, procs', a, c) && Unlisted(procs, limbo, c)
    ensures Unlisted(procs', limbo, c)
  {
    assert forall q :: q in procs' <==> q in procs'.Keys;
  }

  lemma SiblingFreed(procs: map<nat, Pcb>, procs': map<nat, Pcb>, limbo: Limbo, first: map<nat, nat>,
      prev: map<nat, nat>, next: map<nat, nat>, a: nat, c: nat)
    requires Siblings(procs, limbo, first, prev, next) && Bequeathed(procs, procs', a, c) && procs[c].children == []
    requires Unlisted(procs, limbo, c) && LimboApart(procs, limbo)
    ensures Siblings(procs', limbo, first - {c}, prev - {c}, next - {c})
  {
    hide Threaded, Kids, Unlisted;
    BequeathedKids(procs, procs', limbo, a, c);
    NotListed(procs, procs', limbo, a, c);
    UnlistedKids(procs', limbo, c);
    KidsAt(procs, limbo);
    hide Bequeathed;
    var lists: map<nat, seq<nat>> := Kids(procs, limbo);
    assert procs[a].children + [] == procs[a].children == lists[a];
    assert lists[a := procs[a].children] == lists;
    ThreadedFree(lists, first, prev, next, c);
    ThreadedForget(lists - {c}, first - {c}, prev, next, c);
  }

  // In nobody's list of children, c passes its own to process a.
  lemma SiblingBequeath(procs: map<nat, Pcb>, procs': map<nat, Pcb>, limbo: Limbo, first: map<nat, nat>,
      prev: map<nat, nat>, next: map<nat, nat>, a: nat, c: nat)
    requires Siblings(procs, limbo, first, prev, next) && Bequeathed(procs, procs', a, c) && procs[c].children != []
    requires Unlisted(procs, limbo, c) && LimboApart(procs, limbo)
    ensures a in first && c in first
    ensures var s := procs[a].children;
            Siblings(procs', limbo, first[a := if s == [] then first[c] else first[a]] - {c},
                     prev[first[c] := At(s, |s| - 1)] - {c}, NextJoined(s, first[c], next) - {c})
  {
    hide Threaded, Chain, Kids, Unlisted;
    BequeathedKids(procs, procs', limbo, a, c);
    NotListed(procs, procs', limbo, a, c);
    UnlistedKids(procs', limbo, c);
    KidsAt(procs, limbo);
    ChildChain(procs, limbo, first, prev, next, a);
    ChildChain(procs, limbo, first, prev, next, c);
    hide Bequeathed;
    JoinAndForget(Kids(procs, limbo), first, prev, next, a, c);
  }

  // List c is hung behind list a, and its owner, which is in no list, goes away.
  lemma JoinAndForget(lists: map<nat, seq<nat>>, first: map<nat, nat>, prev: map<nat, nat>, next: map<nat, nat>,
      a: nat, c: nat)
    requires Threaded(lists, first, prev, next) && a in lists && c in lists && a != c && lists[c] != []
    requires forall b: nat {:trigger lists[b]} :: b in lists[a := lists[a] + lists[c]] - {c} ==> c !in lists[b]
    requires c !in lists[c]
    ensures a in first && c in first
    ensures var s := lists[a];
            Threaded(lists[a := s + lists[c]] - {c}, first[a := if s == [] then first[c] else first[a]] - {c},
                     prev[first[c] := At(s, |s| - 1)] - {c}, NextJoined(s, first[c], next) - {c})
  {
    hide Threaded, Chain;
    var s, t := lists[a], lists[c];
    ThreadedJoin(lists, first, prev, next, a, c);
    var lists': map<nat, seq<nat>> := lists[a := s + t];
    var first': map<nat, nat> := first[a := if s == [] then first[c] else first[a]];
    var prev', next' := prev[first[c] := At(s, |s| - 1)], NextJoined(s, first[c], next);
    ThreadedFree(lists'[c := []], first'[c := NULL], prev', next', c);
    assert first'[c := NULL] - {c} == first' - {c};
    assert lists'[c := []] - {c} == lists' - {c};
    ThreadedForget(lists' - {c}, first' - {c}, prev', next', c);
  }

  // init's children are those that the walk had met, and the orphans.
  ghost predicate HungLate(procs: map<nat, Pcb>, procs': map<nat, Pcb>, limbo: Limbo)
    requires limbo.Reaped?
  {
    && INIT in procs && procs'.Keys == procs.Keys
    && forall q :: q in procs ==>
         && q in procs'
         && procs'[q].children == if q == INIT then limbo.seen + limbo.orphans else procs[q].children
  }

  // The late store of init's collection: the orphans come behind those children of init that
  // the walk had met, and what has come behind these since is in no list any more.
  lemma SiblingLate(procs: map<nat, Pcb>, procs': map<nat, Pcb>, limbo: Limbo, first: map<nat, nat>,
      prev: map<nat, nat>, next: map<nat, nat>)
    requires Siblings(procs, limbo, first, prev, next) && limbo.Reaped? && LimboApart(procs, limbo)
    requires Unlisted(procs, limbo, limbo.pid) && INIT in procs && limbo.seen <= procs[INIT].children
    requires HungLate(procs, procs', limbo)
    ensures INIT in first && limbo.pid in first
    ensures var s, c := limbo.seen, limbo.pid;
            Siblings(procs', Nobody, first[INIT := if s == [] then first[c] else first[INIT]] - {c},
                     (if first[c] == NULL then prev else prev[first[c] := At(s, |s| - 1)]) - {c},
                     NextJoined(s, first[c], next) - {c})
  {
    hide Threaded, Chain, Kids;
    var s, t, c := limbo.seen, limbo.orphans, limbo.pid;
    var lists: map<nat, seq<nat>> := Kids(procs, limbo);
    KidsAt(procs, limbo);
    LimboChain(procs, limbo, first, prev, next);
    ThreadedCut(lists, first, prev, next, INIT, s);
    var lists1: map<nat, seq<nat>> := lists[INIT := s];
    var first1: map<nat, nat> := first[INIT := if s == [] then NULL else first[INIT]];
    var next1 := NextJoined(s, NULL, next);
    assert next1 == next || (s != [] && next1 == next[s[|s| - 1] := NULL]);
    LateKids(procs, procs', limbo);
    UnlistedKids(procs, limbo, c);
    assert NextJoined(s, first[c], next1) == NextJoined(s, first[c], next);
    assert forall y :: y in s ==> y in procs[INIT].children;
    hide NextJoined;
    if t == [] {
      assert s + [] == s;
      ThreadedFree(lists1, first1, prev, next1, c);
      ThreadedForget(lists1 - {c}, first1 - {c}, prev, next1, c);
    } else {
      JoinAndForget(lists1, first1, prev, next1, INIT, c);
      assert lists1[INIT := s + t] == lists[INIT := s + t];
      assert first1[INIT := if s == [] then first1[c] else first1[INIT]] ==
             first[INIT := if s == [] then first[c] else first[INIT]];
    }
  }

  lemma LateKids(procs: map<nat, Pcb>, procs': map<nat, Pcb>, limbo: Limbo)
    requires limbo.Reaped? && LimboApart(procs, limbo) && HungLate(procs, procs', limbo)
    ensures Kids(procs', Nobody) == Kids(procs, limbo)[INIT := limbo.seen + limbo.orphans] - {limbo.pid}
  {
    var l: map<nat, seq<nat>> := Kids(procs', Nobody);
    var r: map<nat, seq<nat>> := Kids(procs, limbo)[INIT := limbo.seen + limbo.orphans] - {limbo.pid};
    assert forall q :: q in procs' <==> q in procs'.Keys;
    assert forall q :: q in procs <==> q in procs.Keys;
    assert l.Keys == r.Keys;
    forall q: nat | q in l ensures l[q] == r[q] {
    }
  }

  // Where init's collection begins, a process and its list become that of the limbo.
  lemma LimboKids(procs: map<nat, Pcb>, c: nat, seen: seq<nat>)
    requires c in procs
    ensures Kids(procs - {c}, Reaped(c, procs[c].children, seen)) == Kids(procs, Nobody)
  {
    var l: map<nat, seq<nat>> := Kids(procs - {c}, Reaped(c, procs[c].children, seen));
    var r: map<nat, seq<nat>> := Kids(procs, Nobody);
    assert l.Keys == r.Keys;
    forall q: nat | q in l ensures l[q] == r[q] {
    }
  }

  lemma KidApart(procs: map<nat, Pcb>, limbo: Limbo, first: map<nat, nat>, prev: map<nat, nat>, next: map<nat, nat>,
      a: nat, b: nat, x: nat)
    requires Siblings(procs, limbo, first, prev, next) && a in procs && b in procs && x in procs[a].children &&
               x in procs[b].children
    ensures a == b
  {
    KidsAt(procs, limbo);
    if a != b {
      ListsApart(Kids(procs, limbo), first, prev, next, a, b, x);
    }
  }

  lemma KidsApart(procs: map<nat, Pcb>, limbo: Limbo, first: map<nat, nat>, prev: map<nat, nat>, next: map<nat, nat>,
      a: nat, b: nat)
    requires Siblings(procs, limbo, first, prev, next) && a in procs && b in procs && a != b
    ensures forall x :: x in procs[b].children ==> x !in procs[a].children
  {
    hide Siblings;
    forall x | x in procs[b].children ensures x !in procs[a].children {
      if x in procs[a].children {
        KidApart(procs, limbo, first, prev, next, a, b, x);
      }
    }
  }

  lemma BootLinked()
    ensures Queues(BootKernel().queues, [NULL, NULL, NULL, NULL, INIT], map[INIT := NULL], map[INIT := NULL])
    ensures Siblings(BootKernel().procs, Nobody, map[INIT := NULL], map[INIT := NULL], map[INIT := NULL])
  {
    var links: map<nat, nat> := map[INIT := NULL];
    EmptyChain(links, links);
    SingleChain(INIT, links, links);
  }
}
