/** When the reference counts of pipes stay exact: inheriting, duplicating, restoring and
    closing descriptors, and the cases in which the code loses count. */
module OpenCounts {
  import opened OpenFiles

  // Counts that ignore descriptor e because it names no pipe.
  lemma ModifyNothing(pipes: seq<Pipe>, e: Fd, units: int)
    requires !HasPipe(pipes, e.file)
    ensures Modify(pipes, e, units) == pipes
  {
  }

  lemma NoPipeBelow(pipes: seq<Pipe>, open: set<End>, id: int)
    requires Tally(pipes, open) && id <= STDERR
    ensures !HasPipe(pipes, id)
  {
  }

  // A pipe whose count is off by something spoils the tally.
  lemma Miscount(pipes: seq<Pipe>, open: set<End>, id: int)
    requires HasPipe(pipes, id) && pipes[PipeIndex(pipes, id)].opens != |Ends(open, id)|
    ensures !Tally(pipes, open)
  {
    assert !Counts(pipes[PipeIndex(pipes, id)], open);
  }

  // dup2 keeps the counts exact if and only if the descriptor it overwrites is not an open
  // pipe end: that end disappears without being counted down.
  lemma Dup2KeepsIff(f: Files, live: set<nat>, p: nat, from: nat, to: nat)
    requires Inv(f, live) && p in live && from < MAX_FD_COUNT && to < MAX_FD_COUNT
    ensures p in f.fds && |f.fds[p]| == MAX_FD_COUNT && p in f.lost
    ensures var f' := Dup2(f, p, from, to).0;
            Tally(f'.pipes, Open(f'.fds, live)) <==> !NamesPipe(f.fds[p][to])
  {
    assert Tidy(f.fds[p], f.lost[p]);
    var table, open := f.fds[p], Open(f.fds, live);
    var e, old_ := table[from], table[to];
    var f' := Dup2(f, p, from, to).0;
    var open' := Open(f'.fds, live);
    OpenUpdate(f.fds, live, p, to, e);
    IsOpen(f.fds, live, End(p, from, e));
    ModifyIds(f.pipes, e, 1);
    if !NamesPipe(e) {
      NoPipeBelow(f.pipes, open, e.file);
      ModifyNothing(f.pipes, e, 1);
    }
    if !NamesPipe(old_) {
      assert open - {End(p, to, old_)} == open;
      if NamesPipe(e) {
        OpenTally(f.pipes, open, End(p, to, e));
      }
    } else {
      EndsMinus(open, End(p, to, old_), old_.file);
      if NamesPipe(e) {
        EndsPlus(open - {End(p, to, old_)}, End(p, to, e), old_.file);
      }
      IndexCount(f.pipes, open, old_.file);
      Miscount(f'.pipes, open', old_.file);
    }
  }

  lemma IndexCount(pipes: seq<Pipe>, open: set<End>, id: int)
    requires Tally(pipes, open) && HasPipe(pipes, id)
    ensures pipes[PipeIndex(pipes, id)].opens == |Ends(open, id)|
  {
    assert Counts(pipes[PipeIndex(pipes, id)], open);
  }

  lemma Dup2Inv(f: Files, live: set<nat>, p: nat, from: nat, to: nat)
    requires Inv(f, live) && p in live && from < MAX_FD_COUNT && to <= STDERR
    requires p in f.fds && |f.fds[p]| == MAX_FD_COUNT && p in f.lost && !NamesPipe(f.fds[p][to])
    ensures Inv(Dup2(f, p, from, to).0, live)
  {
    Dup2KeepsIff(f, live, p, from, to);
    ModifyIds(f.pipes, f.fds[p][from], 1);
    assert Tidy(f.fds[p], f.lost[p]);
    var f' := Dup2(f, p, from, to).0;
    assert Tidy(f'.fds[p], f'.lost[p]);
  }

  // Restoring one descriptor keeps the counts exact if and only if the number written back
  // is that of a standard stream or the descriptor comes back closed.
  lemma RevertKeepsIff(f: Files, live: set<nat>, p: nat)
    requires Tally(f.pipes, Open(f.fds, live)) && p in live && p in f.fds && p in f.lost && f.lost[p] != []
    requires |f.fds[p]| == MAX_FD_COUNT && f.lost[p][0].index < MAX_FD_COUNT
    requires forall i :: 0 <= i < MAX_FD_COUNT ==> f.fds[p][i].mode != 'N' || f.fds[p][i].file <= STDERR
    ensures var f', r := RevertOne(f, p), f.lost[p][0];
            Tally(f'.pipes, Open(f'.fds, live)) <==> r.index <= STDERR || r.entry.mode == 'N'
  {
    var f', r := RevertOne(f, p), f.lost[p][0];
    var open, e, back := Open(f.fds, live), f.fds[p][r.index], Fd(r.index, r.entry.mode);
    OpenUpdate(f.fds, live, p, r.index, back);
    ModifyIds(f.pipes, e, -1);
    var rest := open - {End(p, r.index, e)};
    if NamesPipe(e) {
      DropTally(f.pipes, open, End(p, r.index, e));
    } else {
      NoPipeBelow(f.pipes, open, e.file);
      ModifyNothing(f.pipes, e, -1);
      assert rest == open;
    }
    if NamesPipe(back) {
      EndsPlus(rest, End(p, r.index, back), back.file);
      assert End(p, r.index, back) in Open(f'.fds, live);
      if HasPipe(f'.pipes, back.file) {
        IndexCount(f'.pipes, rest, back.file);
        Miscount(f'.pipes, rest + {End(p, r.index, back)}, back.file);
      }
    }
  }

  // Restoring a descriptor never removes a pipe: it leaves one that nobody has open if and
  // only if the descriptor was the last open end.
  lemma RevertLeavesIff(f: Files, live: set<nat>, p: nat)
    requires Tally(f.pipes, Open(f.fds, live)) && p in live && p in f.fds && p in f.lost && f.lost[p] != []
    requires f.lost[p][0].index < |f.fds[p]| && NamesPipe(f.fds[p][f.lost[p][0].index])
    ensures var r, e := f.lost[p][0], f.fds[p][f.lost[p][0].index];
            var pipes := RevertOne(f, p).pipes;
            && HasPipe(pipes, e.file)
            && (pipes[PipeIndex(pipes, e.file)].opens == 0 <==>
                  Ends(Open(f.fds, live), e.file) == {End(p, r.index, e)})
  {
    var r, e := f.lost[p][0], f.fds[p][f.lost[p][0].index];
    var open, end := Open(f.fds, live), End(p, r.index, e);
    IsOpen(f.fds, live, end);
    ModifyIds(f.pipes, e, -1);
    IndexCount(f.pipes, open, e.file);
    var ends := Ends(open, e.file);
    assert end in ends;
    if |ends| == 1 {
      assert ends == {end} + (ends - {end}) && |ends - {end}| == 0;
    }
  }

  lemma RevertInv(f: Files, live: set<nat>, p: nat)
    requires Inv(f, live) && p in live && p in f.lost && f.lost[p] != []
    ensures p in f.fds && |f.fds[p]| == MAX_FD_COUNT && f.lost[p][0].index < MAX_FD_COUNT
    ensures Inv(RevertOne(f, p), live)
  {
    assert Tidy(f.fds[p], f.lost[p]) && f.lost[p][0] in f.lost[p];
    RevertKeepsIff(f, live, p);
    ModifyIds(f.pipes, f.fds[p][f.lost[p][0].index], -1);
    var f' := RevertOne(f, p);
    assert Tidy(f'.fds[p], f'.lost[p]);
  }

  // The whole loop of revertFdReplacements.
  function Reverted(f: Files, p: nat): Files
    requires p in f.fds && p in f.lost && forall r :: r in f.lost[p] ==> r.index < |f.fds[p]|
    decreases if p in f.lost then |f.lost[p]| else 0
  {
    if f.lost[p] == [] then f else Reverted(RevertOne(f, p), p)
  }

  lemma {:induction false} RevertedInv(f: Files, live: set<nat>, p: nat)
    requires Inv(f, live) && p in live
    ensures p in f.fds && p in f.lost && (forall r :: r in f.lost[p] ==> r.index < |f.fds[p]|)
    ensures Inv(Reverted(f, p), live)
    decreases if p in f.lost then |f.lost[p]| else 0
  {
    TidyTable(f, live, p);
    hide Inv;
    if f.lost[p] != [] {
      RevertInv(f, live, p);
      RevertedInv(RevertOne(f, p), live, p);
    }
  }

  lemma TidyTable(f: Files, live: set<nat>, p: nat)
    requires Inv(f, live) && p in live
    ensures p in f.fds && p in f.lost && |f.fds[p]| == MAX_FD_COUNT
    ensures forall r :: r in f.lost[p] ==> r.index <= STDERR
  {
    assert Tidy(f.fds[p], f.lost[p]);
  }

  // dup2 followed by the restoring loop gives back table and counts if and only if the
  // replaced descriptor held its own number.
  lemma Dup2Reverted(f: Files, p: nat, from: nat, to: nat)
    requires p in f.fds && p in f.lost && |f.fds[p]| == MAX_FD_COUNT && from < MAX_FD_COUNT && to < MAX_FD_COUNT
    ensures RevertOne(Dup2(f, p, from, to).0, p) == f <==> f.fds[p][to].file == to
  {
    var table := f.fds[p];
    var f1 := Dup2(f, p, from, to).0;
    var f2 := RevertOne(f1, p);
    ModifyIds(f.pipes, table[from], 1);
    ModifyBack(f.pipes, table[from]);
    assert f2.lost[p] == f.lost[p];
    assert f2.lost == f.lost;
    assert f2.fds[p] == table[to := Fd(to, table[to].mode)];
    if table[to].file == to {
      assert f2.fds[p] == table;
      assert f2.fds == f.fds;
    } else {
      assert f2.fds[p][to] != table[to];
    }
  }

  lemma ModifyBack(pipes: seq<Pipe>, e: Fd)
    ensures Modify(Modify(pipes, e, 1), e, -1) == pipes
  {
    ModifyIds(pipes, e, 1);
    var i := PipeIndex(pipes, e.file);
    if i < |pipes| {
      assert Modify(Modify(pipes, e, 1), e, -1)[i] == pipes[i];
    }
  }

  // The open ends among the descriptors from number i on.
  ghost function TableEnds(p: nat, table: seq<Fd>, i: nat): set<End> {
    set j: nat | i <= j < |table| && NamesPipe(table[j]) :: End(p, j, table[j])
  }

  lemma TableEndsNext(p: nat, table: seq<Fd>, i: nat)
    requires i < |table|
    ensures TableEnds(p, table, i) ==
            if NamesPipe(table[i]) then TableEnds(p, table, i + 1) + {End(p, i, table[i])}
                else TableEnds(p, table, i + 1)
    ensures End(p, i, table[i]) !in TableEnds(p, table, i + 1)
  {
  }

  // The copying loop of startProcess: one more end for every inherited pipe descriptor.
  function Inherit(pipes: seq<Pipe>, table: seq<Fd>, i: nat): seq<Pipe>
    requires i <= |table|
    decreases |table| - i
  {
    if i == |table| then pipes
    else Inherit(if NamesPipe(table[i]) then Modify(pipes, table[i], 1) else pipes, table, i + 1)
  }

  lemma {:induction false} InheritIds(pipes: seq<Pipe>, table: seq<Fd>, i: nat)
    requires i <= |table|
    ensures |Inherit(pipes, table, i)| == |pipes|
    ensures forall id :: HasPipe(Inherit(pipes, table, i), id) <==> HasPipe(pipes, id)
    ensures forall j :: 0 <= j < |pipes| ==> Inherit(pipes, table, i)[j].id == pipes[j].id
    decreases |table| - i
  {
    if i < |table| {
      ModifyIds(pipes, table[i], 1);
      InheritIds(if NamesPipe(table[i]) then Modify(pipes, table[i], 1) else pipes, table, i + 1);
    }
  }

  lemma {:induction false} InheritTally(pipes: seq<Pipe>, open: set<End>, p: nat, table: seq<Fd>, i: nat)
    requires i <= |table| && Tally(pipes, open) && open !! TableEnds(p, table, i)
    requires forall j :: i <= j < |table| && NamesPipe(table[j]) ==> HasPipe(pipes, table[j].file)
    ensures Tally(Inherit(pipes, table, i), open + TableEnds(p, table, i))
    decreases |table| - i
  {
    hide Tally, Modify;
    if i == |table| {
      assert open + TableEnds(p, table, i) == open;
    } else {
      TableEndsNext(p, table, i);
      if NamesPipe(table[i]) {
        var e := End(p, i, table[i]);
        assert e in TableEnds(p, table, i);
        OpenTally(pipes, open, e);
        ModifyIds(pipes, table[i], 1);
        InheritTally(Modify(pipes, table[i], 1), open + {e}, p, table, i + 1);
        assert open + {e} + TableEnds(p, table, i + 1) == open + TableEnds(p, table, i);
      } else {
        InheritTally(pipes, open, p, table, i + 1);
      }
    }
  }

  // A new process that inherits table leaves the counts exact if and only if every pipe
  // named in the table still exists. (Only the table of a finished process can fail.)
  lemma InheritKeepsIff(pipes: seq<Pipe>, open: set<End>, p: nat, table: seq<Fd>)
    requires Tally(pipes, open) && forall e :: e in open ==> e.pid != p
    ensures Tally(Inherit(pipes, table, 0), open + TableEnds(p, table, 0)) <==>
            forall j :: 0 <= j < |table| && NamesPipe(table[j]) ==> HasPipe(pipes, table[j].file)
  {
    InheritIds(pipes, table, 0);
    if forall j :: 0 <= j < |table| && NamesPipe(table[j]) ==> HasPipe(pipes, table[j].file) {
      InheritTally(pipes, open, p, table, 0);
    } else {
      var j :| 0 <= j < |table| && NamesPipe(table[j]) && !HasPipe(pipes, table[j].file);
      assert End(p, j, table[j]) in open + TableEnds(p, table, 0);
    }
  }

  // The closing loop of _killProcess.
  function CloseAll(pipes: seq<Pipe>, table: seq<Fd>, i: nat): seq<Pipe>
    requires i <= |table|
    decreases |table| - i
  {
    if i == |table| then pipes
    else CloseAll(if NamesPipe(table[i]) then Release(pipes, table[i]) else pipes, table, i + 1)
  }

  // The pipes whose readers it wakes, in order.
  function Wakes(pipes: seq<Pipe>, table: seq<Fd>, i: nat): seq<int>
    requires i <= |table|
    decreases |table| - i
  {
    if i == |table| then []
    else if NamesPipe(table[i]) then
      (if WakesReaders(pipes, table[i]) then [table[i].file] else []) + Wakes(Release(pipes, table[i]), table, i + 1)
    else Wakes(pipes, table, i + 1)
  }

  lemma {:induction false} CloseAllTally(pipes: seq<Pipe>, open: set<End>, p: nat, table: seq<Fd>, i: nat)
    requires i <= |table| && open !! TableEnds(p, table, i) && Tally(pipes, open + TableEnds(p, table, i))
    ensures Tally(CloseAll(pipes, table, i), open)
    decreases |table| - i
  {
    hide Tally, Release;
    if i == |table| {
      assert open + TableEnds(p, table, i) == open;
    } else {
      TableEndsNext(p, table, i);
      if NamesPipe(table[i]) {
        var e := End(p, i, table[i]);
        ReleaseTally(pipes, open + TableEnds(p, table, i), e);
        assert open + TableEnds(p, table, i) - {e} == open + TableEnds(p, table, i + 1);
        CloseAllTally(Release(pipes, table[i]), open, p, table, i + 1);
      } else {
        CloseAllTally(pipes, open, p, table, i + 1);
      }
    }
  }

  // Pipe id has too few ends on its count, or none left to count although some are open.
  ghost predicate Short(pipes: seq<Pipe>, open: set<End>, id: int) {
    if HasPipe(pipes, id) then pipes[PipeIndex(pipes, id)].opens < |Ends(open, id)| else 0 < |Ends(open, id)|
  }

  ghost predicate IdsDiffer(pipes: seq<Pipe>) {
    forall i, j :: 0 <= i < j < |pipes| ==> pipes[i].id != pipes[j].id
  }

  lemma RestDiffers(pipes: seq<Pipe>, i: nat)
    requires IdsDiffer(pipes) && i < |pipes|
    ensures IdsDiffer(pipes[..i] + pipes[i + 1..])
    ensures forall j :: 0 <= j < |pipes| && j != i ==> pipes[j].id != pipes[i].id
  {
    var rest := pipes[..i] + pipes[i + 1..];
    assert forall j :: 0 <= j < |rest| ==> rest[j] == pipes[if j < i then j else j + 1];
  }

  // Taking pipe i away leaves every other pipe where it can be found.
  lemma WithoutPipe(pipes: seq<Pipe>, i: nat, id: int)
    requires IdsDiffer(pipes) && i < |pipes|
    ensures var rest := pipes[..i] + pipes[i + 1..];
            && IdsDiffer(rest)
            && (HasPipe(rest, id) <==> HasPipe(pipes, id) && id != pipes[i].id)
            && (HasPipe(rest, id) ==> rest[PipeIndex(rest, id)] == pipes[PipeIndex(pipes, id)])
  {
    hide IdsDiffer;
    var rest := pipes[..i] + pipes[i + 1..];
    RestDiffers(pipes, i);
    if HasPipe(rest, id) {
      var j := PipeIndex(rest, id);
      PipeAt(pipes, if j < i then j else j + 1);
    } else if HasPipe(pipes, id) && id != pipes[i].id {
      var j := PipeIndex(pipes, id);
      PipeAt(rest, if j < i then j else j - 1);
    }
  }

  // Once short, further releases leave it short.
  lemma ReleaseShort(pipes: seq<Pipe>, open: set<End>, id: int, e: Fd)
    requires IdsDiffer(pipes)
    requires Short(pipes, open, id) ||
               (e.file == id && HasPipe(pipes, id) && pipes[PipeIndex(pipes, id)].opens == |Ends(open, id)|)
    ensures IdsDiffer(Release(pipes, e)) && Short(Release(pipes, e), open, id)
  {
    hide Ends, PipeIndex;
    ModifyIds(pipes, e, -1);
    var less := Modify(pipes, e, -1);
    var i := PipeIndex(pipes, e.file);
    assert IdsDiffer(less);
    assert HasPipe(pipes, id) ==> less[PipeIndex(less, id)].opens == pipes[PipeIndex(pipes, id)].opens - if e.file ==
        id then 1 else 0;
    if i < |pipes| && less[i].opens == 0 {
      WithoutPipe(less, i, id);
    }
  }

  lemma PipeAt(pipes: seq<Pipe>, j: nat)
    requires IdsDiffer(pipes) && j < |pipes|
    ensures PipeIndex(pipes, pipes[j].id) == j
  {
  }

  lemma {:induction false} CloseAllShort(pipes: seq<Pipe>, open: set<End>, id: int, table: seq<Fd>, i: nat)
    requires i <= |table| && IdsDiffer(pipes) && Short(pipes, open, id)
    ensures Short(CloseAll(pipes, table, i), open, id)
    decreases |table| - i
  {
    if i < |table| {
      if NamesPipe(table[i]) {
        ReleaseShort(pipes, open, id, table[i]);
        CloseAllShort(Release(pipes, table[i]), open, id, table, i + 1);
      } else {
        CloseAllShort(pipes, open, id, table, i + 1);
      }
    }
  }

  // Killing a process whose ends are no longer counted, because it is finished, keeps the
  // counts exact if and only if its stale table names no existing pipe.
  lemma {:induction false} CloseAgainKeepsIff(pipes: seq<Pipe>, open: set<End>, table: seq<Fd>, i: nat)
    requires i <= |table| && Tally(pipes, open)
    ensures Tally(CloseAll(pipes, table, i), open) <==>
            forall j :: i <= j < |table| && NamesPipe(table[j]) ==> !HasPipe(pipes, table[j].file)
    decreases |table| - i
  {
    hide Tally, Release, Short, Counts, PipeIndex;
    if i < |table| {
      if NamesPipe(table[i]) && HasPipe(pipes, table[i].file) {
        TallyIdsDiffer(pipes, open);
        IndexCount(pipes, open, table[i].file);
        ReleaseShort(pipes, open, table[i].file, table[i]);
        CloseAllShort(Release(pipes, table[i]), open, table[i].file, table, i + 1);
        ShortSpoils(CloseAll(pipes, table, i), open, table[i].file);
      } else {
        CloseAgainKeepsIff(pipes, open, table, i + 1);
        ReleaseNothing(pipes, table[i]);
      }
    }
  }

  lemma TallyIdsDiffer(pipes: seq<Pipe>, open: set<End>)
    requires Tally(pipes, open)
    ensures IdsDiffer(pipes)
  {
  }

  lemma ReleaseNothing(pipes: seq<Pipe>, e: Fd)
    ensures !HasPipe(pipes, e.file) ==> Release(pipes, e) == pipes
  {
  }

  lemma ShortSpoils(pipes: seq<Pipe>, open: set<End>, id: int)
    requires Short(pipes, open, id)
    ensures !Tally(pipes, open)
  {
    if HasPipe(pipes, id) {
      Miscount(pipes, open, id);
    } else {
      var e :| e in Ends(open, id);
      assert e in open && !HasPipe(pipes, e.entry.file);
    }
  }

  // Closing end e wakes the readers of its pipe if and only if it is the last writing end.
  lemma WakesReadersIff(pipes: seq<Pipe>, open: set<End>, e: End)
    requires Tally(pipes, open) && e in open
    ensures WakesReaders(pipes, e.entry) <==>
              |Writers(open, e.entry.file)| > 0 && |Writers(open - {e}, e.entry.file)| == 0
    ensures forall id :: id != e.entry.file ==> |Writers(open - {e}, id)| == |Writers(open, id)|
  {
    assert Counts(pipes[PipeIndex(pipes, e.entry.file)], open);
    EndsMinus(open, e, e.entry.file);
    forall id | id != e.entry.file ensures |Writers(open - {e}, id)| == |Writers(open, id)| {
      EndsMinus(open, e, id);
    }
  }

  // The closing loop of a kill wakes the readers of exactly those pipes that lose their last
  // writing end by it.
  lemma {:induction false} WakesIff(pipes: seq<Pipe>, open: set<End>, p: nat, table: seq<Fd>, i: nat, id: int)
    requires i <= |table| && open !! TableEnds(p, table, i) && Tally(pipes, open + TableEnds(p, table, i))
    ensures id in Wakes(pipes, table, i) <==>
              |Writers(open + TableEnds(p, table, i), id)| > 0 && |Writers(open, id)| == 0
    decreases |table| - i
  {
    hide Tally, Release, WakesReaders, Writers;
    var all := open + TableEnds(p, table, i);
    if i == |table| {
      assert all == open;
    } else {
      TableEndsNext(p, table, i);
      var rest := open + TableEnds(p, table, i + 1);
      if NamesPipe(table[i]) {
        var e := End(p, i, table[i]);
        ReleaseTally(pipes, all, e);
        assert all - {e} == rest;
        WakesReadersIff(pipes, all, e);
        WakesIff(Release(pipes, table[i]), open, p, table, i + 1, id);
        WritersShrink(open, rest, id);
        WritersShrink(rest, all, id);
      } else {
        WakesIff(pipes, open, p, table, i + 1, id);
      }
    }
  }

  lemma WritersShrink(a: set<End>, b: set<End>, id: int)
    requires a <= b
    ensures |Writers(a, id)| <= |Writers(b, id)|
  {
    assert Writers(b, id) == Writers(a, id) + (Writers(b, id) - Writers(a, id));
  }
}
