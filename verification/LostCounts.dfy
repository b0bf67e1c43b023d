/** Inputs on which the reference counts of pipes go wrong: for each condition that OpenCounts
    proves necessary, a short history of calls that ends where it does not hold. */
module LostCounts {
  import opened OpenFiles
  import opened OpenCounts
  import M = Machine

  // The descriptors once processes 2 and 3 have been started beside init: standard streams.
  function Three(): Files {
    Files(map[1 := M.StandardTable(), 2 := M.StandardTable(), 3 := M.StandardTable()],
          map[1 := [], 2 := [], 3 := []], [], 3)
  }

  // mkpipe, then open for reading by process 2, which gets descriptor 4.
  function OneReader(): Files {
    OpenPipe(MakePipe(Three(), "p"), 2, 3, 'R').0
  }

  // open for writing by process 3 as well.
  function ReaderAndWriter(): Files {
    OpenPipe(OneReader(), 3, 3, 'W').0
  }

  lemma ThreeInv()
    ensures Inv(Three(), {1, 2, 3}) && Open(Three().fds, {1, 2, 3}) == {}
  {
    assert Open(Three().fds, {1, 2, 3}) == {};
  }

  lemma OneReaderIs()
    ensures Inv(OneReader(), {1, 2, 3})
    ensures OneReader() == Three().(fds := Three().fds[2 := M.StandardTable()[4 := Fd(3, 'R')]],
              pipes := [Pipe(3, "p", 1, 0)], nextId := 4)
  {
    OneReaderInv();
    hide Inv;
    var f := MakePipe(Three(), "p");
    assert f.pipes == [Pipe(3, "p", 0, 0)];
    assert f.fds[2] == M.StandardTable() && FreeFd(f.fds[2], 4) == 4;
  }

  lemma OneReaderInv()
    ensures Inv(OneReader(), {1, 2, 3})
  {
    hide Inv, Three, MakePipe, OpenPipe;
    ThreeInv();
    MakePipeInv(Three(), {1, 2, 3}, "p");
    OpenPipeInv(MakePipe(Three(), "p"), {1, 2, 3}, 2, 3, 'R');
  }

  lemma ReaderAndWriterIs()
    ensures Inv(ReaderAndWriter(), {1, 2, 3})
    ensures ReaderAndWriter() ==
            OneReader().(fds := OneReader().fds[3 := M.StandardTable()[4 := Fd(3, 'W')]], pipes := [Pipe(3, "p", 2, 1)])
  {
    OneReaderIs();
    OpenPipeInv(OneReader(), {1, 2, 3}, 3, 3, 'W');
  }

  // dup2 over standard input twice: the second call overwrites an open pipe end.
  lemma Dup2TwiceRun()
    ensures var f := Dup2(OneReader(), 2, 4, 0).0;
            Inv(f, {1, 2, 3}) && !Tally(Dup2(f, 2, 4, 0).0.pipes, Open(Dup2(f, 2, 4, 0).0.fds, {1, 2, 3}))
  {
    OneReaderIs();
    Dup2Inv(OneReader(), {1, 2, 3}, 2, 4, 0);
    Dup2KeepsIff(Dup2(OneReader(), 2, 4, 0).0, {1, 2, 3}, 2, 4, 0);
  }

  // dup2 to descriptor 5 twice, and one turn of the restoring loop: descriptor 5 now names
  // file 5, which is no pipe.
  lemma RevertHighRun()
    ensures var f := Dup2(Dup2(Three(), 2, 0, 5).0, 2, 1, 5).0;
            && Tally(f.pipes, Open(f.fds, {1, 2, 3}))
            && f.lost[2][0].index < |f.fds[2]| && !Tally(RevertOne(f, 2).pipes, Open(RevertOne(f, 2).fds, {1, 2, 3}))
  {
    var f := Dup2(Dup2(Three(), 2, 0, 5).0, 2, 1, 5).0;
    assert Open(f.fds, {1, 2, 3}) == {};
    RevertKeepsIff(f, {1, 2, 3}, 2);
  }

  // dup2 over a closed descriptor and restoring it leaves its number in the table.
  lemma RevertClosedRun()
    ensures RevertOne(Dup2(Three(), 2, 0, 5).0, 2) != Three()
  {
    Dup2Reverted(Three(), 2, 0, 5);
  }

  // No descriptor from number i to number j - 1 names a pipe.
  lemma {:induction false} CloseAllSkip(pipes: seq<Pipe>, table: seq<Fd>, i: nat, j: nat)
    requires i <= j <= |table| && forall k :: i <= k < j ==> !NamesPipe(table[k])
    ensures CloseAll(pipes, table, i) == CloseAll(pipes, table, j)
    decreases j - i
  {
    if i < j {
      CloseAllSkip(pipes, table, i + 1, j);
    }
  }

  // Closing all files of a table whose only pipe end is descriptor 4.
  lemma CloseAllOne(pipes: seq<Pipe>, e: Fd)
    requires NamesPipe(e)
    ensures CloseAll(pipes, M.StandardTable()[4 := e], 0) == Release(pipes, e)
  {
    hide Release;
    var table := M.StandardTable()[4 := e];
    CloseAllSkip(pipes, table, 0, 4);
    CloseAllSkip(Release(pipes, e), table, 5, |table|);
  }

  // What a kill of process 2 leaves of the open ends.
  lemma EndsOfTwo(f: Files)
    requires 2 in f.fds
    ensures Open(f.fds, {1, 2, 3}) == Open(f.fds, {1, 3}) + TableEnds(2, f.fds[2], 0)
    ensures Open(f.fds, {1, 3}) !! TableEnds(2, f.fds[2], 0)
  {
    var l, r := Open(f.fds, {1, 2, 3}), Open(f.fds, {1, 3}) + TableEnds(2, f.fds[2], 0);
    forall x ensures x in l <==> x in r {
      IsOpen(f.fds, {1, 2, 3}, x);
      IsOpen(f.fds, {1, 3}, x);
    }
  }

  // Process 2 is killed, and with its only end the pipe goes; a new process that inherits
  // its table has an open end of a pipe that is gone.
  lemma InheritStaleRun()
    ensures var f := OneReader();
            var pipes := CloseAll(f.pipes, f.fds[2], 0);
            && Tally(pipes, Open(f.fds, {1, 3}))
            && !Tally(Inherit(pipes, f.fds[2], 0), Open(f.fds, {1, 3}) + TableEnds(4, f.fds[2], 0))
  {
    OneReaderIs();
    var f := OneReader();
    EndsOfTwo(f);
    CloseAllTally(f.pipes, Open(f.fds, {1, 3}), 2, f.fds[2], 0);
    CloseAllOne(f.pipes, Fd(3, 'R'));
    var pipes := CloseAll(f.pipes, f.fds[2], 0);
    assert f.fds[2][4] == Fd(3, 'R') && pipes == [];
    InheritKeepsIff(pipes, Open(f.fds, {1, 3}), 4, f.fds[2]);
  }

  // Process 2 is killed twice while process 3 keeps its end of the pipe: that end is counted down
  // instead, and the pipe goes although it is open.
  lemma KilledTwiceRun()
    ensures var f := ReaderAndWriter();
            var pipes := CloseAll(f.pipes, f.fds[2], 0);
            Tally(pipes, Open(f.fds, {1, 3})) && !Tally(CloseAll(pipes, f.fds[2], 0), Open(f.fds, {1, 3}))
  {
    OneReaderIs();
    ReaderAndWriterIs();
    var f := ReaderAndWriter();
    EndsOfTwo(f);
    CloseAllTally(f.pipes, Open(f.fds, {1, 3}), 2, f.fds[2], 0);
    CloseAllOne(f.pipes, Fd(3, 'R'));
    var pipes := CloseAll(f.pipes, f.fds[2], 0);
    assert f.fds[2][4] == Fd(3, 'R') && pipes == [Pipe(3, "p", 1, 1)];
    CloseAgainKeepsIff(pipes, Open(f.fds, {1, 3}), f.fds[2], 0);
  }
}
