/** Pipes, file descriptors and their reference counts. */
module OpenFiles {
  import opened Options

  const MAX_FD_COUNT := 64
  const STDERR := 2

  // An entry of a process's table; mode is 'R', 'W', or 'N' for a closed one.
  datatype Fd = Fd(file: int, mode: char)

  const Closed := Fd(-1, 'N')

  // fdToFileId: the file that a descriptor stands for, -1 if it stands for none or not for
  // reading ('R') or writing ('W') as asked; 0 asks for either.
  function FdToFileId(table: seq<Fd>, fd: nat, mode: char): int
    requires |table| == MAX_FD_COUNT
  {
    if fd >= MAX_FD_COUNT || (mode != '\0' && mode != table[fd].mode) then -1 else table[fd].file
  }

  // A descriptor that dup2 replaced.
  datatype Lost = Lost(index: nat, entry: Fd)

  // opens is currentOpenCount, writers is writeOpenCount.
  datatype Pipe = Pipe(id: int, name: string, opens: int, writers: int)

  // An open pipe end: the process, the descriptor, and what the descriptor holds.
  datatype End = End(pid: nat, fd: nat, entry: Fd)

  predicate NamesPipe(e: Fd) {
    e.file > STDERR && e.mode != 'N'
  }

  function PipeIndex(pipes: seq<Pipe>, id: int): (i: nat)
    ensures i <= |pipes| && (i < |pipes| ==> pipes[i].id == id)
    ensures forall j :: 0 <= j < i ==> pipes[j].id != id
  {
    if pipes == [] || pipes[0].id == id then 0 else 1 + PipeIndex(pipes[1..], id)
  }

  predicate HasPipe(pipes: seq<Pipe>, id: int) {
    PipeIndex(pipes, id) < |pipes|
  }

  ghost function Ends(open: set<End>, id: int): set<End> {
    set e | e in open && e.entry.file == id
  }

  ghost function Writers(open: set<End>, id: int): set<End> {
    set e | e in open && e.entry.file == id && e.entry.mode == 'W'
  }

  // The counts of pipe p are the numbers of open ends, and of writing ends, that name it.
  ghost predicate Counts(p: Pipe, open: set<End>) {
    p.opens == |Ends(open, p.id)| && p.writers == |Writers(open, p.id)|
  }

  ghost predicate Tally(pipes: seq<Pipe>, open: set<End>) {
    && (forall i, j :: 0 <= i < j < |pipes| ==> pipes[i].id != pipes[j].id)
    && (forall i :: 0 <= i < |pipes| ==> pipes[i].id > STDERR && Counts(pipes[i], open))
    && (forall e :: e in open ==> NamesPipe(e.entry) && HasPipe(pipes, e.entry.file))
  }

  // modifyOpenCount
  function Modify(pipes: seq<Pipe>, e: Fd, units: int): seq<Pipe> {
    var i := PipeIndex(pipes, e.file);
    if i == |pipes| then pipes
    else
      pipes[i := pipes[i].(opens := pipes[i].opens + units,
                           writers := if e.mode == 'W' then pipes[i].writers + units else pipes[i].writers)]
  }

  // The count part of close and closeForKilling: the last end to go takes the pipe along,
  // and the last writing end wakes the readers.
  function Release(pipes: seq<Pipe>, e: Fd): seq<Pipe> {
    var i := PipeIndex(pipes, e.file);
    var less := Modify(pipes, e, -1);
    if i < |pipes| && less[i].opens == 0 then less[..i] + less[i + 1..] else less
  }

  function WakesReaders(pipes: seq<Pipe>, e: Fd): bool {
    var i := PipeIndex(pipes, e.file);
    i < |pipes| && e.mode == 'W' && pipes[i].writers == 1
  }

  lemma IndexOfPipe(pipes: seq<Pipe>, open: set<End>, i: nat)
    requires Tally(pipes, open) && i < |pipes|
    ensures PipeIndex(pipes, pipes[i].id) == i
  {
  }

  lemma EndsPlus(open: set<End>, e: End, id: int)
    requires e !in open
    ensures |Ends(open + {e}, id)| == |Ends(open, id)| + if e.entry.file == id then 1 else 0
    ensures |Writers(open + {e}, id)| == |Writers(open, id)| + if e.entry.file == id && e.entry.mode == 'W' then 1
              else 0
  {
    assert Ends(open + {e}, id) == if e.entry.file == id then Ends(open, id) + {e} else Ends(open, id);
    assert Writers(open + {e}, id) ==
           if e.entry.file == id && e.entry.mode == 'W' then Writers(open, id) + {e} else Writers(open, id);
  }

  lemma EndsMinus(open: set<End>, e: End, id: int)
    requires e in open
    ensures |Ends(open, id)| == |Ends(open - {e}, id)| + if e.entry.file == id then 1 else 0
    ensures |Writers(open, id)| == |Writers(open - {e}, id)| + if e.entry.file == id && e.entry.mode == 'W' then 1
              else 0
  {
    EndsPlus(open - {e}, e, id);
    assert open - {e} + {e} == open;
  }

  // Opening one more end of an existing pipe.
  lemma OpenTally(pipes: seq<Pipe>, open: set<End>, e: End)
    requires Tally(pipes, open) && e !in open && NamesPipe(e.entry) && HasPipe(pipes, e.entry.file)
    ensures Tally(Modify(pipes, e.entry, 1), open + {e})
  {
    var pipes' := Modify(pipes, e.entry, 1);
    ModifyIds(pipes, e.entry, 1);
    forall i | 0 <= i < |pipes'|
      ensures Counts(pipes'[i], open + {e})
    {
      EndsPlus(open, e, pipes[i].id);
      IndexOfPipe(pipes, open, i);
    }
  }

  lemma {:induction false} SameIds(pipes: seq<Pipe>, pipes': seq<Pipe>, id: int)
    requires |pipes| == |pipes'| && forall i :: 0 <= i < |pipes| ==> pipes'[i].id == pipes[i].id
    ensures PipeIndex(pipes', id) == PipeIndex(pipes, id)
  {
    if pipes != [] && pipes[0].id != id {
      SameIds(pipes[1..], pipes'[1..], id);
    }
  }

  lemma ModifyIds(pipes: seq<Pipe>, e: Fd, units: int)
    ensures |Modify(pipes, e, units)| == |pipes|
    ensures forall id :: PipeIndex(Modify(pipes, e, units), id) == PipeIndex(pipes, id)
  {
    forall id ensures PipeIndex(Modify(pipes, e, units), id) == PipeIndex(pipes, id) {
      SameIds(pipes, Modify(pipes, e, units), id);
    }
  }

  // Closing an end without removing its pipe, as revertFdReplacements does.
  lemma DropTally(pipes: seq<Pipe>, open: set<End>, e: End)
    requires Tally(pipes, open) && e in open
    ensures Tally(Modify(pipes, e.entry, -1), open - {e})
  {
    var pipes' := Modify(pipes, e.entry, -1);
    ModifyIds(pipes, e.entry, -1);
    forall i | 0 <= i < |pipes'|
      ensures Counts(pipes'[i], open - {e})
    {
      EndsMinus(open, e, pipes[i].id);
      IndexOfPipe(pipes, open, i);
    }
  }

  // Closing an end the way close and closeForKilling do.
  lemma ReleaseTally(pipes: seq<Pipe>, open: set<End>, e: End)
    requires Tally(pipes, open) && e in open
    ensures Tally(Release(pipes, e.entry), open - {e})
  {
    DropTally(pipes, open, e);
    ModifyIds(pipes, e.entry, -1);
    var i := PipeIndex(pipes, e.entry.file);
    var less := Modify(pipes, e.entry, -1);
    if less[i].opens == 0 {
      RemoveUnused(less, open - {e}, i);
    }
  }

  lemma RemoveUnused(pipes: seq<Pipe>, open: set<End>, i: nat)
    requires Tally(pipes, open) && i < |pipes| && pipes[i].opens == 0
    ensures Tally(pipes[..i] + pipes[i + 1..], open)
  {
    var rest := pipes[..i] + pipes[i + 1..];
    assert forall j :: 0 <= j < |rest| ==> rest[j] == pipes[if j < i then j else j + 1];
    forall e | e in open
      ensures HasPipe(rest, e.entry.file)
    {
      assert Counts(pipes[i], open);
      EndsMinus(open, e, e.entry.file);
      var j := PipeIndex(pipes, e.entry.file);
      assert j != i;
      assert rest[if j < i then j else j - 1].id == e.entry.file;
      HasPipeIff(rest, e.entry.file);
    }
  }

  lemma HasPipeIff(pipes: seq<Pipe>, id: int)
    ensures HasPipe(pipes, id) <==> exists i :: 0 <= i < |pipes| && pipes[i].id == id
  {
  }

  // The tables of all processes and the pipes they name.
  datatype Files = Files(fds: map<nat, seq<Fd>>, lost: map<nat, seq<Lost>>, pipes: seq<Pipe>, nextId: int)

  // The open pipe ends of the processes in live.
  ghost function Open(fds: map<nat, seq<Fd>>, live: set<nat>): set<End> {
    set p, i: nat | p in live && p in fds && i < |fds[p]| && NamesPipe(fds[p][i]) :: End(p, i, fds[p][i])
  }

  // A closed descriptor never holds the number of a pipe, and dup2 saved standard streams.
  ghost predicate Tidy(table: seq<Fd>, lost: seq<Lost>) {
    && |table| == MAX_FD_COUNT
    && (forall i :: 0 <= i < |table| ==> table[i].mode != 'N' || table[i].file <= STDERR)
    && (forall r :: r in lost ==> r.index <= STDERR)
  }

  ghost predicate Inv(f: Files, live: set<nat>) {
    && (forall p :: p in live ==> p in f.fds && p in f.lost && Tidy(f.fds[p], f.lost[p]))
    && Tally(f.pipes, Open(f.fds, live))
    && (forall i :: 0 <= i < |f.pipes| ==> f.pipes[i].id < f.nextId) && STDERR < f.nextId
  }

  // mkpipe for a name that it accepts.
  function MakePipe(f: Files, name: string): Files {
    f.(pipes := [Pipe(f.nextId, name, 0, 0)] + f.pipes, nextId := f.nextId + 1)
  }

  lemma MakePipeInv(f: Files, live: set<nat>, name: string)
    requires Inv(f, live)
    ensures Inv(MakePipe(f, name), live)
  {
    var pipes' := MakePipe(f, name).pipes;
    var open := Open(f.fds, live);
    forall e | e in open ensures e.entry.file != f.nextId && HasPipe(pipes', e.entry.file) {
      assert HasPipe(f.pipes, e.entry.file);
      assert pipes'[1..] == f.pipes;
    }
    assert Ends(open, f.nextId) == {} && Writers(open, f.nextId) == {};
    forall i | 0 <= i < |pipes'|
        ensures Counts(pipes'[i], open) && pipes'[i].id > STDERR && pipes'[i].id < f.nextId + 1 {
      assert i > 0 ==> pipes'[i] == f.pipes[i - 1];
    }
  }

  // The descriptor that openFile hands out: the first empty one from number 4 on.
  function FreeFd(table: seq<Fd>, from: nat): (i: nat)
    requires from <= |table|
    ensures from <= i <= |table| && (i < |table| ==> table[i].file == -1)
    ensures forall j :: from <= j < i ==> table[j].file != -1
    decreases |table| - from
  {
    if from == |table| || table[from].file == -1 then from else FreeFd(table, from + 1)
  }

  // open for an existing pipe with the given id.
  function OpenPipe(f: Files, p: nat, id: int, mode: char): (Files, Option<nat>)
    requires p in f.fds && |f.fds[p]| == MAX_FD_COUNT
  {
    var fd := FreeFd(f.fds[p], 4);
    if !HasPipe(f.pipes, id) || (mode != 'W' && mode != 'R') || fd == MAX_FD_COUNT then (f, None)
    else
      (f.(fds := f.fds[p := f.fds[p][fd := Fd(id, mode)]], pipes := Modify(f.pipes, Fd(id, mode), 1)), Some(fd))
  }

  // The search of find(pipeFilesList, cmpFileName, ...): the newest pipe of that name.
  function NamedIndex(pipes: seq<Pipe>, name: string): (i: nat)
    ensures i <= |pipes| && (i < |pipes| ==> pipes[i].name == name)
    ensures forall j :: 0 <= j < i ==> pipes[j].name != name
  {
    if pipes == [] || pipes[0].name == name then 0 else 1 + NamedIndex(pipes[1..], name)
  }

  predicate IsNamed(pipes: seq<Pipe>, name: string) {
    NamedIndex(pipes, name) < |pipes|
  }

  // open
  function OpenNamed(f: Files, p: nat, name: string, mode: char): (Files, Option<nat>)
    requires p in f.fds && |f.fds[p]| == MAX_FD_COUNT
  {
    if !IsNamed(f.pipes, name) then (f, None) else OpenPipe(f, p, f.pipes[NamedIndex(f.pipes, name)].id, mode)
  }

  // mkpipe. It compares the names of the pipes with seen, what the argument holds from its
  // third character on.
  function Mkpipe(f: Files, name: string, seen: string): (Files, bool) {
    if IsNamed(f.pipes, seen) then (f, false) else (MakePipe(f, name), true)
  }

  ghost predicate NamesDiffer(pipes: seq<Pipe>) {
    forall i, j :: 0 <= i < j < |pipes| ==> pipes[i].name != pipes[j].name
  }

  // No two pipes get the same name if and only if the call is refused or there is none of
  // that name yet.
  lemma MkpipeKeepsNamesIff(f: Files, name: string, seen: string)
    requires NamesDiffer(f.pipes)
    ensures NamesDiffer(Mkpipe(f, name, seen).0.pipes) <==> IsNamed(f.pipes, seen) || !IsNamed(f.pipes, name)
  {
    if !IsNamed(f.pipes, seen) {
      var pipes' := MakePipe(f, name).pipes;
      if IsNamed(f.pipes, name) {
        assert pipes'[0].name == pipes'[NamedIndex(f.pipes, name) + 1].name;
      } else {
        assert forall j :: 0 < j < |pipes'| ==> pipes'[j] == f.pipes[j - 1];
      }
    }
  }

  // For a name of two characters or more: the same name is accepted a second time, and then
  // a name that only ends like it is refused.
  lemma SameNameTwice(f: Files, name: string, prefix: string)
    requires f.pipes == [] && |name| >= 2 && |prefix| == 2
    ensures var f1 := Mkpipe(f, name, name[2..]).0;
            && Mkpipe(f, name, name[2..]).1 && Mkpipe(f1, name, name[2..]).1 &&
                 !NamesDiffer(Mkpipe(f1, name, name[2..]).0.pipes)
            && !IsNamed(f1.pipes, prefix + name) && !Mkpipe(f1, prefix + name, (prefix + name)[2..]).1
  {
    var f1 := Mkpipe(f, name, name[2..]).0;
    assert f1.pipes == [Pipe(f.nextId, name, 0, 0)] && f1.pipes[1..] == [];
    assert name[2..] != name && prefix + name != name by {
      assert |name[2..]| != |name| && |prefix + name| != |name|;
    }
    MkpipeKeepsNamesIff(f1, name, name[2..]);
    assert (prefix + name)[2..] == name;
  }

  // close; false for the C code's -1.
  function CloseFd(f: Files, p: nat, fd: nat): (Files, bool)
    requires p in f.fds && |f.fds[p]| == MAX_FD_COUNT
  {
    if fd >= MAX_FD_COUNT then (f, false)
    else
      var e := f.fds[p][fd];
      if e.file == -1 || !HasPipe(f.pipes, e.file) || e.mode == 'N' then (f, false)
      else (f.(fds := f.fds[p := f.fds[p][fd := Closed]], pipes := Release(f.pipes, e)), true)
  }

  // dup2
  function Dup2(f: Files, p: nat, from: nat, to: nat): (Files, bool)
    requires p in f.fds && |f.fds[p]| == MAX_FD_COUNT && p in f.lost
  {
    if from >= MAX_FD_COUNT || to >= MAX_FD_COUNT then (f, false)
    else
      var table := f.fds[p];
      (f.(lost := f.lost[p := [Lost(to, table[to])] + f.lost[p]],
          fds := f.fds[p := table[to := table[from]]],
          pipes := Modify(f.pipes, table[from], 1)), true)
  }

  // One turn of the loop of revertFdReplacements: the descriptor gets its own number as
  // file, with the saved mode.
  function RevertOne(f: Files, p: nat): Files
    requires p in f.fds && p in f.lost && f.lost[p] != [] && f.lost[p][0].index < |f.fds[p]|
  {
    var r, table := f.lost[p][0], f.fds[p];
    f.(lost := f.lost[p := f.lost[p][1..]],
       fds := f.fds[p := table[r.index := Fd(r.index, r.entry.mode)]],
       pipes := Modify(f.pipes, table[r.index], -1))
  }

  // Writing one descriptor changes the open ends there and nowhere else.
  lemma OpenUpdate(fds: map<nat, seq<Fd>>, live: set<nat>, p: nat, fd: nat, e: Fd)
    requires p in live && p in fds && fd < |fds[p]|
    ensures var before, after := Open(fds, live), Open(fds[p := fds[p][fd := e]], live);
            var rest := before - {End(p, fd, fds[p][fd])};
            && (End(p, fd, fds[p][fd]) in before <==> NamesPipe(fds[p][fd]))
            && after == (if NamesPipe(e) then rest + {End(p, fd, e)} else rest)
            && End(p, fd, e) !in rest
  {
    var before, after := Open(fds, live), Open(fds[p := fds[p][fd := e]], live);
    var rest := before - {End(p, fd, fds[p][fd])};
    forall x ensures x in after <==> (x in rest || (x == End(p, fd, e) && NamesPipe(e))) {
      IsOpen(fds, live, x);
      IsOpen(fds[p := fds[p][fd := e]], live, x);
    }
    IsOpen(fds, live, End(p, fd, fds[p][fd]));
    IsOpen(fds, live, End(p, fd, e));
  }

  lemma IsOpen(fds: map<nat, seq<Fd>>, live: set<nat>, x: End)
    ensures x in Open(fds, live) <==>
            x.pid in live && x.pid in fds && x.fd < |fds[x.pid]| && x.entry == fds[x.pid][x.fd] && NamesPipe(x.entry)
  {
    if x.pid in live && x.pid in fds && x.fd < |fds[x.pid]| && x.entry == fds[x.pid][x.fd] && NamesPipe(x.entry) {
      assert x == End(x.pid, x.fd, fds[x.pid][x.fd]);
    }
  }

  // No pipe gets a number that has not been given out.
  ghost predicate IdsBelow(pipes: seq<Pipe>, bound: int) {
    forall i :: 0 <= i < |pipes| ==> pipes[i].id < bound
  }

  lemma CountedIds(pipes: seq<Pipe>, e: Fd, bound: int)
    requires IdsBelow(pipes, bound)
    ensures IdsBelow(Modify(pipes, e, 1), bound) && IdsBelow(Release(pipes, e), bound)
  {
  }

  // One process's table changes at one place, and the pipes with it.
  lemma TableInv(f: Files, f': Files, live: set<nat>, p: nat, fd: nat, e: Fd)
    requires Inv(f, live) && p in live && fd < MAX_FD_COUNT && (e.mode != 'N' || e.file <= STDERR)
    requires p in f.fds && |f.fds[p]| == MAX_FD_COUNT &&
               f' == f.(fds := f.fds[p := f.fds[p][fd := e]], pipes := f'.pipes)
    requires Tally(f'.pipes, Open(f'.fds, live)) && IdsBelow(f'.pipes, f.nextId)
    ensures Inv(f', live)
  {
    hide Tally, Open;
    forall q | q in live ensures q in f'.fds && q in f'.lost && Tidy(f'.fds[q], f'.lost[q]) {
      assert Tidy(f.fds[q], f.lost[q]);
    }
  }

  lemma InvPieces(f: Files, live: set<nat>, p: nat)
    requires Inv(f, live) && p in live
    ensures p in f.fds && p in f.lost && Tidy(f.fds[p], f.lost[p]) && |f.fds[p]| == MAX_FD_COUNT
    ensures Tally(f.pipes, Open(f.fds, live)) && IdsBelow(f.pipes, f.nextId)
  {
  }

  lemma PipesAbove(pipes: seq<Pipe>, open: set<End>, id: int)
    requires Tally(pipes, open) && HasPipe(pipes, id)
    ensures id > STDERR
  {
  }

  lemma OpenPipeInv(f: Files, live: set<nat>, p: nat, id: int, mode: char)
    requires Inv(f, live) && p in live
    ensures p in f.fds && |f.fds[p]| == MAX_FD_COUNT
    ensures Inv(OpenPipe(f, p, id, mode).0, live)
  {
    hide Inv, Open, Tally, HasPipe, Modify;
    InvPieces(f, live, p);
    var (f', r) := OpenPipe(f, p, id, mode);
    if r.Some? {
      var fd, e := r.value, Fd(id, mode);
      PipesAbove(f.pipes, Open(f.fds, live), id);
      OpenUpdate(f.fds, live, p, fd, e);
      assert Open(f'.fds, live) == Open(f.fds, live) + {End(p, fd, e)};
      OpenTally(f.pipes, Open(f.fds, live), End(p, fd, e));
      CountedIds(f.pipes, e, f.nextId);
      TableInv(f, f', live, p, fd, e);
    }
  }

  lemma OpenNamedInv(f: Files, live: set<nat>, p: nat, name: string, mode: char)
    requires Inv(f, live) && p in live
    ensures p in f.fds && |f.fds[p]| == MAX_FD_COUNT
    ensures Inv(OpenNamed(f, p, name, mode).0, live)
  {
    hide Inv;
    InvPieces(f, live, p);
    if IsNamed(f.pipes, name) {
      OpenPipeInv(f, live, p, f.pipes[NamedIndex(f.pipes, name)].id, mode);
    }
  }

  lemma CloseFdInv(f: Files, live: set<nat>, p: nat, fd: nat)
    requires Inv(f, live) && p in live
    ensures p in f.fds && |f.fds[p]| == MAX_FD_COUNT
    ensures Inv(CloseFd(f, p, fd).0, live)
  {
    hide Inv, Open, Tally, HasPipe, Release;
    InvPieces(f, live, p);
    var (f', closed) := CloseFd(f, p, fd);
    if closed {
      var e := f.fds[p][fd];
      PipesAbove(f.pipes, Open(f.fds, live), e.file);
      OpenUpdate(f.fds, live, p, fd, Closed);
      ReleaseTally(f.pipes, Open(f.fds, live), End(p, fd, e));
      CountedIds(f.pipes, e, f.nextId);
      TableInv(f, f', live, p, fd, Closed);
    }
  }
}
