/** Creating a file on a BareMetal File System disk, and when that keeps the files apart. */
module BmfsCreate {
  import opened BmfsDirectory

  datatype Result = Created(slot: nat, start: nat) | AlreadyExists | NoFreeRecord | NoRoom

  // Number of the record that ends the directory; all of them if none does.
  function Terminator(d: seq<Entry>): (i: nat)
    ensures i <= |d| && (i < |d| ==> IsEnd(d[i])) && forall j :: 0 <= j < i ==> !IsEnd(d[j])
  {
    if d == [] || IsEnd(d[0]) then 0 else 1 + Terminator(d[1..])
  }

  // The records in front of it.
  function Visible(d: seq<Entry>): seq<Entry> {
    d[..Terminator(d)]
  }

  // num_used_entries, which stays 0 if no record ends the directory.
  function Counted(d: seq<Entry>): (i: nat)
    ensures i <= |d|
  {
    if Terminator(d) == |d| then 0 else Terminator(d)
  }

  function FirstFree(d: seq<Entry>): (i: nat)
    ensures i <= |d| && (i < |d| ==> !IsLive(d[i])) && forall j :: 0 <= j < i ==> IsLive(d[j])
  {
    if d == [] || !IsLive(d[0]) then 0 else 1 + FirstFree(d[1..])
  }

  // findfile
  predicate Exists(d: seq<Entry>, name: string) {
    exists i :: 0 <= i < Terminator(d) && IsLive(d[i]) && d[i].name == name
  }

  // maxsize is an unsigned 64-bit number.
  function BlocksFor(maxsize: nat): nat {
    (if maxsize % 2 != 0 then (maxsize + 1) % WORD else maxsize) / 2
  }

  // n blocks of two megabytes are what so many megabytes need, and no fewer would do.
  ghost predicate LeastRoom(n: nat, maxsize: nat) {
    2 * n >= maxsize && forall k: nat :: k < n ==> 2 * k < maxsize
  }

  lemma RoomIsLeast(maxsize: nat, n: nat)
    requires maxsize < WORD - 1
    ensures LeastRoom(n, maxsize) <==> n == BlocksFor(maxsize)
  {
    var b := BlocksFor(maxsize);
    assert 2 * b >= maxsize > 2 * b - 2;
  }

  // Only the largest number of 64 bits gets less room than it asks for, and it gets none.
  lemma EnoughRoomIff(maxsize: nat)
    requires maxsize < WORD
    ensures 2 * BlocksFor(maxsize) >= maxsize <==> maxsize != WORD - 1
    ensures BlocksFor(WORD - 1) == 0
  {
  }

  // create, in memory
  function Create(d: seq<Entry>, blocks: nat, name: string, maxsize: nat): (r: (seq<Entry>, Result))
    requires |d| == RECORDS && blocks >= 1
    ensures |r.0| == RECORDS
  {
    var slot, used, n := FirstFree(d), Counted(d), BlocksFor(maxsize);
    if Exists(d, name) then (d, AlreadyExists)
    else if slot == RECORDS then (d, NoFreeRecord)
    else
      var start := Scan(Sort(d[..used]), 0, 1, blocks, n);
      if start == 0 then (d, NoRoom) else (Added(d, slot, Entry(name, start, n, 0)), Created(slot, start))
  }

  // A new name is refused for want of a record if and only if all 64 belong to files.
  lemma NoRecordIff(d: seq<Entry>, blocks: nat, name: string, maxsize: nat)
    requires |d| == RECORDS && blocks >= 1 && !Exists(d, name)
    ensures Create(d, blocks, name, maxsize).1 == NoFreeRecord <==> forall i :: 0 <= i < 64 ==> IsLive(d[i])
  {
    hide Scan, Sort;
    if FirstFree(d) < RECORDS {
      assert !IsLive(d[FirstFree(d)]);
    }
  }

  // Whatever the directory looks like, the record of a file that is created has the blocks
  // that its size needs and no more.
  lemma CreatedRoom(d: seq<Entry>, blocks: nat, name: string, maxsize: nat)
    requires |d| == RECORDS && blocks >= 1 && maxsize < HALF
    ensures var (d', r) := Create(d, blocks, name, maxsize);
            r.Created? ==>
              && r.slot < |d'| && d'[r.slot].name == name && d'[r.slot].start == r.start
              && 2 * d'[r.slot].reserved >= maxsize && maxsize + 2 > 2 * d'[r.slot].reserved
  {
    hide Scan, Sort;
  }

  // Writing the new record, and ending the directory behind it if it was the last one.
  function Added(d: seq<Entry>, slot: nat, e: Entry): (d': seq<Entry>)
    requires |d| == RECORDS && slot < RECORDS
    ensures |d'| == RECORDS
  {
    var d' := d[slot := e];
    if slot == Counted(d) && slot + 1 < RECORDS then d'[slot + 1 := d'[slot + 1].(name := "")] else d'
  }

  // Old files stay, and all files are well placed.
  ghost predicate Keeps(d: seq<Entry>, d': seq<Entry>, blocks: nat) {
    && WellPlaced(multiset(Visible(d')), blocks)
    && forall e :: e in Visible(d) && IsLive(e) ==> e in Visible(d')
  }

  // What the program may be asked to create: a new name of 1 to 31 characters that marks no
  // record as free, and at least one megabyte; the command line gives the size as an int.
  predicate Proper(d: seq<Entry>, name: string, maxsize: nat) {
    1 <= |name| <= 31 && name[0] != '\U{0001}' && 1 <= maxsize < HALF && !Exists(d, name)
  }

  lemma {:induction false} TerminatorIs(d: seq<Entry>, i: nat)
    requires i <= |d| && (i < |d| ==> IsEnd(d[i])) && forall j :: 0 <= j < i ==> !IsEnd(d[j])
    ensures Terminator(d) == i
  {
  }

  // In front of the terminator is free space: a deleted record is reused, or the directory
  // grows by one record.
  lemma AddedVisible(d: seq<Entry>, e: Entry)
    requires |d| == RECORDS && FirstFree(d) < RECORDS && Terminator(d) < RECORDS && IsLive(e)
    ensures var t, slot := Terminator(d), FirstFree(d);
            Visible(Added(d, slot, e)) == if slot < t then Visible(d)[slot := e] else Visible(d) + [e]
  {
    hide Terminator, FirstFree;
    var t, slot := Terminator(d), FirstFree(d);
    var d' := Added(d, slot, e);
    assert slot <= t;
    if slot < t {
      TerminatorIs(d', t);
    } else {
      assert forall j :: 0 <= j < t ==> d'[j] == d[j];
      TerminatorIs(d', t + 1);
    }
  }

  lemma AddFile(m: multiset<Entry>, blocks: nat, e: Entry)
    requires WellPlaced(m, blocks) && IsLive(e) && e.reserved >= 1 && Fits(m, blocks, e.start, e.reserved)
    ensures WellPlaced(m + multiset{e}, blocks)
  {
    assert e !in m;
  }

  lemma DropRecord(m: multiset<Entry>, blocks: nat, e: Entry)
    requires WellPlaced(m, blocks) && e in m && IsDeleted(e)
    ensures WellPlaced(m - multiset{e}, blocks)
    ensures forall x: nat, n: nat :: Fits(m, blocks, x, n) <==> Fits(m - multiset{e}, blocks, x, n)
  {
    var m' := m - multiset{e};
    assert forall f :: f != e ==> (f in m' <==> f in m);
    assert forall f :: f in m' ==> f in m;
  }

  lemma UpdateMultiset(s: seq<Entry>, i: nat, e: Entry)
    requires i < |s|
    ensures s[i] in multiset(s) && multiset(s[i := e]) == multiset(s) - multiset{s[i]} + multiset{e}
  {
  }

  // A deleted record makes way for a new file, or the new file comes last: the others stay.
  lemma RecordReplaced(v: seq<Entry>, slot: nat, blocks: nat, e: Entry)
    requires WellPlaced(multiset(v), blocks) && slot < |v| && IsDeleted(v[slot]) && IsLive(e)
    ensures e in v[slot := e] && forall f :: f in v && IsLive(f) ==> f in v[slot := e]
    ensures e.reserved >= 1 && Fits(multiset(v), blocks, e.start, e.reserved) ==>
              WellPlaced(multiset(v[slot := e]), blocks)
  {
    hide WellPlaced, Fits;
    UpdateMultiset(v, slot, e);
    DropRecord(multiset(v), blocks, v[slot]);
    if e.reserved >= 1 && Fits(multiset(v), blocks, e.start, e.reserved) {
      AddFile(multiset(v) - multiset{v[slot]}, blocks, e);
    }
    forall f | f in v && IsLive(f) ensures f in v[slot := e] {
      var i :| 0 <= i < |v| && v[i] == f;
      assert v[slot := e][i] == f;
    }
    assert v[slot := e][slot] == e;
  }

  lemma RecordAppended(v: seq<Entry>, blocks: nat, e: Entry)
    requires WellPlaced(multiset(v), blocks) && IsLive(e)
    ensures e in v + [e] && forall f :: f in v ==> f in v + [e]
    ensures e.reserved >= 1 && Fits(multiset(v), blocks, e.start, e.reserved) ==> WellPlaced(multiset(v + [e]), blocks)
  {
    hide WellPlaced, Fits;
    assert multiset(v + [e]) == multiset(v) + multiset{e};
    if e.reserved >= 1 && Fits(multiset(v), blocks, e.start, e.reserved) {
      AddFile(multiset(v), blocks, e);
    }
  }

  // The records in front of the terminator with the new one among them, the others kept.
  lemma AddedFiles(d: seq<Entry>, blocks: nat, e: Entry)
    requires |d| == RECORDS && FirstFree(d) < RECORDS && Terminator(d) < RECORDS && IsLive(e)
    requires WellPlaced(multiset(Visible(d)), blocks)
    ensures var v, v' := Visible(d), Visible(Added(d, FirstFree(d), e));
            && e in v' && (forall f :: f in v && IsLive(f) ==> f in v')
            && (e.reserved >= 1 && Fits(multiset(v), blocks, e.start, e.reserved) ==> WellPlaced(multiset(v'), blocks))
  {
    hide Terminator, WellPlaced, Fits, Added;
    AddedVisible(d, e);
    FilesAndDeleted(Visible(d), blocks);
    if FirstFree(d) < Terminator(d) {
      RecordReplaced(Visible(d), FirstFree(d), blocks, e);
    } else {
      RecordAppended(Visible(d), blocks, e);
    }
  }

  // A new file that is not in free space shares a block with an old one.
  lemma MisplacedBreaks(d: seq<Entry>, d': seq<Entry>, blocks: nat, e: Entry)
    requires !Fits(multiset(Visible(d)), blocks, e.start, e.reserved) && e.start >= 1 && e.reserved >= 1 &&
               End(e) + 1 <= blocks
    requires IsLive(e) && e in Visible(d') && !Exists(d, e.name)
    ensures !Keeps(d, d', blocks)
  {
    var f :| f in multiset(Visible(d)) && IsLive(f) && !(End(e) <= f.start || End(f) <= e.start);
    NamesDiffer(d, e.name, f);
    if f in Visible(d') {
      assert f in multiset(Visible(d')) && e in multiset(Visible(d')) && !Apart(e, f);
    }
  }

  // For a directory that has a terminator: the new file goes to the lowest place where the
  // blocks that it needs are free, if there is one.
  lemma CreatePlacesLowest(d: seq<Entry>, blocks: nat, name: string, maxsize: nat, n: nat)
    requires |d| == RECORDS && Terminator(d) < RECORDS && WellPlaced(multiset(Visible(d)), blocks)
    requires Proper(d, name, maxsize) && LeastRoom(n, maxsize)
    requires exists x: nat :: Fits(multiset(Visible(d)), blocks, x, n)
    ensures var (d', r) := Create(d, blocks, name, maxsize);
            var m := multiset(Visible(d));
            && r.Created? && Fits(m, blocks, r.start, n) && (forall y: nat :: y < r.start ==> !Fits(m, blocks, y, n))
            && d'[r.slot] == Entry(name, r.start, n, 0) && Keeps(d, d', blocks)
  {
    hide Terminator, WellPlaced, Fits, Scan, Sort, BlocksFor;
    RoomIsLeast(maxsize, n);
    hide LeastRoom;
    var v := Visible(d);
    ScanOfVisible(d, blocks, n);
    var start := Scan(Sort(v), 0, 1, blocks, n);
    AddedFiles(d, blocks, Entry(name, start, n, 0));
  }

  // The scan of create, for a directory that has a terminator.
  lemma ScanOfVisible(d: seq<Entry>, blocks: nat, n: nat)
    requires |d| == RECORDS && Terminator(d) < RECORDS && WellPlaced(multiset(Visible(d)), blocks) && n >= 1
    ensures FirstFree(d) < RECORDS && blocks >= 1 && d[..Counted(d)] == Visible(d)
    ensures var m, r := multiset(Visible(d)), Scan(Sort(Visible(d)), 0, 1, blocks, n);
            && (if exists x: nat :: Fits(m, blocks, x, n)
                then r >= 1 && Fits(m, blocks, r, n) && forall y: nat :: y < r ==> !Fits(m, blocks, y, n)
                else if exists e :: e in m && IsDeleted(e) && End(e) + n + 1 <= blocks
                then r >= 1 && r + n + 1 <= blocks
                else r == 0)
  {
    hide Scan, Sort;
    var v := Visible(d);
    FilesAndDeleted(v, blocks);
    forall i | 0 <= i < |v| ensures !IsEnd(v[i]) && v[i].start < HALF {
      assert v[i] in multiset(v);
    }
    SortSorts(v);
    var s := Sort(v);
    assert Scanned(s, 0, 1, blocks, n);
    ScanFinds(s, 0, 1, blocks, n);
    assert forall e :: e in s <==> e in multiset(s);
  }

  // With a terminator, creating keeps the files apart if and only if there is a place where
  // the file fits or no deleted record leads the scan to a false one. In the first case the
  // file is created, in the second it is refused.
  lemma CreateKeepsIff(d: seq<Entry>, blocks: nat, name: string, maxsize: nat, n: nat)
    requires |d| == RECORDS && Terminator(d) < RECORDS && WellPlaced(multiset(Visible(d)), blocks)
    requires Proper(d, name, maxsize) && LeastRoom(n, maxsize)
    ensures var (d', r) := Create(d, blocks, name, maxsize);
            var m := multiset(Visible(d));
            && (Keeps(d, d', blocks) <==>
                  || (exists x: nat :: Fits(m, blocks, x, n))
                  || forall e :: e in m && IsDeleted(e) ==> End(e) + n + 1 > blocks)
            && (Keeps(d, d', blocks) ==> (r == NoRoom <==> !exists x: nat :: Fits(m, blocks, x, n)))
  {
    hide Terminator, WellPlaced, Fits, Scan, Sort, Added, BlocksFor;
    RoomIsLeast(maxsize, n);
    var v := Visible(d);
    ScanOfVisible(d, blocks, n);
    if exists x: nat :: Fits(multiset(v), blocks, x, n) {
      CreatePlacesLowest(d, blocks, name, maxsize, n);
    } else {
      var start := Scan(Sort(v), 0, 1, blocks, n);
      if start != 0 {
        var e := Entry(name, start, n, 0);
        AddedFiles(d, blocks, e);
        MisplacedBreaks(d, Added(d, FirstFree(d), e), blocks, e);
      }
    }
  }

  // A disk on which nothing has been deleted.
  ghost predicate Clean(d: seq<Entry>, blocks: nat) {
    && |d| == RECORDS && WellPlaced(multiset(Visible(d)), blocks)
    && forall i :: 0 <= i < Terminator(d) ==> IsLive(d[i])
  }

  datatype Request = Request(name: string, maxsize: nat)

  predicate Valid(r: Request) {
    1 <= |r.name| <= 31 && r.name[0] != '\U{0001}' && 1 <= r.maxsize < HALF
  }

  ghost predicate Formatted(d: seq<Entry>) {
    |d| == RECORDS && IsEnd(d[0])
  }

  function CreateAll(d: seq<Entry>, blocks: nat, rs: seq<Request>): (d': seq<Entry>)
    requires |d| == RECORDS && blocks >= 1
    ensures |d'| == RECORDS
    decreases |rs|
  {
    if rs == [] then d else CreateAll(Create(d, blocks, rs[0].name, rs[0].maxsize).0, blocks, rs[1..])
  }

  lemma CreateClean(d: seq<Entry>, blocks: nat, r: Request)
    requires Clean(d, blocks) && Valid(r) && blocks >= 1
    ensures var d' := Create(d, blocks, r.name, r.maxsize).0;
            Clean(d', blocks) && Keeps(d, d', blocks)
  {
    hide WellPlaced, Fits, Scan, Sort, Added;
    var slot, n := FirstFree(d), BlocksFor(r.maxsize);
    var d' := Create(d, blocks, r.name, r.maxsize).0;
    if Terminator(d) < RECORDS && !Exists(d, r.name) {
      RoomIsLeast(r.maxsize, n);
      CreateKeepsIff(d, blocks, r.name, r.maxsize, n);
      NothingDeleted(d);
      if d' != d {
        var e := Entry(r.name, Scan(Sort(d[..Counted(d)]), 0, 1, blocks, n), n, 0);
        AddedVisible(d, e);
        AllLive(d', Visible(d), e);
      }
    }
  }

  lemma NothingDeleted(d: seq<Entry>)
    requires forall i :: 0 <= i < Terminator(d) ==> IsLive(d[i])
    ensures forall e :: e in multiset(Visible(d)) ==> !IsDeleted(e)
  {
  }

  lemma AllLive(d: seq<Entry>, v: seq<Entry>, e: Entry)
    requires Visible(d) == v + [e] && IsLive(e) && forall i :: 0 <= i < |v| ==> IsLive(v[i])
    ensures forall i :: 0 <= i < Terminator(d) ==> IsLive(d[i])
  {
    hide Terminator;
    forall i | 0 <= i < Terminator(d) ensures IsLive(d[i]) {
      assert d[i] == Visible(d)[i];
    }
  }

  // Whatever is created one after the other on a formatted disk, the files never overlap
  // and none is lost.
  lemma {:induction false} CreatesKeepApart(d: seq<Entry>, blocks: nat, rs: seq<Request>)
    requires Clean(d, blocks) && blocks >= 1 && forall i :: 0 <= i < |rs| ==> Valid(rs[i])
    ensures Clean(CreateAll(d, blocks, rs), blocks) && Keeps(d, CreateAll(d, blocks, rs), blocks)
    decreases |rs|
  {
    hide Create, WellPlaced, Terminator;
    if rs != [] {
      CreateClean(d, blocks, rs[0]);
      CreatesKeepApart(Create(d, blocks, rs[0].name, rs[0].maxsize).0, blocks, rs[1..]);
    }
  }

  lemma FormattedClean(d: seq<Entry>, blocks: nat)
    requires Formatted(d) && 2 <= blocks <= HALF
    ensures Clean(d, blocks)
  {
  }

  // Without a terminator the records are not counted and the scan sees none of them. Then
  // creating keeps the files if and only if the file is refused for its size, or it happens
  // to fit at block 1; and if record 0 is the free one, only if there are no files at all,
  // because a terminator is written behind it.
  lemma CreateUnterminatedIff(d: seq<Entry>, blocks: nat, name: string, maxsize: nat, n: nat)
    requires |d| == RECORDS && Terminator(d) == RECORDS && FirstFree(d) < RECORDS
    requires WellPlaced(multiset(Visible(d)), blocks) && Proper(d, name, maxsize)
    requires LeastRoom(n, maxsize)
    ensures blocks >= 1
    ensures var d' := Create(d, blocks, name, maxsize).0;
            Keeps(d, d', blocks) <==>
              || n + 2 > blocks
              || (if FirstFree(d) == 0 then forall e :: e in Visible(d) ==> !IsLive(e)
                  else Fits(multiset(Visible(d)), blocks, 1, n))
  {
    hide Terminator, Fits, Create, Added, WellPlaced, Scan, BlocksFor;
    RoomIsLeast(maxsize, n);
    var slot := FirstFree(d);
    var e := Entry(name, 1, n, 0);
    UnterminatedCreate(d, blocks, name, maxsize);
    if n + 2 <= blocks {
      if slot == 0 {
        OnlyNew(d, blocks, e);
      } else {
        ReplacedFiles(d, blocks, e);
        if !Fits(multiset(Visible(d)), blocks, 1, n) {
          MisplacedBreaks(d, Added(d, slot, e), blocks, e);
        }
      }
    }
  }

  lemma UnterminatedCreate(d: seq<Entry>, blocks: nat, name: string, maxsize: nat)
    requires |d| == RECORDS && Terminator(d) == RECORDS && FirstFree(d) < RECORDS
    requires WellPlaced(multiset(Visible(d)), blocks) && Proper(d, name, maxsize)
    ensures 2 <= blocks <= HALF
    ensures var n := BlocksFor(maxsize);
            Create(d, blocks, name, maxsize).0 == if n + 2 <= blocks then Added(d, FirstFree(d), Entry(name, 1, n, 0))
                else d
  {
    hide Terminator, Added, Exists, Scan, Sort, WellPlaced;
    FilesAndDeleted(Visible(d), blocks);
    ScanNothing(blocks, BlocksFor(maxsize));
    assert d[..0] == [];
  }

  lemma ScanNothing(blocks: nat, n: nat)
    requires 2 <= blocks <= HALF
    ensures Scan(Sort([]), 0, 1, blocks, n) == if n + 2 <= blocks then 1 else 0
  {
    hide Cmp;
    assert Sort([]) == [];
    MinusPlain(blocks - 1, 1);
  }

  // The new record and the terminator behind it cut off all others.
  lemma OnlyNew(d: seq<Entry>, blocks: nat, e: Entry)
    requires |d| == RECORDS && Terminator(d) == RECORDS && FirstFree(d) == 0
    requires 2 <= blocks <= HALF && IsLive(e) && InDisk(e, blocks) && !Exists(d, e.name)
    ensures Keeps(d, Added(d, 0, e), blocks) <==> forall f :: f in Visible(d) ==> !IsLive(f)
  {
    hide WellPlaced, Terminator;
    OneVisible(d, e);
    OneFile(e, blocks);
    forall f | f in Visible(d) && IsLive(f) ensures f != e {
      NamesDiffer(d, e.name, f);
    }
  }

  lemma OneVisible(d: seq<Entry>, e: Entry)
    requires |d| == RECORDS && Terminator(d) == RECORDS && IsLive(e)
    ensures Visible(Added(d, 0, e)) == [e]
  {
    TerminatorIs(Added(d, 0, e), 1);
  }

  lemma OneFile(e: Entry, blocks: nat)
    requires 2 <= blocks <= HALF && IsLive(e) && InDisk(e, blocks)
    ensures WellPlaced(multiset([e]), blocks)
  {
  }

  lemma NamesDiffer(d: seq<Entry>, name: string, f: Entry)
    requires !Exists(d, name) && f in Visible(d) && IsLive(f)
    ensures f.name != name
  {
    hide Terminator;
    var i :| 0 <= i < |Visible(d)| && Visible(d)[i] == f;
  }

  lemma ReplacedFiles(d: seq<Entry>, blocks: nat, e: Entry)
    requires |d| == RECORDS && Terminator(d) == RECORDS && 0 < FirstFree(d) < RECORDS && IsLive(e) && e.reserved >= 1
    requires WellPlaced(multiset(Visible(d)), blocks)
    ensures e in Visible(Added(d, FirstFree(d), e))
    ensures Fits(multiset(Visible(d)), blocks, e.start, e.reserved) ==> Keeps(d, Added(d, FirstFree(d), e), blocks)
  {
    hide WellPlaced, Fits;
    var slot := FirstFree(d);
    var d' := Added(d, slot, e);
    assert d' == d[slot := e];
    TerminatorIs(d', RECORDS);
    assert Visible(d) == d && Visible(d') == d';
    FilesAndDeleted(d, blocks);
    RecordReplaced(d, slot, blocks, e);
  }

  // A disk of 12 blocks after a file of 3 and one of 4 blocks were created and deleted and one
  // of 10 blocks was created: its record is the first, and the second deleted one remains.
  function Reused(): (d: seq<Entry>)
    ensures |d| == RECORDS
  {
    [Entry("c", 1, 10, 0), Entry("\U{0001}", 4, 4, 0)] + seq(RECORDS - 2, _ => Entry("", 0, 0, 0))
  }

  // A file of one more block is placed inside the old one.
  lemma OverlapRun()
    ensures Terminator(Reused()) < RECORDS && WellPlaced(multiset(Visible(Reused())), 12) && Proper(Reused(), "d", 2)
    ensures !Keeps(Reused(), Create(Reused(), 12, "d", 2).0, 12)
  {
    hide Create;
    var d := Reused();
    TerminatorIs(d, 2);
    var file, gone := Entry("c", 1, 10, 0), Entry("\U{0001}", 4, 4, 0);
    assert Visible(d) == [file, gone];
    var m := multiset(Visible(d));
    assert m == multiset{file, gone};
    RoomIsLeast(2, 1);
    CreateKeepsIff(d, 12, "d", 2, 1);
    forall x: nat ensures !Fits(m, 12, x, 1) {
      assert file in m && IsLive(file);
    }
    assert gone in m && IsDeleted(gone) && End(gone) + 1 + 1 <= 12;
  }

  // A directory without a terminator: record number 5 is free, and the files of the others
  // have a block each, from block 1 on.
  function Full(): (d: seq<Entry>)
    ensures |d| == RECORDS
  {
    seq(RECORDS, i requires 0 <= i => if i == 5 then Entry("\U{0001}", 6, 1, 0) else Entry("a", i + 1, 1, 0))
  }

  lemma {:induction false} OnceIn(s: seq<Entry>, i: nat)
    requires i < |s| && forall j :: 0 <= j < |s| && j != i ==> s[j] != s[i]
    ensures multiset(s)[s[i]] == 1
  {
    assert s == s[..i] + [s[i]] + s[i + 1..];
    assert multiset(s) == multiset(s[..i]) + multiset{s[i]} + multiset(s[i + 1..]);
    assert s[i] !in s[..i] && s[i] !in s[i + 1..];
  }

  lemma FullPlaced()
    ensures WellPlaced(multiset(Full()), 100)
  {
    var d := Full();
    forall e | e in multiset(d)
      ensures !IsEnd(e) && InDisk(e, 100) && (IsLive(e) ==> multiset(d)[e] == 1)
    {
      var i :| 0 <= i < |d| && d[i] == e;
      OnceIn(d, i);
    }
    forall e, f | e in multiset(d) && f in multiset(d) && e != f ensures Apart(e, f) {
      var i :| 0 <= i < |d| && d[i] == e;
      var j :| 0 <= j < |d| && d[j] == f;
    }
  }

  // A new file is placed on the file at block 1.
  lemma UnterminatedRun()
    ensures Terminator(Full()) == RECORDS && FirstFree(Full()) == 5
    ensures WellPlaced(multiset(Visible(Full())), 100) && Proper(Full(), "b", 2)
    ensures !Keeps(Full(), Create(Full(), 100, "b", 2).0, 100)
  {
    hide Create, WellPlaced, Fits, Terminator;
    var d := Full();
    FullVisible();
    FirstFreeIs(d, 5);
    FullPlaced();
    FullAtOne();
    RoomIsLeast(2, 1);
    CreateUnterminatedIff(d, 100, "b", 2, 1);
  }

  lemma FullVisible()
    ensures Terminator(Full()) == RECORDS && Visible(Full()) == Full() && !Exists(Full(), "b")
  {
    TerminatorIs(Full(), RECORDS);
  }

  lemma FullAtOne()
    ensures !Fits(multiset(Full()), 100, 1, 1)
  {
    var e := Full()[0];
    assert e in multiset(Full()) && IsLive(e);
  }

  lemma {:induction false} FirstFreeIs(d: seq<Entry>, i: nat)
    requires i < |d| && !IsLive(d[i]) && forall j :: 0 <= j < i ==> IsLive(d[j])
    ensures FirstFree(d) == i
  {
  }

  // A disk with its directory in memory.
  class Disk {
    const directory: array<Entry>
    const blocks: nat

    ghost predicate Ready()
      reads this
    {
      directory.Length == RECORDS && 2 <= blocks <= HALF
    }

    // A formatted disk of so many megabytes.
    constructor (disksize: nat)
      requires 6 <= disksize < 0x1_0000_0000
      ensures Ready() && blocks == disksize / 2 && fresh(directory)
      ensures Terminator(directory[..]) == 0 && WellPlaced(multiset(Visible(directory[..])), blocks)
    {
      directory := new Entry[RECORDS](_ => Entry("", 0, 0, 0));
      blocks := disksize / 2;
    }

    // findfile
    method FindFile(filename: string) returns (found: bool)
      requires Ready()
      ensures found <==> Exists(directory[..], filename)
    {
      var i := 0;
      while i < RECORDS && !IsEnd(directory[i])
        invariant 0 <= i <= Terminator(directory[..])
        invariant forall j :: 0 <= j < i ==> !(IsLive(directory[j]) && directory[j].name == filename)
      {
        if !IsDeleted(directory[i]) && directory[i].name == filename {
          return true;
        }
        i := i + 1;
      }
      return false;
    }

    // The loop of create that counts records and looks for a free one.
    method CountRecords() returns (used: nat, free: nat)
      requires Ready()
      ensures used == Counted(directory[..]) && free == FirstFree(directory[..])
    {
      used, free := 0, RECORDS;
      var i := 0;
      while i < RECORDS
        invariant 0 <= i <= Terminator(directory[..]) && used == 0
        invariant free == if FirstFree(directory[..]) < i then FirstFree(directory[..]) else RECORDS
      {
        if IsEnd(directory[i]) {
          used := i;
          if free == RECORDS {
            free := i;
          }
          return;
        }
        if IsDeleted(directory[i]) && free == RECORDS {
          free := i;
        }
        i := i + 1;
      }
    }

    // The loop of create over the gaps between the sorted records.
    method FindGap(sorted: seq<Entry>, requested: nat) returns (start: nat)
      requires Ready()
      ensures start == Scan(sorted, 0, 1, blocks, requested)
    {
      var prevEnd: nat, i: nat := 1, 0;
      while i < |sorted| + 1
        invariant 0 <= i <= |sorted| + 1
        invariant (if i <= |sorted| then Scan(sorted, i, prevEnd, blocks, requested) else 0) ==
                    Scan(sorted, 0, 1, blocks, requested)
      {
        var thisStart := if i == |sorted| || IsDeleted(sorted[i]) then blocks - 1 else sorted[i].start;
        if Minus(thisStart, prevEnd) >= requested {
          return prevEnd;
        }
        if i < |sorted| {
          prevEnd := sorted[i].start + sorted[i].reserved;
        }
        i := i + 1;
      }
      return 0;
    }

    // create
    method CreateFile(filename: string, maxsize: nat) returns (r: Result)
      requires Ready()
      modifies directory
      ensures (directory[..], r) == Create(old(directory[..]), blocks, filename, maxsize)
    {
      hide Scan, Sort, Counted, FirstFree, Exists;
      var rounded := if maxsize % 2 != 0 then (maxsize + 1) % WORD else maxsize;
      var requested := rounded / 2;
      var found := FindFile(filename);
      if found {
        return AlreadyExists;
      }
      var used, free := CountRecords();
      if free == RECORDS {
        return NoFreeRecord;
      }
      assert directory[..used] == directory[..][..used];
      var start := FindGap(Sort(directory[..used]), requested);
      if start == 0 {
        return NoRoom;
      }
      directory[free] := Entry(filename, start, requested, 0);
      if free == used && used + 1 < RECORDS {
        directory[used + 1] := directory[used + 1].(name := "");
      }
      return Created(free, start);
    }
  }
}
