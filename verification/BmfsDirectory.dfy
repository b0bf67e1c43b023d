/** The directory of a BareMetal File System disk and the search for room in it: sorting the
    records by starting block and scanning the gaps between them. */
module BmfsDirectory {
  const RECORDS := 64
  const WORD := 0x1_0000_0000_0000_0000
  const HALF := 0x8000_0000

  datatype Entry = Entry(name: string, start: nat, reserved: nat, size: nat)

  // A name that starts with 0 ends the directory, one that starts with 1 is a free record.
  predicate IsEnd(e: Entry) {
    e.name == ""
  }

  predicate IsDeleted(e: Entry) {
    e.name != "" && e.name[0] == '\U{0001}'
  }

  predicate IsLive(e: Entry) {
    e.name != "" && e.name[0] != '\U{0001}'
  }

  function End(e: Entry): nat {
    e.start + e.reserved
  }

  // Conversion to a 32-bit int, as the comparison function returns its 64-bit difference.
  function ToInt(x: int): int {
    (x + HALF) % (2 * HALF) - HALF
  }

  // StartingBlockCmp
  function Cmp(a: Entry, b: Entry): int {
    if IsDeleted(a) then 1 else if IsDeleted(b) then -1 else ToInt((a.start - b.start) % WORD)
  }

  // Records of files and of deleted files, of a disk whose block numbers fit into 31 bits.
  ghost predicate Records(s: seq<Entry>) {
    forall i :: 0 <= i < |s| ==> !IsEnd(s[i]) && s[i].start < HALF
  }

  // Files in the order of their starting blocks, then the deleted records.
  ghost predicate Ordered(s: seq<Entry>) {
    forall i, j :: 0 <= i < j < |s| ==> InOrder(s[i], s[j])
  }

  predicate InOrder(a: Entry, b: Entry) {
    if IsDeleted(a) then IsDeleted(b) else IsDeleted(b) || a.start <= b.start
  }

  lemma CmpOrders(a: Entry, b: Entry)
    requires a.start < HALF && b.start < HALF
    ensures Cmp(a, b) < 0 ==> InOrder(a, b)
    ensures Cmp(a, b) >= 0 ==> InOrder(b, a)
  {
    if !IsDeleted(a) && !IsDeleted(b) {
      Difference(a.start, b.start);
    }
  }

  lemma Difference(x: nat, y: nat)
    requires x < 0x8000_0000 && y < 0x8000_0000
    ensures ToInt((x - y) % WORD) == x - y
  {
    if x < y {
      assert (x - y) % WORD == x - y + WORD;
      assert (x - y + WORD + HALF) % (2 * HALF) == (x - y + HALF) % (2 * HALF) by {
        Shifted(x - y + HALF);
      }
    }
  }

  lemma Shifted(x: int)
    ensures (x + 0x1_0000_0000_0000_0000) % 0x1_0000_0000 == x % 0x1_0000_0000
  {
  }

  // A sort by that comparison; which one the library uses makes no difference to files.
  function Insert(e: Entry, s: seq<Entry>): seq<Entry> {
    if s == [] || Cmp(e, s[0]) < 0 then [e] + s else [s[0]] + Insert(e, s[1..])
  }

  function Sort(s: seq<Entry>): seq<Entry> {
    if s == [] then [] else Insert(s[0], Sort(s[1..]))
  }

  lemma {:induction false} InsertAdds(e: Entry, s: seq<Entry>)
    ensures multiset(Insert(e, s)) == multiset(s) + multiset{e}
    ensures forall x :: x in Insert(e, s) <==> x in s || x == e
  {
    hide Cmp;
    if s != [] && Cmp(e, s[0]) >= 0 {
      InsertAdds(e, s[1..]);
      assert s == [s[0]] + s[1..];
    }
  }

  ghost predicate AllAfter(a: Entry, s: seq<Entry>) {
    forall x :: x in s ==> InOrder(a, x)
  }

  lemma OrderedCons(a: Entry, s: seq<Entry>)
    requires Ordered(s) && AllAfter(a, s)
    ensures Ordered([a] + s)
  {
  }

  lemma OrderedTail(s: seq<Entry>)
    requires Ordered(s) && s != []
    ensures Ordered(s[1..]) && AllAfter(s[0], s[1..])
  {
  }

  lemma {:induction false} InsertSorts(e: Entry, s: seq<Entry>)
    requires Ordered(s) && Records(s) && !IsEnd(e) && e.start < HALF
    ensures Ordered(Insert(e, s)) && Records(Insert(e, s))
  {
    hide Ordered, InOrder, Cmp;
    if s == [] {
      OneOrdered(e);
      assert [e] + s == [e];
    } else {
      OrderedTail(s);
      CmpOrders(e, s[0]);
      if Cmp(e, s[0]) < 0 {
        AfterFirst(e, s);
        OrderedCons(e, s);
      } else {
        InsertSorts(e, s[1..]);
        InsertAdds(e, s[1..]);
        OrderedCons(s[0], Insert(e, s[1..]));
      }
    }
  }

  lemma OneOrdered(e: Entry)
    ensures Ordered([e])
  {
  }

  lemma AfterFirst(e: Entry, s: seq<Entry>)
    requires s != [] && Ordered(s) && InOrder(e, s[0])
    ensures AllAfter(e, s)
  {
    OrderedTail(s);
    assert s == [s[0]] + s[1..];
  }

  lemma {:induction false} SortSorts(s: seq<Entry>)
    requires Records(s)
    ensures Ordered(Sort(s)) && Records(Sort(s)) && multiset(Sort(s)) == multiset(s)
  {
    hide Insert;
    if s != [] {
      SortSorts(s[1..]);
      InsertSorts(s[0], Sort(s[1..]));
      InsertAdds(s[0], Sort(s[1..]));
      assert s == [s[0]] + s[1..];
    }
  }

  // Two files share no block.
  predicate Apart(a: Entry, b: Entry) {
    End(a) <= b.start || End(b) <= a.start
  }

  predicate InDisk(e: Entry, blocks: nat) {
    1 <= e.start && 1 <= e.reserved && End(e) + 1 <= blocks
  }

  // The files lie in the blocks between the first and the last one and do not overlap;
  // deleted records still describe what was a file.
  ghost predicate WellPlaced(m: multiset<Entry>, blocks: nat) {
    && 2 <= blocks <= HALF
    && (forall e :: e in m ==> !IsEnd(e) && InDisk(e, blocks))
    && (forall e :: e in m && IsLive(e) ==> m[e] == 1)
    && (forall e, f :: e in m && f in m && IsLive(e) && IsLive(f) && e != f ==> Apart(e, f))
  }

  // Blocks x to x + n - 1 are free.
  ghost predicate Fits(m: multiset<Entry>, blocks: nat, x: nat, n: nat) {
    && 1 <= x && x + n + 1 <= blocks
    && forall e :: e in m && IsLive(e) ==> x + n <= e.start || End(e) <= x
  }

  // The difference of two unsigned 64-bit numbers.
  function Minus(x: nat, y: nat): nat {
    (x - y) % WORD
  }

  // The scan of the sorted records from number i on, which returns 0 if nothing is found.
  function Scan(s: seq<Entry>, i: nat, prevEnd: nat, blocks: nat, n: nat): nat
    requires i <= |s| && blocks >= 1
    decreases |s| - i
  {
    var thisStart := if i == |s| || IsDeleted(s[i]) then blocks - 1 else s[i].start;
    if Minus(thisStart, prevEnd) >= n then prevEnd
    else if i == |s| then 0
    else Scan(s, i + 1, End(s[i]), blocks, n)
  }

  lemma MinusPlain(x: nat, y: nat)
    requires y <= x < HALF
    ensures Minus(x, y) == x - y
  {
  }

  // The records before number i are files that end at prevEnd or before, and nothing fits
  // below prevEnd.
  ghost predicate Scanned(s: seq<Entry>, i: nat, prevEnd: nat, blocks: nat, n: nat) {
    && i <= |s| && 1 <= prevEnd && prevEnd + 1 <= blocks
    && (forall j :: 0 <= j < i ==> IsLive(s[j]) && End(s[j]) <= prevEnd)
    && prevEnd == (if i == 0 then 1 else End(s[i - 1]))
    && (forall y: nat :: y < prevEnd ==> !Fits(multiset(s), blocks, y, n))
  }

  lemma {:induction false} SameTwice(s: seq<Entry>, i: nat, j: nat)
    requires i < j < |s| && s[i] == s[j]
    ensures multiset(s)[s[i]] >= 2
  {
    assert s == s[..i] + [s[i]] + s[i + 1..];
    assert s[i + 1..][j - i - 1] == s[j];
    assert s[j] in multiset(s[i + 1..]);
  }

  lemma NextApart(s: seq<Entry>, i: nat, j: nat, blocks: nat)
    requires Ordered(s) && WellPlaced(multiset(s), blocks) && i < j < |s| && IsLive(s[j])
    ensures IsLive(s[i]) && End(s[i]) <= s[j].start
  {
    assert s[i] in multiset(s) && s[j] in multiset(s);
    if s[i] == s[j] {
      SameTwice(s, i, j);
    }
  }

  // The gap in front of file number i.
  lemma ScanFile(s: seq<Entry>, i: nat, prevEnd: nat, blocks: nat, n: nat)
    requires Ordered(s) && WellPlaced(multiset(s), blocks) && n >= 1 && Scanned(s, i, prevEnd, blocks, n)
    requires i < |s| && IsLive(s[i])
    ensures prevEnd <= s[i].start && Minus(s[i].start, prevEnd) == s[i].start - prevEnd
    ensures if s[i].start - prevEnd >= n
            then Fits(multiset(s), blocks, prevEnd, n) && forall y: nat :: y < prevEnd ==>
                !Fits(multiset(s), blocks, y, n)
            else Scanned(s, i + 1, End(s[i]), blocks, n)
  {
    assert s[i] in multiset(s);
    if i > 0 {
      NextApart(s, i - 1, i, blocks);
    }
    MinusPlain(s[i].start, prevEnd);
    if s[i].start - prevEnd >= n {
      forall e | e in multiset(s) && IsLive(e)
        ensures prevEnd + n <= e.start || End(e) <= prevEnd
      {
        var j :| 0 <= j < |s| && s[j] == e;
        if j > i {
          NextApart(s, i, j, blocks);
        }
      }
    } else {
      forall y: nat | y < End(s[i]) ensures !Fits(multiset(s), blocks, y, n) {
      }
    }
  }

  lemma LiveBefore(s: seq<Entry>, i: nat, j: nat)
    requires Ordered(s) && i <= |s| && j < |s| && IsLive(s[j]) && (i == |s| || IsDeleted(s[i]))
    ensures j < i
  {
  }

  // The gap behind the last file.
  lemma ScanLast(s: seq<Entry>, i: nat, prevEnd: nat, blocks: nat, n: nat)
    requires Ordered(s) && WellPlaced(multiset(s), blocks) && n >= 1 && Scanned(s, i, prevEnd, blocks, n)
    requires i == |s| || IsDeleted(s[i])
    ensures Minus(blocks - 1, prevEnd) == blocks - 1 - prevEnd
    ensures i == |s| ==> forall e :: e in s ==> !IsDeleted(e)
    ensures if blocks - 1 - prevEnd >= n
            then Fits(multiset(s), blocks, prevEnd, n) && forall y: nat :: y < prevEnd ==>
                !Fits(multiset(s), blocks, y, n)
            else forall x: nat :: !Fits(multiset(s), blocks, x, n)
  {
    MinusPlain(blocks - 1, prevEnd);
    forall e | e in multiset(s) && IsLive(e)
      ensures End(e) <= prevEnd
    {
      var j :| 0 <= j < |s| && s[j] == e;
      LiveBefore(s, i, j);
    }
  }

  // Past the files the scan measures from the ends of deleted records.
  lemma {:induction false} ScanDeleted(s: seq<Entry>, i: nat, blocks: nat, n: nat)
    requires 0 < i <= |s| && n >= 1 && 2 <= blocks <= HALF
    requires forall j :: i - 1 <= j < |s| ==> IsDeleted(s[j]) && InDisk(s[j], blocks)
    ensures var r := Scan(s, i, End(s[i - 1]), blocks, n);
            && (r == 0 || exists j :: i - 1 <= j < |s| && r == End(s[j]) && r + n + 1 <= blocks)
            && (r == 0 ==> forall j :: i - 1 <= j < |s| ==> End(s[j]) + n + 1 > blocks)
    decreases |s| - i
  {
    MinusPlain(blocks - 1, End(s[i - 1]));
    if Minus(blocks - 1, End(s[i - 1])) < n && i < |s| {
      ScanDeleted(s, i + 1, blocks, n);
    }
  }

  lemma DeletedFrom(s: seq<Entry>, i: nat, prevEnd: nat, blocks: nat, n: nat)
    requires Ordered(s) && WellPlaced(multiset(s), blocks) && Scanned(s, i, prevEnd, blocks, n) && i < |s| &&
               IsDeleted(s[i])
    ensures forall j :: i <= j < |s| ==> IsDeleted(s[j]) && InDisk(s[j], blocks)
    ensures forall e :: e in s && IsDeleted(e) ==> exists j :: i <= j < |s| && s[j] == e
  {
    forall j | i <= j < |s| ensures IsDeleted(s[j]) && InDisk(s[j], blocks) {
      assert s[j] in multiset(s);
      assert j > i ==> InOrder(s[i], s[j]);
    }
  }

  lemma FilesAndDeleted(s: seq<Entry>, blocks: nat)
    requires WellPlaced(multiset(s), blocks)
    ensures 2 <= blocks <= HALF && forall i :: 0 <= i < |s| ==> IsLive(s[i]) || IsDeleted(s[i])
  {
    forall i | 0 <= i < |s| ensures IsLive(s[i]) || IsDeleted(s[i]) {
      assert s[i] in multiset(s);
    }
  }

  // The scan finds the lowest place where n blocks fit, as long as there is one.
  lemma {:induction false} ScanFinds(s: seq<Entry>, i: nat, prevEnd: nat, blocks: nat, n: nat)
    requires Ordered(s) && WellPlaced(multiset(s), blocks) && n >= 1 && i <= |s| && blocks >= 1
    requires Scanned(s, i, prevEnd, blocks, n)
    ensures var r := Scan(s, i, prevEnd, blocks, n);
            if exists x: nat :: Fits(multiset(s), blocks, x, n)
            then Fits(multiset(s), blocks, r, n) && forall y: nat :: y < r ==> !Fits(multiset(s), blocks, y, n)
            else r == 0 || exists e :: e in s && IsDeleted(e) && r == End(e) && r + n + 1 <= blocks
    ensures var r := Scan(s, i, prevEnd, blocks, n);
            !(exists x: nat :: Fits(multiset(s), blocks, x, n)) && r == 0 ==> forall e :: e in s && IsDeleted(e) ==>
                End(e) + n + 1 > blocks
    decreases |s| - i
  {
    hide Ordered, WellPlaced, Scanned, Fits;
    FilesAndDeleted(s, blocks);
    if i < |s| && IsLive(s[i]) {
      ScanFile(s, i, prevEnd, blocks, n);
      if s[i].start - prevEnd < n {
        ScanFinds(s, i + 1, End(s[i]), blocks, n);
      }
    } else {
      ScanLast(s, i, prevEnd, blocks, n);
      if Minus(blocks - 1, prevEnd) < n && i < |s| {
        DeletedFrom(s, i, prevEnd, blocks, n);
        ScanDeleted(s, i + 1, blocks, n);
      }
    }
  }
}
