/** The 1024 byte ring of a pipe, and the loops of write and read between two points where
    they may block. */
module PipeRing {

  const SIZE := 1024
  // size_t counts modulo this; it is a multiple of SIZE.
  const WORD := 0x1_0000_0000_0000_0000

  datatype Ring = Ring(buffer: seq<char>, reading: nat, writing: nat)

  predicate Valid(r: Ring) {
    |r.buffer| == SIZE && r.reading < WORD && r.writing < WORD
  }

  function Used(r: Ring): (n: nat)
    ensures n < SIZE
  {
    (r.writing - r.reading) % SIZE
  }

  // The characters in the ring, the next to be read first.
  ghost function Contents(r: Ring): (s: seq<char>)
    requires Valid(r)
    ensures |s| == Used(r)
  {
    seq(Used(r), i requires 0 <= i => r.buffer[(r.reading + i) % SIZE])
  }

  // The tests of the two loops; an index below zero wraps round.
  predicate IsFull(r: Ring) {
    ((r.reading - 1) % WORD) % SIZE == r.writing % SIZE
  }

  predicate IsEmpty(r: Ring) {
    r.reading % SIZE == r.writing % SIZE
  }

  function Put(r: Ring, c: char): (r': Ring)
    requires Valid(r)
    ensures Valid(r')
  {
    Ring(r.buffer[r.writing % SIZE := c], r.reading, (r.writing + 1) % WORD)
  }

  function Front(r: Ring): char
    requires Valid(r)
  {
    r.buffer[r.reading % SIZE]
  }

  function Take(r: Ring): (r': Ring)
    requires Valid(r)
    ensures Valid(r')
  {
    r.(reading := (r.reading + 1) % WORD)
  }

  lemma WrapMod(i: int)
    ensures (i % WORD) % SIZE == i % SIZE
  {
    SameResidue(i, i % WORD, i / WORD * 0x40_0000_0000_0000);
  }

  lemma SameResidue(a: int, b: int, k: int)
    requires a - b == 1024 * k
    ensures a % 1024 == b % 1024
  {
  }

  // The ring is full with one place free, and empty with none taken.
  lemma FullOrEmpty(r: Ring)
    requires Valid(r)
    ensures IsFull(r) <==> |Contents(r)| == 1023
    ensures IsEmpty(r) <==> Contents(r) == []
  {
    hide Contents;
    WrapMod(r.reading - 1);
    PlaceOf(r.reading, r.writing, SIZE - 1);
    PlaceOf(r.reading, r.writing, 0);
  }

  // Storing a character appends it if there is room; in a full ring it loses everything.
  lemma PutAppends(r: Ring, c: char)
    requires Valid(r)
    ensures Contents(Put(r, c)) == if |Contents(r)| < 1023 then Contents(r) + [c] else []
  {
    WrapMod(r.writing + 1);
    var n := Used(r);
    UsedNext(r.writing, r.reading);
    UsedMod(r.writing + 1, (r.writing + 1) % WORD, r.reading);
    if n < SIZE - 1 {
      forall i | 0 <= i <= n
        ensures Contents(Put(r, c))[i] == (Contents(r) + [c])[i]
      {
        PlaceOf(r.reading, r.writing, i);
      }
    }
  }

  lemma UsedNext(w: int, r: int)
    ensures (w + 1 - r) % SIZE == if (w - r) % SIZE < SIZE - 1 then (w - r) % SIZE + 1 else 0
  {
  }

  lemma UsedMod(w: int, w': int, r: int)
    requires w % SIZE == w' % SIZE
    ensures (w - r) % SIZE == (w' - r) % SIZE
  {
  }

  // Place i of the contents is the place that is written next only for i = Used.
  lemma PlaceOf(r: int, w: int, i: nat)
    requires i < SIZE
    ensures (r + i) % SIZE == w % SIZE <==> i == (w - r) % SIZE
  {
  }

  lemma TakeRemoves(r: Ring)
    requires Valid(r) && Contents(r) != []
    ensures Contents(r) == [Front(r)] + Contents(Take(r))
  {
    WrapMod(r.reading + 1);
    UsedNext(r.writing, r.reading + 1);
    UsedShift(r.writing, r.reading + 1, (r.reading + 1) % WORD);
    forall i | 0 <= i < Used(r) - 1
      ensures Contents(Take(r))[i] == Contents(r)[i + 1]
    {
      SumMod(r.reading + 1, (r.reading + 1) % WORD, i);
    }
  }

  lemma UsedShift(w: int, r: int, r': int)
    requires r % SIZE == r' % SIZE
    ensures (w - r) % SIZE == (w - r') % SIZE
  {
  }

  lemma SumMod(r: int, r': int, i: int)
    requires r % SIZE == r' % SIZE
    ensures (r + i) % SIZE == (r' + i) % SIZE
  {
  }

  // The loop of write, up to its end or to the point where it blocks: what is left of s.
  function Fill(r: Ring, s: string): (p: (Ring, string))
    requires Valid(r)
    ensures Valid(p.0) && |p.1| <= |s|
    decreases |s|
  {
    if s == [] || IsFull(r) then (r, s) else Fill(Put(r, s[0]), s[1..])
  }

  // The loop of read for at most n characters, as far as the ring goes.
  function Drain(r: Ring, n: nat): (p: (Ring, string))
    requires Valid(r)
    ensures Valid(p.0) && |p.1| <= n
    decreases n
  {
    if n == 0 || IsEmpty(r) then (r, [])
    else
      var (r', s) := Drain(Take(r), n - 1);
      (r', [Front(r)] + s)
  }

  // What fits is appended, the rest stays behind; all of it fits up to 1023 characters.
  lemma {:induction false} FillAppends(r: Ring, s: string)
    requires Valid(r)
    ensures var (r', rest) := Fill(r, s);
            var room := SIZE - 1 - |Contents(r)|;
            && rest == (if |s| <= room then [] else s[room..])
            && Contents(r') == Contents(r) + if |s| <= room then s else s[..room]
    decreases |s|
  {
    hide Contents, IsFull;
    FullOrEmpty(r);
    if s != [] && !IsFull(r) {
      PutAppends(r, s[0]);
      ContentsBound(r);
      FillAppends(Put(r, s[0]), s[1..]);
      SplitWritten(Contents(r), s, SIZE - 1 - |Contents(r)|);
    }
  }

  lemma SplitWritten(before: string, s: string, room: nat)
    requires s != [] && room > 0
    ensures |s| > room ==> s[room..] == s[1..][room - 1..] && before + [s[0]] + s[1..][..room - 1] == before + s[..room]
    ensures before + [s[0]] + s[1..] == before + s
  {
  }

  lemma ContentsBound(r: Ring)
    requires Valid(r)
    ensures |Contents(r)| < SIZE
  {
  }

  lemma {:induction false} DrainTakes(r: Ring, n: nat)
    requires Valid(r)
    ensures var (r', s) := Drain(r, n);
            var have := |Contents(r)|;
            && s == (if n <= have then Contents(r)[..n] else Contents(r))
            && Contents(r') == if n <= have then Contents(r)[n..] else []
    decreases n
  {
    hide Contents, IsEmpty;
    FullOrEmpty(r);
    if n > 0 && !IsEmpty(r) {
      TakeRemoves(r);
      DrainTakes(Take(r), n - 1);
      if n <= |Contents(r)| {
        SplitFront(Front(r), Contents(Take(r)), n);
      }
    }
  }

  lemma SplitFront(c: char, s: string, n: nat)
    requires 0 < n <= |s| + 1
    ensures ([c] + s)[..n] == [c] + s[..n - 1] && ([c] + s)[n..] == s[n - 1..]
  {
  }

  // The pipe file with the two loops.
  class PipeFile {
    const buffer: array<char>
    var readingIndex: nat
    var writingIndex: nat

    ghost predicate Ready()
      reads this, buffer
    {
      Valid(View())
    }

    ghost function View(): Ring
      reads this, buffer
    {
      Ring(buffer[..], readingIndex, writingIndex)
    }

    // mkpipe
    constructor ()
      ensures Ready() && Contents(View()) == [] && fresh(buffer)
    {
      buffer := new char[SIZE];
      readingIndex, writingIndex := 0, 0;
    }

    // write from character from of s on. A call that resumes after having blocked stores
    // its first character without looking at the ring again.
    method Write(s: string, from: nat, resumed: bool) returns (charIndex: nat)
      requires Ready() && from <= |s| && (resumed ==> from < |s|)
      modifies `writingIndex, buffer
      ensures Ready() && from <= charIndex <= |s|
      ensures (View(), s[charIndex..]) ==
              if resumed then Fill(Put(old(View()), s[from]), s[from + 1..]) else Fill(old(View()), s[from..])
    {
      hide Put, IsFull;
      charIndex := from;
      if resumed {
        Store(s[charIndex]);
        charIndex := charIndex + 1;
      }
      ghost var start, first := View(), charIndex;
      while charIndex < |s| && (readingIndex - 1) % WORD % SIZE != writingIndex % SIZE
        invariant from <= first <= charIndex <= |s| && Ready()
        invariant Fill(View(), s[charIndex..]) == Fill(start, s[first..])
      {
        FillStep(View(), s, charIndex);
        Store(s[charIndex]);
        charIndex := charIndex + 1;
      }
      FillEnds(View(), s[charIndex..]);
    }

    method Store(c: char)
      requires Ready()
      modifies `writingIndex, buffer
      ensures Ready() && View() == Put(old(View()), c)
    {
      buffer[writingIndex % SIZE] := c;
      writingIndex := (writingIndex + 1) % WORD;
      assert buffer[..] == old(buffer[..])[old(writingIndex) % SIZE := c];
    }

    // read of at most n characters, until the ring is empty.
    method Read(n: nat) returns (chars: string)
      requires Ready()
      modifies `readingIndex
      ensures Ready() && (View(), chars) == Drain(old(View()), n)
    {
      hide Take, IsEmpty, Front;
      chars := [];
      assert forall more: string :: chars + more == more;
      while |chars| < n && readingIndex % SIZE != writingIndex % SIZE
        invariant |chars| <= n && Ready()
        invariant var (r, more) := Drain(View(), n - |chars|); (r, chars + more) == Drain(old(View()), n)
        decreases n - |chars|
      {
        DrainStep(View(), n - |chars|, chars);
        chars := chars + [buffer[readingIndex % SIZE]];
        readingIndex := (readingIndex + 1) % WORD;
      }
      DrainEnds(View(), n - |chars|);
      assert chars + [] == chars;
    }
  }

  lemma FillStep(r: Ring, s: string, i: nat)
    requires Valid(r) && i < |s| && (r.reading - 1) % WORD % SIZE != r.writing % SIZE
    ensures Fill(r, s[i..]) == Fill(Put(r, s[i]), s[i + 1..])
  {
    assert s[i..][1..] == s[i + 1..];
  }

  lemma FillEnds(r: Ring, s: string)
    requires Valid(r) && (s == [] || (r.reading - 1) % WORD % SIZE == r.writing % SIZE)
    ensures Fill(r, s) == (r, s)
  {
  }

  lemma DrainStep(r: Ring, n: nat, before: string)
    requires Valid(r) && n > 0 && r.reading % SIZE != r.writing % SIZE
    ensures var next := r.(reading := (r.reading + 1) % WORD);
            && Valid(next)
            && Drain(r, n).0 == Drain(next, n - 1).0
            && before + Drain(r, n).1 == before + [r.buffer[r.reading % SIZE]] + Drain(next, n - 1).1
  {
  }

  lemma DrainEnds(r: Ring, n: nat)
    requires Valid(r) && (n == 0 || r.reading % SIZE == r.writing % SIZE)
    ensures Drain(r, n) == (r, [])
  {
  }
}
