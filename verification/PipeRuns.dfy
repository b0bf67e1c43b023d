/** Every run of one pipe with any number of readers and writers: each system call is one
    step up to the point where it blocks, and resumes from there. */
module PipeRuns {
  import opened PipeRing

  // A process blocked inside a write call with rest still to store, or made ready again
  // but not yet resumed.
  datatype Writer = Writer(rest: string, woken: bool)

  // A process inside a read call of n characters that has got so many.
  datatype Reader = Reader(n: nat, got: nat, woken: bool)

  // written and taken are all characters stored in and taken from the ring since mkpipe.
  datatype Pipe = Pipe(ring: Ring, writers: map<nat, Writer>, readers: map<nat, Reader>, writeOpenCount: nat,
                       written: string, taken: string)

  // What a read call came to: it blocked, returned characters, or met the end of the file.
  datatype Outcome = Blocks | Returns(count: nat) | EndOfFile(count: nat)

  function Fresh(): (p: Pipe)
    ensures Valid(p.ring)
  {
    Pipe(Ring(seq(SIZE, _ => '\0'), 0, 0), map[], map[], 0, "", "")
  }

  // unblockAllProcessesBecauseReason for the readers, or for the writers.
  function WakeReaders(readers: map<nat, Reader>): map<nat, Reader> {
    map q | q in readers :: readers[q].(woken := true)
  }

  function WakeWriters(writers: map<nat, Writer>): map<nat, Writer> {
    map w | w in writers :: writers[w].(woken := true)
  }

  // write by process w, or the rest of it: after first, which a resumed call stores
  // without looking.
  function Write(p: Pipe, w: nat, first: string, s: string): (p': Pipe)
    requires Valid(p.ring) && |first| <= 1
    ensures Valid(p'.ring)
  {
    var before := if first == "" then p.ring else Put(p.ring, first[0]);
    var (ring, rest) := Fill(before, s);
    var p' := p.(ring := ring, written := p.written + first + s[..|s| - |rest|]);
    if rest == "" then p'.(writers := p.writers - {w}, readers := WakeReaders(p.readers))
    else p'.(writers := p.writers[w := Writer(rest, false)])
  }

  // read of n characters by process q after got of them.
  function Read(p: Pipe, q: nat, n: nat, got: nat): (r: (Pipe, Outcome))
    requires Valid(p.ring) && got <= n
    ensures Valid(r.0.ring)
  {
    var (ring, s) := Drain(p.ring, n - got);
    var p' := p.(ring := ring, taken := p.taken + s, readers := p.readers - {q});
    if got + |s| == n then (p'.(writers := WakeWriters(p.writers)), Returns(n))
    else if p.writeOpenCount > 0 then (p'.(readers := p.readers[q := Reader(n, got + |s|, false)]), Blocks)
    else (p', EndOfFile(got + |s| + 1))
  }

  // A writing end closes.
  function CloseWriting(p: Pipe): Pipe
    requires p.writeOpenCount > 0
  {
    var p' := p.(writeOpenCount := p.writeOpenCount - 1);
    if p'.writeOpenCount == 0 then p'.(readers := WakeReaders(p.readers)) else p'
  }

  // DropWriting is what revertFdReplacements does to a writing end: it counts it down and
  // wakes nobody.
  datatype Step =
    | OpenWriting | EndWriting | WriteCall(w: nat, s: string) | WriteResumes(w: nat) | KillWriter(w: nat)
    | ReadCall(q: nat, n: nat) | ReadResumes(q: nat) | KillReader(q: nat)
    | DropWriting

  predicate Enabled(p: Pipe, step: Step) {
    match step
    case OpenWriting => true
    case EndWriting => p.writeOpenCount > |p.writers|
    case DropWriting => p.writeOpenCount > |p.writers|
    case WriteCall(w, _) => w !in p.writers && p.writeOpenCount > |p.writers|
    case WriteResumes(w) => w in p.writers && p.writers[w].woken && p.writers[w].rest != ""
    case KillWriter(w) => p.writeOpenCount > if w in p.writers then 0 else |p.writers|
    case ReadCall(q, n) => q !in p.readers && n < 256
    case ReadResumes(q) => q in p.readers && p.readers[q].woken && p.readers[q].got <= p.readers[q].n
    case KillReader(q) => q in p.readers
  }

  function Do(p: Pipe, step: Step): (p': Pipe)
    requires Valid(p.ring) && Enabled(p, step)
    ensures Valid(p'.ring)
  {
    match step
    case OpenWriting => p.(writeOpenCount := p.writeOpenCount + 1)
    case EndWriting => CloseWriting(p)
    case DropWriting => p.(writeOpenCount := p.writeOpenCount - 1)
    case WriteCall(w, s) => Write(p, w, "", s)
    case WriteResumes(w) => Write(p, w, p.writers[w].rest[..1], p.writers[w].rest[1..])
    case KillWriter(w) => CloseWriting(p.(writers := p.writers - {w}))
    case ReadCall(q, n) => Read(p, q, n, 0).0
    case ReadResumes(q) => Read(p, q, p.readers[q].n, p.readers[q].got).0
    case KillReader(q) => p.(readers := p.readers - {q})
  }

  predicate CanRun(p: Pipe, steps: seq<Step>)
    requires Valid(p.ring)
    decreases |steps|
  {
    steps == [] || (Enabled(p, steps[0]) && CanRun(Do(p, steps[0]), steps[1..]))
  }

  function Run(p: Pipe, steps: seq<Step>): (p': Pipe)
    requires Valid(p.ring) && CanRun(p, steps)
    ensures Valid(p'.ring)
    decreases |steps|
  {
    if steps == [] then p else Run(Do(p, steps[0]), steps[1..])
  }

  // Reads ask for at least so many characters, and writes for at most so many.
  predicate ReadsAtLeast(steps: seq<Step>, n: nat) {
    forall i :: 0 <= i < |steps| && steps[i].ReadCall? ==> steps[i].n >= n
  }

  predicate WritesAtMost(steps: seq<Step>, n: nat) {
    forall i :: 0 <= i < |steps| && steps[i].WriteCall? ==> |steps[i].s| <= n
  }

  // Only process w writes.
  predicate WrittenBy(steps: seq<Step>, w: nat) {
    forall i :: 0 <= i < |steps| && steps[i].WriteCall? ==> steps[i].w == w
  }

  // The ring holds exactly what was written and not yet taken; nobody but w is inside a
  // write call, and w is blocked with 1023 characters or has room.
  ghost predicate Queue(p: Pipe, w: nat) {
    && Valid(p.ring)
    && p.written == p.taken + Contents(p.ring)
    && (forall x :: x in p.writers ==> x == w)
    && (w in p.writers ==>
          && p.writers[w].rest != "" && p.writeOpenCount > 0
          && (p.writers[w].woken <==> |Contents(p.ring)| < SIZE - 1))
    && forall q :: q in p.readers ==> p.readers[q].got < p.readers[q].n < 256
  }

  // Readers that have not been woken have nothing to read.
  ghost predicate Flowing(p: Pipe) {
    && Valid(p.ring)
    && (forall q :: q in p.readers && !p.readers[q].woken ==> Contents(p.ring) == "")
    && (forall x :: x in p.writers ==> |p.writers[x].rest| < SIZE)
  }

  lemma FreshQueue(w: nat)
    ensures Queue(Fresh(), w) && Flowing(Fresh())
  {
  }

  // What a write does to the queue of characters; first is lost with all the others when
  // it is stored in a full ring.
  lemma WriteEffect(p: Pipe, w: nat, first: string, s: string)
    requires Valid(p.ring) && |first| <= 1
    ensures var p' := Write(p, w, first, s);
            var c := if first == "" then Contents(p.ring) else if |Contents(p.ring)| < SIZE - 1
                then Contents(p.ring) + first else "";
            var room := SIZE - 1 - |c|;
            && p'.taken == p.taken && p'.writeOpenCount == p.writeOpenCount
            && (|s| <= room ==>
                  && Contents(p'.ring) == c + s && p'.written == p.written + first + s
                  && p'.writers == p.writers - {w} && p'.readers == WakeReaders(p.readers))
            && (|s| > room ==>
                  && room >= 0 && Contents(p'.ring) == c + s[..room] && p'.written == p.written + first + s[..room]
                  && p'.writers == p.writers[w := Writer(s[room..], false)] && p'.readers == p.readers)
  {
    hide Contents;
    var before := if first == "" then p.ring else Put(p.ring, first[0]);
    if first != "" {
      PutAppends(p.ring, first[0]);
      assert first == [first[0]];
    }
    FillAppends(before, s);
    ContentsBound(before);
    assert s[..|s|] == s;
  }

  lemma WriteQueue(p: Pipe, w: nat, first: string, s: string)
    requires Queue(p, w) && |first| <= 1 && p.writeOpenCount > 0 && (first != "" ==> |Contents(p.ring)| < SIZE - 1)
    ensures Queue(Write(p, w, first, s), w)
  {
    hide Contents, Write;
    WriteEffect(p, w, first, s);
    var p' := Write(p, w, first, s);
    var room := SIZE - 1 - |Contents(p.ring)| - |first|;
    assert first == "" ==> Contents(p.ring) == Contents(p.ring) + first;
    var more := if |s| <= room then s else s[..room];
    assert p.taken + (Contents(p.ring) + first + more) == p.taken + Contents(p.ring) + first + more;
  }

  lemma WriteFlows(p: Pipe, w: nat, first: string, s: string)
    requires Queue(p, w) && Flowing(p) && |first| <= 1 && p.writeOpenCount > 0 && |first| + |s| < SIZE
    requires first != "" ==> |Contents(p.ring)| < SIZE - 1
    ensures Flowing(Write(p, w, first, s))
  {
    hide Contents, Write;
    WriteEffect(p, w, first, s);
  }

  // What a read does to it.
  lemma ReadEffect(p: Pipe, q: nat, n: nat, got: nat)
    requires Valid(p.ring) && got <= n
    ensures var (p', outcome) := Read(p, q, n, got);
            var have, want := |Contents(p.ring)|, n - got;
            && p'.written == p.written && p'.writeOpenCount == p.writeOpenCount
            && (want <= have ==>
                  && p'.taken == p.taken + Contents(p.ring)[..want] && Contents(p'.ring) == Contents(p.ring)[want..]
                  && outcome == Returns(n) && p'.readers == p.readers - {q} && p'.writers == WakeWriters(p.writers))
            && (want > have ==>
                  && p'.taken == p.taken + Contents(p.ring) && Contents(p'.ring) == "" && p'.writers == p.writers
                  && (if p.writeOpenCount > 0
                      then outcome == Blocks && p'.readers == p.readers[q := Reader(n, got + have, false)]
                      else outcome == EndOfFile(got + have + 1) && p'.readers == p.readers - {q}))
  {
    hide Contents, Drain, Valid;
    DrainTakes(p.ring, n - got);
    assert Contents(p.ring)[..|Contents(p.ring)|] == Contents(p.ring);
  }

  lemma ReadQueue(p: Pipe, w: nat, q: nat, n: nat, got: nat)
    requires Queue(p, w) && got < n < 256
    ensures Queue(Read(p, q, n, got).0, w)
  {
    hide Contents, Read;
    ReadEffect(p, q, n, got);
    ContentsBound(p.ring);
    var want := n - got;
    if want <= |Contents(p.ring)| {
      assert Contents(p.ring) == Contents(p.ring)[..want] + Contents(p.ring)[want..];
    }
  }

  lemma ReadFlows(p: Pipe, w: nat, q: nat, n: nat, got: nat)
    requires Queue(p, w) && Flowing(p) && got < n < 256
    ensures Flowing(Read(p, q, n, got).0)
  {
    hide Contents, Read;
    ReadEffect(p, q, n, got);
  }

  lemma StepQueue(p: Pipe, step: Step, w: nat)
    requires Queue(p, w) && Enabled(p, step) && ReadsAtLeast([step], 1) && WrittenBy([step], w)
    ensures Queue(Do(p, step), w)
  {
    hide Write, Read, Contents;
    assert step == [step][0];
    match step
    case WriteCall(x, s) => WriteQueue(p, w, "", s);
    case WriteResumes(x) => WriteQueue(p, w, p.writers[w].rest[..1], p.writers[w].rest[1..]);
    case ReadCall(q, n) => ReadQueue(p, w, q, n, 0);
    case ReadResumes(q) => ReadQueue(p, w, q, p.readers[q].n, p.readers[q].got);
    case _ =>
  }

  lemma StepFlows(p: Pipe, step: Step, w: nat)
    requires Queue(p, w) && Flowing(p) && Enabled(p, step)
    requires ReadsAtLeast([step], 1) && WrittenBy([step], w) && WritesAtMost([step], SIZE - 1)
    ensures Flowing(Do(p, step))
  {
    hide Write, Read, Contents;
    assert step == [step][0];
    match step
    case WriteCall(x, s) => WriteFlows(p, w, "", s);
    case WriteResumes(x) => WriteFlows(p, w, p.writers[w].rest[..1], p.writers[w].rest[1..]);
    case ReadCall(q, n) => ReadFlows(p, w, q, n, 0);
    case ReadResumes(q) => ReadFlows(p, w, q, p.readers[q].n, p.readers[q].got);
    case _ =>
  }

  lemma {:induction false} RunQueue(p: Pipe, steps: seq<Step>, w: nat)
    requires Queue(p, w) && CanRun(p, steps) && ReadsAtLeast(steps, 1) && WrittenBy(steps, w)
    ensures Queue(Run(p, steps), w)
    decreases |steps|
  {
    hide Queue, Enabled, Do;
    QueueValid(p, w);
    if steps != [] {
      StepQueue(p, steps[0], w);
      RunQueue(Do(p, steps[0]), steps[1..], w);
    }
  }

  lemma {:induction false} RunFlows(p: Pipe, steps: seq<Step>, w: nat)
    requires Queue(p, w) && Flowing(p) && CanRun(p, steps)
    requires ReadsAtLeast(steps, 1) && WrittenBy(steps, w) && WritesAtMost(steps, SIZE - 1)
    ensures Queue(Run(p, steps), w) && Flowing(Run(p, steps))
    decreases |steps|
  {
    hide Queue, Flowing, Enabled, Do;
    QueueValid(p, w);
    if steps != [] {
      StepQueue(p, steps[0], w);
      StepFlows(p, steps[0], w);
      RunFlows(Do(p, steps[0]), steps[1..], w);
    }
  }

  lemma QueueValid(p: Pipe, w: nat)
    requires Queue(p, w)
    ensures Valid(p.ring)
  {
  }

  ghost predicate OneWriter(steps: seq<Step>) {
    exists w :: WrittenBy(steps, w)
  }

  // In every run of the given kind, what has been read is the beginning of what has been
  // written.
  ghost predicate InOrder(least: nat, oneWriter: bool) {
    forall steps :: CanRun(Fresh(), steps) && ReadsAtLeast(steps, least) && (oneWriter ==> OneWriter(steps)) ==>
                      Run(Fresh(), steps).taken <= Run(Fresh(), steps).written
  }

  // That is so if and only if one process writes and no read asks for zero characters:
  // only then does a woken writer, which does not look again, always find room.
  lemma DeliveredInOrderIff(least: nat, oneWriter: bool)
    requires least < 256
    ensures InOrder(least, oneWriter) <==> least >= 1 && oneWriter
  {
    if least >= 1 && oneWriter {
      forall steps | CanRun(Fresh(), steps) && ReadsAtLeast(steps, least) && OneWriter(steps)
        ensures Run(Fresh(), steps).taken <= Run(Fresh(), steps).written
      {
        var w :| WrittenBy(steps, w);
        FreshQueue(w);
        RunQueue(Fresh(), steps, w);
      }
    } else if least == 0 {
      var steps := ZeroReadRun();
      assert ReadsAtLeast(steps, 0);
    } else {
      var steps := TwoWriterRun(least);
    }
  }

  function Letters(n: nat): (s: string)
    ensures |s| == n && forall i :: 0 <= i < n ==> s[i] == 'a'
  {
    seq(n, _ => 'a')
  }

  // Process 1 has been woken although the ring is full.
  ghost predicate WokenFull(p: Pipe) {
    && Valid(p.ring) && |Contents(p.ring)| == SIZE - 1
    && 1 in p.writers && p.writers[1] == Writer("a", true) && p.readers == map[] && p.writeOpenCount >= |p.writers|
    && |p.taken| < |p.written| && p.written[|p.taken|] == 'a'
  }

  // It empties the ring, and the next character written is the next one read.
  lemma WokenFullLoses(p: Pipe, n: nat)
    requires WokenFull(p) && 0 < n < 256
    ensures Enabled(p, WriteResumes(1)) && Enabled(Do(p, WriteResumes(1)), WriteCall(1, "b"))
    ensures var p5 := Do(Do(p, WriteResumes(1)), WriteCall(1, "b"));
            && Enabled(p5, ReadCall(7, n))
            && !(Do(p5, ReadCall(7, n)).taken <= Do(p5, ReadCall(7, n)).written)
  {
    hide Contents, Write, Read;
    assert "a"[..1] == "a" && "a"[1..] == "";
    WriteEffect(p, 1, "a", "");
    FewerWriters(p.writers, 1);
    EmptiedMisreads(Write(p, 1, "a", ""), n);
  }

  // All the characters in the ring have been lost.
  ghost predicate Emptied(p: Pipe) {
    && Valid(p.ring) && Contents(p.ring) == ""
    && 1 !in p.writers && 7 !in p.readers && p.writeOpenCount > |p.writers|
    && |p.taken| < |p.written| && p.written[|p.taken|] == 'a'
  }

  lemma EmptiedMisreads(p: Pipe, n: nat)
    requires Emptied(p) && 0 < n < 256
    ensures Enabled(p, WriteCall(1, "b"))
    ensures var p5 := Do(p, WriteCall(1, "b"));
            && Enabled(p5, ReadCall(7, n))
            && !(Do(p5, ReadCall(7, n)).taken <= Do(p5, ReadCall(7, n)).written)
  {
    hide Contents, Write, Read;
    WriteEffect(p, 1, "", "b");
    var p5 := Write(p, 1, "", "b");
    ReadEffect(p5, 7, n, 0);
    var p6 := Read(p5, 7, n, 0).0;
    assert p6.taken == p.taken + "b" && p6.written[|p.taken|] == 'a';
  }

  lemma FewerWriters(writers: map<nat, Writer>, w: nat)
    requires w in writers
    ensures |writers - {w}| < |writers|
  {
    assert (writers - {w}).Keys == writers.Keys - {w};
  }

  // Process 1 has filled the ring and waits with one more character.
  ghost predicate OneTooMany(p: Pipe) {
    && Valid(p.ring) && |Contents(p.ring)| == SIZE - 1 && p.writers == map[1 := Writer("a", false)]
    && p.readers == map[] && p.writeOpenCount == 1 && p.taken == "" && |p.written| == SIZE - 1 && p.written[0] == 'a'
  }

  lemma LongWriteWaits()
    ensures Enabled(Do(Fresh(), OpenWriting), WriteCall(1, Letters(SIZE)))
    ensures OneTooMany(Do(Do(Fresh(), OpenWriting), WriteCall(1, Letters(SIZE))))
  {
    hide Contents, Write, Read, Letters;
    FreshQueue(1);
    var p1 := Do(Fresh(), OpenWriting);
    assert Contents(p1.ring) == "";
    WriteEffect(p1, 1, "", Letters(SIZE));
    assert Letters(SIZE)[SIZE - 1..] == "a";
  }

  lemma ZeroReadWakes(p: Pipe)
    requires OneTooMany(p)
    ensures Enabled(p, ReadCall(7, 0)) && WokenFull(Do(p, ReadCall(7, 0)))
  {
    hide Contents, Read;
    ReadEffect(p, 7, 0, 0);
    var p' := Read(p, 7, 0, 0).0;
    assert p'.writers == map[1 := Writer("a", true)] && p'.readers == map[];
  }

  lemma ZeroReadRun() returns (steps: seq<Step>)
    ensures CanRun(Fresh(), steps) && WrittenBy(steps, 1) && !(Run(Fresh(), steps).taken <= Run(Fresh(), steps).written)
  {
    hide Do, Enabled, CanRun, Run, WokenFull, Letters;
    LongWriteWaits();
    OpenEnabled(Fresh());
    ZeroReadWakes(Do(Do(Fresh(), OpenWriting), WriteCall(1, Letters(SIZE))));
    var p3 := Do(Do(Do(Fresh(), OpenWriting), WriteCall(1, Letters(SIZE))), ReadCall(7, 0));
    var rest := LosingEnd(p3, 1);
    steps := [OpenWriting, WriteCall(1, Letters(SIZE)), ReadCall(7, 0)] + rest;
    RunThree(Fresh(), OpenWriting, WriteCall(1, Letters(SIZE)), ReadCall(7, 0), rest);
  }

  lemma LosingEnd(p: Pipe, n: nat) returns (rest: seq<Step>)
    requires WokenFull(p) && 0 < n < 256
    ensures rest == [WriteResumes(1), WriteCall(1, "b"), ReadCall(7, n)]
    ensures Valid(p.ring) && CanRun(p, rest) && !(Run(p, rest).taken <= Run(p, rest).written)
  {
    hide Do, Enabled, CanRun, Run, Contents;
    WokenFullLoses(p, n);
    rest := [WriteResumes(1), WriteCall(1, "b"), ReadCall(7, n)];
    NothingLeft(Do(Do(Do(p, WriteResumes(1)), WriteCall(1, "b")), ReadCall(7, n)));
    RunThree(p, WriteResumes(1), WriteCall(1, "b"), ReadCall(7, n), []);
    assert rest + [] == rest;
  }

  // Processes 2 and 1 both wait for room; n characters are read, both are woken, and the
  // first of them takes all the room.
  lemma TwoWritersWake(n: nat)
    requires 0 < n < 256
    ensures var p2 := Do(Do(Fresh(), OpenWriting), OpenWriting);
            && Enabled(p2, WriteCall(2, Letters(SIZE - 1 + n)))
            && var p3 := Do(p2, WriteCall(2, Letters(SIZE - 1 + n)));
            && Enabled(p3, WriteCall(1, "a"))
            && var p4 := Do(p3, WriteCall(1, "a"));
            && Enabled(p4, ReadCall(7, n))
            && var p5 := Do(p4, ReadCall(7, n));
            && Enabled(p5, WriteResumes(2))
            && WokenFull(Do(p5, WriteResumes(2)))
  {
    hide Contents, Write, Read;
    FreshQueue(1);
    var long := Letters(SIZE - 1 + n);
    var p2 := Do(Do(Fresh(), OpenWriting), OpenWriting);
    assert Contents(p2.ring) == "";
    WriteEffect(p2, 2, "", long);
    var p3 := Write(p2, 2, "", long);
    WriteEffect(p3, 1, "", "a");
    var p4 := Write(p3, 1, "", "a");
    assert p4.writers == map[2 := Writer(long[SIZE - 1..], false), 1 := Writer("a", false)];
    FirstTakesAll(p4, n, long);
  }

  lemma FirstTakesAll(p: Pipe, n: nat, long: string)
    requires 0 < n < 256 && long == Letters(SIZE - 1 + n)
    requires Valid(p.ring) && Contents(p.ring) == long[..SIZE - 1] && p.written == long[..SIZE - 1] && p.taken == ""
    requires p.writers == map[2 := Writer(long[SIZE - 1..], false), 1 := Writer("a", false)]
    requires p.readers == map[] && p.writeOpenCount == 2
    ensures Enabled(p, ReadCall(7, n)) && Enabled(Do(p, ReadCall(7, n)), WriteResumes(2))
    ensures WokenFull(Do(Do(p, ReadCall(7, n)), WriteResumes(2)))
  {
    hide Contents, Write, Read;
    ReadEffect(p, 7, n, 0);
    var p5 := Read(p, 7, n, 0).0;
    assert p5.readers == map[] && p5.taken == long[..n];
    var rest := long[SIZE - 1..];
    assert p5.writers[2] == Writer(rest, true);
    WriteEffect(p5, 2, rest[..1], rest[1..]);
    var p6 := Write(p5, 2, rest[..1], rest[1..]);
    assert p6.writers == map[1 := Writer("a", true)] && p6.readers == map[];
    assert p6.written == long[..SIZE - 1] + rest[..1] + rest[1..];
  }

  lemma TwoWriterRun(n: nat) returns (steps: seq<Step>)
    requires 0 < n < 256
    ensures CanRun(Fresh(), steps) && ReadsAtLeast(steps, n) &&
              !(Run(Fresh(), steps).taken <= Run(Fresh(), steps).written)
  {
    hide Do, Enabled, CanRun, Run, WokenFull, Letters;
    var long := Letters(SIZE - 1 + n);
    OpenEnabled(Fresh());
    OpenEnabled(Do(Fresh(), OpenWriting));
    TwoWritersWake(n);
    var p2 := Do(Do(Fresh(), OpenWriting), OpenWriting);
    var p3 := Do(p2, WriteCall(2, long));
    var p6 := Do(Do(Do(p3, WriteCall(1, "a")), ReadCall(7, n)), WriteResumes(2));
    var rest := LosingEnd(p6, n);
    var middle := [WriteCall(1, "a"), ReadCall(7, n), WriteResumes(2)] + rest;
    steps := [OpenWriting, OpenWriting, WriteCall(2, long)] + middle;
    RunThree(p3, WriteCall(1, "a"), ReadCall(7, n), WriteResumes(2), rest);
    RunThree(Fresh(), OpenWriting, OpenWriting, WriteCall(2, long), middle);
  }

  lemma OpenEnabled(p: Pipe)
    ensures Enabled(p, OpenWriting)
  {
  }

  lemma NothingLeft(p: Pipe)
    requires Valid(p.ring)
    ensures CanRun(p, []) && Run(p, []) == p
  {
  }

  lemma RunStep(p: Pipe, step: Step, rest: seq<Step>)
    requires Valid(p.ring) && Enabled(p, step) && CanRun(Do(p, step), rest)
    ensures CanRun(p, [step] + rest) && Run(p, [step] + rest) == Run(Do(p, step), rest)
  {
    assert ([step] + rest)[1..] == rest;
  }

  lemma RunThree(p: Pipe, a: Step, b: Step, c: Step, rest: seq<Step>)
    requires Valid(p.ring) && Enabled(p, a) && Enabled(Do(p, a), b) && Enabled(Do(Do(p, a), b), c)
    requires CanRun(Do(Do(Do(p, a), b), c), rest)
    ensures CanRun(p, [a, b, c] + rest) && Run(p, [a, b, c] + rest) == Run(Do(Do(Do(p, a), b), c), rest)
  {
    hide Do, Enabled, Run, CanRun;
    RunStep(Do(Do(p, a), b), c, rest);
    RunStep(Do(p, a), b, [c] + rest);
    RunStep(p, a, [b] + ([c] + rest));
    assert [a] + ([b] + ([c] + rest)) == [a, b, c] + rest;
  }

  // The end of the file is met only when everything written has been read and nobody can
  // write any more.
  lemma EndOfFileMeans(steps: seq<Step>, q: nat, n: nat, got: nat)
    requires CanRun(Fresh(), steps) && ReadsAtLeast(steps, 1) && OneWriter(steps) && got < n
    ensures var p := Run(Fresh(), steps);
            var (p', outcome) := Read(p, q, n, got);
            outcome.EndOfFile? <==> n - got > |Contents(p.ring)| && p.writeOpenCount == 0
    ensures var p := Run(Fresh(), steps);
            var (p', outcome) := Read(p, q, n, got);
            outcome.EndOfFile? ==> p'.taken == p'.written && p'.writeOpenCount == 0
  {
    hide Contents, Read;
    var w :| WrittenBy(steps, w);
    FreshQueue(w);
    RunQueue(Fresh(), steps, w);
    ReadEffect(Run(Fresh(), steps), q, n, got);
  }

  // A process that waits to read and one that waits to write, both for the other.
  predicate Stuck(p: Pipe) {
    (exists w :: w in p.writers && !p.writers[w].woken) && exists q :: q in p.readers && !p.readers[q].woken
  }

  // At every scheduling point a reader that sleeps means an empty ring and a writer that
  // sleeps one of exactly 1023 characters.
  lemma BlockedMeans(steps: seq<Step>)
    requires CanRun(Fresh(), steps) && ReadsAtLeast(steps, 1) && OneWriter(steps) && WritesAtMost(steps, SIZE - 1)
    ensures var p := Run(Fresh(), steps);
            && (forall w :: w in p.writers && !p.writers[w].woken ==> |Contents(p.ring)| == SIZE - 1)
            && (forall q :: q in p.readers && !p.readers[q].woken ==> Contents(p.ring) == "")
            && !Stuck(p)
  {
    var w :| WrittenBy(steps, w);
    FreshQueue(w);
    RunFlows(Fresh(), steps, w);
  }

  // Every reader that sleeps has somebody who can wake it.
  ghost predicate HasWriter(p: Pipe) {
    forall q :: q in p.readers && !p.readers[q].woken ==> p.writeOpenCount > 0
  }

  ghost predicate AlwaysHasWriter(p: Pipe, steps: seq<Step>)
    requires Valid(p.ring) && CanRun(p, steps)
    decreases |steps|
  {
    HasWriter(p) && (steps == [] || AlwaysHasWriter(Do(p, steps[0]), steps[1..]))
  }

  // Restoring a descriptor takes the last writing end away while a reader sleeps.
  ghost predicate TakesLast(p: Pipe, step: Step) {
    step.DropWriting? && p.writeOpenCount == 1 && exists q :: q in p.readers && !p.readers[q].woken
  }

  ghost predicate NeverTakesLast(p: Pipe, steps: seq<Step>)
    requires Valid(p.ring) && CanRun(p, steps)
    decreases |steps|
  {
    steps == [] || (!TakesLast(p, steps[0]) && NeverTakesLast(Do(p, steps[0]), steps[1..]))
  }

  lemma StepHasWriter(p: Pipe, step: Step)
    requires Valid(p.ring) && HasWriter(p) && Enabled(p, step)
    ensures HasWriter(Do(p, step)) <==> !TakesLast(p, step)
  {
    hide Write, Read, Contents;
    match step
    case WriteCall(w, s) => WriteEffect(p, w, "", s);
    case WriteResumes(w) =>
      WriteEffect(p, w, p.writers[w].rest[..1], p.writers[w].rest[1..]);
      if p.writeOpenCount == 0 {
        assert forall q :: q in p.readers ==> p.readers[q].woken;
      }
    case ReadCall(q, n) => ReadEffect(p, q, n, 0);
    case ReadResumes(q) => ReadEffect(p, q, p.readers[q].n, p.readers[q].got);
    case _ =>
  }

  lemma {:induction false} RunHasWriter(p: Pipe, steps: seq<Step>)
    requires Valid(p.ring) && HasWriter(p) && CanRun(p, steps)
    ensures AlwaysHasWriter(p, steps) <==> NeverTakesLast(p, steps)
    decreases |steps|
  {
    hide HasWriter, TakesLast, Do, Enabled;
    if steps != [] {
      StepHasWriter(p, steps[0]);
      if HasWriter(Do(p, steps[0])) {
        RunHasWriter(Do(p, steps[0]), steps[1..]);
      } else {
        NotAlways(Do(p, steps[0]), steps[1..]);
      }
    }
  }

  lemma NotAlways(p: Pipe, steps: seq<Step>)
    requires Valid(p.ring) && CanRun(p, steps) && !HasWriter(p)
    ensures !AlwaysHasWriter(p, steps)
  {
  }

  // Whoever sleeps reading the pipe has an open writer all along a run, if and only if no
  // restored descriptor takes the last writing end while somebody sleeps.
  lemma SleepersHaveWriterIff(steps: seq<Step>)
    requires CanRun(Fresh(), steps)
    ensures AlwaysHasWriter(Fresh(), steps) <==> NeverTakesLast(Fresh(), steps)
  {
    RunHasWriter(Fresh(), steps);
  }

  // Then the reader sleeps until somebody opens the pipe for writing again, or it is killed.
  lemma {:induction false} LeftAsleep(p: Pipe, steps: seq<Step>, q: nat)
    requires Valid(p.ring) && p.writeOpenCount == 0 && p.writers == map[] && q in p.readers && !p.readers[q].woken
    requires CanRun(p, steps) && forall i :: 0 <= i < |steps| ==> steps[i] != OpenWriting && steps[i] != KillReader(q)
    ensures q in Run(p, steps).readers && !Run(p, steps).readers[q].woken && Run(p, steps).writeOpenCount == 0
    decreases |steps|
  {
    if steps != [] {
      var p' := Do(p, steps[0]);
      assert steps[0] != OpenWriting && steps[0] != KillReader(q);
      LeftStep(p, steps[0], q);
      forall i | 0 <= i < |steps[1..]| ensures steps[1..][i] != OpenWriting && steps[1..][i] != KillReader(q) {
        assert steps[1..][i] == steps[i + 1];
      }
      LeftAsleep(p', steps[1..], q);
    }
  }

  lemma LeftStep(p: Pipe, step: Step, q: nat)
    requires Valid(p.ring) && p.writeOpenCount == 0 && p.writers == map[] && q in p.readers && !p.readers[q].woken
    requires Enabled(p, step) && step != OpenWriting && step != KillReader(q)
    ensures var p' := Do(p, step);
            && p'.writeOpenCount == 0 && p'.writers == map[] && q in p'.readers && !p'.readers[q].woken
  {
    hide Write, Read, Contents;
    match step
    case ReadCall(x, n) => ReadEffect(p, x, n, 0);
    case ReadResumes(x) => ReadEffect(p, x, p.readers[x].n, p.readers[x].got);
    case _ =>
  }

  // What the shell does: open for writing, dup2 over standard output, close; another process
  // reads, and the descriptor is restored.
  lemma DroppedWriterRun() returns (steps: seq<Step>)
    ensures CanRun(Fresh(), steps) && ReadsAtLeast(steps, 1) && OneWriter(steps)
    ensures var p := Run(Fresh(), steps);
            p.writeOpenCount == 0 && p.writers == map[] && 7 in p.readers && !p.readers[7].woken
    ensures !AlwaysHasWriter(Fresh(), steps)
  {
    hide Contents, Read;
    FreshQueue(1);
    var p2 := Do(Do(Fresh(), OpenWriting), OpenWriting);
    var p3 := Do(p2, EndWriting);
    assert p3.writeOpenCount == 1 && p3.readers == map[];
    var rest := [ReadCall(7, 1), DropWriting];
    ReadEffect(p3, 7, 1, 0);
    var p4 := Do(p3, ReadCall(7, 1));
    var p5 := Do(p4, DropWriting);
    assert rest[1..] == [DropWriting] && rest[1..][1..] == [];
    assert CanRun(p3, rest) && Run(p3, rest) == p5;
    RunThree(Fresh(), OpenWriting, OpenWriting, EndWriting, rest);
    steps := [OpenWriting, OpenWriting, EndWriting] + rest;
    assert WrittenBy(steps, 1);
    EndsWithout(Fresh(), steps);
  }

  lemma {:induction false} EndsWithout(p: Pipe, steps: seq<Step>)
    requires Valid(p.ring) && CanRun(p, steps) && !HasWriter(Run(p, steps))
    ensures !AlwaysHasWriter(p, steps)
    decreases |steps|
  {
    if steps != [] {
      EndsWithout(Do(p, steps[0]), steps[1..]);
    }
  }

  // No run with writes of at most so many characters gets stuck, if and only if that is
  // no more than the ring holds.
  ghost predicate NeverStuck(most: nat) {
    forall steps :: CanRun(Fresh(), steps) && ReadsAtLeast(steps, 1) && OneWriter(steps) &&
                      WritesAtMost(steps, most) ==>
                      !Stuck(Run(Fresh(), steps))
  }

  lemma NeverStuckIff(most: nat)
    ensures NeverStuck(most) <==> most <= 1023
  {
    if most < SIZE {
      forall steps | CanRun(Fresh(), steps) && ReadsAtLeast(steps, 1) && OneWriter(steps) && WritesAtMost(steps, most)
        ensures !Stuck(Run(Fresh(), steps))
      {
        BlockedMeans(steps);
      }
    } else {
      var steps := LongWriteRun();
      assert WritesAtMost(steps, most) && WrittenBy(steps, 1);
    }
  }

  lemma LongWriteRun() returns (steps: seq<Step>)
    ensures CanRun(Fresh(), steps) && ReadsAtLeast(steps, 1) && WrittenBy(steps, 1) && WritesAtMost(steps, SIZE) &&
              Stuck(Run(Fresh(), steps))
  {
    hide Contents, Write, Read, Letters;
    FreshQueue(1);
    var long := Letters(SIZE);
    steps := [OpenWriting, ReadCall(7, 1), WriteCall(1, long)];
    var p1 := Do(Fresh(), OpenWriting);
    assert Contents(p1.ring) == "";
    ReadEffect(p1, 7, 1, 0);
    var p2 := Read(p1, 7, 1, 0).0;
    WriteEffect(p2, 1, "", long);
    var p3 := Write(p2, 1, "", long);
    assert 1 in p3.writers && !p3.writers[1].woken && 7 in p3.readers && !p3.readers[7].woken;
    RunThree(Fresh(), steps[0], steps[1], steps[2], []);
    assert steps + [] == steps;
  }
}
