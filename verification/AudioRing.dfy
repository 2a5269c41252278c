/**
 The ring buffer of app/src/util/audiobuf.c between two threads that share no lock: one writes,
 one reads.  Each access to a cursor is a step, and so is the copy of each sample; the samples
 of one call may be copied in any order.

 Reads are made by one thread at a time (the mutex of the audio regulator sees to that); a read
 without a destination only skips.
 */
module AudioRing {
  import opened Common
  import opened AudioBuf

  datatype Writer<T> =
    | NotWriting
    | Filling(from: seq<T>, copied: set<nat>)              // room for these samples was found

  datatype Reader<T> =
    | NotReading
    | Taking(skip: bool, got: seq<Option<T>>)              // so many samples were found; those copied so far

  datatype State<T> = State(
    data: seq<T>,
    head: nat,
    tail: nat,
    writer: Writer<T>,
    reader: Reader<T>,
    produced: seq<T>,             // everything ever published by the writer
    consumed: seq<Option<T>>)     // everything ever taken by the reader, or nothing for a skipped sample
  {
    predicate Bounded() { head < |data| && tail < |data| }

    function Contents(): seq<T>
      requires Bounded()
    {
      Ring(data, head, tail)
    }
  }

  datatype Step<T> =
    | BeginWrite(from: seq<T>)               // reads the tail
    | CopyIn(i: nat)
    | PublishHead
    | BeginRead(count: nat, skip: bool)      // reads the head
    | CopyOut(i: nat)
    | PublishTail

  /** An empty ring on an array with any contents. */
  function Initial<T>(data: seq<T>): State<T> {
    State(data, 0, 0, NotWriting, NotReading, [], [])
  }

  /** The place in the array for the `k`-th sample of the stream: the remainder of `k`. */
  function Cell(k: nat, size: nat): (c: nat)
    requires size > 0
    ensures c < size
  {
    if k < size then k else Cell(k - size, size)
  }

  function Found(s: State): nat
    requires s.Bounded()
  {
    Cell(|s.data| + s.head - s.tail, |s.data|)
  }

  function Room(s: State): nat
    requires s.Bounded()
  {
    Cell(|s.data| + s.tail - s.head - 1, |s.data|)
  }

  predicate WriteDone(w: Writer)
    requires w.Filling?
  {
    forall i :: 0 <= i < |w.from| ==> i in w.copied
  }

  predicate ReadDone(r: Reader)
    requires r.Taking?
  {
    r.skip || forall i :: 0 <= i < |r.got| ==> r.got[i].Some?
  }

  function WriterStep<T>(s: State<T>, step: Step<T>): (t: State<T>)
    requires s.Bounded() && (step.BeginWrite? || step.CopyIn? || step.PublishHead?)
    ensures t.Bounded() && |t.data| == |s.data|
  {
    match step
    case BeginWrite(from) =>
      var n := Min(|from|, Room(s));
      if !s.writer.NotWriting? || n == 0 then s else s.(writer := Filling(from[..n], {}))
    case CopyIn(i) =>
      if s.writer.NotWriting? || i >= |s.writer.from| then s
      else s.(data := s.data[Cell(s.head + i, |s.data|) := s.writer.from[i]],
              writer := s.writer.(copied := s.writer.copied + {i}))
    case PublishHead =>
      if s.writer.NotWriting? || !WriteDone(s.writer) then s
      else s.(head := Cell(s.head + |s.writer.from|, |s.data|), writer := NotWriting,
              produced := s.produced + s.writer.from)
  }

  function ReaderStep<T>(s: State<T>, step: Step<T>): (t: State<T>)
    requires s.Bounded() && (step.BeginRead? || step.CopyOut? || step.PublishTail?)
    ensures t.Bounded() && t.data == s.data
  {
    match step
    case BeginRead(count, skip) =>
      var n := Min(count, Found(s));
      if !s.reader.NotReading? || n == 0 then s else s.(reader := Taking(skip, seq(n, _ => None)))
    case CopyOut(i) =>
      if s.reader.NotReading? || s.reader.skip || i >= |s.reader.got| then s
      else s.(reader := s.reader.(got := s.reader.got[i := Some(s.data[Cell(s.tail + i, |s.data|)])]))
    case PublishTail =>
      if s.reader.NotReading? || !ReadDone(s.reader) then s
      else s.(tail := Cell(s.tail + |s.reader.got|, |s.data|), reader := NotReading,
              consumed := s.consumed + s.reader.got)
  }

  function Next<T>(s: State<T>, step: Step<T>): (t: State<T>)
    requires s.Bounded()
    ensures t.Bounded() && |t.data| == |s.data|
  {
    if step.BeginWrite? || step.CopyIn? || step.PublishHead? then WriterStep(s, step) else ReaderStep(s, step)
  }

  function After<T>(data: seq<T>, run: seq<Step<T>>): (s: State<T>)
    requires data != []
    ensures s.Bounded() && |s.data| == |data|
  {
    if run == [] then Initial(data) else Next(After(data, run[..|run| - 1]), run[|run| - 1])
  }

  // ----- Places in the array

  lemma {:induction false} CellIsRemainder(k: nat, size: nat)
    requires size > 0
    ensures Cell(k, size) == k % size
  {
    if k >= size {
      CellIsRemainder(k - size, size);
      var q, rest := (k - size) / size, (k - size) % size;
      assert k == size * (q + 1) + rest;
      RemainderUnique(k, q + 1, rest, size);
    }
  }

  lemma RemainderUnique(k: nat, quotient: nat, rest: nat, size: nat)
    requires rest < size && k == size * quotient + rest
    ensures k % size == rest
  {
    var q, r := k / size, k % size;
    assert size * (q - quotient) == rest - r;
    if q > quotient {
      ProductGrows(1, q - quotient, size);
    } else if q < quotient {
      ProductGrows(1, quotient - q, size);
    }
  }

  lemma CellWraps(k: nat, size: nat)
    requires 0 < size && k < 2 * size
    ensures Cell(k, size) == Wrapped(k, size)
  {
  }

  /** Going on from a place in the array is going on in the stream. */
  lemma {:induction false} CellAdd(k: nat, j: nat, size: nat)
    requires size > 0
    ensures Cell(Cell(k, size) + j, size) == Cell(k + j, size)
  {
    if k >= size {
      CellAdd(k - size, j, size);
    }
  }

  /** Less than a turn apart, places differ. */
  lemma CellsDiffer(a: nat, b: nat, size: nat)
    requires a < b < a + size
    ensures Cell(a, size) != Cell(b, size)
  {
    CellAdd(a, b - a, size);
    CellWraps(Cell(a, size) + (b - a), size);
  }

  lemma HeadFromTail(published: nat, taken: nat, size: nat)
    requires taken <= published < taken + size
    ensures Cell(published, size) == Wrapped(Cell(taken, size) + (published - taken), size)
  {
    CellAdd(taken, published - taken, size);
    CellWraps(Cell(taken, size) + (published - taken), size);
  }

  lemma CursorDistance(published: nat, taken: nat, size: nat)
    requires taken <= published < taken + size
    ensures var head, tail := Cell(published, size), Cell(taken, size);
            && head == Wrapped(tail + (published - taken), size)
            && Cell(size + head - tail, size) == published - taken
            && Cell(size + tail - head - 1, size) == size - 1 - (published - taken)
  {
    HeadFromTail(published, taken, size);
    CellWraps(size + Cell(published, size) - Cell(taken, size), size);
    CellWraps(size + Cell(taken, size) - Cell(published, size) - 1, size);
  }

  // ----- The invariant: counts, and for each place in the stream what is known of it

  ghost predicate Counts(s: State) {
    && s.Bounded()
    && s.head == Cell(|s.produced|, |s.data|) && s.tail == Cell(|s.consumed|, |s.data|)
    && |s.consumed| <= |s.produced| < |s.consumed| + |s.data|
    && (s.writer.Filling? ==> 0 < |s.writer.from| && |s.produced| + |s.writer.from| < |s.consumed| + |s.data|)
    && (s.reader.Taking? ==> 0 < |s.reader.got| && |s.consumed| + |s.reader.got| <= |s.produced|)
  }

  /** A sample that was published and not yet taken is at its place in the array. */
  ghost predicate Outstanding(s: State, k: nat)
    requires s.Bounded()
  {
    |s.consumed| <= k < |s.produced| ==> s.data[Cell(k, |s.data|)] == s.produced[k]
  }

  /** So is one that the writer has copied. */
  ghost predicate CopiedIn(s: State, k: nat)
    requires s.Bounded()
  {
    s.writer.Filling? && |s.produced| <= k < |s.produced| + |s.writer.from| && k - |s.produced| in s.writer.copied ==>
      s.data[Cell(k, |s.data|)] == s.writer.from[k - |s.produced|]
  }

  /** A sample that the reader has copied is the one published. */
  ghost predicate CopiedOut(s: State, k: nat) {
    s.reader.Taking? && |s.consumed| <= k < |s.consumed| + |s.reader.got| && k < |s.produced| ==>
      var x := s.reader.got[k - |s.consumed|]; x.Some? ==> x.value == s.produced[k]
  }

  ghost predicate TakenRight(s: State, k: nat) {
    k < |s.consumed| && k < |s.produced| ==> s.consumed[k].Some? ==> s.consumed[k].value == s.produced[k]
  }

  ghost predicate Known(s: State, k: nat) {
    s.Bounded() && Outstanding(s, k) && CopiedIn(s, k) && CopiedOut(s, k) && TakenRight(s, k)
  }

  /** What the cursors say about the level is right. */
  lemma CursorsTell(s: State)
    requires Counts(s)
    ensures |s.Contents()| == Found(s) == |s.produced| - |s.consumed|
    ensures Room(s) == |s.data| - 1 - Found(s)
  {
    CursorDistance(|s.produced|, |s.consumed|, |s.data|);
  }

  lemma BeginKeepsCounts<T>(s: State<T>, step: Step<T>)
    requires Counts(s) && (step.BeginWrite? || step.BeginRead?)
    ensures Counts(Next(s, step))
  {
    CursorsTell(s);
  }

  lemma PublishHeadKeepsCounts<T>(s: State<T>)
    requires Counts(s)
    ensures Counts(Next(s, PublishHead))
  {
    if s.writer.Filling? {
      CellAdd(|s.produced|, |s.writer.from|, |s.data|);
    }
  }

  lemma PublishTailKeepsCounts<T>(s: State<T>)
    requires Counts(s)
    ensures Counts(Next(s, PublishTail))
  {
    if s.reader.Taking? {
      CellAdd(|s.consumed|, |s.reader.got|, |s.data|);
    }
  }

  lemma CopyKeepsCounts<T>(s: State<T>, step: Step<T>)
    requires Counts(s) && (step.CopyIn? || step.CopyOut?)
    ensures Counts(Next(s, step))
  {
  }

  lemma StepKeepsCounts<T>(s: State<T>, step: Step<T>)
    requires Counts(s)
    ensures Counts(Next(s, step))
  {
    if step.BeginWrite? || step.BeginRead? {
      BeginKeepsCounts(s, step);
    } else if step.PublishHead? {
      PublishHeadKeepsCounts(s);
    } else if step.PublishTail? {
      PublishTailKeepsCounts(s);
    } else {
      CopyKeepsCounts(s, step);
    }
  }

  /** Of the places less than a turn behind the oldest sample, a copy changes its own only. */
  lemma OtherPlace<T>(data: seq<T>, taken: nat, k: nat, at: nat, x: T)
    requires data != [] && taken <= k < taken + |data| && taken <= at < taken + |data|
    ensures data[Cell(at, |data|) := x][Cell(k, |data|)] == if k == at then x else data[Cell(k, |data|)]
  {
    if k < at {
      CellsDiffer(k, at, |data|);
    } else if at < k {
      CellsDiffer(at, k, |data|);
    }
  }

  lemma CopyInKeepsOutstanding<T>(s: State<T>, i: nat, k: nat)
    requires Counts(s) && Outstanding(s, k) && s.writer.Filling? && i < |s.writer.from|
    ensures Outstanding(s.(data := s.data[Cell(|s.produced| + i, |s.data|) := s.writer.from[i]]), k)
  {
    if |s.consumed| <= k < |s.consumed| + |s.data| {
      OtherPlace(s.data, |s.consumed|, k, |s.produced| + i, s.writer.from[i]);
    }
  }

  lemma CopyInKeepsCopied<T>(s: State<T>, i: nat, k: nat)
    requires Counts(s) && CopiedIn(s, k) && s.writer.Filling? && i < |s.writer.from|
    ensures CopiedIn(s.(data := s.data[Cell(|s.produced| + i, |s.data|) := s.writer.from[i]],
                        writer := s.writer.(copied := s.writer.copied + {i})), k)
  {
    if |s.consumed| <= k < |s.consumed| + |s.data| {
      OtherPlace(s.data, |s.consumed|, k, |s.produced| + i, s.writer.from[i]);
    }
  }

  lemma CopyInPlace<T>(s: State<T>, i: nat)
    requires Counts(s) && s.writer.Filling? && i < |s.writer.from|
    ensures Next(s, CopyIn(i)) == s.(data := s.data[Cell(|s.produced| + i, |s.data|) := s.writer.from[i]],
                                     writer := s.writer.(copied := s.writer.copied + {i}))
  {
    CellAdd(|s.produced|, i, |s.data|);
  }

  lemma CopyInKnown<T>(s: State<T>, i: nat, k: nat)
    requires Counts(s) && Known(s, k)
    ensures Known(Next(s, CopyIn(i)), k)
  {
    if s.writer.Filling? && i < |s.writer.from| {
      CopyInPlace(s, i);
      CopyInKeepsOutstanding(s, i, k);
      CopyInKeepsCopied(s, i, k);
    }
  }

  lemma PublishHeadKnown<T>(s: State<T>, k: nat)
    requires Counts(s) && Known(s, k)
    ensures Known(Next(s, PublishHead), k)
  {
  }

  lemma CopyOutKnown<T>(s: State<T>, i: nat, k: nat)
    requires Counts(s) && Known(s, k)
    ensures Known(Next(s, CopyOut(i)), k)
  {
    CellAdd(|s.consumed|, i, |s.data|);
  }

  lemma PublishTailKnown<T>(s: State<T>, k: nat)
    requires Counts(s) && Known(s, k)
    ensures Known(Next(s, PublishTail), k)
  {
  }

  lemma StepKeepsKnown<T>(s: State<T>, step: Step<T>, k: nat)
    requires Counts(s) && Known(s, k)
    ensures Known(Next(s, step), k)
  {
    match step
    case CopyIn(i) => CopyInKnown(s, i, k);
    case PublishHead => PublishHeadKnown(s, k);
    case CopyOut(i) => CopyOutKnown(s, i, k);
    case PublishTail => PublishTailKnown(s, k);
    case _ =>
  }

  lemma {:induction false} RunKeepsInv<T>(data: seq<T>, run: seq<Step<T>>, k: nat)
    requires data != []
    ensures Counts(After(data, run)) && Known(After(data, run), k)
  {
    if run != [] {
      var s, step := After(data, run[..|run| - 1]), run[|run| - 1];
      RunKeepsInv(data, run[..|run| - 1], k);
      StepKeepsCounts(s, step);
      StepKeepsKnown(s, step, k);
    }
  }

  // ----- The main results, for every interleaving

  /** First in, first out: the k-th sample taken is the k-th one published, unless it was skipped. */
  lemma FirstInFirstOut<T>(data: seq<T>, run: seq<Step<T>>, k: nat)
    requires data != []
    ensures var s := After(data, run);
            && |s.consumed| <= |s.produced|
            && (k < |s.consumed| && s.consumed[k].Some? ==> s.consumed[k].value == s.produced[k])
  {
    RunKeepsInv(data, run, k);
  }

  /** The array between the cursors holds what was published and not yet taken, at every moment. */
  lemma HoldsOutstanding<T>(data: seq<T>, run: seq<Step<T>>, s: State<T>)
    requires data != [] && s == After(data, run)
    ensures |s.consumed| <= |s.produced| && s.Contents() == s.produced[|s.consumed|..]
  {
    RunKeepsInv(data, run, 0);
    LevelIsLength(s);
    forall j | 0 <= j < |s.Contents()| ensures s.Contents()[j] == s.produced[|s.consumed| + j] {
      RunKeepsInv(data, run, |s.consumed| + j);
      PlaceOfContents(s, j);
    }
  }

  lemma LevelIsLength(s: State)
    requires Counts(s)
    ensures |s.consumed| <= |s.produced| && |s.Contents()| == |s.produced| - |s.consumed|
  {
    CursorsTell(s);
  }

  lemma PlaceOfContents<T>(s: State<T>, j: nat)
    requires Counts(s) && Known(s, |s.consumed| + j)
    ensures j < |s.Contents()| ==> |s.consumed| + j < |s.produced| && s.Contents()[j] == s.produced[|s.consumed| + j]
  {
    LevelIsLength(s);
    if j < |s.Contents()| {
      CellAdd(|s.consumed|, j, |s.data|);
      CellWraps(s.tail + j, |s.data|);
      RingAt(s.data, s.head, s.tail, j);
    }
  }

  /** Where the samples of a ring are. */
  lemma RingAt<T>(data: seq<T>, head: nat, tail: nat, j: nat)
    requires head < |data| && tail < |data| && j < |Ring(data, head, tail)|
    ensures Ring(data, head, tail)[j] == data[Wrapped(tail + j, |data|)]
  {
  }

  /** The two threads never touch the same place: copies in and copies out do not race. */
  lemma NoRace<T>(data: seq<T>, run: seq<Step<T>>, s: State<T>, i: nat, j: nat)
    requires data != [] && s == After(data, run)
    requires s.writer.Filling? && i < |s.writer.from| && s.reader.Taking? && j < |s.reader.got|
    ensures Cell(s.head + i, |data|) != Cell(s.tail + j, |data|)
  {
    RunKeepsInv(data, run, 0);
    CallsDiffer(s, i, j);
  }

  lemma CallsDiffer(s: State, i: nat, j: nat)
    requires Counts(s) && s.writer.Filling? && i < |s.writer.from| && s.reader.Taking? && j < |s.reader.got|
    ensures Cell(s.head + i, |s.data|) != Cell(s.tail + j, |s.data|)
  {
    PlacesDiffer(|s.produced|, |s.consumed|, i, j, |s.data|);
  }

  lemma PlacesDiffer(published: nat, taken: nat, i: nat, j: nat, size: nat)
    requires taken + j < published && published + i < taken + size
    ensures Cell(Cell(published, size) + i, size) != Cell(Cell(taken, size) + j, size)
  {
    CellAdd(published, i, size);
    CellAdd(taken, j, size);
    CellsDiffer(taken + j, published + i, size);
  }

  /** A call that reads the other thread's cursor finds the level of that moment: the samples there are, and the room left. */
  lemma CallsFindLevel<T>(data: seq<T>, run: seq<Step<T>>, s: State<T>)
    requires data != [] && s == After(data, run)
    ensures Found(s) == |s.Contents()| && Room(s) == |data| - 1 - |s.Contents()|
  {
    RunKeepsInv(data, run, 0);
    CursorsTell(s);
  }

  /** What a step adds to the two histories. */
  lemma HistoryGrows<T>(s: State<T>, step: Step<T>, t: State<T>)
    requires s.Bounded() && t == Next(s, step)
    ensures t.produced == if step.PublishHead? && t.writer != s.writer then s.produced + s.writer.from else s.produced
    ensures t.consumed == if step.PublishTail? && t.reader != s.reader then s.consumed + s.reader.got else s.consumed
  {
  }

  /**
   What each step does to the contents: a write appends at its last step, a read removes the
   oldest samples at its last step, and nothing else changes them.
   */
  lemma StepsOnContents<T>(data: seq<T>, run: seq<Step<T>>, step: Step<T>, s: State<T>, t: State<T>)
    requires data != [] && s == After(data, run) && t == Next(s, step)
    ensures if step.PublishHead? && t.writer != s.writer then t.Contents() == s.Contents() + s.writer.from
            else if step.PublishTail? && t.reader != s.reader then
              |s.reader.got| <= |s.Contents()| && t.Contents() == s.Contents()[|s.reader.got|..]
            else t.Contents() == s.Contents()
  {
    assert (run + [step])[..|run|] == run;
    HoldsOutstanding(data, run, s);
    HoldsOutstanding(data, run + [step], t);
    HistoryGrows(s, step, t);
    if step.PublishHead? && t.writer != s.writer {
      SuffixOfSum(s.produced, s.writer.from, |s.consumed|);
    }
  }

  lemma SuffixOfSum<T>(a: seq<T>, b: seq<T>, n: nat)
    requires n <= |a|
    ensures (a + b)[n..] == a[n..] + b
  {
  }

  /** What a read has copied when it ends is the oldest samples, although the writer may publish meanwhile. */
  lemma ReadsOldest<T>(data: seq<T>, run: seq<Step<T>>, s: State<T>, j: nat)
    requires data != [] && s == After(data, run)
    requires s.reader.Taking? && !s.reader.skip && ReadDone(s.reader) && j < |s.reader.got|
    ensures |s.reader.got| <= |s.Contents()| && s.reader.got[j] == Some(s.Contents()[j])
  {
    RunKeepsInv(data, run, |s.consumed| + j);
    HoldsOutstanding(data, run, s);
  }
}
