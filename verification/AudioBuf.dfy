/** The ring buffer between the audio receiver and the audio player (app/src/util/audiobuf.c). */
module AudioBuf {
  import opened Common

  /** The samples of a ring, oldest first; one slot is never used. */
  function Ring<T>(data: seq<T>, head: nat, tail: nat): (s: seq<T>)
    requires head < |data| && tail < |data|
    ensures |s| == if tail <= head then head - tail else |data| + head - tail
  {
    if tail <= head then data[tail..head] else data[tail..|data|] + data[0..head]
  }

  /** The array after a copy of `from` to `at`. */
  function Overwritten<T>(data: seq<T>, at: nat, from: seq<T>): (r: seq<T>)
    requires at + |from| <= |data|
    ensures |r| == |data|
  {
    data[0..at] + from + data[at + |from|..|data|]
  }

  /** The array after a write of `from` at `head`: up to the end, and the rest at the start. */
  function Written<T>(data: seq<T>, head: nat, from: seq<T>): (r: seq<T>)
    requires head < |data| && |from| < |data|
    ensures |r| == |data|
  {
    var right := |data| - head;
    if |from| <= right then Overwritten(data, head, from)
    else Overwritten(Overwritten(data, head, from[..right]), 0, from[right..])
  }

  /** A cursor `k` places into the ring of `size` slots, at most once around. */
  function Wrapped(k: nat, size: nat): (r: nat)
    requires 0 < size && k < 2 * size
    ensures r < size
  {
    if k < size then k else k - size
  }

  /** The remainders in the code are such cursors. */
  lemma RemainderWraps(k: nat, size: nat)
    requires 0 < size && k < 2 * size
    ensures k % size == Wrapped(k, size)
  {
    if k >= size {
      assert k == size + (k - size);
      assert (k - size) % size == k - size;
    }
  }

  lemma CutSlice<T>(data: seq<T>, from: nat, at: nat, to: nat)
    requires from <= at <= to <= |data|
    ensures data[from..to] == data[from..at] + data[at..to]
  {
  }

  /** A slice that ends where the copy ends. */
  lemma SliceToCopy<T>(data: seq<T>, at: nat, from: seq<T>, k: nat)
    requires k <= at && at + |from| <= |data|
    ensures Overwritten(data, at, from)[k..at + |from|] == data[k..at] + from
  {
  }

  /** A slice behind the copy. */
  lemma SliceBehindCopy<T>(data: seq<T>, at: nat, from: seq<T>, k: nat)
    requires at + |from| <= k <= |data|
    ensures Overwritten(data, at, from)[k..|data|] == data[k..|data|]
  {
  }

  /** Writing into the gap between head and tail appends. */
  lemma GapWriteAppends<T>(data: seq<T>, head: nat, tail: nat, from: seq<T>)
    requires head < tail < |data| && head + |from| < tail
    ensures Ring(Written(data, head, from), head + |from|, tail) == Ring(data, head, tail) + from
  {
    SliceToCopy(data, head, from, 0);
    SliceBehindCopy(data, head, from, tail);
    Assoc(data[tail..|data|], data[0..head], from);
  }

  /** Writing up to the end of the array appends; the head then is at the start. */
  lemma EndWriteAppends<T>(data: seq<T>, head: nat, tail: nat, from: seq<T>)
    requires tail <= head < |data| == head + |from| && 0 < tail
    ensures Ring(Overwritten(data, head, from), 0, tail) == Ring(data, head, tail) + from
  {
    SliceToCopy(data, head, from, tail);
    assert Overwritten(data, head, from)[0..0] == [];
  }

  /** Writing around the end appends. */
  lemma WrappingWriteAppends<T>(data: seq<T>, head: nat, tail: nat, from: seq<T>)
    requires tail <= head < |data| < head + |from| && head + |from| - |data| < tail
    ensures Ring(Written(data, head, from), head + |from| - |data|, tail) == Ring(data, head, tail) + from
  {
    var right := |data| - head;
    var once := Overwritten(data, head, from[..right]);
    EndWriteAppends(data, head, tail, from[..right]);
    GapWriteAppends(once, 0, tail, from[right..]);
    assert from == from[..right] + from[right..];
    Assoc(Ring(data, head, tail), from[..right], from[right..]);
  }

  /** Writing what fits behind the head appends it to the ring. */
  lemma WriteAppends<T>(data: seq<T>, head: nat, tail: nat, from: seq<T>)
    requires head < |data| && tail < |data| && |Ring(data, head, tail)| + |from| < |data|
    ensures Ring(Written(data, head, from), Wrapped(head + |from|, |data|), tail) == Ring(data, head, tail) + from
  {
    if head < tail {
      GapWriteAppends(data, head, tail, from);
    } else if head + |from| < |data| {
      SliceToCopy(data, head, from, tail);
    } else if head + |from| == |data| {
      EndWriteAppends(data, head, tail, from);
    } else {
      WrappingWriteAppends(data, head, tail, from);
    }
  }

  /** The samples of a read of `n`: to the end of the array, then from its start. */
  function Taken<T>(data: seq<T>, tail: nat, n: nat): (r: seq<T>)
    requires tail < |data| && n <= |data|
    ensures |r| == n
  {
    var right := |data| - tail;
    if n < right then data[tail..tail + n] else data[tail..|data|] + data[0..n - right]
  }

  lemma StraightReadRemoves<T>(data: seq<T>, head: nat, tail: nat, n: nat)
    requires head < tail < |data| && tail + n < |data|
    ensures Ring(data, head, tail) == data[tail..tail + n] + Ring(data, head, tail + n)
  {
    var taken, right, left := data[tail..tail + n], data[tail + n..|data|], data[0..head];
    CutSlice(data, tail, tail + n, |data|);
    assert Ring(data, head, tail) == (taken + right) + left;
    assert Ring(data, head, tail + n) == right + left;
    Assoc(taken, right, left);
  }

  lemma WrappingReadRemoves<T>(data: seq<T>, head: nat, tail: nat, n: nat)
    requires head < tail < |data| && n <= head
    ensures Ring(data, head, tail) == data[tail..|data|] + data[0..n] + Ring(data, head, n)
  {
    CutSlice(data, 0, n, head);
    Assoc(data[tail..|data|], data[0..n], data[n..head]);
  }

  lemma InnerReadRemoves<T>(data: seq<T>, head: nat, tail: nat, n: nat)
    requires tail + n <= head < |data|
    ensures Ring(data, head, tail) == data[tail..tail + n] + Ring(data, head, tail + n)
  {
    CutSlice(data, tail, tail + n, head);
  }

  /** A read takes the oldest samples, and advancing the tail removes them. */
  lemma ReadRemoves<T>(data: seq<T>, head: nat, tail: nat, n: nat)
    requires head < |data| && tail < |data| && n <= |Ring(data, head, tail)|
    ensures Ring(data, head, tail) == Taken(data, tail, n) + Ring(data, head, Wrapped(tail + n, |data|))
  {
    if tail <= head {
      InnerReadRemoves(data, head, tail, n);
    } else if tail + n < |data| {
      StraightReadRemoves(data, head, tail, n);
    } else {
      WrappingReadRemoves(data, head, tail, tail + n - |data|);
    }
  }

  /** Splitting off the front of a sequence. */
  lemma FrontAndRest<T>(whole: seq<T>, front: seq<T>, rest: seq<T>)
    requires whole == front + rest
    ensures whole[..|front|] == front && whole[|front|..] == rest
  {
  }

  class AudioBuf<T(0)> {
    const data: array<T>
    var head: nat
    var tail: nat

    ghost predicate Valid()
      reads this
    {
      head < data.Length && tail < data.Length
    }

    ghost function Contents(): seq<T>
      reads this, data
      requires Valid()
    {
      Ring(data[..], head, tail)
    }

    function Capacity(): nat
      requires data.Length > 0
    {
      data.Length - 1
    }

    constructor (capacity: nat)
      requires capacity > 0
      ensures Valid() && fresh(data) && data.Length == capacity + 1 && Contents() == []
    {
      data := new T[capacity + 1];
      head, tail := 0, 0;
    }

    method CanRead() returns (n: nat)
      requires Valid()
      ensures n == |Contents()| < data.Length
    {
      RemainderWraps(data.Length + head - tail, data.Length);
      n := (data.Length + head - tail) % data.Length;
    }

    method CanWrite() returns (n: nat)
      requires Valid()
      ensures n == data.Length - 1 - |Contents()|
    {
      RemainderWraps(data.Length + tail - head - 1, data.Length);
      n := (data.Length + tail - head - 1) % data.Length;
    }

    /** Takes up to `count` samples out, oldest first. */
    method Read(count: nat) returns (samples: seq<T>)
      requires Valid() && count > 0
      modifies this`tail
      ensures Valid() && samples == old(Contents())[..Min(count, |old(Contents())|)]
      ensures Contents() == old(Contents())[|samples|..]
    {
      var canRead := CanRead();
      if canRead == 0 {
        return [];
      }
      var n := Min(count, canRead);
      ghost var size, was := data.Length, Contents();
      ReadRemoves(data[..], head, tail, n);
      var rightCount := Min(data.Length - tail, n);
      samples := data[tail..tail + rightCount];
      if n > rightCount {
        samples := samples + data[..n - rightCount];
      }
      assert samples == Taken(data[..], tail, n);
      RemainderWraps(tail + n, data.Length);
      tail := (tail + n) % data.Length;
      FrontAndRest(was, samples, Contents());
    }

    /** Copies the samples into the array. */
    method CopyTo(at: nat, from: seq<T>)
      requires at + |from| <= data.Length
      modifies data
      ensures data[..] == Overwritten(old(data[..]), at, from)
    {
      forall i | 0 <= i < |from| {
        data[at + i] := from[i];
      }
      assert data[0..at] == old(data[0..at]) && data[at..at + |from|] == from;
      assert data[at + |from|..data.Length] == old(data[at + |from|..data.Length]);
    }

    /** The two copies of a write. */
    method CopyAround(from: seq<T>)
      requires head < data.Length && |from| < data.Length
      modifies data
      ensures data[..] == Written(old(data[..]), head, from)
    {
      var rightCount := Min(data.Length - head, |from|);
      CopyTo(head, from[..rightCount]);
      if |from| > rightCount {
        CopyTo(0, from[rightCount..]);
      } else {
        assert from[..rightCount] == from;
      }
    }

    /** Appends samples that fit. */
    method Put(from: seq<T>)
      requires Valid() && |Contents()| + |from| < data.Length
      modifies this`head, data
      ensures Valid() && Contents() == old(Contents()) + from
    {
      WriteAppends(data[..], head, tail, from);
      CopyAround(from);
      RemainderWraps(head + |from|, data.Length);
      head := (head + |from|) % data.Length;
    }

    /** Appends as many of the samples as there is room for. */
    method Write(from: seq<T>) returns (n: nat)
      requires Valid()
      modifies this`head, data
      ensures Valid() && n == Min(|from|, data.Length - 1 - |old(Contents())|)
      ensures Contents() == old(Contents()) + from[..n]
    {
      var canWrite := CanWrite();
      if canWrite == 0 {
        return 0;
      }
      n := Min(|from|, canWrite);
      Put(from[..n]);
    }
  }
}
