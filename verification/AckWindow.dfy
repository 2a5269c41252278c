/**
 The window of unacknowledged timestamps that the video capture loop and the audio
 encoder both keep: a small array, filled at the end and emptied from the front by
 cumulative acknowledgements.
 */
module AckWindow {

  predicate Increasing(s: seq<int>) {
    forall i, j :: 0 <= i < j < |s| ==> s[i] < s[j]
  }

  /** The entries of `s` above `bound`, in order. */
  function Above(s: seq<int>, bound: int): (r: seq<int>)
    ensures |r| <= |s|
  {
    if s == [] then [] else (if s[0] > bound then [s[0]] else []) + Above(s[1..], bound)
  }

  /** How many leading entries an acknowledgement covers. */
  function CoveredPrefix(s: seq<int>, ack: int): (n: nat)
    ensures n <= |s|
  {
    if s == [] || s[0] > ack then 0 else 1 + CoveredPrefix(s[1..], ack)
  }

  /** What an acknowledgement leaves: the window without its covered prefix. */
  function Acknowledge(s: seq<int>, ack: int): (r: seq<int>)
    ensures |r| <= |s|
  {
    s[CoveredPrefix(s, ack)..]
  }

  /** It removes leading entries that it covers, and stops at the first one that it does not. */
  lemma {:induction false} AcknowledgeSplits(s: seq<int>, ack: int)
    ensures var n := |s| - |Acknowledge(s, ack)|;
            && Acknowledge(s, ack) == s[n..]
            && (forall i :: 0 <= i < n ==> s[i] <= ack)
            && (n < |s| ==> s[n] > ack)
  {
    if s != [] && s[0] <= ack {
      AcknowledgeSplits(s[1..], ack);
      assert Acknowledge(s, ack) == Acknowledge(s[1..], ack);
      var n := |s| - |Acknowledge(s, ack)|;
      forall i | 0 <= i < n
        ensures s[i] <= ack
      {
        assert i > 0 ==> s[i] == s[1..][i - 1];
      }
    }
  }

  lemma {:induction false} AboveMembers(s: seq<int>, bound: int)
    ensures forall x :: x in Above(s, bound) <==> x in s && x > bound
  {
    if s != [] {
      AboveMembers(s[1..], bound);
    }
  }

  lemma {:induction false} AboveAppend(a: seq<int>, b: seq<int>, bound: int)
    ensures Above(a + b, bound) == Above(a, bound) + Above(b, bound)
  {
    if a == [] {
      assert a + b == b;
    } else {
      assert (a + b)[1..] == a[1..] + b;
      AboveAppend(a[1..], b, bound);
    }
  }

  lemma {:induction false} AboveNone(s: seq<int>, bound: int)
    requires forall i :: 0 <= i < |s| ==> s[i] <= bound
    ensures Above(s, bound) == []
  {
    if s != [] {
      AboveNone(s[1..], bound);
    }
  }

  lemma {:induction false} AboveAll(s: seq<int>, bound: int)
    requires forall i :: 0 <= i < |s| ==> s[i] > bound
    ensures Above(s, bound) == s
  {
    if s != [] {
      AboveAll(s[1..], bound);
    }
  }

  /** Raising the bound in two steps is raising it once. */
  lemma {:induction false} AboveTwice(s: seq<int>, low: int, high: int)
    requires low <= high
    ensures Above(Above(s, low), high) == Above(s, high)
  {
    if s != [] {
      AboveTwice(s[1..], low, high);
      AboveAppend(if s[0] > low then [s[0]] else [], Above(s[1..], low), high);
    }
  }

  /** An acknowledgement forgets nothing that it does not cover. */
  lemma AcknowledgeKeepsAbove(s: seq<int>, ack: int, bound: int)
    requires ack <= bound
    ensures Above(Acknowledge(s, ack), bound) == Above(s, bound)
  {
    AcknowledgeSplits(s, ack);
    var n := |s| - |Acknowledge(s, ack)|;
    assert s == s[..n] + s[n..];
    AboveAppend(s[..n], s[n..], bound);
    AboveNone(s[..n], bound);
  }

  /** In an increasing window it forgets everything that it covers. */
  lemma {:induction false} AcknowledgeIncreasing(s: seq<int>, ack: int)
    requires Increasing(s)
    ensures Acknowledge(s, ack) == Above(s, ack)
    ensures Increasing(Acknowledge(s, ack))
  {
    AcknowledgeKeepsAbove(s, ack, ack);
    AcknowledgeSplits(s, ack);
    AboveAll(Acknowledge(s, ack), ack);
  }

  lemma {:induction false} IncreasingAbove(s: seq<int>, bound: int)
    requires Increasing(s)
    ensures Increasing(Above(s, bound))
  {
    if s != [] {
      var rest := Above(s[1..], bound);
      IncreasingAbove(s[1..], bound);
      AboveMembers(s[1..], bound);
      forall i | 0 <= i < |rest|
        ensures rest[i] > s[0]
      {
        assert rest[i] in rest;
      }
    }
  }

  /** The array itself. */
  class Window {
    const entries: array<int>
    var count: nat

    ghost predicate Valid()
      reads this
    {
      count <= entries.Length
    }

    ghost function Contents(): (s: seq<int>)
      requires Valid()
      reads this, entries
    {
      entries[..count]
    }

    constructor (capacity: nat)
      ensures Valid() && fresh(entries) && entries.Length == capacity && Contents() == []
    {
      entries := new int[capacity];
      count := 0;
    }

    /** Scans the covered prefix, then shifts the rest to the front. */
    method Consume(ack: int) returns (consumed: nat)
      requires Valid()
      modifies this`count, entries
      ensures Valid() && Contents() == Acknowledge(old(Contents()), ack)
      ensures consumed == |old(Contents())| - |Contents()|
    {
      ghost var was := Contents();
      consumed := 0;
      while consumed < count && entries[consumed] <= ack
        invariant consumed <= count == old(count)
        invariant Contents() == was
        invariant CoveredPrefix(was, ack) == consumed + CoveredPrefix(was[consumed..], ack)
      {
        assert was[consumed..][1..] == was[consumed + 1..];
        consumed := consumed + 1;
      }
      count := count - consumed;
      forall i | 0 <= i < count {
        entries[i] := entries[i + consumed];
      }
      assert Contents() == was[consumed..];
    }

    method Append(pts: int)
      requires Valid() && count < entries.Length
      modifies this`count, entries
      ensures Valid() && Contents() == old(Contents()) + [pts]
    {
      entries[count] := pts;
      count := count + 1;
    }
  }
}
