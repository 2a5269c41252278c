/**
 The clock estimator (app/src/clock.c): a moving average of the observed offsets between
 system time and stream time, computed with integer division that truncates toward zero.
 */
module Clock {
  import opened Common

  const RANGE := 32

  datatype State = State(range: nat, offset: int) {

    ghost predicate Valid() { range <= RANGE }

    function Update(observed: int): State
      requires range <= RANGE
    {
      var r := if range < RANGE then range + 1 else range;
      State(r, Truncate(offset * (r - 1) + observed * (RANGE - r + 1), RANGE))
    }

    function SystemTime(stream: int): int { stream + offset }
  }

  function Initial(): State { State(0, 0) }

  class Clock {
    var range: nat
    var offset: int

    ghost function Value(): State
      reads this
    {
      State(range, offset)
    }

    constructor ()
      ensures Value() == Initial()
    {
      range, offset := 0, 0;
    }

    method Update(system: int, stream: int)
      requires range <= RANGE
      modifies this
      ensures range <= RANGE && Value() == old(Value()).Update(system - stream)
    {
      if range < RANGE {
        range := range + 1;
      }
      var observed := system - stream;
      var clockWeight := range - 1;
      var valueWeight := RANGE - range + 1;
      offset := Truncate(offset * clockWeight + observed * valueWeight, RANGE);
    }

    method ToSystemTime(stream: int) returns (system: int)
      requires range > 0
      ensures system == Value().SystemTime(stream)
    {
      system := stream + offset;
    }
  }

  function Abs(x: int): nat { if x < 0 then -x else x }

  /** The offset after a sequence of observations. */
  function Run(observed: seq<int>): (s: State)
    ensures s.range == if |observed| < RANGE then |observed| else RANGE
  {
    if observed == [] then Initial() else Run(observed[..|observed| - 1]).Update(observed[|observed| - 1])
  }

  /** A truncated quotient lies between the integer bounds of the exact one. */
  lemma TruncateBounds(a: int, lo: int, hi: int)
    requires lo * RANGE <= a <= hi * RANGE
    ensures lo <= Truncate(a, RANGE) <= hi
  {
  }

  lemma WeightsAdd(x: int, weight: nat)
    requires weight <= RANGE
    ensures x * weight + x * (RANGE - weight) == x * RANGE
  {
  }

  lemma WeightedBetween(x: int, y: int, weight: nat, lo: int, hi: int)
    requires lo <= x <= hi && lo <= y <= hi && weight <= RANGE
    ensures lo * RANGE <= x * weight + y * (RANGE - weight) <= hi * RANGE
  {
    ProductGrows(lo, x, weight);
    ProductGrows(x, hi, weight);
    ProductGrows(lo, y, RANGE - weight);
    ProductGrows(y, hi, RANGE - weight);
    WeightsAdd(lo, weight);
    WeightsAdd(hi, weight);
  }

  /** The estimate never leaves the interval of what was observed; the initial zero does not count. */
  lemma {:induction false} EstimateWithinObservations(observed: seq<int>, lo: int, hi: int)
    requires observed != [] && forall i :: 0 <= i < |observed| ==> lo <= observed[i] <= hi
    ensures lo <= Run(observed).offset <= hi
  {
    var front, last := observed[..|observed| - 1], observed[|observed| - 1];
    var s := Run(front);
    var r := if s.range < RANGE then s.range + 1 else s.range;
    if front == [] {
      assert s.offset * 0 + last * RANGE == last * RANGE;
      TruncateBounds(last * RANGE, last, last);
    } else {
      EstimateWithinObservations(front, lo, hi);
      WeightedBetween(s.offset, last, r - 1, lo, hi);
      TruncateBounds(s.offset * (r - 1) + last * (RANGE - r + 1), lo, hi);
    }
  }

  /** Feeding one constant observation. */
  function Feed(s: State, v: int, n: nat): (t: State)
    requires s.range <= RANGE
    ensures t.range <= RANGE
    decreases n
  {
    if n == 0 then s else Feed(s.Update(v), v, n - 1)
  }

  /** Truncation of `v` plus a weighted distance. */
  lemma TruncateNear(weighted: int, v: int, d: int)
    requires if d >= 0 then 0 <= weighted <= 31 * d else 31 * d <= weighted <= 0
    ensures Abs(Truncate(weighted + v * RANGE, RANGE) - v) <= Abs(d)
    ensures Abs(d) >= RANGE ==> Abs(Truncate(weighted + v * RANGE, RANGE) - v) < Abs(d)
  {
  }

  lemma WeightDistance(offset: int, v: int, weight: nat)
    requires weight <= 31
    ensures var d := offset - v;
            && offset * weight + v * (RANGE - weight) == d * weight + v * RANGE
            && (if d >= 0 then 0 <= d * weight <= 31 * d else 31 * d <= d * weight <= 0)
  {
    var d := offset - v;
    assert d * weight == offset * weight - v * weight;
    if d >= 0 {
      assert d * (31 - weight) >= 0;
      assert d * (31 - weight) == d * 31 - d * weight;
    } else {
      assert d * (31 - weight) <= 0;
      assert d * (31 - weight) == d * 31 - d * weight;
    }
  }

  /** One update moves toward the observation, and by at least one unit from 32 units away on. */
  lemma UpdateApproaches(s: State, v: int)
    requires 0 < s.range <= RANGE
    ensures Abs(s.Update(v).offset - v) <= Abs(s.offset - v)
    ensures Abs(s.offset - v) >= RANGE ==> Abs(s.Update(v).offset - v) < Abs(s.offset - v)
  {
    var r := if s.range < RANGE then s.range + 1 else s.range;
    WeightDistance(s.offset, v, r - 1);
    TruncateNear((s.offset - v) * (r - 1), v, s.offset - v);
  }

  /** With a constant true offset the error never grows and, one unit per update, comes down to at most 31. */
  lemma {:induction false} EstimateConverges(s: State, v: int, n: nat)
    requires 0 < s.range <= RANGE
    ensures Abs(Feed(s, v, n).offset - v) <= Abs(s.offset - v)
    ensures n >= Abs(s.offset - v) ==> Abs(Feed(s, v, n).offset - v) < RANGE
    ensures Abs(Feed(s, v, n).offset - v) < RANGE || Abs(Feed(s, v, n).offset - v) <= Abs(s.offset - v) - n
    decreases n
  {
    if n > 0 {
      UpdateApproaches(s, v);
      EstimateConverges(s.Update(v), v, n - 1);
    }
  }

  // ----- Where a constant observation leads

  /** The offsets that are `v` or lie beyond it, seen from zero. */
  predicate FarSide(offset: int, v: int) {
    (v >= 0 && offset >= v) || (v <= 0 && offset <= v)
  }

  /** Truncation toward zero of `v` plus part of a distance: it comes closer from the far side, and never arrives from the other. */
  lemma TruncateSides(weighted: int, v: int, d: int)
    requires if d > 0 then 0 < weighted <= 31 * d else if d < 0 then 31 * d <= weighted < 0 else weighted == 0
    ensures var t := Truncate(weighted + v * RANGE, RANGE);
            if FarSide(v + d, v) then FarSide(t, v) && (d != 0 ==> Abs(t - v) < Abs(d)) else !FarSide(t, v)
  {
  }

  lemma WeightPositive(d: int, weight: nat)
    requires 1 <= weight <= 31
    ensures if d > 0 then 0 < d * weight <= 31 * d else if d < 0 then 31 * d <= d * weight < 0 else d * weight == 0
  {
    if d > 0 {
      assert d * (weight - 1) >= 0 && d * (31 - weight) >= 0;
      assert d * (weight - 1) == d * weight - d && d * (31 - weight) == d * 31 - d * weight;
    } else if d < 0 {
      assert d * (weight - 1) <= 0 && d * (31 - weight) <= 0;
      assert d * (weight - 1) == d * weight - d && d * (31 - weight) == d * 31 - d * weight;
    }
  }

  lemma UpdateKeepsSide(s: State, v: int)
    requires 0 < s.range <= RANGE
    ensures FarSide(s.Update(v).offset, v) <==> FarSide(s.offset, v)
    ensures FarSide(s.offset, v) && s.offset != v ==> Abs(s.Update(v).offset - v) < Abs(s.offset - v)
  {
    var r := if s.range < RANGE then s.range + 1 else s.range;
    var d := s.offset - v;
    WeightDistance(s.offset, v, r - 1);
    WeightPositive(d, r - 1);
    TruncateSides(d * (r - 1), v, d);
  }

  lemma {:induction false} FeedReachesExactly(s: State, v: int, n: nat)
    requires 0 < s.range <= RANGE && n >= Abs(s.offset - v)
    ensures Feed(s, v, n).offset == v <==> FarSide(s.offset, v)
    decreases n
  {
    if n > 0 {
      UpdateKeepsSide(s, v);
      UpdateApproaches(s, v);
      if FarSide(s.offset, v) {
        FeedReachesExactly(s.Update(v), v, n - 1);
      } else {
        FeedStaysShort(s, v, n);
      }
    }
  }

  lemma {:induction false} FeedStaysShort(s: State, v: int, n: nat)
    requires 0 < s.range <= RANGE && !FarSide(s.offset, v)
    ensures !FarSide(Feed(s, v, n).offset, v)
    decreases n
  {
    if n > 0 {
      UpdateKeepsSide(s, v);
      FeedStaysShort(s.Update(v), v, n - 1);
    }
  }

  function Repeat(v: int, n: nat): seq<int> { if n == 0 then [] else Repeat(v, n - 1) + [v] }

  lemma RunOneMore(observed: seq<int>, v: int)
    ensures Run(observed + [v]) == Run(observed).Update(v)
  {
    assert (observed + [v])[..|observed|] == observed;
  }

  lemma {:induction false} RepeatFront(v: int, n: nat)
    requires n > 0
    ensures Repeat(v, n) == [v] + Repeat(v, n - 1)
  {
    if n > 1 {
      RepeatFront(v, n - 1);
      Assoc([v], Repeat(v, n - 2), [v]);
    }
  }

  lemma {:induction false} RunThenFeed(observed: seq<int>, v: int, n: nat)
    ensures Run(observed + Repeat(v, n)) == Feed(Run(observed), v, n)
    decreases n
  {
    if n == 0 {
      NothingAdded(observed);
    } else {
      RepeatFront(v, n);
      Assoc(observed, [v], Repeat(v, n - 1));
      RunThenFeed(observed + [v], v, n - 1);
      RunOneMore(observed, v);
    }
  }

  /**
   After any observations, enough repetitions of one offset bring the estimate to exactly that
   offset if and only if it started from it or from beyond it, seen from zero; from the other
   side it stops short for ever, by at most 31.
   */
  lemma ReachesExactly(observed: seq<int>, v: int, n: nat)
    requires observed != [] && n >= Abs(Run(observed).offset - v)
    ensures Run(observed + Repeat(v, n)).offset == v <==> FarSide(Run(observed).offset, v)
    ensures Abs(Run(observed + Repeat(v, n)).offset - v) < RANGE
  {
    RunThenFeed(observed, v, n);
    FeedReachesExactly(Run(observed), v, n);
    EstimateConverges(Run(observed), v, n);
  }

  /** The exact offsets that an update with a full range leaves as they are. */
  lemma FixedExactly(offset: int, v: int)
    ensures State(RANGE, offset).Update(v).offset == offset <==>
            (0 <= v - offset <= 31 && 31 * offset + v >= 0) || (-31 <= v - offset <= 0 && 31 * offset + v <= 0)
  {
    var total := 31 * offset + v;
    assert State(RANGE, offset).Update(v).offset == Truncate(total, RANGE);
  }

  /** The bound is met: after 32 observations of zero, the estimate stays 31 units away from an offset of 31 for ever. */
  lemma {:induction false} ErrorOf31Stays(n: nat)
    ensures Run(Repeat(0, RANGE) + Repeat(31, n)) == State(RANGE, 0)
  {
    RepeatIs(0, RANGE);
    EstimateWithinObservations(Repeat(0, RANGE), 0, 0);
    RunThenFeed(Repeat(0, RANGE), 31, n);
    FeedOf31Stays(n);
  }

  lemma {:induction false} RepeatIs(v: int, n: nat)
    ensures |Repeat(v, n)| == n && forall i :: 0 <= i < n ==> Repeat(v, n)[i] == v
  {
    if n > 0 {
      RepeatIs(v, n - 1);
    }
  }

  lemma {:induction false} FeedOf31Stays(n: nat)
    ensures Feed(State(RANGE, 0), 31, n) == State(RANGE, 0)
    decreases n
  {
    if n > 0 {
      assert State(RANGE, 0).Update(31) == State(RANGE, 0);
      FeedOf31Stays(n - 1);
    }
  }

  /** A stream time is converted to a system time within the delays observed so far. */
  lemma SystemTimeWithinObservations(observed: seq<int>, lo: int, hi: int, stream: int)
    requires observed != [] && forall i :: 0 <= i < |observed| ==> lo <= observed[i] <= hi
    ensures stream + lo <= Run(observed).SystemTime(stream) <= stream + hi
  {
    EstimateWithinObservations(observed, lo, hi);
  }
}
