/**
 The buffer movement of the audio regulator (app/src/audio_regulator.c): the receiver thread
 pushes resampled samples, mostly without the mutex, while the player thread pulls.

 A sample is a number; what the resampler delivers is chosen by the steps.  A call on the ring
 buffer reads the other thread's cursor first and publishes its own at the end, so it is two
 steps, and steps of the other thread may come in between (`AudioRing` has the copies too).  A
 pull holds the mutex over both; the sections of a push under the mutex wait for that.  The
 compensation arithmetic is not part of this model.
 */
module AudioRegulator {
  import opened Common
  import opened AudioBuf

  datatype Config = Config(target: nat, rate: nat) {
    function Capacity(): nat { target + rate }

    /** The greatest level that a push may leave behind. */
    function MaxBuffered(played: bool): nat {
      if played then target * 11 / 10 + 60 * rate / 1000 else target + 10 * rate / 1000
    }
  }

  const SILENCE := 0

  function Silence(n: nat): (s: seq<int>)
    ensures |s| == n
  {
    seq(n, _ => SILENCE)
  }

  /** Where the receiver thread is within a push. */
  datatype Pusher =
    | Resting
    | PaddingSized(n: nat, samples: seq<int>)          // silence of this length is to be written
    | PaddingRoom(n: nat, samples: seq<int>)           // room for it was found
    | FirstTry(samples: seq<int>)                      // about to write without the mutex
    | FirstRoom(n: nat, samples: seq<int>)             // room for `n` was found
    | NeedsLock(rest: seq<int>)
    | LastTry(rest: seq<int>)                          // old samples were dropped, room is assured
    | LastRoom(n: nat, rest: seq<int>)
    | Threshold
    | Limiting(seen: bool)                           // `played` was loaded

  /** Where the player thread is within a pull. */
  datatype Player =
    | Listening
    | Deciding(count: nat)    // holds the mutex, and is about to read so many samples
    | Taking(n: nat)          // holds the mutex, and found these
    | Storing                 // about to store `played`
  {
    predicate HoldsMutex() { Deciding? || Taking? }
  }

  datatype State = State(
    buf: seq<int>,
    pusher: Pusher,
    player: Player,
    played: bool,
    seen: bool,               // `played` as the last completed push loaded it
    asserts: bool,            // the assertions of the push have held so far
    written: seq<int>,        // everything ever written to the buffer
    removed: seq<int>,        // everything ever read from it, played or skipped
    playedOut: seq<int>,      // the samples played
    reached: bool)            // the level has been at the target once

  function Initial(c: Config): State {
    State([], Resting, Listening, false, false, true, [], [], [], c.target == 0)
  }

  function Room(c: Config, s: State): nat {
    if |s.buf| <= c.Capacity() then c.Capacity() - |s.buf| else 0
  }

  function Append(c: Config, s: State, samples: seq<int>): State {
    var buf := s.buf + samples;
    s.(buf := buf, written := s.written + samples, reached := s.reached || |buf| >= c.target)
  }

  /** A read of the `n` oldest samples. */
  function Remove(s: State, n: nat): State
    requires n <= |s.buf|
  {
    s.(buf := s.buf[n..], removed := s.removed + s.buf[..n])
  }

  /** The samples of one resampled frame that can be written at all. */
  function Fitting(c: Config, samples: seq<int>): seq<int> {
    if |samples| > c.Capacity() then samples[|samples| - c.Capacity()..] else samples
  }

  // ----- The sections under the mutex

  /** Retries the write, then drops old samples if that is not enough. */
  function LockedRetry(c: Config, s: State, rest: seq<int>): State {
    var n := Min(|rest|, Room(c, s));
    var t := Append(c, s, rest[..n]);
    var remaining := |rest| - n;
    if remaining == 0 then t.(pusher := Threshold)
    else
      var skipped := Min(remaining, |t.buf|);
      Remove(t, skipped).(pusher := LastTry(rest[n..]), asserts := s.asserts && skipped == remaining)
  }

  /** Drops what exceeds the allowed level. */
  function LockedLimit(c: Config, s: State, seen: bool): State {
    var max := c.MaxBuffered(seen);
    var t := if |s.buf| > max then Remove(s, |s.buf| - max) else s;
    t.(pusher := Resting, seen := seen)
  }

  /** The player thread's next step: a read, which takes the oldest of what it found, and the store of `played`. */
  function PullStep(s: State): State {
    match s.player
    case Listening => s
    case Deciding(count) => s.(player := Taking(Min(count, |s.buf|)))
    case Taking(n) =>
      var n' := Min(n, |s.buf|);
      Remove(s, n').(playedOut := s.playedOut + s.buf[..n'], player := Storing)
    case Storing => s.(player := Listening, played := true)
  }

  // ----- Steps

  datatype Step =
    | BeginPush(discontinuity: bool, input: nat, samples: seq<int>)
    | PushOn                  // the receiver thread's next step, or none if it needs the mutex and cannot have it
    | Pull(count: nat)        // a pull that takes the mutex: silence only before the target is reached
    | PullOn                  // the player thread's next step

  /** The length of the silence that brings the level to the target. */
  function Padding(c: Config, s: State, discontinuity: bool, input: nat): nat {
    if discontinuity && input + |s.buf| < c.target then c.target - |s.buf| - input else 0
  }

  function PushStep(c: Config, s: State): State {
    match s.pusher
    case Resting => s
    case PaddingSized(n, samples) => s.(pusher := PaddingRoom(Min(n, Room(c, s)), samples))
    case PaddingRoom(n, samples) => Append(c, s, Silence(n)).(pusher := FirstTry(samples))
    case FirstTry(samples) => s.(pusher := FirstRoom(Min(|samples|, Room(c, s)), samples))
    case FirstRoom(n, samples) =>
      var n' := Min(n, |samples|);
      Append(c, s, samples[..n']).(pusher := if n' < |samples| then NeedsLock(samples[n'..]) else Threshold)
    case NeedsLock(rest) => if s.player.HoldsMutex() then s else LockedRetry(c, s, rest)
    case LastTry(rest) =>
      var n := Min(|rest|, Room(c, s));
      s.(pusher := LastRoom(n, rest), asserts := s.asserts && n == |rest|)
    case LastRoom(n, rest) => Append(c, s, rest[..Min(n, |rest|)]).(pusher := Threshold)
    case Threshold => s.(pusher := Limiting(s.played))
    case Limiting(seen) =>
      if s.player.HoldsMutex() && |s.buf| > c.MaxBuffered(seen) then s else LockedLimit(c, s, seen)
  }

  function Next(c: Config, s: State, step: Step): State {
    match step
    case BeginPush(discontinuity, input, samples) =>
      if !s.pusher.Resting? then s
      else s.(pusher := PaddingSized(Padding(c, s, discontinuity, input), Fitting(c, samples)))
    case PushOn => PushStep(c, s)
    case Pull(count) =>
      if !s.player.Listening? || (!s.played && |s.buf| < c.target) then s else s.(player := Deciding(count))
    case PullOn => PullStep(s)
  }

  function After(c: Config, run: seq<Step>): State {
    if run == [] then Initial(c) else Next(c, After(c, run[..|run| - 1]), run[|run| - 1])
  }

  // ----- The invariant

  /** Removed, then still buffered: together what was written, in order. */
  ghost predicate FlowInv(s: State) { s.removed + s.buf == s.written }

  /** Found room stays, because only the receiver thread writes. */
  ghost predicate RoomInv(c: Config, buf: seq<int>, pusher: Pusher) {
    && |buf| <= c.Capacity()
    && (match pusher
        case PaddingSized(n, samples) => |samples| <= c.Capacity()
        case PaddingRoom(n, samples) => |buf| + n <= c.Capacity() && |samples| <= c.Capacity()
        case FirstTry(samples) => |samples| <= c.Capacity()
        case FirstRoom(n, samples) => n <= |samples| <= c.Capacity() && |buf| + n <= c.Capacity()
        case NeedsLock(rest) => |rest| <= c.Capacity()
        case LastTry(rest) => |buf| + |rest| <= c.Capacity()
        case LastRoom(n, rest) => n == |rest| && |buf| + |rest| <= c.Capacity()
        case _ => true)
  }

  ghost predicate PlayInv(s: State) {
    && (s.played || !s.player.Listening? || s.playedOut != [] ==> s.reached)
    && (s.player.Taking? ==> s.player.n <= |s.buf|)
    && s.asserts
  }

  /** What a push saw of `played` stays true, and between pushes the level is within the limit for it. */
  ghost predicate LimitInv(c: Config, level: nat, pusher: Pusher, seen: bool, played: bool) {
    && (seen ==> played)
    && (pusher.Limiting? && pusher.seen ==> played)
    && (pusher.Resting? ==> level <= c.MaxBuffered(seen))
  }

  ghost predicate Inv(c: Config, s: State) {
    FlowInv(s) && RoomInv(c, s.buf, s.pusher) && PlayInv(s) && LimitInv(c, |s.buf|, s.pusher, s.seen, s.played)
  }

  lemma AppendKeepsFlow(c: Config, s: State, samples: seq<int>)
    requires FlowInv(s)
    ensures FlowInv(Append(c, s, samples))
  {
    assert s.removed + (s.buf + samples) == (s.removed + s.buf) + samples;
  }

  lemma RemoveKeepsFlow(s: State, n: nat)
    requires FlowInv(s) && n <= |s.buf|
    ensures FlowInv(Remove(s, n))
  {
    assert (s.removed + s.buf[..n]) + s.buf[n..] == s.removed + s.buf;
  }

  lemma RetryKeepsInv(c: Config, s: State, rest: seq<int>)
    requires Inv(c, s) && s.pusher == NeedsLock(rest) && !s.player.HoldsMutex()
    ensures Inv(c, LockedRetry(c, s, rest))
  {
    var n := Min(|rest|, Room(c, s));
    var t := Append(c, s, rest[..n]);
    AppendKeepsFlow(c, s, rest[..n]);
    if |rest| > n {
      RemoveKeepsFlow(t, Min(|rest| - n, |t.buf|));
    }
  }

  lemma LimitKeepsInv(c: Config, s: State, seen: bool)
    requires Inv(c, s) && s.pusher == Limiting(seen)
    requires s.player.HoldsMutex() ==> |s.buf| <= c.MaxBuffered(seen)
    ensures Inv(c, LockedLimit(c, s, seen))
  {
    var max := c.MaxBuffered(seen);
    if |s.buf| > max {
      RemoveKeepsFlow(s, |s.buf| - max);
    }
  }

  lemma PullKeepsInv(c: Config, s: State)
    requires Inv(c, s)
    ensures Inv(c, PullStep(s))
  {
    if s.player.Taking? {
      RemoveKeepsFlow(s, s.player.n);
    }
  }

  lemma AppendKeepsInv(c: Config, s: State)
    requires Inv(c, s) && (s.pusher.PaddingRoom? || s.pusher.FirstRoom? || s.pusher.LastRoom?)
    ensures Inv(c, PushStep(c, s))
  {
    match s.pusher
    case PaddingRoom(n, samples) => AppendKeepsFlow(c, s, Silence(n));
    case FirstRoom(n, samples) => AppendKeepsFlow(c, s, samples[..n]);
    case LastRoom(n, rest) => AppendKeepsFlow(c, s, rest[..n]);
  }

  /** The steps of a push that leave the buffer alone. */
  lemma LookKeepsInv(c: Config, s: State)
    requires Inv(c, s)
    requires s.pusher.Resting? || s.pusher.PaddingSized? || s.pusher.FirstTry? || s.pusher.LastTry? || s.pusher.Threshold?
    ensures Inv(c, PushStep(c, s))
  {
  }

  lemma LockedKeepsInv(c: Config, s: State)
    requires Inv(c, s) && (s.pusher.NeedsLock? || s.pusher.Limiting?)
    ensures Inv(c, PushStep(c, s))
  {
    if s.pusher.NeedsLock? && !s.player.HoldsMutex() {
      RetryKeepsInv(c, s, s.pusher.rest);
    }
    if s.pusher.Limiting? && (!s.player.HoldsMutex() || |s.buf| <= c.MaxBuffered(s.pusher.seen)) {
      LimitKeepsInv(c, s, s.pusher.seen);
    }
  }

  lemma PushKeepsInv(c: Config, s: State)
    requires Inv(c, s)
    ensures Inv(c, PushStep(c, s))
  {
    if s.pusher.NeedsLock? || s.pusher.Limiting? {
      LockedKeepsInv(c, s);
    } else if s.pusher.PaddingRoom? || s.pusher.FirstRoom? || s.pusher.LastRoom? {
      AppendKeepsInv(c, s);
    } else {
      LookKeepsInv(c, s);
    }
  }

  /** Whenever the level is at the target, that has been recorded. */
  ghost predicate ReachedInv(c: Config, s: State) { |s.buf| >= c.target ==> s.reached }

  lemma AppendKeepsReached(c: Config, s: State, samples: seq<int>)
    ensures ReachedInv(c, Append(c, s, samples))
    ensures s.reached ==> Append(c, s, samples).reached
  {
  }

  lemma RemoveKeepsReached(c: Config, s: State, n: nat)
    requires ReachedInv(c, s) && n <= |s.buf|
    ensures ReachedInv(c, Remove(s, n)) && Remove(s, n).reached == s.reached
  {
  }

  lemma RetryKeepsReached(c: Config, s: State, rest: seq<int>)
    ensures ReachedInv(c, LockedRetry(c, s, rest))
  {
    var n := Min(|rest|, Room(c, s));
    var t := Append(c, s, rest[..n]);
    AppendKeepsReached(c, s, rest[..n]);
    if |rest| > n {
      RemoveKeepsReached(c, t, Min(|rest| - n, |t.buf|));
    }
  }

  lemma PushKeepsReached(c: Config, s: State)
    requires ReachedInv(c, s)
    ensures ReachedInv(c, PushStep(c, s))
  {
    match s.pusher
    case PaddingRoom(n, samples) => AppendKeepsReached(c, s, Silence(n));
    case FirstRoom(n, samples) => AppendKeepsReached(c, s, samples[..Min(n, |samples|)]);
    case LastRoom(n, rest) => AppendKeepsReached(c, s, rest[..Min(n, |rest|)]);
    case NeedsLock(rest) => RetryKeepsReached(c, s, rest);
    case Limiting(seen) =>
      var max := c.MaxBuffered(seen);
      if |s.buf| > max {
        RemoveKeepsReached(c, s, |s.buf| - max);
      }
    case _ =>
  }

  lemma StepKeepsReached(c: Config, s: State, step: Step, t: State)
    requires ReachedInv(c, s) && t == Next(c, s, step)
    ensures ReachedInv(c, t)
  {
    match step
    case PushOn => PushKeepsReached(c, s);
    case PullOn =>
      if s.player.Taking? {
        RemoveKeepsReached(c, s, Min(s.player.n, |s.buf|));
      }
    case _ =>
  }

  lemma StepKeepsInv(c: Config, s: State, step: Step, t: State)
    requires Inv(c, s) && ReachedInv(c, s) && t == Next(c, s, step)
    ensures Inv(c, t)
  {
    match step
    case PushOn => PushKeepsInv(c, s);
    case PullOn => PullKeepsInv(c, s);
    case _ =>
  }

  lemma {:induction false} RunKeepsInv(c: Config, run: seq<Step>)
    ensures Inv(c, After(c, run)) && ReachedInv(c, After(c, run))
  {
    if run != [] {
      var s, step := After(c, run[..|run| - 1]), run[|run| - 1];
      RunKeepsInv(c, run[..|run| - 1]);
      StepKeepsReached(c, s, step, After(c, run));
      StepKeepsInv(c, s, step, After(c, run));
    }
  }

  // ----- The main results, for every interleaving

  /** Nothing is lost, repeated or reordered: what left the buffer and what is in it are what was written. */
  lemma SamplesFlowInOrder(c: Config, run: seq<Step>)
    ensures var s := After(c, run);
            s.removed + s.buf == s.written && |s.buf| <= c.Capacity()
  {
    RunKeepsInv(c, run);
  }

  /** What a pull found is still there when it takes it, whatever was pushed meanwhile, and it is played: no push can drop it. */
  lemma PullTakesWhatItFound(c: Config, run: seq<Step>)
    requires After(c, run).player.Taking?
    ensures var s, t := After(c, run), After(c, run + [PullOn]);
            && s.player.n <= |s.buf| && t.buf == s.buf[s.player.n..]
            && t.playedOut == s.playedOut + s.buf[..s.player.n]
  {
    RunKeepsInv(c, run);
    assert (run + [PullOn])[..|run|] == run;
  }

  /** The assertions of the push hold: enough old samples can be dropped, and the dropped room is really there afterwards. */
  lemma AssertionsHold(c: Config, run: seq<Step>)
    ensures After(c, run).asserts
  {
    RunKeepsInv(c, run);
  }

  /**
   After a push returns, and until the next one, the level is at most the limit for `played` as
   that push loaded it; so it never exceeds the limit of running playback, and before playback it
   is within the smaller one.
   */
  lemma {:induction false} LevelLimited(c: Config, run: seq<Step>)
    ensures var s := After(c, run);
            s.pusher.Resting? ==>
              && |s.buf| <= c.MaxBuffered(s.seen)
              && |s.buf| <= c.MaxBuffered(true)
              && (!s.played ==> |s.buf| <= c.MaxBuffered(false))
  {
    RunKeepsInv(c, run);
    StartLimitIsSmaller(c);
  }

  lemma StartLimitIsSmaller(c: Config)
    ensures c.MaxBuffered(false) <= c.MaxBuffered(true)
  {
    assert c.target <= c.target * 11 / 10;
    assert 10 * c.rate / 1000 <= 60 * c.rate / 1000;
  }

  /** No sample is played before the level has once been at the target. */
  lemma NothingPlayedEarly(c: Config, run: seq<Step>)
    ensures var s := After(c, run);
            s.playedOut != [] ==> s.reached
  {
    RunKeepsInv(c, run);
  }

  /** Between loading `played` and the end of a push, no other thread's steps change where the push is. */
  lemma {:induction false} PusherWaits(c: Config, run: seq<Step>, between: seq<Step>)
    requires !After(c, run).pusher.Resting? && forall i :: 0 <= i < |between| ==> !between[i].PushOn?
    ensures After(c, run + between).pusher == After(c, run).pusher
    decreases |between|
  {
    if between == [] {
      assert run + between == run;
    } else {
      var front := between[..|between| - 1];
      assert (run + between)[..|run + between| - 1] == run + front;
      PusherWaits(c, run, front);
    }
  }

  /**
   The limit is the one for `played` as the push loads it, whatever the player does meanwhile.
   The push ends unless there is an excess and a pull holds the mutex; then just the excess goes,
   and it is the oldest samples.
   */
  lemma {:induction false} LimitIsMaxBuffered(c: Config, run: seq<Step>, between: seq<Step>)
    requires After(c, run).pusher.Threshold? && forall i :: 0 <= i < |between| ==> !between[i].PushOn?
    ensures var s, u := After(c, run), After(c, run + [PushOn] + between);
            var t := After(c, run + [PushOn] + between + [PushOn]);
            && (t.pusher.Resting? <==> !u.player.HoldsMutex() || |u.buf| <= c.MaxBuffered(s.played))
            && (t.pusher.Resting? ==>
                  && t.seen == s.played && |t.buf| == Min(|u.buf|, c.MaxBuffered(s.played))
                  && t.buf == u.buf[|u.buf| - |t.buf|..])
  {
    var load := run + [PushOn];
    assert load[..|run|] == run;
    assert After(c, load) == PushStep(c, After(c, run));
    PusherWaits(c, load, between);
    var all := load + between + [PushOn];
    assert all[..|all| - 1] == load + between;
  }

  lemma SkipOldest(was: seq<int>, samples: seq<int>, written: nat, skipped: nat)
    requires written <= |samples| && skipped <= |was| + written
    ensures (was + samples[..written])[skipped..] + samples[written..] == (was + samples)[skipped..]
  {
    assert samples == samples[..written] + samples[written..];
    assert was + samples == (was + samples[..written]) + samples[written..];
  }

  // ----- The sections on the ring buffer

  class Regulator {
    const config: Config
    const buf: AudioBuf<int>
    var played: bool

    ghost predicate Valid()
      reads this, buf
    {
      buf.Valid() && buf.data.Length == config.Capacity() + 1
    }

    constructor (config: Config)
      requires config.Capacity() > 0
      ensures Valid() && fresh(buf) && fresh(buf.data) && this.config == config && !played && buf.Contents() == []
    {
      this.config, played := config, false;
      buf := new AudioBuf(config.Capacity());
    }

    /** A pull: `out` is what the player gets. */
    method PullSamples(count: nat) returns (out: seq<int>)
      requires Valid() && count > 0
      modifies this`played, buf`tail
      ensures Valid() && |out| == count
      ensures var was := old(buf.Contents());
              if !old(played) && |was| < config.target
              then buf.Contents() == was && out == Silence(count) && played == old(played)
              else var n := Min(count, |was|);
                   buf.Contents() == was[n..] && out == was[..n] + Silence(count - n) && played
    {
      if !played {
        var buffered := buf.CanRead();
        if buffered < config.target {
          return Silence(count);
        }
      }
      var samples := buf.Read(count);
      out := samples;
      if |samples| < count {
        out := out + Silence(count - |samples|);
      }
      played := true;
    }

    /** What a push does under the mutex when the buffer is full: it drops as much as it still has to write. */
    method DropAndWrite(rest: seq<int>)
      requires Valid() && 0 < |rest| <= config.Capacity() == |buf.Contents()|
      modifies buf`head, buf`tail, buf.data
      ensures Valid() && buf.Contents() == old(buf.Contents())[|rest|..] + rest
    {
      var written := buf.Write(rest);
      assert written == 0;
      var skipped := buf.Read(|rest|);
      assert |skipped| == |rest|;
      var w := buf.Write(rest);
      assert w == |rest| && rest[..w] == rest;
    }

    /** The write of a push: without the mutex, then with it, dropping old samples if need be. */
    method WriteSamples(samples: seq<int>) returns (skipped: nat)
      requires Valid() && |samples| <= config.Capacity()
      modifies buf`head, buf`tail, buf.data
      ensures Valid() && skipped == (if |old(buf.Contents())| + |samples| > config.Capacity()
                                     then |old(buf.Contents())| + |samples| - config.Capacity() else 0)
      ensures buf.Contents() == (old(buf.Contents()) + samples)[skipped..]
    {
      ghost var was := buf.Contents();
      var written := buf.Write(samples);
      skipped := |samples| - written;
      if skipped > 0 {
        DropAndWrite(samples[written..]);
        SkipOldest(was, samples, written, skipped);
      } else {
        assert samples[..written] == samples;
      }
    }

    /** The end of a push. */
    method LimitLevel() returns (skipped: nat)
      requires Valid()
      modifies buf`tail
      ensures Valid() && |buf.Contents()| <= config.MaxBuffered(played)
      ensures skipped == |old(buf.Contents())| - |buf.Contents()| && buf.Contents() == old(buf.Contents())[skipped..]
      ensures skipped > 0 ==> |buf.Contents()| == config.MaxBuffered(played)
    {
      var max := config.MaxBuffered(played);
      var canRead := buf.CanRead();
      skipped := 0;
      if canRead > max {
        var dropped := buf.Read(canRead - max);
        skipped := |dropped|;
        assert skipped == canRead - max;
      }
    }
  }
}
