/**
 What becomes of the captured frames in the reverse audio encoder: every one has exactly one
 fate, encoded blocks are pieces of the capture, and none of their frames is old.
 */
module AudioBlocks {
  import opened Common
  import opened AckWindow
  import opened AudioEncoder

  // ----- Positions

  function Front<T>(s: seq<T>): (r: seq<T>)
    requires s != []
    ensures |r| == |s| - 1
  {
    s[..|s| - 1]
  }

  function Last<T>(s: seq<T>): T
    requires s != []
  {
    s[|s| - 1]
  }

  /** How often a position occurs among some frames. */
  function Hits(frames: seq<Tagged>, p: nat): nat {
    if frames == [] then 0 else Hits(Front(frames), p) + if Last(frames).position == p then 1 else 0
  }

  /** How often a position occurs among the frames of some fates. */
  function Placed(fates: seq<Fate>, p: nat): nat {
    if fates == [] then 0 else Placed(Front(fates), p) + Hits(FramesOf(Last(fates)), p)
  }

  /** Refused for its length, without its data, or turned away by the copy loop: the buffer was kept. */
  predicate KeepsPartial(cause: Cause) { cause.TooLong? || cause.Missing? || cause.Disabled? }

  /** A position is among the frames that were turned away while the buffer was kept. */
  predicate TurnedAway(fates: seq<Fate>, p: nat) {
    fates != [] &&
    (TurnedAway(Front(fates), p)
     || (Last(fates).Gone? && KeepsPartial(Last(fates).cause) && Hits(Last(fates).frames, p) > 0))
  }

  predicate Consecutive(frames: seq<Tagged>) {
    forall i :: 0 <= i < |frames| - 1 ==> frames[i + 1].position == frames[i].position + 1
  }

  predicate Rising(frames: seq<Tagged>) {
    forall i, j :: 0 <= i < j < |frames| ==> frames[i].position < frames[j].position
  }

  lemma {:induction false} HitsAppend(a: seq<Tagged>, b: seq<Tagged>, p: nat)
    ensures Hits(a + b, p) == Hits(a, p) + Hits(b, p)
    decreases |b|
  {
    if b == [] {
      assert a + b == a;
    } else {
      assert Front(a + b) == a + Front(b) && Last(a + b) == Last(b);
      HitsAppend(a, Front(b), p);
    }
  }

  lemma {:induction false} HitsExactly(frames: seq<Tagged>, p: nat)
    ensures Hits(frames, p) > 0 <==> exists i :: 0 <= i < |frames| && frames[i].position == p
  {
    if frames != [] {
      var front := Front(frames);
      HitsExactly(front, p);
      assert forall i :: 0 <= i < |front| ==> front[i] == frames[i];
      if Last(frames).position == p {
        assert frames[|frames| - 1].position == p;
      }
      if i :| 0 <= i < |frames| && frames[i].position == p && i < |front| {
        assert front[i].position == p;
      }
    }
  }

  lemma {:induction false} ConsecutiveAt(frames: seq<Tagged>, i: nat)
    requires Consecutive(frames) && i < |frames|
    ensures frames[i].position == frames[0].position + i
  {
    if i > 0 {
      ConsecutiveAt(frames, i - 1);
      assert frames[i - 1 + 1].position == frames[i - 1].position + 1;
    }
  }

  lemma ConsecutiveHits(frames: seq<Tagged>, p: nat)
    requires Consecutive(frames) && frames != [] && frames[0].position <= p <= Last(frames).position
    ensures Hits(frames, p) > 0
  {
    ConsecutiveAt(frames, |frames| - 1);
    ConsecutiveAt(frames, p - frames[0].position);
    HitsExactly(frames, p);
  }

  lemma ConsecutiveRises(frames: seq<Tagged>)
    requires Consecutive(frames)
    ensures Rising(frames)
  {
    forall i, j | 0 <= i < j < |frames| ensures frames[i].position < frames[j].position {
      ConsecutiveAt(frames, i);
      ConsecutiveAt(frames, j);
    }
  }

  /** The positions of a new chunk are the next ones, once each. */
  lemma {:induction false} TagHits(stereo: seq<Stereo>, first: nat, captured: int, p: nat)
    ensures Hits(Tag(stereo, first, captured), p) == if first <= p < first + |stereo| then 1 else 0
  {
    if stereo != [] {
      var frames := Tag(stereo, first, captured);
      assert Front(frames) == Tag(Front(stereo), first, captured);
      TagHits(Front(stereo), first, captured, p);
    }
  }

  // ----- What is kept, for one position `p` at a time

  /** Of a block, or a part of one, up to `next`: the position is in it or was turned away. */
  predicate Covered(fates: seq<Fate>, frames: seq<Tagged>, next: nat, p: nat)
    requires frames != []
  {
    frames[0].position <= p < next ==> Hits(frames, p) > 0 || TurnedAway(fates, p)
  }

  predicate Explained(before: seq<Fate>, block: seq<Tagged>, p: nat) {
    |block| == FRAMES && Rising(block) && Covered(before, block, Last(block).position + 1, p)
  }

  predicate BlocksExplained(fates: seq<Fate>, p: nat) {
    fates != [] ==>
      && BlocksExplained(Front(fates), p)
      && (Last(fates).Encoded? ==> Explained(Front(fates), Last(fates).block, p))
  }

  /** A position offered has one place: a fate, the buffer, or the frames still to copy. */
  predicate OnePlace(fates: seq<Fate>, partial: seq<Tagged>, rest: seq<Tagged>, offered: nat, p: nat) {
    Placed(fates, p) + Hits(partial, p) + Hits(rest, p) == if p < offered then 1 else 0
  }

  predicate RestSliced(rest: seq<Tagged>, offered: nat) {
    Consecutive(rest) && (rest != [] ==> Last(rest).position + 1 == offered)
  }

  /** The position of the next frame to copy. */
  function NextPosition(offered: nat, rest: seq<Tagged>): nat {
    if rest == [] then offered else rest[0].position
  }

  predicate PartialSliced(fates: seq<Fate>, partial: seq<Tagged>, next: nat, p: nat) {
    partial != [] ==> Rising(partial) && Last(partial).position < next && Covered(fates, partial, next, p)
  }

  predicate Kept(fates: seq<Fate>, partial: seq<Tagged>, rest: seq<Tagged>, offered: nat, p: nat) {
    && BlocksExplained(fates, p)
    && OnePlace(fates, partial, rest, offered, p)
    && RestSliced(rest, offered)
    && PartialSliced(fates, partial, NextPosition(offered, rest), p)
  }

  lemma RestSplits(rest: seq<Tagged>, count: nat, offered: nat)
    requires RestSliced(rest, offered) && count <= |rest|
    ensures Consecutive(rest[..count]) && RestSliced(rest[count..], offered)
    ensures count > 0 ==> rest[count - 1].position + 1 == NextPosition(offered, rest[count..])
    ensures rest[..count] + rest[count..] == rest
  {
    if 0 < count < |rest| {
      assert rest[count - 1 + 1].position == rest[count - 1].position + 1;
    }
  }

  // ----- Copying

  lemma RisingAppend(a: seq<Tagged>, b: seq<Tagged>)
    requires Rising(a) && Rising(b) && (a != [] && b != [] ==> Last(a).position < b[0].position)
    ensures Rising(a + b)
  {
    forall i, j | 0 <= i < j < |a + b| ensures (a + b)[i].position < (a + b)[j].position {
      if i < |a| <= j {
        assert a[i].position <= Last(a).position && b[0].position <= b[j - |a|].position;
      }
    }
  }

  /** Frames copied behind others, up to the next position. */
  lemma CopyCovers(fates: seq<Fate>, partial: seq<Tagged>, head: seq<Tagged>, p: nat)
    requires head != [] && Consecutive(head) && PartialSliced(fates, partial, head[0].position, p)
    ensures PartialSliced(fates, partial + head, Last(head).position + 1, p)
  {
    ConsecutiveRises(head);
    RisingAppend(partial, head);
    HitsAppend(partial, head, p);
    if head[0].position <= p <= Last(head).position {
      ConsecutiveHits(head, p);
    }
  }

  lemma CopyKeeps(fates: seq<Fate>, partial: seq<Tagged>, rest: seq<Tagged>, offered: nat, count: nat, p: nat)
    requires Kept(fates, partial, rest, offered, p) && 0 < count <= |rest|
    ensures Kept(fates, partial + rest[..count], rest[count..], offered, p)
  {
    RestSplits(rest, count, offered);
    CopyCovers(fates, partial, rest[..count], p);
    HitsAppend(partial, rest[..count], p);
    HitsAppend(rest[..count], rest[count..], p);
  }

  // ----- Fates

  /** The whole buffer has a fate. */
  lemma FateKeeps(fates: seq<Fate>, after: seq<Fate>, partial: seq<Tagged>, rest: seq<Tagged>, offered: nat, p: nat)
    requires Kept(fates, partial, rest, offered, p)
    requires after != [] && Front(after) == fates && FramesOf(Last(after)) == partial
    requires Last(after).Encoded? ==> |partial| == FRAMES
    ensures Kept(after, [], rest, offered, p)
  {
  }

  lemma PlacedAppend(fates: seq<Fate>, f: Fate, p: nat)
    ensures Front(fates + [f]) == fates && Last(fates + [f]) == f
    ensures Placed(fates + [f], p) == Placed(fates, p) + Hits(FramesOf(f), p)
    ensures BlocksExplained(fates, p) && f.Gone? ==> BlocksExplained(fates + [f], p)
    ensures TurnedAway(fates + [f], p) <==>
            TurnedAway(fates, p) || (f.Gone? && KeepsPartial(f.cause) && Hits(f.frames, p) > 0)
  {
    assert Front(fates + [f]) == fates;
  }

  /** Turning frames away behind a buffer that is kept. */
  lemma SkipCovers(fates: seq<Fate>, partial: seq<Tagged>, cause: Cause, head: seq<Tagged>, p: nat)
    requires head != [] && Consecutive(head) && PartialSliced(fates, partial, head[0].position, p)
    requires partial == [] || KeepsPartial(cause)
    ensures PartialSliced(fates + [Gone(cause, head)], partial, Last(head).position + 1, p)
  {
    PlacedAppend(fates, Gone(cause, head), p);
    ConsecutiveAt(head, |head| - 1);
    if head[0].position <= p <= Last(head).position {
      ConsecutiveHits(head, p);
    }
  }

  lemma NothingGone(fates: seq<Fate>, partial: seq<Tagged>, cause: Cause, next: nat, p: nat)
    requires PartialSliced(fates, partial, next, p)
    ensures PartialSliced(fates + [Gone(cause, [])], partial, next, p)
  {
    PlacedAppend(fates, Gone(cause, []), p);
  }

  /** Frames that are not copied are gone; a buffer that is kept has them turned away behind it. */
  lemma LoseKeeps(fates: seq<Fate>, partial: seq<Tagged>, rest: seq<Tagged>, offered: nat, cause: Cause, count: nat, p: nat)
    requires Kept(fates, partial, rest, offered, p) && count <= |rest| && (partial == [] || KeepsPartial(cause))
    ensures Kept(fates + [Gone(cause, rest[..count])], partial, rest[count..], offered, p)
  {
    var head, tail := rest[..count], rest[count..];
    RestSplits(rest, count, offered);
    PlacedAppend(fates, Gone(cause, head), p);
    HitsAppend(head, tail, p);
    if count > 0 {
      SkipCovers(fates, partial, cause, head, p);
    } else {
      assert head == [] && tail == rest;
      NothingGone(fates, partial, cause, NextPosition(offered, rest), p);
    }
  }

  lemma OfferKeeps(fates: seq<Fate>, partial: seq<Tagged>, offered: nat, stereo: seq<Stereo>, captured: int, p: nat)
    requires Kept(fates, partial, [], offered, p)
    ensures Kept(fates, partial, Tag(stereo, offered, captured), offered + |stereo|, p)
  {
    TagHits(stereo, offered, captured, p);
    assert NextPosition(offered + |stereo|, Tag(stereo, offered, captured)) == offered;
  }

  // ----- One call

  predicate StateKept(s: State, rest: seq<Tagged>, p: nat) { Kept(s.fates, s.partial, rest, s.offered, p) }

  lemma DropPartialKeeps(s: State, cause: Cause, rest: seq<Tagged>, p: nat)
    requires StateKept(s, rest, p)
    ensures StateKept(DropPartial(s, cause), rest, p)
  {
    var after := s.fates + [Gone(cause, s.partial)];
    assert Front(after) == s.fates;
    FateKeeps(s.fates, after, s.partial, rest, s.offered, p);
  }

  lemma DropRestKeeps(s: State, cause: Cause, rest: seq<Tagged>, p: nat)
    requires StateKept(s, rest, p) && (s.partial == [] || KeepsPartial(cause))
    ensures StateKept(Drop(s, cause, rest), [], p)
  {
    LoseKeeps(s.fates, s.partial, rest, s.offered, cause, |rest|, p);
    assert rest[..|rest|] == rest && rest[|rest|..] == [];
  }

  lemma RoundKeeps(w: World, s: State, frames: seq<Tagged>, captured: int, now: int, p: nat)
    requires |s.partial| < FRAMES && StateKept(s, frames, p) && frames != []
    ensures StateKept(Round(w, s, frames, captured, now).0, frames[RoundCount(s, frames)..], p)
    ensures !Round(w, s, frames, captured, now).1.Continue? ==> Round(w, s, frames, captured, now).0.partial == []
  {
    var count := RoundCount(s, frames);
    var t := Append(AskEnabled(s), frames[..count], captured);
    CopyKeeps(s.fates, s.partial, frames, s.offered, count, p);
    if |t.partial| == FRAMES {
      BlockFate(w, t, now);
      FateKeeps(t.fates, EncodeBlock(w, t, now).0.fates, t.partial, frames[count..], t.offered, p);
    }
  }

  lemma {:induction false} FeedKeeps(w: World, s: State, frames: seq<Tagged>, captured: int, now: int, p: nat)
    requires |s.partial| < FRAMES && StateKept(s, frames, p)
    ensures StateKept(Feed(w, s, frames, captured, now).0, [], p)
    decreases |frames|
  {
    if frames == [] {
    } else if !w.enabled(s.asked.enabled) {
      DropRestKeeps(AskEnabled(s), Disabled, frames, p);
    } else {
      RoundKeeps(w, s, frames, captured, now, p);
      var (u, verdict) := Round(w, s, frames, captured, now);
      var rest := frames[RoundCount(s, frames)..];
      match verdict
      case Continue => FeedKeeps(w, u, rest, captured, now, p);
      case ReturnTrue => DropRestKeeps(u, Disabled, rest, p);
      case ReturnFalse => DropRestKeeps(u, Failed, rest, p);
    }
  }

  lemma TrimKeeps(s: State, frames: seq<Tagged>, p: nat)
    requires StateKept(s, frames, p)
    ensures StateKept(TrimLong(s, frames).0, TrimLong(s, frames).1, p)
  {
    var excess := |frames| - FRAMES * WINDOW;
    if excess > 0 {
      DropPartialKeeps(s, Oversized, frames, p);
      var t := DropPartial(s, Oversized);
      LoseKeeps(t.fates, t.partial, frames, t.offered, Oversized, excess, p);
    }
  }

  lemma PushFreshKeeps(w: World, s: State, frames: seq<Tagged>, captured: int, now: int, p: nat)
    requires |s.partial| < FRAMES && StateKept(s, frames, p)
    ensures StateKept(PushFresh(w, s, frames, captured, now).0, [], p)
  {
    DropPartialKeeps(s, Stale, frames, p);
    TrimKeeps(TrimOld(s, now), frames, p);
    var (u, kept) := TrimLong(TrimOld(s, now), frames);
    FeedKeeps(w, u, kept, captured, now, p);
  }

  lemma PushOfferedKeeps(w: World, s: State, enabled: bool, frames: seq<Tagged>, captured: int, now: int, p: nat)
    requires |s.partial| < FRAMES && StateKept(s, frames, p)
    ensures StateKept(PushOffered(w, s, enabled, frames, captured, now).0, [], p)
  {
    if !enabled || TooOld(captured, now) {
      DropPartialKeeps(s, Stale, frames, p);
      DropRestKeeps(DropPartial(s, Stale), Stale, frames, p);
    } else {
      PushFreshKeeps(w, s, frames, captured, now, p);
    }
  }

  lemma RefuseKeeps(s: State, cause: Cause, frames: seq<Tagged>, p: nat)
    requires StateKept(s.(offered := s.offered + |frames|), frames, p) && KeepsPartial(cause)
    ensures StateKept(Refuse(s, cause, frames), [], p)
  {
    DropRestKeeps(s.(offered := s.offered + |frames|), cause, frames, p);
  }

  lemma PushKeeps(w: World, s: State, chunk: Option<seq<Stereo>>, count: nat, captured: int, now: int, p: nat)
    requires |s.partial| < FRAMES && (chunk.Some? ==> |chunk.value| == count) && StateKept(s, [], p)
    ensures StateKept(Push(w, s, chunk, count, captured, now).0, [], p)
  {
    var frames := Tag(chunk.GetOr(Unknown(count)), s.offered, captured);
    OfferKeeps(s.fates, s.partial, s.offered, chunk.GetOr(Unknown(count)), captured, p);
    if chunk.None? && count > 0 {
      RefuseKeeps(s, Missing, frames, p);
    } else if count > MAX_CHUNK {
      RefuseKeeps(s, TooLong, frames, p);
    } else {
      PushOfferedKeeps(w, Offer(s, count), w.enabled(s.asked.enabled), frames, captured, now, p);
    }
  }

  lemma {:induction false} SessionKept(w: World, calls: seq<Call>, p: nat)
    ensures StateKept(Session(w, calls), [], p)
  {
    if calls != [] {
      var s := Session(w, calls[..|calls| - 1]);
      SessionKept(w, calls[..|calls| - 1], p);
      match calls[|calls| - 1]
      case PushCall(stereo, captured, now) => PushKeeps(w, s, Some(stereo), |stereo|, captured, now, p);
      case MissingCall(count, captured, now) => PushKeeps(w, s, None, count, captured, now, p);
      case DiscardCall => DropPartialKeeps(s, Discarded, [], p);
    }
  }

  // ----- Every frame has one fate

  /** Every frame offered is in exactly one place, once: in one encoded block or lost group, or in the buffer. */
  lemma FramesConserved(w: World, calls: seq<Call>, p: nat)
    ensures var s := Session(w, calls);
            Placed(s.fates, p) + Hits(s.partial, p) == if p < s.offered then 1 else 0
  {
    SessionKept(w, calls, p);
  }

  lemma {:induction false} TurnedAwayIsPlaced(fates: seq<Fate>, p: nat)
    requires TurnedAway(fates, p)
    ensures Placed(fates, p) > 0
  {
    if TurnedAway(Front(fates), p) {
      TurnedAwayIsPlaced(Front(fates), p);
    }
  }

  /** What holds of each encoded block. */
  lemma {:induction false} BlockExplained(fates: seq<Fate>, i: nat, p: nat)
    requires BlocksExplained(fates, p) && i < |fates| && fates[i].Encoded?
    ensures Explained(fates[..i], fates[i].block, p)
    ensures Placed(fates, p) >= Placed(fates[..i], p) + Hits(fates[i].block, p)
  {
    if i == |fates| - 1 {
      assert fates[..i] == Front(fates);
    } else {
      BlockExplained(Front(fates), i, p);
      assert Front(fates)[..i] == fates[..i];
    }
  }

  /** Between the first and the last frame of a block, a position is in the block or was turned away before, and not both. */
  lemma BlockMissesExactly(w: World, calls: seq<Call>, fates: seq<Fate>, i: nat, p: nat)
    requires fates == Session(w, calls).fates && i < |fates| && fates[i].Encoded?
    ensures |fates[i].block| == FRAMES && Rising(fates[i].block)
    ensures fates[i].block[0].position <= p <= Last(fates[i].block).position ==>
              (TurnedAway(fates[..i], p) <==> Hits(fates[i].block, p) == 0)
  {
    SessionKept(w, calls, p);
    BlockExplained(fates, i, p);
    if TurnedAway(fates[..i], p) {
      TurnedAwayIsPlaced(fates[..i], p);
    }
  }

  /** Frames that rise and leave out no position are adjacent. */
  lemma FullIsConsecutive(frames: seq<Tagged>)
    requires Rising(frames) && frames != []
    requires forall p: nat | frames[0].position <= p <= Last(frames).position :: Hits(frames, p) > 0
    ensures Consecutive(frames)
  {
    forall i | 0 <= i < |frames| - 1 ensures frames[i + 1].position == frames[i].position + 1 {
      var p := frames[i].position + 1;
      assert frames[0].position <= frames[i].position && frames[i + 1].position <= Last(frames).position;
      HitsExactly(frames, p);
      var j :| 0 <= j < |frames| && frames[j].position == p;
      assert j > i;
    }
  }

  /** Something between the first and the last of the frames was turned away. */
  ghost predicate MissesSome(before: seq<Fate>, block: seq<Tagged>)
    requires block != []
  {
    exists p: nat :: block[0].position < p < Last(block).position && TurnedAway(before, p)
  }

  lemma SlicesExactly(before: seq<Fate>, block: seq<Tagged>)
    requires block != [] && Rising(block)
    requires forall p: nat | block[0].position <= p <= Last(block).position :: TurnedAway(before, p) <==> Hits(block, p) == 0
    ensures Consecutive(block) <==> !MissesSome(before, block)
  {
    if Consecutive(block) && MissesSome(before, block) {
      var p: nat :| block[0].position < p < Last(block).position && TurnedAway(before, p);
      ConsecutiveHits(block, p);
    }
    if !MissesSome(before, block) {
      forall p: nat | block[0].position <= p <= Last(block).position ensures Hits(block, p) > 0 {
        EndsHit(block);
      }
      FullIsConsecutive(block);
    }
  }

  lemma EndsHit(frames: seq<Tagged>)
    requires frames != []
    ensures Hits(frames, frames[0].position) > 0 && Hits(frames, Last(frames).position) > 0
  {
    HitsExactly(frames, frames[0].position);
  }

  /**
   Every encoded block is 480 captured frames in order, and they are adjacent in the capture if
   and only if nothing between them was refused for its length or for want of data, or turned
   away by the copy loop, before the block was encoded.
   */
  lemma BlocksAreSlicesExactly(w: World, calls: seq<Call>, fates: seq<Fate>, i: nat)
    requires fates == Session(w, calls).fates && i < |fates| && fates[i].Encoded?
    ensures |fates[i].block| == FRAMES && Rising(fates[i].block)
    ensures Consecutive(fates[i].block) <==> !MissesSome(fates[..i], fates[i].block)
  {
    var block := fates[i].block;
    BlockMissesExactly(w, calls, fates, i, 0);
    forall p: nat | block[0].position <= p <= Last(block).position
      ensures TurnedAway(fates[..i], p) <==> Hits(block, p) == 0
    {
      BlockMissesExactly(w, calls, fates, i, p);
    }
    SlicesExactly(fates[..i], block);
  }

  // ----- Age

  predicate Fresh(block: seq<Tagged>, now: int) {
    forall i :: 0 <= i < |block| ==> now - block[i].captured <= MAX_AGE_US
  }

  predicate BlocksFresh(fates: seq<Fate>) {
    forall i :: 0 <= i < |fates| && fates[i].Encoded? ==> Fresh(fates[i].block, fates[i].now)
  }

  /** The partial block is no older than its recorded start, given capture stamps up to `latest`. */
  ghost predicate Aged(s: State, latest: int) {
    && BlocksFresh(s.fates)
    && (forall i :: 0 <= i < |s.partial| ==> s.partialUs <= s.partial[i].captured)
    && (s.partial != [] ==> s.partialUs <= latest)
  }

  lemma FateKeepsFresh(fates: seq<Fate>, after: seq<Fate>, block: seq<Tagged>, now: int)
    requires BlocksFresh(fates) && Fresh(block, now) && after != [] && Front(after) == fates
    requires FramesOf(Last(after)) == block && (Last(after).Encoded? ==> Last(after).now == now)
    ensures BlocksFresh(after)
  {
    assert forall i :: 0 <= i < |fates| ==> after[i] == fates[i];
  }

  lemma RoundAged(w: World, s: State, frames: seq<Tagged>, captured: int, now: int)
    requires |s.partial| < FRAMES && Aged(s, captured)
    requires now - captured <= MAX_AGE_US && (s.partial != [] ==> now - s.partialUs <= MAX_AGE_US)
    requires forall i :: 0 <= i < |frames| ==> frames[i].captured == captured
    ensures var u := Round(w, s, frames, captured, now).0;
            Aged(u, captured) && (u.partial != [] ==> now - u.partialUs <= MAX_AGE_US)
  {
    var t := Append(AskEnabled(s), frames[..RoundCount(s, frames)], captured);
    assert Aged(t, captured);
    if |t.partial| == FRAMES {
      BlockFate(w, t, now);
      FateKeepsFresh(t.fates, EncodeBlock(w, t, now).0.fates, t.partial, now);
    }
  }

  lemma {:induction false} FeedAged(w: World, s: State, frames: seq<Tagged>, captured: int, now: int)
    requires |s.partial| < FRAMES && Aged(s, captured)
    requires now - captured <= MAX_AGE_US && (s.partial != [] ==> now - s.partialUs <= MAX_AGE_US)
    requires forall i :: 0 <= i < |frames| ==> frames[i].captured == captured
    ensures Aged(Feed(w, s, frames, captured, now).0, captured)
    decreases |frames|
  {
    if frames != [] && w.enabled(s.asked.enabled) {
      RoundAged(w, s, frames, captured, now);
      var (u, verdict) := Round(w, s, frames, captured, now);
      if verdict.Continue? {
        FeedAged(w, u, frames[RoundCount(s, frames)..], captured, now);
      }
    }
  }

  lemma PushFreshAged(w: World, s: State, frames: seq<Tagged>, captured: int, now: int)
    requires |s.partial| < FRAMES && Aged(s, captured) && now - captured <= MAX_AGE_US
    requires forall i :: 0 <= i < |frames| ==> frames[i].captured == captured
    ensures Aged(PushFresh(w, s, frames, captured, now).0, captured)
  {
    var (u, kept) := TrimLong(TrimOld(s, now), frames);
    FeedAged(w, u, kept, captured, now);
  }

  lemma PushAged(w: World, s: State, chunk: Option<seq<Stereo>>, count: nat, captured: int, now: int)
    requires |s.partial| < FRAMES && (chunk.Some? ==> |chunk.value| == count) && Aged(s, captured)
    ensures Aged(Push(w, s, chunk, count, captured, now).0, captured)
  {
    if (chunk.Some? || count == 0) && count <= MAX_CHUNK && w.enabled(s.asked.enabled) && !TooOld(captured, now) {
      PushFreshAged(w, Offer(s, count), Tag(chunk.GetOr(Unknown(count)), s.offered, captured), captured, now);
    }
  }

  /** Capture stamps never go back. */
  predicate StampsInOrder(calls: seq<Call>) {
    forall i, j :: 0 <= i < j < |calls| && !calls[i].DiscardCall? && !calls[j].DiscardCall? ==>
      calls[i].captured <= calls[j].captured
  }

  /** The stamp of the last push, if any. */
  predicate LastStampUpTo(calls: seq<Call>, latest: int) {
    forall i :: 0 <= i < |calls| && !calls[i].DiscardCall? ==> calls[i].captured <= latest
  }

  lemma {:induction false} SessionAged(w: World, calls: seq<Call>, latest: int)
    requires StampsInOrder(calls) && LastStampUpTo(calls, latest)
    ensures Aged(Session(w, calls), latest)
  {
    if calls != [] {
      var front, call := calls[..|calls| - 1], calls[|calls| - 1];
      var stamp := if call.DiscardCall? then latest else call.captured;
      assert LastStampUpTo(front, stamp);
      SessionAged(w, front, stamp);
      match call
      case PushCall(stereo, captured, now) => PushAged(w, Session(w, front), Some(stereo), |stereo|, captured, now);
      case MissingCall(count, captured, now) => PushAged(w, Session(w, front), None, count, captured, now);
      case DiscardCall =>
    }
  }

  /** With capture stamps in order, no frame is more than 80 ms old when it is encoded. */
  lemma BlocksAreFresh(w: World, calls: seq<Call>, latest: int)
    requires StampsInOrder(calls) && LastStampUpTo(calls, latest)
    ensures BlocksFresh(Session(w, calls).fates)
  {
    SessionAged(w, calls, latest);
  }

  // ----- Blocks with a hole

  lemma SessionAppend(w: World, calls: seq<Call>, call: Call)
    ensures Session(w, calls + [call]) == Step(w, Session(w, calls), call)
  {
    assert (calls + [call])[..|calls|] == calls;
  }

  /** What the examples need to know of a state: one frame is held, and nothing was sent. */
  predicate HoldsFirst(s: State, a: Stereo, offered: nat, enabled: nat) {
    && s.partial == [Tagged(a, 0, 0)] && s.partialUs == 0 && s.pending == [] && s.lastPts == -1
    && s.offered == offered && s.asked == Asked(enabled, 0, 0, 0, 0)
  }

  /** One frame, less than a block, is copied. */
  lemma FirstIsHeld(w: World, a: Stereo)
    requires w.enabled(0) && w.enabled(1)
    ensures HoldsFirst(Push(w, Initial(), Some([a]), 1, 0, 0).0, a, 1, 2)
  {
    var frames, t := Tag([a], 0, 0), Offer(Initial(), 1);
    assert frames == [Tagged(a, 0, 0)] && frames[..1] == frames && frames[1..] == [];
    var u := Append(AskEnabled(t), frames, 0);
    assert u.partial == frames;
    assert Feed(w, t, frames, 0, 0) == Feed(w, u, [], 0, 0);
  }

  /** The world agrees to the first block, and the encoder makes no packets of it. */
  predicate Agrees(w: World) {
    w.acked(0) == -1 && w.send(0) && w.writable(0) && w.encode(0) == Packets([], true)
  }

  predicate NothingSent(s: State) {
    && s.pending == [] && s.lastPts == -1
    && s.asked.acked == s.asked.send == s.asked.writable == s.asked.encode == 0
  }

  /** Before the block is submitted, the acknowledgement of nothing is read and the configuration is sent. */
  lemma ConfigGoesFirst(w: World, s: State)
    requires NothingSent(s) && Agrees(w)
    ensures var u := SendConfig(w, TakeAck(w, s)).0;
            && EncodeBlock(w, s, 0) == Submit(w, u, s.partial, 0)
            && u.fates == s.fates && u.samplePts == s.samplePts && u.asked.enabled == s.asked.enabled
            && u.asked.writable == u.asked.encode == 0
  {
    assert Acknowledge([], -1) == [];
  }

  lemma BlockIsEncoded(w: World, s: State, block: seq<Tagged>)
    requires s.asked.writable == s.asked.encode == 0 && w.enabled(s.asked.enabled) && Agrees(w)
    ensures Submit(w, s, block, 0).1.Continue?
    ensures Submit(w, s, block, 0).0.fates == s.fates + [Encoded(block, s.samplePts, 0)]
  {
  }

  /** The full block goes into the encoder. */
  lemma FullIsEncoded(w: World, s: State)
    requires NothingSent(s) && Agrees(w) && w.enabled(s.asked.enabled)
    ensures EncodeBlock(w, s, 0).1.Continue?
    ensures EncodeBlock(w, s, 0).0.fates == s.fates + [Encoded(s.partial, s.samplePts, 0)]
  {
    ConfigGoesFirst(w, s);
    BlockIsEncoded(w, SendConfig(w, TakeAck(w, s)).0, s.partial);
  }

  /** The frames that complete the block. */
  lemma RestIsEncoded(w: World, s: State, a: Stereo, rest: seq<Stereo>, offered: nat, k: nat)
    requires HoldsFirst(s, a, offered, k) && |rest| == FRAMES - 1
    requires w.enabled(k) && w.enabled(k + 1) && w.enabled(k + 2) && Agrees(w)
    ensures Push(w, s, Some(rest), |rest|, 0, 0).0.fates
            == s.fates + [Encoded(s.partial + Tag(rest, offered, 0), s.samplePts, 0)]
  {
    var frames, t := Tag(rest, offered, 0), Offer(s, |rest|);
    assert frames[..FRAMES - 1] == frames && frames[FRAMES - 1..] == [];
    var u := Append(AskEnabled(t), frames, 0);
    FullIsEncoded(w, u);
    var (v, verdict) := EncodeBlock(w, u, 0);
    assert Feed(w, t, frames, 0, 0) == Feed(w, v, [], 0, 0);
  }

  /** The last thing that happened was the encoding of a block without the positions from 1 up to `next`. */
  predicate EncodedWithHole(s: State, next: nat) {
    && s.fates != [] && Last(s.fates).Encoded? && |Last(s.fates).block| == FRAMES
    && Last(s.fates).block[0].position == 0 && Last(s.fates).block[1].position == next
  }

  /** A world in which the copy loop is turned away once: the fourth time it asks. */
  function OneRefusal(): World {
    World(k => k != 3, k => -1, k => true, k => true, k => Packets([], true))
  }

  lemma SecondIsSkipped(s: State, a: Stereo)
    requires HoldsFirst(s, a, 1, 2)
    ensures HoldsFirst(Push(OneRefusal(), s, Some([a]), 1, 0, 0).0, a, 2, 4)
  {
    var w, frames := OneRefusal(), Tag([a], 1, 0);
    assert Feed(w, Offer(s, 1), frames, 0, 0).0 == Drop(AskEnabled(Offer(s, 1)), Disabled, frames);
  }

  /** That is enough to encode a block with a hole in it: the second captured frame is missing. */
  lemma RefusalSplicesBlock(a: Stereo, rest: seq<Stereo>)
    requires |rest| == FRAMES - 1
    ensures EncodedWithHole(Session(OneRefusal(), [PushCall([a], 0, 0)] + [PushCall([a], 0, 0)] + [PushCall(rest, 0, 0)]), 2)
  {
    var w, one := OneRefusal(), [PushCall([a], 0, 0)];
    assert [] + one == one;
    SessionAppend(w, [], one[0]);
    FirstIsHeld(w, a);
    SessionAppend(w, one, one[0]);
    SecondIsSkipped(Session(w, one), a);
    SessionAppend(w, one + one, PushCall(rest, 0, 0));
    RestIsEncoded(w, Session(w, one + one), a, rest, 2, 4);
  }

  function AlwaysYes(): World {
    World(k => true, k => -1, k => true, k => true, k => Packets([], true))
  }

  /** A chunk refused for its length does the same, whatever its size: its frames are missing behind the first one. */
  lemma RefusedChunkSplicesBlock(a: Stereo, long: seq<Stereo>, rest: seq<Stereo>)
    requires |long| > MAX_CHUNK && |rest| == FRAMES - 1
    ensures EncodedWithHole(Session(AlwaysYes(), [PushCall([a], 0, 0)] + [PushCall(long, 0, 0)] + [PushCall(rest, 0, 0)]),
                            1 + |long|)
  {
    var w, one := AlwaysYes(), [PushCall([a], 0, 0)];
    assert [] + one == one;
    SessionAppend(w, [], one[0]);
    FirstIsHeld(w, a);
    SessionAppend(w, one, PushCall(long, 0, 0));
    SessionAppend(w, one + [PushCall(long, 0, 0)], PushCall(rest, 0, 0));
    RestIsEncoded(w, Session(w, one + [PushCall(long, 0, 0)]), a, rest, 1 + |long|, 2);
  }

  /** So does a missing chunk. */
  lemma MissingChunkSplicesBlock(a: Stereo, count: nat, rest: seq<Stereo>)
    requires count > 0 && |rest| == FRAMES - 1
    ensures EncodedWithHole(Session(AlwaysYes(), [PushCall([a], 0, 0)] + [MissingCall(count, 0, 0)] + [PushCall(rest, 0, 0)]),
                            1 + count)
  {
    var w, one := AlwaysYes(), [PushCall([a], 0, 0)];
    assert [] + one == one;
    SessionAppend(w, [], one[0]);
    FirstIsHeld(w, a);
    SessionAppend(w, one, MissingCall(count, 0, 0));
    SessionAppend(w, one + [MissingCall(count, 0, 0)], PushCall(rest, 0, 0));
    RestIsEncoded(w, Session(w, one + [MissingCall(count, 0, 0)]), a, rest, 1 + count, 2);
  }
}
