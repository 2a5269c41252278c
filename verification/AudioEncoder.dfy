/**
 The reverse audio encoder (app/src/reverse_audio_encoder.c): capture chunks of any size are
 re-blocked into 480-frame blocks, encoded, and sent under a window of four packets.

 The Opus encoder and the callbacks are an adversary: a `World` fixes, for every call that
 will ever be made, what it answers.  `Push` says what one call of the encoder does; the
 class at the end is the structure that is updated in place.  The state also keeps a log of what
 was sent and acknowledged, and another one of what became of every captured frame.
 */
module AudioEncoder {
  import opened Common
  import opened AckWindow

  const FRAMES := 480
  const WINDOW := 4
  const MAX_AGE_US := 80_000
  const MAX_CHUNK := 4800
  const MAX_PACKET_SIZE := 4096

  datatype Stereo = Stereo(left: int, right: int)

  /** A captured frame, with its place among all frames offered and its capture time. */
  datatype Tagged = Tagged(frame: Stereo, position: nat, captured: int)

  /** What the encoder makes of one block: a refusal, or packets and then "again" or an error. */
  datatype Encoding = Refused | Packets(sizes: seq<nat>, drained: bool)

  datatype World = World(
    enabled: nat -> bool,     // stopped() and enabled() together
    acked: nat -> int,
    send: nat -> bool,
    writable: nat -> bool,
    encode: nat -> Encoding)

  /** How often each answer has been asked for. */
  datatype Asked = Asked(enabled: nat, acked: nat, send: nat, writable: nat, encode: nat)

  datatype Cause = TooLong | Missing | Stale | Oversized | Disabled | WindowFull | Failed | Discarded

  /** What became of some frames. */
  datatype Fate =
    | Gone(cause: Cause, frames: seq<Tagged>)
    | Encoded(block: seq<Tagged>, samplePts: int, now: int)

  datatype Event =
    | Acked(ack: int)     // an acknowledgement that was not in the future
    | Config              // the codec configuration was sent
    | Audio(pts: int)     // a packet was sent

  datatype State = State(
    partial: seq<Tagged>,
    partialUs: int,
    pending: seq<int>,
    samplePts: int,
    lastPts: int,
    configured: bool,
    asked: Asked,
    offered: nat,
    fates: seq<Fate>,
    log: seq<Event>)

  function Initial(): State { State([], 0, [], 0, -1, false, Asked(0, 0, 0, 0, 0), 0, [], []) }

  datatype Verdict = Continue | ReturnTrue | ReturnFalse

  // ----- One call

  function Drop(s: State, cause: Cause, frames: seq<Tagged>): State {
    s.(fates := s.fates + [Gone(cause, frames)])
  }

  function DropPartial(s: State, cause: Cause): State {
    Drop(s, cause, s.partial).(partial := [])
  }

  function AskEnabled(s: State): State { s.(asked := s.asked.(enabled := s.asked.enabled + 1)) }

  function Offer(s: State, count: nat): State { AskEnabled(s).(offered := s.offered + count) }

  function AskSend(s: State): State { s.(asked := s.asked.(send := s.asked.send + 1)) }

  function Sent(s: State, pts: int): State {
    s.(pending := s.pending + [pts], lastPts := pts, log := s.log + [Audio(pts)])
  }

  function NextPts(s: State, now: int): int { if now > s.lastPts then now else s.lastPts + 1 }

  /** Sends one packet, unless audio is disabled; false when the packet or the window forbids it. */
  function EmitOne(w: World, s: State, size: nat, now: int): (State, bool) {
    if |s.pending| >= WINDOW || size == 0 || size > MAX_PACKET_SIZE then (s, false)
    else if !w.enabled(s.asked.enabled) then (AskEnabled(s), true)
    else if !w.send(s.asked.send) then (AskSend(AskEnabled(s)), false)
    else (Sent(AskSend(AskEnabled(s)), NextPts(s, now)), true)
  }

  /** Sends the packets of one block. */
  function Emit(w: World, s: State, sizes: seq<nat>, drained: bool, now: int): (State, Verdict)
    decreases |sizes|
  {
    if sizes == [] then (s, if drained then Continue else ReturnFalse)
    else
      var (t, ok) := EmitOne(w, s, sizes[0], now);
      if ok then Emit(w, t, sizes[1..], drained, now) else (t, ReturnFalse)
  }

  /** Takes the full block out of the buffer and applies the latest acknowledgement. */
  function TakeAck(w: World, s: State): State {
    var ack := w.acked(s.asked.acked);
    var t := s.(partial := [], asked := s.asked.(acked := s.asked.acked + 1));
    if ack <= s.lastPts then t.(pending := Acknowledge(s.pending, ack), log := s.log + [Acked(ack)]) else t
  }

  function SendConfig(w: World, s: State): (State, bool) {
    if s.configured then (s, true)
    else if !w.send(s.asked.send) then (AskSend(s), false)
    else (AskSend(s).(configured := true, log := s.log + [Config]), true)
  }

  function AskWritable(s: State): State { s.(asked := s.asked.(writable := s.asked.writable + 1)) }

  /** The sample clock goes on even when the encoder refuses. */
  function AskEncode(s: State): State {
    s.(samplePts := s.samplePts + FRAMES, asked := s.asked.(encode := s.asked.encode + 1))
  }

  function Encode(w: World, s: State, block: seq<Tagged>, now: int): (State, Verdict) {
    var r, t := w.encode(s.asked.encode), AskEncode(s);
    if r.Refused? then (Drop(t, Failed, block), ReturnFalse)
    else Emit(w, t.(fates := t.fates + [Encoded(block, s.samplePts, now)]), r.sizes, r.drained, now)
  }

  function Submit(w: World, s: State, block: seq<Tagged>, now: int): (State, Verdict) {
    var t := AskEnabled(s);
    if !w.enabled(s.asked.enabled) then (Drop(t, Disabled, block), ReturnTrue)
    else if !w.writable(t.asked.writable) then (Drop(AskWritable(t), Failed, block), ReturnFalse)
    else Encode(w, AskWritable(t), block, now)
  }

  /** What happens when the buffer is full. */
  function EncodeBlock(w: World, s: State, now: int): (State, Verdict) {
    var block, t := s.partial, TakeAck(w, s);
    if |t.pending| == WINDOW then (Drop(t, WindowFull, block), Continue)
    else
      var (u, ok) := SendConfig(w, t);
      if !ok then (Drop(u, Failed, block), ReturnFalse) else Submit(w, u, block, now)
  }

  function Append(s: State, frames: seq<Tagged>, captured: int): State {
    s.(partialUs := if s.partial == [] then captured else s.partialUs, partial := s.partial + frames)
  }

  /** How many frames one round of the copy loop takes. */
  function RoundCount(s: State, frames: seq<Tagged>): (n: nat)
    requires |s.partial| < FRAMES
    ensures n <= |frames| && (frames != [] ==> n > 0)
  {
    Min(FRAMES - |s.partial|, |frames|)
  }

  /** One round: copies behind the partial block, and encodes it when it is full. */
  function Round(w: World, s: State, frames: seq<Tagged>, captured: int, now: int): (r: (State, Verdict))
    requires |s.partial| < FRAMES
    ensures |r.0.partial| < FRAMES
  {
    var t := Append(AskEnabled(s), frames[..RoundCount(s, frames)], captured);
    if |t.partial| != FRAMES then (t, Continue) else BlockFate(w, t, now); EncodeBlock(w, t, now)
  }

  /** The copy loop. */
  function Feed(w: World, s: State, frames: seq<Tagged>, captured: int, now: int): (r: (State, bool))
    requires |s.partial| < FRAMES
    ensures |r.0.partial| < FRAMES
    decreases |frames|
  {
    if frames == [] then (s, true)
    else if !w.enabled(s.asked.enabled)
    then (Drop(AskEnabled(s), Disabled, frames), true)
    else
      var (u, verdict) := Round(w, s, frames, captured, now);
      var rest := frames[RoundCount(s, frames)..];
      match verdict
      case Continue => Feed(w, u, rest, captured, now)
      case ReturnTrue => (Drop(u, Disabled, rest), true)
      case ReturnFalse => (Drop(u, Failed, rest), false)
  }

  function Tag(stereo: seq<Stereo>, first: nat, captured: int): (r: seq<Tagged>)
    ensures |r| == |stereo| && forall i :: 0 <= i < |r| ==> r[i] == Tagged(stereo[i], first + i, captured)
  {
    seq(|stereo|, i requires 0 <= i < |stereo| => Tagged(stereo[i], first + i, captured))
  }

  predicate TooOld(captured: int, now: int) { captured > now || now - captured > MAX_AGE_US }

  /** A partial block that has grown old is dropped. */
  function TrimOld(s: State, now: int): State {
    if s.partial != [] && now - s.partialUs > MAX_AGE_US then DropPartial(s, Stale) else s
  }

  /** Of an oversized chunk only the newest four blocks are kept, and nothing before them. */
  function TrimLong(s: State, frames: seq<Tagged>): (State, seq<Tagged>) {
    var excess := |frames| - FRAMES * WINDOW;
    if excess > 0 then (Drop(DropPartial(s, Oversized), Oversized, frames[..excess]), frames[excess..])
    else (s, frames)
  }

  /** Refused frames are gone, and the partial block stays as it is. */
  function Refuse(s: State, cause: Cause, frames: seq<Tagged>): State {
    Drop(s.(offered := s.offered + |frames|), cause, frames)
  }

  /** The frames of a missing chunk: captured, with nothing known of them. */
  function Unknown(count: nat): (r: seq<Stereo>)
    ensures |r| == count
  {
    seq(count, _ => Stereo(0, 0))
  }

  /** The part of a push behind its first tests. */
  function PushFresh(w: World, s: State, frames: seq<Tagged>, captured: int, now: int): (r: (State, bool))
    requires |s.partial| < FRAMES
    ensures |r.0.partial| < FRAMES
  {
    var (u, kept) := TrimLong(TrimOld(s, now), frames);
    Feed(w, u, kept, captured, now)
  }

  /** The part of a push behind the refusals, once the first question has been answered. */
  function PushOffered(w: World, s: State, enabled: bool, frames: seq<Tagged>, captured: int, now: int): (r: (State, bool))
    requires |s.partial| < FRAMES
    ensures |r.0.partial| < FRAMES
  {
    if !enabled || TooOld(captured, now) then (Drop(DropPartial(s, Stale), Stale, frames), true)
    else PushFresh(w, s, frames, captured, now)
  }

  /** One push of `count` frames; a missing chunk is refused, unless it is to have no frames. */
  function Push(w: World, s: State, chunk: Option<seq<Stereo>>, count: nat, captured: int, now: int): (r: (State, bool))
    requires |s.partial| < FRAMES && (chunk.Some? ==> |chunk.value| == count)
    ensures |r.0.partial| < FRAMES
  {
    var frames := Tag(chunk.GetOr(Unknown(count)), s.offered, captured);
    if chunk.None? && count > 0 then (Refuse(s, Missing, frames), false)
    else if count > MAX_CHUNK then (Refuse(s, TooLong, frames), false)
    else PushOffered(w, Offer(s, count), w.enabled(s.asked.enabled), frames, captured, now)
  }

  function Discard(s: State): State { DropPartial(s, Discarded) }

  predicate SameBuffer(s: State, t: State) {
    t.partial == s.partial && t.partialUs == s.partialUs && t.offered == s.offered && t.fates == s.fates
  }

  lemma {:induction false} EmitLeavesBuffer(w: World, s: State, sizes: seq<nat>, drained: bool, now: int)
    ensures SameBuffer(s, Emit(w, s, sizes, drained, now).0)
    decreases |sizes|
  {
    if sizes != [] {
      var (t, ok) := EmitOne(w, s, sizes[0], now);
      if ok {
        EmitLeavesBuffer(w, t, sizes[1..], drained, now);
      }
    }
  }

  function FramesOf(f: Fate): seq<Tagged> { if f.Gone? then f.frames else f.block }

  /** Exactly one thing became of a block. */
  predicate OneFate(s: State, t: State, block: seq<Tagged>, now: int) {
    && t.partial == s.partial && t.partialUs == s.partialUs && t.offered == s.offered
    && t.fates != [] && t.fates[..|t.fates| - 1] == s.fates
    && var f := t.fates[|t.fates| - 1]; FramesOf(f) == block && (f.Encoded? ==> f.now == now)
  }

  lemma EncodeFate(w: World, s: State, block: seq<Tagged>, now: int)
    ensures OneFate(s, Encode(w, s, block, now).0, block, now)
  {
    var r, t := w.encode(s.asked.encode), AskEncode(s);
    if r.Packets? {
      EmitLeavesBuffer(w, t.(fates := t.fates + [Encoded(block, s.samplePts, now)]), r.sizes, r.drained, now);
    }
  }

  lemma SubmitFate(w: World, s: State, block: seq<Tagged>, now: int)
    ensures OneFate(s, Submit(w, s, block, now).0, block, now)
  {
    EncodeFate(w, AskWritable(AskEnabled(s)), block, now);
  }

  /** A full block always leaves the buffer empty, and exactly one thing becomes of it. */
  lemma BlockFate(w: World, s: State, now: int)
    ensures var t := EncodeBlock(w, s, now).0;
            t.partial == [] && OneFate(s.(partial := []), t, s.partial, now)
  {
    var t := TakeAck(w, s);
    if |t.pending| != WINDOW {
      var (u, ok) := SendConfig(w, t);
      assert SameBuffer(t, u);
      if ok {
        SubmitFate(w, u, s.partial, now);
      }
    }
  }

  // ----- Reading the log

  function SentPts(log: seq<Event>): seq<int> {
    if log == [] then []
    else SentPts(log[..|log| - 1]) + if log[|log| - 1].Audio? then [log[|log| - 1].pts] else []
  }

  /** The greatest acknowledgement accepted so far. */
  function MaxAck(log: seq<Event>): int {
    if log == [] then -1
    else
      var rest, e := MaxAck(log[..|log| - 1]), log[|log| - 1];
      if e.Acked? && e.ack > rest then e.ack else rest
  }

  function ConfigCount(log: seq<Event>): nat {
    if log == [] then 0 else ConfigCount(log[..|log| - 1]) + if log[|log| - 1].Config? then 1 else 0
  }

  predicate ConfigBeforeAudio(log: seq<Event>) {
    log == [] ||
    (ConfigBeforeAudio(log[..|log| - 1]) && (log[|log| - 1].Audio? ==> ConfigCount(log[..|log| - 1]) > 0))
  }

  lemma LogAppend(log: seq<Event>, e: Event)
    ensures SentPts(log + [e]) == if e.Audio? then SentPts(log) + [e.pts] else SentPts(log)
    ensures MaxAck(log + [e]) == if e.Acked? && e.ack > MaxAck(log) then e.ack else MaxAck(log)
    ensures ConfigCount(log + [e]) == ConfigCount(log) + if e.Config? then 1 else 0
    ensures ConfigBeforeAudio(log) && (e.Audio? ==> ConfigCount(log) > 0) ==> ConfigBeforeAudio(log + [e])
  {
    assert (log + [e])[..|log + [e]| - 1] == log;
  }

  // ----- The ledger: window and configuration

  /** The window is exactly the sent packets above every accepted acknowledgement. */
  ghost predicate WindowKept(log: seq<Event>, pending: seq<int>, lastPts: int) {
    && |pending| <= WINDOW
    && Increasing(SentPts(log))
    && (forall i :: 0 <= i < |SentPts(log)| ==> 0 <= SentPts(log)[i] <= lastPts)
    && -1 <= MaxAck(log) <= lastPts
    && pending == Above(SentPts(log), MaxAck(log))
  }

  ghost predicate ConfigKept(log: seq<Event>, configured: bool) {
    ConfigCount(log) == (if configured then 1 else 0) && ConfigBeforeAudio(log)
  }

  ghost predicate Ledger(s: State) {
    WindowKept(s.log, s.pending, s.lastPts) && ConfigKept(s.log, s.configured)
  }

  /** An accepted acknowledgement removes from the window exactly what it covers. */
  lemma AckKeepsWindow(sent: seq<int>, pending: seq<int>, max: int, ack: int)
    requires Increasing(sent) && pending == Above(sent, max)
    ensures Acknowledge(pending, ack) == Above(sent, if ack > max then ack else max)
  {
    IncreasingAbove(sent, max);
    AboveMembers(sent, max);
    assert forall i :: 0 <= i < |pending| ==> pending[i] in pending;
    AcknowledgeIncreasing(pending, ack);
    if ack > max {
      AboveTwice(sent, max, ack);
    } else {
      AboveAll(pending, ack);
    }
  }

  lemma TakeAckLedger(w: World, s: State)
    requires Ledger(s)
    ensures Ledger(TakeAck(w, s))
  {
    var ack := w.acked(s.asked.acked);
    if ack <= s.lastPts {
      LogAppend(s.log, Acked(ack));
      AckKeepsWindow(SentPts(s.log), s.pending, MaxAck(s.log), ack);
    }
  }

  lemma ConfigKeepsLog(log: seq<Event>, pending: seq<int>, lastPts: int)
    requires WindowKept(log, pending, lastPts) && ConfigKept(log, false)
    ensures WindowKept(log + [Config], pending, lastPts) && ConfigKept(log + [Config], true)
  {
    LogAppend(log, Config);
  }

  lemma SendConfigLedger(w: World, s: State)
    requires Ledger(s)
    ensures Ledger(SendConfig(w, s).0)
    ensures SendConfig(w, s).1 ==> SendConfig(w, s).0.configured
  {
    if !s.configured && w.send(s.asked.send) {
      ConfigKeepsLog(s.log, s.pending, s.lastPts);
    }
  }

  lemma IncreasingAppend(sent: seq<int>, lastPts: int, pts: int)
    requires Increasing(sent) && lastPts < pts
    requires forall i :: 0 <= i < |sent| ==> 0 <= sent[i] <= lastPts
    ensures Increasing(sent + [pts])
  {
  }

  /** A later timestamp joins the sent ones and the window. */
  lemma SentGrows(sent: seq<int>, acked: int, lastPts: int, pts: int)
    requires Increasing(sent) && -1 <= acked <= lastPts < pts
    requires forall i :: 0 <= i < |sent| ==> 0 <= sent[i] <= lastPts
    ensures Increasing(sent + [pts]) && Above(sent + [pts], acked) == Above(sent, acked) + [pts]
    ensures forall i :: 0 <= i < |sent + [pts]| ==> 0 <= (sent + [pts])[i] <= pts
  {
    IncreasingAppend(sent, lastPts, pts);
    AboveAppend(sent, [pts], acked);
    AboveOne(pts, acked);
  }

  lemma AboveOne(pts: int, acked: int)
    requires acked < pts
    ensures Above([pts], acked) == [pts]
  {
  }

  lemma SentKeepsLog(log: seq<Event>, pending: seq<int>, lastPts: int, pts: int)
    requires WindowKept(log, pending, lastPts) && ConfigKept(log, true)
    requires |pending| < WINDOW && pts > lastPts
    ensures WindowKept(log + [Audio(pts)], pending + [pts], pts) && ConfigKept(log + [Audio(pts)], true)
  {
    LogAppend(log, Audio(pts));
    SentGrows(SentPts(log), MaxAck(log), lastPts, pts);
  }

  lemma EmitOneLedger(w: World, s: State, size: nat, now: int)
    requires Ledger(s) && s.configured
    ensures Ledger(EmitOne(w, s, size, now).0) && EmitOne(w, s, size, now).0.configured
  {
    if |s.pending| < WINDOW {
      SentKeepsLog(s.log, s.pending, s.lastPts, NextPts(s, now));
    }
  }

  lemma {:induction false} EmitLedger(w: World, s: State, sizes: seq<nat>, drained: bool, now: int)
    requires Ledger(s) && s.configured
    ensures Ledger(Emit(w, s, sizes, drained, now).0)
    decreases |sizes|
  {
    if sizes != [] {
      EmitOneLedger(w, s, sizes[0], now);
      var (t, ok) := EmitOne(w, s, sizes[0], now);
      if ok {
        EmitLedger(w, t, sizes[1..], drained, now);
      }
    }
  }

  lemma EncodeLedger(w: World, s: State, block: seq<Tagged>, now: int)
    requires Ledger(s) && s.configured
    ensures Ledger(Encode(w, s, block, now).0)
  {
    var r, t := w.encode(s.asked.encode), AskEncode(s);
    if r.Packets? {
      EmitLedger(w, t.(fates := t.fates + [Encoded(block, s.samplePts, now)]), r.sizes, r.drained, now);
    }
  }

  lemma EncodeBlockLedger(w: World, s: State, now: int)
    requires Ledger(s)
    ensures Ledger(EncodeBlock(w, s, now).0)
  {
    var t := TakeAck(w, s);
    TakeAckLedger(w, s);
    if |t.pending| != WINDOW {
      var (u, ok) := SendConfig(w, t);
      SendConfigLedger(w, t);
      if ok {
        EncodeLedger(w, AskWritable(AskEnabled(u)), s.partial, now);
      }
    }
  }

  lemma RoundLedger(w: World, s: State, frames: seq<Tagged>, captured: int, now: int)
    requires |s.partial| < FRAMES && Ledger(s)
    ensures Ledger(Round(w, s, frames, captured, now).0)
  {
    EncodeBlockLedger(w, Append(AskEnabled(s), frames[..RoundCount(s, frames)], captured), now);
  }

  lemma {:induction false} FeedLedger(w: World, s: State, frames: seq<Tagged>, captured: int, now: int)
    requires |s.partial| < FRAMES && Ledger(s)
    ensures Ledger(Feed(w, s, frames, captured, now).0)
    decreases |frames|
  {
    if frames != [] && w.enabled(s.asked.enabled) {
      RoundLedger(w, s, frames, captured, now);
      var (u, verdict) := Round(w, s, frames, captured, now);
      if verdict.Continue? {
        FeedLedger(w, u, frames[RoundCount(s, frames)..], captured, now);
      }
    }
  }

  lemma PushFreshLedger(w: World, s: State, frames: seq<Tagged>, captured: int, now: int)
    requires |s.partial| < FRAMES && Ledger(s)
    ensures Ledger(PushFresh(w, s, frames, captured, now).0)
  {
    var (u, kept) := TrimLong(TrimOld(s, now), frames);
    FeedLedger(w, u, kept, captured, now);
  }

  lemma PushLedger(w: World, s: State, chunk: Option<seq<Stereo>>, count: nat, captured: int, now: int)
    requires |s.partial| < FRAMES && (chunk.Some? ==> |chunk.value| == count) && Ledger(s)
    ensures Ledger(Push(w, s, chunk, count, captured, now).0)
  {
    PushFreshLedger(w, Offer(s, count), Tag(chunk.GetOr(Unknown(count)), s.offered, captured), captured, now);
  }

  // ----- Whole sessions

  datatype Call =
    | PushCall(stereo: seq<Stereo>, captured: int, now: int)
    | MissingCall(count: nat, captured: int, now: int)        // a push without a chunk
    | DiscardCall

  function Step(w: World, s: State, call: Call): (t: State)
    requires |s.partial| < FRAMES
    ensures |t.partial| < FRAMES
  {
    match call
    case PushCall(stereo, captured, now) => Push(w, s, Some(stereo), |stereo|, captured, now).0
    case MissingCall(count, captured, now) => Push(w, s, None, count, captured, now).0
    case DiscardCall => Discard(s)
  }

  function Session(w: World, calls: seq<Call>): (s: State)
    ensures |s.partial| < FRAMES
  {
    if calls == [] then Initial()
    else Step(w, Session(w, calls[..|calls| - 1]), calls[|calls| - 1])
  }

  lemma {:induction false} SessionLedger(w: World, calls: seq<Call>)
    ensures Ledger(Session(w, calls))
  {
    if calls != [] {
      var s := Session(w, calls[..|calls| - 1]);
      SessionLedger(w, calls[..|calls| - 1]);
      match calls[|calls| - 1]
      case PushCall(stereo, captured, now) => PushLedger(w, s, Some(stereo), |stereo|, captured, now);
      case MissingCall(count, captured, now) => PushLedger(w, s, None, count, captured, now);
      case DiscardCall =>
    }
  }

  // ----- The main results, for every world and every session

  /** The window holds exactly the unacknowledged packets, at most four, and sent timestamps strictly increase. */
  lemma WindowNeverExceeded(w: World, calls: seq<Call>)
    ensures var s := Session(w, calls);
            && |Above(SentPts(s.log), MaxAck(s.log))| <= WINDOW
            && s.pending == Above(SentPts(s.log), MaxAck(s.log))
            && Increasing(SentPts(s.log)) && Increasing(s.pending)
            && (forall i :: 0 <= i < |s.pending| ==> s.pending[i] <= s.lastPts)
  {
    var s := Session(w, calls);
    SessionLedger(w, calls);
    IncreasingAbove(SentPts(s.log), MaxAck(s.log));
    AboveMembers(SentPts(s.log), MaxAck(s.log));
    assert forall i :: 0 <= i < |s.pending| ==> s.pending[i] in s.pending;
  }

  lemma {:induction false} ConfigFirst(log: seq<Event>, j: nat) returns (i: nat)
    requires j < |log| && ConfigBeforeAudio(log) && (log[j].Audio? || ConfigCount(log[..j]) > 0)
    ensures i < j && log[i].Config?
  {
    var front := log[..|log| - 1];
    if j < |front| {
      assert front[..j] == log[..j];
      i := ConfigFirst(front, j);
    } else {
      assert ConfigCount(front) > 0;
      i := ConfigFound(front);
    }
  }

  lemma {:induction false} ConfigFound(log: seq<Event>) returns (i: nat)
    requires ConfigCount(log) > 0
    ensures i < |log| && log[i].Config?
  {
    if log[|log| - 1].Config? {
      i := |log| - 1;
    } else {
      i := ConfigFound(log[..|log| - 1]);
    }
  }

  /** The configuration is sent at most once, and before the first packet. */
  lemma ConfigSentOnceAndFirst(w: World, calls: seq<Call>)
    ensures var log := Session(w, calls).log;
            && ConfigCount(log) <= 1
            && forall j :: 0 <= j < |log| && log[j].Audio? ==> exists i :: 0 <= i < j && log[i].Config?
  {
    SessionLedger(w, calls);
    var log := Session(w, calls).log;
    forall j | 0 <= j < |log| && log[j].Audio?
      ensures exists i :: 0 <= i < j && log[i].Config?
    {
      var i := ConfigFirst(log, j);
    }
  }

  // ----- The structure itself

  class Encoder {
    const pcm: array<Stereo>
    const window: Window
    var filled: nat
    var partialUs: int
    var samplePts: int
    var lastPts: int
    var configured: bool
    var asked: Asked              // how many answers the callbacks and the codec have given

    ghost var tags: seq<Tagged>   // what the first `filled` entries of `pcm` are
    ghost var offered: nat
    ghost var fates: seq<Fate>
    ghost var log: seq<Event>

    ghost predicate Valid()
      reads this, pcm, window, window.entries
    {
      && pcm.Length == FRAMES && filled <= FRAMES && |tags| == filled
      && (forall i :: 0 <= i < filled ==> tags[i].frame == pcm[i])
      && window.Valid() && window.entries.Length == WINDOW
    }

    ghost function Value(): State
      reads this, window, window.entries
      requires window.Valid()
    {
      State(tags, partialUs, window.Contents(), samplePts, lastPts, configured, asked, offered, fates, log)
    }

    constructor ()
      ensures Valid() && Value() == Initial() && fresh(pcm) && fresh(window) && fresh(window.entries)
    {
      pcm := new Stereo[FRAMES](_ => Stereo(0, 0));
      window := new Window(WINDOW);
      filled, partialUs, samplePts, lastPts, configured := 0, 0, 0, -1, false;
      asked := Asked(0, 0, 0, 0, 0);
      tags, offered, fates, log := [], 0, [], [];
    }

    method Enabled(w: World) returns (enabled: bool)
      requires Valid()
      modifies this`asked
      ensures Valid() && Value() == AskEnabled(old(Value())) && enabled == w.enabled(old(asked).enabled)
    {
      enabled := w.enabled(asked.enabled);
      asked := asked.(enabled := asked.enabled + 1);
    }

    method Send(w: World) returns (sent: bool)
      requires Valid()
      modifies this`asked
      ensures Valid() && Value() == AskSend(old(Value())) && sent == w.send(old(asked).send)
    {
      sent := w.send(asked.send);
      asked := asked.(send := asked.send + 1);
    }

    method DiscardPartial()
      requires Valid()
      modifies this
      ensures Valid() && Value() == Discard(old(Value()))
    {
      Reset(Discarded);
    }

    method Reset(ghost cause: Cause)
      requires Valid()
      modifies this`filled, this`tags, this`fates
      ensures Valid() && filled == 0 && Value() == DropPartial(old(Value()), cause)
    {
      fates := fates + [Gone(cause, tags)];
      filled, tags := 0, [];
    }

    /** Copies `count` frames behind the partial block. */
    method Copy(stereo: seq<Stereo>, offset: nat, count: nat, ghost frames: seq<Tagged>, captured: int)
      requires Valid() && offset + count <= |stereo| && filled + count <= FRAMES
      requires |frames| == count && forall i :: 0 <= i < count ==> frames[i].frame == stereo[offset + i]
      modifies this`filled, this`tags, this`partialUs, pcm
      ensures Valid() && filled == old(filled) + count && Value() == Append(old(Value()), frames, captured)
    {
      if filled == 0 {
        partialUs := captured;
      }
      forall i | 0 <= i < count {
        pcm[filled + i] := stereo[offset + i];
      }
      filled, tags := filled + count, tags + frames;
    }

    /** Sends the packets that the codec made of a block. */
    method SendPacket(w: World, size: nat, now: int) returns (ok: bool)
      requires Valid()
      modifies this`asked, this`lastPts, this`log, window`count, window.entries
      ensures Valid() && (Value(), ok) == EmitOne(w, old(Value()), size, now)
    {
      var pts := if now > lastPts then now else lastPts + 1;
      ok := window.count < WINDOW && size > 0 && size <= MAX_PACKET_SIZE;
      if ok {
        var enabled := Enabled(w);
        if enabled {
          ok := Send(w);
          if ok {
            window.Append(pts);
            lastPts, log := pts, log + [Audio(pts)];
          }
        }
      }
    }

    method SendPackets(w: World, sizes: seq<nat>, drained: bool, now: int) returns (verdict: Verdict)
      requires Valid()
      modifies this`asked, this`lastPts, this`log, window`count, window.entries
      ensures Valid() && (Value(), verdict) == Emit(w, old(Value()), sizes, drained, now)
    {
      ghost var expected := Emit(w, Value(), sizes, drained, now);
      var i := 0;
      while i < |sizes|
        invariant i <= |sizes| && Valid()
        invariant Emit(w, Value(), sizes[i..], drained, now) == expected
      {
        assert sizes[i..][1..] == sizes[i + 1..];
        var ok := SendPacket(w, sizes[i], now);
        if !ok {
          return ReturnFalse;
        }
        i := i + 1;
      }
      return if drained then Continue else ReturnFalse;
    }

    /** Encodes the block that was taken out of the buffer, once the configuration is out. */
    method EncodeFrame(w: World, ghost block: seq<Tagged>, now: int) returns (verdict: Verdict)
      requires Valid()
      modifies this`asked, this`samplePts, this`lastPts, this`fates, this`log, window`count, window.entries
      ensures Valid() && (Value(), verdict) == Submit(w, old(Value()), block, now)
    {
      var enabled := Enabled(w);
      if !enabled {
        fates := fates + [Gone(Disabled, block)];
        return ReturnTrue;
      }
      var writable := w.writable(asked.writable);
      asked := asked.(writable := asked.writable + 1);
      if !writable {
        fates := fates + [Gone(Failed, block)];
        return ReturnFalse;
      }
      verdict := EncodeSamples(w, block, now);
    }

    method EncodeSamples(w: World, ghost block: seq<Tagged>, now: int) returns (verdict: Verdict)
      requires Valid()
      modifies this`asked, this`samplePts, this`lastPts, this`fates, this`log, window`count, window.entries
      ensures Valid() && (Value(), verdict) == Encode(w, old(Value()), block, now)
    {
      ghost var before, pts := Value(), samplePts;
      samplePts := samplePts + FRAMES;
      var r := w.encode(asked.encode);
      asked := asked.(encode := asked.encode + 1);
      if r.Refused? {
        fates := fates + [Gone(Failed, block)];
        return ReturnFalse;
      }
      fates := fates + [Encoded(block, pts, now)];
      assert Value() == AskEncode(before).(fates := before.fates + [Encoded(block, before.samplePts, now)]);
      verdict := SendPackets(w, r.sizes, r.drained, now);
    }

    /** Empties a full buffer and applies the latest acknowledgement. */
    method TakeBlock(w: World)
      requires Valid()
      modifies this`filled, this`tags, this`asked, this`log, window`count, window.entries
      ensures Valid() && filled == 0 && Value() == TakeAck(w, old(Value()))
    {
      filled, tags := 0, [];
      var ack := w.acked(asked.acked);
      asked := asked.(acked := asked.acked + 1);
      if ack <= lastPts {
        var _ := window.Consume(ack);
        log := log + [Acked(ack)];
      }
    }

    method Configure(w: World) returns (ok: bool)
      requires Valid()
      modifies this`asked, this`configured, this`log
      ensures Valid() && (Value(), ok) == SendConfig(w, old(Value()))
    {
      ok := true;
      if !configured {
        ok := Send(w);
        if ok {
          configured, log := true, log + [Config];
        }
      }
    }

    /** Deals with a full buffer. */
    method FullBlock(w: World, now: int) returns (verdict: Verdict)
      requires Valid() && filled == FRAMES
      modifies this, window`count, window.entries
      ensures Valid() && filled == 0 && (Value(), verdict) == EncodeBlock(w, old(Value()), now)
    {
      ghost var block := tags;
      TakeBlock(w);
      if window.count == WINDOW {
        fates := fates + [Gone(WindowFull, block)];
        return Continue;
      }
      var ok := Configure(w);
      if !ok {
        fates := fates + [Gone(Failed, block)];
        return ReturnFalse;
      }
      verdict := EncodeFrame(w, block, now);
    }

    /** One round of the copy loop: fills the buffer as far as the chunk goes, and deals with it when full. */
    method CopyRound(w: World, stereo: seq<Stereo>, offset: nat, ghost frames: seq<Tagged>, captured: int, now: int)
      returns (count: nat, verdict: Verdict)
      requires Valid() && filled < FRAMES && offset < |stereo| && |frames| == |stereo| - offset
      requires forall i :: 0 <= i < |frames| ==> frames[i].frame == stereo[offset + i]
      modifies this, pcm, window`count, window.entries
      ensures Valid() && filled < FRAMES && count == Min(FRAMES - old(filled), |frames|)
      ensures var t := Append(old(Value()), frames[..count], captured);
              (Value(), verdict) == if |t.partial| != FRAMES then (t, Continue) else EncodeBlock(w, t, now)
    {
      count := if FRAMES - filled > |stereo| - offset then |stereo| - offset else FRAMES - filled;
      Copy(stereo, offset, count, frames[..count], captured);
      verdict := Continue;
      if filled == FRAMES {
        verdict := FullBlock(w, now);
      }
    }

    /** One turn of the copy loop, whose guard asks whether audio is still enabled. */
    method LoopTurn(w: World, stereo: seq<Stereo>, offset: nat, ghost rest: seq<Tagged>, captured: int, now: int)
      returns (count: nat, ended: bool, ok: bool)
      requires Valid() && filled < FRAMES && offset < |stereo| && |rest| == |stereo| - offset
      requires forall i :: 0 <= i < |rest| ==> rest[i].frame == stereo[offset + i]
      modifies this, pcm, window`count, window.entries
      ensures Valid() && filled < FRAMES && count <= |rest|
      ensures ended ==> (Value(), ok) == Feed(w, old(Value()), rest, captured, now)
      ensures !ended ==> count > 0 && Feed(w, Value(), rest[count..], captured, now) == Feed(w, old(Value()), rest, captured, now)
    {
      ghost var before := Value();
      var enabled := Enabled(w);
      if !enabled {
        fates := fates + [Gone(Disabled, rest)];
        return 0, true, true;
      }
      var verdict;
      count, verdict := CopyRound(w, stereo, offset, rest, captured, now);
      assert (Value(), verdict) == Round(w, before, rest, captured, now) && count == RoundCount(before, rest);
      if verdict.ReturnTrue? {
        fates := fates + [Gone(Disabled, rest[count..])];
        return count, true, true;
      }
      if verdict.ReturnFalse? {
        fates := fates + [Gone(Failed, rest[count..])];
        return count, true, false;
      }
      ended, ok := false, true;
    }

    /** The copy loop, from `start` on. */
    method CopyLoop(w: World, stereo: seq<Stereo>, start: nat, ghost frames: seq<Tagged>, captured: int, now: int)
      returns (ok: bool)
      requires Valid() && filled < FRAMES && start <= |stereo| && |frames| == |stereo| - start
      requires forall i :: 0 <= i < |frames| ==> frames[i].frame == stereo[start + i]
      modifies this, pcm, window`count, window.entries
      ensures Valid() && filled < FRAMES && (Value(), ok) == Feed(w, old(Value()), frames, captured, now)
    {
      ghost var expected := Feed(w, Value(), frames, captured, now);
      ghost var rest := frames;
      var offset := start;
      while offset < |stereo|
        invariant start <= offset <= |stereo| && rest == frames[offset - start..]
        invariant Valid() && filled < FRAMES
        invariant Feed(w, Value(), rest, captured, now) == expected
      {
        var count, ended, result := LoopTurn(w, stereo, offset, rest, captured, now);
        if ended {
          return result;
        }
        assert frames[offset - start + count..] == rest[count..];
        offset, rest := offset + count, rest[count..];
      }
      ok := true;
    }

    /** Drops what the new chunk makes obsolete; the chunk counts from `start`. */
    method TrimChunk(count: nat, now: int, ghost frames: seq<Tagged>) returns (start: nat)
      requires Valid() && count == |frames|
      modifies this`filled, this`tags, this`fates
      ensures Valid() && filled <= old(filled) && start <= count
      ensures (Value(), frames[start..]) == TrimLong(TrimOld(old(Value()), now), frames)
    {
      if filled != 0 && now - partialUs > MAX_AGE_US {
        Reset(Stale);
      }
      start := 0;
      var keep := FRAMES * WINDOW;
      if count > keep {
        start := count - keep;
        Reset(Oversized);
        fates := fates + [Gone(Oversized, frames[..start])];
      }
    }

    /** A push of `count` frames. */
    method PushChunk(w: World, chunk: Option<seq<Stereo>>, count: nat, captured: int, now: int) returns (ok: bool)
      requires Valid() && filled < FRAMES
      requires chunk.Some? ==> |chunk.value| == count
      modifies this, pcm, window`count, window.entries
      ensures Valid() && filled < FRAMES
      ensures (Value(), ok) == Push(w, old(Value()), chunk, count, captured, now)
    {
      ghost var frames := Tag(chunk.GetOr(Unknown(count)), offered, captured);
      if (chunk.None? && count > 0) || count > MAX_CHUNK {
        RefuseFrames(if chunk.None? then Missing else TooLong, frames);
        return false;
      }
      var enabled := OfferFrames(w, count);
      ok := PushStereo(w, enabled, chunk.GetOr([]), frames, captured, now);
    }

    method OfferFrames(w: World, ghost count: nat) returns (enabled: bool)
      requires Valid()
      modifies this`asked, this`offered
      ensures Valid() && Value() == Offer(old(Value()), count) && enabled == w.enabled(old(asked).enabled)
    {
      enabled := Enabled(w);
      offered := offered + count;
    }

    ghost method RefuseFrames(cause: Cause, frames: seq<Tagged>)
      requires Valid()
      modifies this`offered, this`fates
      ensures Valid() && Value() == Refuse(old(Value()), cause, frames)
    {
      offered, fates := offered + |frames|, fates + [Gone(cause, frames)];
    }

    method PushStereo(w: World, enabled: bool, stereo: seq<Stereo>, ghost frames: seq<Tagged>, captured: int, now: int)
      returns (ok: bool)
      requires Valid() && filled < FRAMES && |frames| == |stereo|
      requires forall i :: 0 <= i < |frames| ==> frames[i].frame == stereo[i]
      modifies this, pcm, window`count, window.entries
      ensures Valid() && filled < FRAMES
      ensures (Value(), ok) == PushOffered(w, old(Value()), enabled, frames, captured, now)
    {
      if !enabled || captured > now || now - captured > MAX_AGE_US {
        Reset(Stale);
        fates := fates + [Gone(Stale, frames)];
        return true;
      }
      ok := KeepChunk(w, stereo, frames, captured, now);
    }

    method KeepChunk(w: World, stereo: seq<Stereo>, ghost frames: seq<Tagged>, captured: int, now: int) returns (ok: bool)
      requires Valid() && filled < FRAMES && |frames| == |stereo|
      requires forall i :: 0 <= i < |frames| ==> frames[i].frame == stereo[i]
      modifies this, pcm, window`count, window.entries
      ensures Valid() && filled < FRAMES
      ensures (Value(), ok) == PushFresh(w, old(Value()), frames, captured, now)
    {
      var start := TrimChunk(|stereo|, now, frames);
      ok := CopyLoop(w, stereo, start, frames[start..], captured, now);
    }
  }
}
