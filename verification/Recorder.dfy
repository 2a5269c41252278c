/**
 The recorder's merge loop (app/src/recorder.c): two producer threads queue packets, one
 recorder thread takes them, finds a common origin for the timestamps, holds each video
 packet until the next one gives its duration, repairs timestamps and drains after a stop.

 The producers, the stop request and the recorder thread interleave as steps: one step for
 each section under the mutex and one for the processing outside it.  `AV_NOPTS_VALUE` is
 modelled by `None`.  The time bases of the muxer and the outcome of its writes belong to
 the environment.
 */
module Recorder {
  import opened Common

  const LAST_DURATION := 100_000

  /** A packet; without a pts it is a config packet. */
  datatype Packet = Packet(payload: int, pts: Option<int>)

  /** The previous video packet, its pts counted from the origin, waiting for its duration. */
  datatype Held = Held(source: Packet, pts: int)

  /** What was given to the muxer.  The duration is in microseconds, as it was set. */
  datatype Written = Written(source: Packet, pts: int, dts: int, duration: Option<int>)

  /** Rescaling to each stream's time base, and the outcome of each write. */
  datatype World = World(videoScale: int -> int, audioScale: int -> int, writeOk: nat -> bool, trailerOk: bool)

  datatype Phase = Waiting | Holding | Finishing | Done(success: bool)

  /** One output stream: the last pts given to the muxer, and everything written. */
  datatype Stream = Stream(lastPts: Option<int>, out: seq<Written>)

  /** What the recorder holds of the video: queued, taken, waiting for its duration, written. */
  datatype VideoSide = VideoSide(
    queue: seq<Packet>,
    pkt: Option<Packet>,
    previous: Option<Held>,
    stream: Stream,
    accepted: seq<Packet>)       // everything queued since the header was written

  datatype AudioSide = AudioSide(
    queue: seq<Packet>,
    pkt: Option<Packet>,
    stream: Stream,
    accepted: seq<Packet>)

  datatype State = State(
    video: bool,
    audio: bool,
    stopped: bool,
    phase: Phase,
    v: VideoSide,
    a: AudioSide,
    origin: Option<int>,
    writes: nat,
    lastLost: bool)              // the write of the very last video packet failed

  /** Right after the header: what was queued meanwhile is still there. */
  function Initial(video: bool, audio: bool, videoQueue: seq<Packet>, audioQueue: seq<Packet>): State {
    State(video, audio, false, Waiting,
          VideoSide(videoQueue, None, None, Stream(None, []), videoQueue),
          AudioSide(audioQueue, None, Stream(None, []), audioQueue),
          None, 0, false)
  }

  // ----- One side

  function PushVideo(v: VideoSide, p: Packet): VideoSide {
    v.(queue := v.queue + [p], accepted := v.accepted + [p])
  }

  function PushAudio(a: AudioSide, p: Packet): AudioSide {
    a.(queue := a.queue + [p], accepted := a.accepted + [p])
  }

  function TakeVideo(v: VideoSide): VideoSide {
    if v.pkt.None? && v.queue != [] then v.(pkt := Some(v.queue[0]), queue := v.queue[1..]) else v
  }

  function TakeAudio(a: AudioSide): AudioSide {
    if a.pkt.None? && a.queue != [] then a.(pkt := Some(a.queue[0]), queue := a.queue[1..]) else a
  }

  function WithoutConfig(pkt: Option<Packet>): (r: Option<Packet>)
    ensures r.Some? ==> r.value.pts.Some?
  {
    if pkt.Some? && pkt.value.pts.None? then None else pkt
  }

  function PtsOf(p: Packet): int { if p.pts.Some? then p.pts.value else 0 }

  /** The pts given to the muxer: moved just past the last one when it does not increase. */
  function Repair(lastPts: Option<int>, pts: int): int {
    if lastPts.Some? && pts <= lastPts.value then lastPts.value + 1 else pts
  }

  function Write(st: Stream, source: Packet, scaled: int, duration: Option<int>, ok: bool): Stream {
    var pts := Repair(st.lastPts, scaled);
    Stream(Some(pts), if ok then st.out + [Written(source, pts, pts, duration)] else st.out)
  }

  function WritePrevious(v: VideoSide, scale: int -> int, duration: int, ok: bool): VideoSide
    requires v.previous.Some?
  {
    v.(stream := Write(v.stream, v.previous.value.source, scale(v.previous.value.pts), Some(duration), ok), previous := None)
  }

  /** The taken packet becomes the held one. */
  function Hold(v: VideoSide, origin: int): VideoSide
    requires v.pkt.Some?
  {
    v.(previous := Some(Held(v.pkt.value, PtsOf(v.pkt.value) - origin)), pkt := None)
  }

  function WritePacket(a: AudioSide, scale: int -> int, origin: int, ok: bool): AudioSide
    requires a.pkt.Some?
  {
    var stream := Write(a.stream, a.pkt.value, scale(PtsOf(a.pkt.value) - origin), None, ok);
    a.(stream := stream, pkt := if ok then None else a.pkt)
  }

  // ----- The recorder thread

  /** The condition under which the thread leaves its wait. */
  predicate MayTake(s: State) {
    || s.stopped
    || (s.video && s.v.pkt.None? && s.v.queue != [])
    || (s.audio && s.a.pkt.None? && s.a.queue != [])
  }

  /** The section under the mutex. */
  function Take(s: State): State {
    var v, a := TakeVideo(s.v), TakeAudio(s.a);
    s.(v := v, a := a, phase := if s.stopped && v.pkt.None? && a.pkt.None? then Finishing else Holding)
  }

  datatype Origin = Known(us: int) | Later | NoVideo

  /** The origin to count from, once it can be told. */
  function ChooseOrigin(s: State): Origin {
    var v, a := s.v.pkt, s.a.pkt;
    if s.origin.Some? then Known(s.origin.value)
    else if !s.audio && v.Some? then Known(PtsOf(v.value))
    else if !s.video && a.Some? then Known(PtsOf(a.value))
    else if s.video && s.audio && v.Some? && a.Some? then Known(Min(PtsOf(v.value), PtsOf(a.value)))
    else if s.stopped then if v.Some? then Known(PtsOf(v.value)) else NoVideo
    else Later
  }

  function Fail(s: State): State { s.(phase := Done(false)) }

  function DropConfigs(s: State): State {
    s.(v := s.v.(pkt := WithoutConfig(s.v.pkt)), a := s.a.(pkt := WithoutConfig(s.a.pkt)))
  }

  /** Writes the held video packet, if any, and holds the taken one. */
  function ProcessVideo(w: World, s: State, origin: int): State {
    if s.v.pkt.None? then s
    else if s.v.previous.None? then s.(v := Hold(s.v, origin))
    else
      var duration := PtsOf(s.v.pkt.value) - origin - s.v.previous.value.pts;
      var ok := w.writeOk(s.writes);
      var t := s.(v := WritePrevious(s.v, w.videoScale, duration, ok), writes := s.writes + 1);
      if ok then t.(v := Hold(t.v, origin)) else Fail(t)
  }

  function ProcessAudio(w: World, s: State, origin: int): State {
    if s.a.pkt.None? then s
    else
      var ok := w.writeOk(s.writes);
      var t := s.(a := WritePacket(s.a, w.audioScale, origin, ok), writes := s.writes + 1);
      if ok then t else Fail(t)
  }

  function ProcessBoth(w: World, s: State, origin: int): State {
    var t := ProcessVideo(w, s, origin);
    if t.phase.Done? then t else ProcessAudio(w, t, origin)
  }

  /** The processing outside the mutex. */
  function Process(w: World, s: State): State {
    var t := DropConfigs(s).(phase := Waiting);
    match ChooseOrigin(t)
    case Later => t
    case NoVideo => Fail(t)
    case Known(origin) => ProcessBoth(w, t.(origin := Some(origin)), origin)
  }

  /** After the loop: the last video packet and the trailer. */
  function Finish(w: World, s: State): State {
    var done := Done(w.trailerOk);
    if s.v.previous.None? then s.(phase := done)
    else
      var ok := w.writeOk(s.writes);
      s.(v := WritePrevious(s.v, w.videoScale, LAST_DURATION, ok), writes := s.writes + 1, lastLost := !ok, phase := done)
  }

  function Record(w: World, s: State): State {
    match s.phase
    case Waiting => if MayTake(s) then Take(s) else s
    case Holding => Process(w, s)
    case Finishing => Finish(w, s)
    case Done(_) => s
  }

  datatype Step = VideoStep(p: Packet) | AudioStep(p: Packet) | StopStep | RecordStep

  /** Producers push only on the streams that are recorded. */
  predicate Allowed(s: State, step: Step) {
    match step
    case VideoStep(_) => s.video
    case AudioStep(_) => s.audio
    case _ => true
  }

  function Next(w: World, s: State, step: Step): State {
    match step
    case VideoStep(p) => if s.stopped then s else s.(v := PushVideo(s.v, p))
    case AudioStep(p) => if s.stopped then s else s.(a := PushAudio(s.a, p))
    case StopStep => s.(stopped := true)
    case RecordStep => Record(w, s)
  }

  predicate IsRun(w: World, s: State, steps: seq<Step>)
    decreases |steps|
  {
    steps == [] || (Allowed(s, steps[0]) && IsRun(w, Next(w, s, steps[0]), steps[1..]))
  }

  function After(w: World, s: State, steps: seq<Step>): State
    decreases |steps|
  {
    if steps == [] then s else After(w, Next(w, s, steps[0]), steps[1..])
  }

  // ----- What was accepted, and where it is

  /** The packets with a pts. */
  function Timed(ps: seq<Packet>): seq<Packet> {
    if ps == [] then [] else (if ps[0].pts.Some? then [ps[0]] else []) + Timed(ps[1..])
  }

  function TimedPkt(pkt: Option<Packet>): seq<Packet> {
    if pkt.Some? && pkt.value.pts.Some? then [pkt.value] else []
  }

  function Sources(out: seq<Written>): seq<Packet> {
    if out == [] then [] else Sources(out[..|out| - 1]) + [out[|out| - 1].source]
  }

  function HeldPkt(held: Option<Held>): seq<Packet> { if held.Some? then [held.value.source] else [] }

  lemma {:induction false} TimedAppend(a: seq<Packet>, b: seq<Packet>)
    ensures Timed(a + b) == Timed(a) + Timed(b)
  {
    if a == [] {
      assert a + b == b;
    } else {
      assert (a + b)[1..] == a[1..] + b;
      TimedAppend(a[1..], b);
      Assoc(if a[0].pts.Some? then [a[0]] else [], Timed(a[1..]), Timed(b));
    }
  }

  lemma SourcesAppend(out: seq<Written>, o: Written)
    ensures Sources(out + [o]) == Sources(out) + [o.source]
  {
    assert (out + [o])[..|out + [o]| - 1] == out;
  }

  /** Accepted = written, held, taken and queued, in this order. */
  ghost predicate InOrder(accepted: seq<Packet>, written: seq<Packet>, held: seq<Packet>, taken: seq<Packet>, queued: seq<Packet>) {
    Timed(accepted) == written + (held + (taken + Timed(queued)))
  }

  ghost predicate VideoOrder(v: VideoSide) {
    InOrder(v.accepted, Sources(v.stream.out), HeldPkt(v.previous), TimedPkt(v.pkt), v.queue)
  }

  ghost predicate AudioOrder(a: AudioSide) {
    InOrder(a.accepted, Sources(a.stream.out), [], TimedPkt(a.pkt), a.queue)
  }

  lemma PushInOrder(accepted: seq<Packet>, written: seq<Packet>, held: seq<Packet>, taken: seq<Packet>, queued: seq<Packet>, p: Packet)
    requires InOrder(accepted, written, held, taken, queued)
    ensures InOrder(accepted + [p], written, held, taken, queued + [p])
  {
    TimedAppend(accepted, [p]);
    TimedAppend(queued, [p]);
  }

  lemma TakeInOrder(accepted: seq<Packet>, written: seq<Packet>, held: seq<Packet>, queued: seq<Packet>)
    requires InOrder(accepted, written, held, [], queued) && queued != []
    ensures InOrder(accepted, written, held, TimedPkt(Some(queued[0])), queued[1..])
  {
  }

  lemma ShiftInOrder(accepted: seq<Packet>, written: seq<Packet>, p: Packet, rest: seq<Packet>, queued: seq<Packet>)
    requires InOrder(accepted, written, [p], rest, queued)
    ensures InOrder(accepted, written + [p], rest, [], queued) && InOrder(accepted, written + [p], [], rest, queued)
  {
    Assoc(written, [p], rest + Timed(queued));
    NothingAdded(Timed(queued));
    NothingAdded(rest + Timed(queued));
  }

  /** A packet taken with nothing held before it may as well be the held one. */
  lemma TakenIsHeld(accepted: seq<Packet>, written: seq<Packet>, p: Packet, queued: seq<Packet>)
    requires InOrder(accepted, written, [], [p], queued)
    ensures InOrder(accepted, written, [p], [], queued)
  {
    NothingAdded([p] + Timed(queued));
    NothingAdded(Timed(queued));
  }

  // ----- The muxer's view of one stream

  /** Strictly increasing timestamps, dts equal to pts, and the last pts remembered or passed. */
  ghost predicate StreamInv(st: Stream) {
    && (forall i, j :: 0 <= i < j < |st.out| ==> st.out[i].pts < st.out[j].pts)
    && (forall i :: 0 <= i < |st.out| ==> st.out[i].dts == st.out[i].pts)
    && (st.out != [] ==> st.lastPts.Some? && st.out[|st.out| - 1].pts <= st.lastPts.value)
  }

  /** A write appends one packet, or nothing when it fails. */
  lemma WriteAppends(st: Stream, source: Packet, scaled: int, duration: Option<int>, ok: bool)
    ensures var pts := Repair(st.lastPts, scaled);
            Write(st, source, scaled, duration, ok).out
            == if ok then st.out + [Written(source, pts, pts, duration)] else st.out
    ensures Sources(Write(st, source, scaled, duration, ok).out)
            == if ok then Sources(st.out) + [source] else Sources(st.out)
  {
    var pts := Repair(st.lastPts, scaled);
    SourcesAppend(st.out, Written(source, pts, pts, duration));
  }

  lemma WriteKeepsStream(st: Stream, source: Packet, scaled: int, duration: Option<int>, ok: bool)
    requires StreamInv(st)
    ensures StreamInv(Write(st, source, scaled, duration, ok))
  {
    var pts := Repair(st.lastPts, scaled);
    assert st.out != [] ==> pts > st.out[|st.out| - 1].pts;
  }

  /** Each written video packet lasts until the next one. */
  ghost predicate Adjacent(out: seq<Written>) {
    forall i, j :: 0 <= i < j < |out| && j == i + 1 ==>
      out[i].duration == Some(PtsOf(out[j].source) - PtsOf(out[i].source))
  }

  predicate LastsUntil(out: seq<Written>, next: Packet) {
    out != [] ==> out[|out| - 1].duration == Some(PtsOf(next) - PtsOf(out[|out| - 1].source))
  }

  lemma AdjacentAppend(out: seq<Written>, o: Written)
    requires Adjacent(out) && LastsUntil(out, o.source)
    ensures Adjacent(out + [o])
  {
  }

  ghost predicate VideoInv(v: VideoSide, origin: Option<int>) {
    && StreamInv(v.stream)
    && VideoOrder(v)
    && Adjacent(v.stream.out)
    && (v.previous.None? ==> v.stream.out == [])
    && (v.previous.Some? ==>
          && v.previous.value.source.pts.Some?
          && origin == Some(PtsOf(v.previous.value.source) - v.previous.value.pts)
          && LastsUntil(v.stream.out, v.previous.value.source))
  }

  ghost predicate AudioInv(a: AudioSide) { StreamInv(a.stream) && AudioOrder(a) }

  /** The asserted facts about disabled streams and about what each phase holds. */
  ghost predicate LoopInv(s: State) {
    && (!s.video ==> s.v.pkt.None? && s.v.queue == [])
    && (!s.audio ==> s.a.pkt.None? && s.a.queue == [])
    && (s.phase.Holding? ==> s.v.pkt.Some? || s.a.pkt.Some?)
    && (s.phase.Finishing? ==>
          s.stopped && s.v.pkt.None? && s.a.pkt.None? && s.v.queue == [] && s.a.queue == [])
    && !s.lastLost
  }

  ghost predicate Inv(s: State) { LoopInv(s) && VideoInv(s.v, s.origin) && AudioInv(s.a) }

  // ----- What is known once the loop has ended

  ghost predicate VideoComplete(v: VideoSide) {
    && Sources(v.stream.out) == Timed(v.accepted)
    && Adjacent(v.stream.out)
    && (v.stream.out != [] ==> v.stream.out[|v.stream.out| - 1].duration == Some(LAST_DURATION))
  }

  ghost predicate VideoButLast(v: VideoSide) {
    Timed(v.accepted) != [] && Sources(v.stream.out) == Timed(v.accepted)[..|Timed(v.accepted)| - 1]
  }

  /** Of a failed recording: what was written is a beginning of what was accepted. */
  ghost predicate Begun(s: State) {
    && StreamInv(s.v.stream) && StreamInv(s.a.stream)
    && Sources(s.v.stream.out) <= Timed(s.v.accepted)
    && Sources(s.a.stream.out) <= Timed(s.a.accepted)
  }

  /** Of a recording that went through: everything accepted was written, save a last packet whose write failed. */
  ghost predicate Complete(s: State) {
    && s.stopped
    && Sources(s.a.stream.out) == Timed(s.a.accepted)
    && (if s.lastLost then VideoButLast(s.v) else VideoComplete(s.v))
  }

  ghost predicate Good(s: State) {
    if s.phase.Done? then Begun(s) && (s.phase.success ==> Complete(s)) else Inv(s)
  }

  // ----- Every step keeps it

  lemma TakeKeepsInv(s: State)
    requires Inv(s) && s.phase.Waiting? && MayTake(s)
    ensures Inv(Take(s))
  {
    if s.v.pkt.None? && s.v.queue != [] {
      TakeInOrder(s.v.accepted, Sources(s.v.stream.out), HeldPkt(s.v.previous), s.v.queue);
    }
    if s.a.pkt.None? && s.a.queue != [] {
      TakeInOrder(s.a.accepted, Sources(s.a.stream.out), [], s.a.queue);
    }
  }

  lemma InvBegun(s: State, t: State)
    requires VideoInv(s.v, s.origin) && AudioInv(s.a)
    requires StreamInv(t.v.stream) && StreamInv(t.a.stream)
    requires t.v.stream.out == s.v.stream.out && t.a.stream.out == s.a.stream.out
    requires t.v.accepted == s.v.accepted && t.a.accepted == s.a.accepted
    ensures Begun(t)
  {
  }

  /** Holding a timed packet behind a stream that lasts until it. */
  lemma HoldGivesVideo(t: VideoSide, p: Packet, origin: int)
    requires StreamInv(t.stream) && Adjacent(t.stream.out) && LastsUntil(t.stream.out, p)
    requires t.pkt == Some(p) && p.pts.Some?
    requires InOrder(t.accepted, Sources(t.stream.out), [], [p], t.queue)
    ensures VideoInv(Hold(t, origin), Some(origin))
  {
    TakenIsHeld(t.accepted, Sources(t.stream.out), p, t.queue);
  }

  lemma HoldKeepsVideo(v: VideoSide, origin: int)
    requires VideoInv(v, Some(origin)) && v.previous.None? && v.pkt.Some? && v.pkt.value.pts.Some?
    ensures VideoInv(Hold(v, origin), Some(origin))
  {
    HoldGivesVideo(v, v.pkt.value, origin);
  }

  lemma PreviousWritten(v: VideoSide, scale: int -> int, duration: int, ok: bool, origin: Option<int>)
    requires VideoInv(v, origin) && v.previous.Some?
    ensures var t := WritePrevious(v, scale, duration, ok);
            && StreamInv(t.stream) && Adjacent(t.stream.out)
            && Sources(t.stream.out) == (if ok then Sources(v.stream.out) + HeldPkt(v.previous) else Sources(v.stream.out))
            && (ok ==> t.stream.out != [] && t.stream.out[|t.stream.out| - 1].duration == Some(duration)
                       && t.stream.out[|t.stream.out| - 1].source == v.previous.value.source)
            && (!ok ==> t.stream.out == v.stream.out)
  {
    var prev := v.previous.value;
    var scaled := scale(prev.pts);
    WriteAppends(v.stream, prev.source, scaled, Some(duration), ok);
    WriteKeepsStream(v.stream, prev.source, scaled, Some(duration), ok);
    if ok {
      AdjacentAppend(v.stream.out, Written(prev.source, Repair(v.stream.lastPts, scaled), Repair(v.stream.lastPts, scaled), Some(duration)));
    }
  }

  /** With the distance to the next packet as its duration, a written packet lasts until that one. */
  lemma LastsAfterWrite(out: seq<Written>, prev: Packet, next: Packet, duration: int)
    requires out != [] && out[|out| - 1].source == prev && out[|out| - 1].duration == Some(duration)
    requires duration == PtsOf(next) - PtsOf(prev)
    ensures LastsUntil(out, next)
  {
  }

  /** The held packet is written once its successor tells its duration. */
  lemma WriteAndHoldKeepsVideo(v: VideoSide, scale: int -> int, origin: int, t: VideoSide)
    requires VideoInv(v, Some(origin)) && v.previous.Some? && v.pkt.Some? && v.pkt.value.pts.Some?
    requires t == WritePrevious(v, scale, PtsOf(v.pkt.value) - origin - v.previous.value.pts, true)
    ensures VideoInv(Hold(t, origin), Some(origin))
  {
    var prev, p := v.previous.value, v.pkt.value;
    var duration := PtsOf(p) - origin - prev.pts;
    PreviousWritten(v, scale, duration, true, Some(origin));
    LastsAfterWrite(t.stream.out, prev.source, p, duration);
    ShiftInOrder(v.accepted, Sources(v.stream.out), prev.source, [p], v.queue);
    HoldGivesVideo(t, p, origin);
  }

  lemma VideoWriteFails(w: World, s: State, origin: int)
    requires Inv(s) && s.phase.Waiting? && s.origin == Some(origin)
    requires s.v.pkt.Some? && s.v.previous.Some? && !w.writeOk(s.writes)
    ensures var t := ProcessVideo(w, s, origin);
            Good(t) && t.a == s.a && t.origin == s.origin && t.phase == Done(false)
  {
    PreviousWritten(s.v, w.videoScale, PtsOf(s.v.pkt.value) - origin - s.v.previous.value.pts, false, s.origin);
    InvBegun(s, ProcessVideo(w, s, origin));
  }

  lemma VideoMovesOn(w: World, s: State, origin: int)
    requires VideoInv(s.v, s.origin) && s.phase.Waiting? && s.origin == Some(origin)
    requires s.v.pkt.Some? && s.v.pkt.value.pts.Some? && (s.v.previous.Some? ==> w.writeOk(s.writes))
    ensures var t := ProcessVideo(w, s, origin);
            && VideoInv(t.v, t.origin) && t.v.queue == s.v.queue && t.v.pkt.None?
            && t.a == s.a && t.origin == s.origin && t.phase.Waiting? && t.stopped == s.stopped
            && t.video == s.video && t.audio == s.audio && t.lastLost == s.lastLost
  {
    if s.v.previous.None? {
      HoldKeepsVideo(s.v, origin);
    } else {
      var duration := PtsOf(s.v.pkt.value) - origin - s.v.previous.value.pts;
      WriteAndHoldKeepsVideo(s.v, w.videoScale, origin, WritePrevious(s.v, w.videoScale, duration, true));
    }
  }

  lemma ProcessVideoKeepsGood(w: World, s: State, origin: int)
    requires Inv(s) && s.phase.Waiting? && s.origin == Some(origin)
    requires s.v.pkt.Some? ==> s.v.pkt.value.pts.Some?
    ensures var t := ProcessVideo(w, s, origin);
            Good(t) && t.a == s.a && t.origin == s.origin && (t.phase.Waiting? || t.phase == Done(false))
  {
    if s.v.pkt.Some? {
      if s.v.previous.Some? && !w.writeOk(s.writes) {
        VideoWriteFails(w, s, origin);
      } else {
        VideoMovesOn(w, s, origin);
      }
    }
  }

  /** A packet written leaves the hand and stays in order. */
  lemma WrittenInOrder(accepted: seq<Packet>, written: seq<Packet>, p: Packet, queued: seq<Packet>)
    requires InOrder(accepted, written, [], [p], queued)
    ensures InOrder(accepted, written + [p], [], [], queued)
  {
    TakenIsHeld(accepted, written, p, queued);
    ShiftInOrder(accepted, written, p, [], queued);
  }

  lemma WritePacketKeepsAudio(a: AudioSide, scale: int -> int, origin: int, ok: bool)
    requires AudioInv(a) && a.pkt.Some? && a.pkt.value.pts.Some?
    ensures var t := WritePacket(a, scale, origin, ok);
            StreamInv(t.stream) && (if ok then AudioInv(t) else t.stream.out == a.stream.out)
  {
    var p := a.pkt.value;
    WriteAppends(a.stream, p, scale(PtsOf(p) - origin), None, ok);
    WriteKeepsStream(a.stream, p, scale(PtsOf(p) - origin), None, ok);
    WrittenInOrder(a.accepted, Sources(a.stream.out), p, a.queue);
  }

  lemma ProcessAudioKeepsGood(w: World, s: State, origin: int)
    requires Inv(s) && s.phase.Waiting? && s.origin == Some(origin)
    requires s.a.pkt.Some? ==> s.a.pkt.value.pts.Some?
    ensures Good(ProcessAudio(w, s, origin))
  {
    if s.a.pkt.Some? {
      WritePacketKeepsAudio(s.a, w.audioScale, origin, w.writeOk(s.writes));
      if !w.writeOk(s.writes) {
        InvBegun(s, ProcessAudio(w, s, origin));
      }
    }
  }

  lemma ProcessBothKeepsGood(w: World, s: State, origin: int)
    requires Inv(s) && s.phase.Waiting? && s.origin == Some(origin)
    requires s.v.pkt.Some? ==> s.v.pkt.value.pts.Some?
    requires s.a.pkt.Some? ==> s.a.pkt.value.pts.Some?
    ensures Good(ProcessBoth(w, s, origin))
  {
    ProcessVideoKeepsGood(w, s, origin);
    var t := ProcessVideo(w, s, origin);
    if t.phase.Waiting? {
      ProcessAudioKeepsGood(w, t, origin);
    }
  }

  lemma ProcessKeepsGood(w: World, s: State)
    requires Inv(s) && s.phase.Holding?
    ensures Good(Process(w, s))
  {
    var t := DropConfigs(s).(phase := Waiting);
    assert VideoOrder(t.v) && AudioOrder(t.a);
    match ChooseOrigin(t)
    case Later =>
    case NoVideo => InvBegun(t, Fail(t));
    case Known(origin) =>
      var u := t.(origin := Some(origin));
      assert Inv(u);
      ProcessBothKeepsGood(w, u, origin);
  }

  lemma NothingLeft(accepted: seq<Packet>, written: seq<Packet>, held: seq<Packet>)
    requires InOrder(accepted, written, held, [], [])
    ensures Timed(accepted) == written + held
  {
    assert held + ([] + Timed([])) == held;
  }

  /** The write of the last packet completes the video, or loses that packet only. */
  lemma {:induction false} LastWriteCompletes(v: VideoSide, scale: int -> int, ok: bool, origin: Option<int>)
    requires VideoInv(v, origin) && v.previous.Some? && v.pkt.None? && v.queue == []
    ensures var t := WritePrevious(v, scale, LAST_DURATION, ok);
            && StreamInv(t.stream) && Sources(t.stream.out) <= Timed(t.accepted)
            && if ok then VideoComplete(t) else VideoButLast(t)
  {
    NothingLeft(v.accepted, Sources(v.stream.out), HeldPkt(v.previous));
    PreviousWritten(v, scale, LAST_DURATION, ok, origin);
  }

  lemma FinishKeepsGood(w: World, s: State)
    requires Inv(s) && s.phase.Finishing?
    ensures Good(Finish(w, s))
  {
    NothingLeft(s.a.accepted, Sources(s.a.stream.out), []);
    assert Sources(s.a.stream.out) + [] == Sources(s.a.stream.out);
    if s.v.previous.Some? {
      LastWriteCompletes(s.v, w.videoScale, w.writeOk(s.writes), s.origin);
    } else {
      NothingLeft(s.v.accepted, Sources(s.v.stream.out), []);
      assert Sources(s.v.stream.out) + [] == Sources(s.v.stream.out);
    }
  }

  lemma PushVideoKeepsGood(s: State, p: Packet)
    requires Good(s) && s.video && !s.stopped
    ensures Good(s.(v := PushVideo(s.v, p)))
  {
    if s.phase.Done? {
      TimedAppend(s.v.accepted, [p]);
    } else {
      PushInOrder(s.v.accepted, Sources(s.v.stream.out), HeldPkt(s.v.previous), TimedPkt(s.v.pkt), s.v.queue, p);
    }
  }

  lemma PushAudioKeepsGood(s: State, p: Packet)
    requires Good(s) && s.audio && !s.stopped
    ensures Good(s.(a := PushAudio(s.a, p)))
  {
    if s.phase.Done? {
      TimedAppend(s.a.accepted, [p]);
    } else {
      PushInOrder(s.a.accepted, Sources(s.a.stream.out), [], TimedPkt(s.a.pkt), s.a.queue, p);
    }
  }

  lemma RecordKeepsGood(w: World, s: State)
    requires Good(s)
    ensures Good(Record(w, s))
  {
    match s.phase
    case Waiting =>
      if MayTake(s) {
        TakeKeepsInv(s);
      }
    case Holding => ProcessKeepsGood(w, s);
    case Finishing => FinishKeepsGood(w, s);
    case Done(_) =>
  }

  lemma StepKeepsGood(w: World, s: State, step: Step)
    requires Good(s) && Allowed(s, step)
    ensures Good(Next(w, s, step))
  {
    match step
    case VideoStep(p) =>
      if !s.stopped {
        PushVideoKeepsGood(s, p);
      }
    case AudioStep(p) =>
      if !s.stopped {
        PushAudioKeepsGood(s, p);
      }
    case StopStep =>
    case RecordStep => RecordKeepsGood(w, s);
  }

  lemma {:induction false} RunKeepsGood(w: World, s: State, steps: seq<Step>)
    requires Good(s) && IsRun(w, s, steps)
    ensures Good(After(w, s, steps))
    decreases |steps|
  {
    if steps != [] {
      StepKeepsGood(w, s, steps[0]);
      RunKeepsGood(w, Next(w, s, steps[0]), steps[1..]);
    }
  }

  /** The recorder right after its header: a disabled stream has nothing queued. */
  predicate Starts(s: State) {
    && s == Initial(s.video, s.audio, s.v.queue, s.a.queue)
    && (s.video || s.v.queue == []) && (s.audio || s.a.queue == [])
  }

  lemma StartIsGood(s: State)
    requires Starts(s)
    ensures Good(s)
  {
    assert [] + ([] + ([] + Timed(s.v.queue))) == Timed(s.v.queue);
    assert [] + ([] + ([] + Timed(s.a.queue))) == Timed(s.a.queue);
  }

  // ----- The main results, for every schedule

  /** At any point, what was written of a stream is a beginning of what was accepted, in order and once. */
  lemma WrittenIsABeginning(w: World, s: State, steps: seq<Step>)
    requires Starts(s) && IsRun(w, s, steps)
    ensures var t := After(w, s, steps);
            && Sources(t.v.stream.out) <= Timed(t.v.accepted)
            && Sources(t.a.stream.out) <= Timed(t.a.accepted)
  {
    StartIsGood(s);
    RunKeepsGood(w, s, steps);
  }

  /** The assertions of the loop hold: a disabled stream has no packets, a round has one, and the end finds none. */
  lemma AssertionsHold(w: World, s: State, steps: seq<Step>)
    requires Starts(s) && IsRun(w, s, steps)
    ensures var t := After(w, s, steps);
            && (!t.phase.Done? && !t.video ==> t.v.pkt.None? && t.v.queue == [])
            && (!t.phase.Done? && !t.audio ==> t.a.pkt.None? && t.a.queue == [])
            && (t.phase.Holding? ==> t.v.pkt.Some? || t.a.pkt.Some?)
            && (t.phase.Finishing? ==> t.v.queue == [] && t.a.queue == [])
  {
    StartIsGood(s);
    RunKeepsGood(w, s, steps);
  }

  /** A recording that ends well holds every accepted packet, except a last video packet whose write failed. */
  lemma SuccessIsComplete(w: World, s: State, steps: seq<Step>)
    requires Starts(s) && IsRun(w, s, steps) && After(w, s, steps).phase == Done(true)
    ensures Complete(After(w, s, steps))
  {
    StartIsGood(s);
    RunKeepsGood(w, s, steps);
  }

  /** Whatever the input timestamps and the time bases, the muxer gets strictly increasing ones. */
  lemma MuxerTimestampsIncrease(w: World, s: State, steps: seq<Step>)
    requires Starts(s) && IsRun(w, s, steps)
    ensures var t := After(w, s, steps);
            && (forall i, j :: 0 <= i < j < |t.v.stream.out| ==> t.v.stream.out[i].pts < t.v.stream.out[j].pts)
            && (forall i, j :: 0 <= i < j < |t.a.stream.out| ==> t.a.stream.out[i].pts < t.a.stream.out[j].pts)
            && (forall i :: 0 <= i < |t.v.stream.out| ==> t.v.stream.out[i].dts == t.v.stream.out[i].pts)
            && (forall i :: 0 <= i < |t.a.stream.out| ==> t.a.stream.out[i].dts == t.a.stream.out[i].pts)
  {
    StartIsGood(s);
    RunKeepsGood(w, s, steps);
  }

  function TotalDuration(out: seq<Written>): int {
    if out == [] then 0
    else TotalDuration(out[..|out| - 1])
         + if out[|out| - 1].duration.Some? then out[|out| - 1].duration.value else 0
  }

  lemma {:induction false} AdjacentDurations(out: seq<Written>, n: nat)
    requires Adjacent(out) && n < |out|
    ensures TotalDuration(out[..n]) == PtsOf(out[n].source) - PtsOf(out[0].source)
  {
    if n > 0 {
      AdjacentDurations(out, n - 1);
      assert out[..n][..n - 1] == out[..n - 1];
      assert out[n - 1].duration == Some(PtsOf(out[n].source) - PtsOf(out[n - 1].source));
    }
  }

  /** The durations of a complete video add up to its span, plus the last packet's arbitrary duration. */
  lemma DurationsTelescope(w: World, s: State, steps: seq<Step>)
    requires Starts(s) && IsRun(w, s, steps)
    requires After(w, s, steps).phase == Done(true) && !After(w, s, steps).lastLost
    ensures var v := After(w, s, steps).v;
            var frames := Timed(v.accepted);
            frames != [] ==> TotalDuration(v.stream.out)
                             == PtsOf(frames[|frames| - 1]) - PtsOf(frames[0]) + LAST_DURATION
  {
    SuccessIsComplete(w, s, steps);
    var out := After(w, s, steps).v.stream.out;
    SourcesAt(out);
    if out != [] {
      AdjacentDurations(out, |out| - 1);
    }
  }

  lemma {:induction false} SourcesAt(out: seq<Written>)
    ensures |Sources(out)| == |out|
    ensures forall i :: 0 <= i < |out| ==> Sources(out)[i] == out[i].source
  {
    if out != [] {
      SourcesAt(out[..|out| - 1]);
    }
  }

  // ----- Draining after a stop

  function Load(queue: seq<Packet>, pkt: Option<Packet>): nat { |queue| + if pkt.Some? then 1 else 0 }

  /** Packets queued or taken, and how far the current round is. */
  function Measure(s: State): nat {
    var load := 3 * (Load(s.v.queue, s.v.pkt) + Load(s.a.queue, s.a.pkt));
    match s.phase
    case Waiting => load + 2
    case Holding => load + 1
    case Finishing => load + 1
    case Done(_) => 0
  }

  lemma ProcessBothLoad(w: World, s: State, origin: int)
    requires s.phase.Waiting?
    ensures var t := ProcessBoth(w, s, origin);
            && t.stopped == s.stopped && (t.phase.Waiting? || t.phase.Done?)
            && (t.phase.Waiting? ==> t.v.pkt.None? && t.a.pkt.None? && t.v.queue == s.v.queue && t.a.queue == s.a.queue)
  {
    var t := ProcessVideo(w, s, origin);
    assert t.a == s.a && t.stopped == s.stopped && t.v.queue == s.v.queue;
    assert t.phase.Waiting? ==> t.v.pkt.None?;
  }

  lemma ProcessConsumes(w: World, s: State)
    requires LoopInv(s) && s.phase.Holding? && s.stopped
    ensures Process(w, s).stopped && Measure(Process(w, s)) < Measure(s)
  {
    var t := DropConfigs(s).(phase := Waiting);
    var start := ChooseOrigin(t);
    if start.Known? {
      ProcessBothLoad(w, t.(origin := Some(start.us)), start.us);
    }
  }

  lemma DrainDecreases(w: World, s: State)
    requires LoopInv(s) && s.stopped && !s.phase.Done?
    ensures Record(w, s).stopped && Measure(Record(w, s)) < Measure(s)
  {
    match s.phase
    case Waiting =>
      var v, a := TakeVideo(s.v), TakeAudio(s.a);
      assert Load(v.queue, v.pkt) == Load(s.v.queue, s.v.pkt) && Load(a.queue, a.pkt) == Load(s.a.queue, s.a.pkt);
    case Holding => ProcessConsumes(w, s);
    case Finishing =>
  }

  function RecordSteps(steps: seq<Step>): nat {
    if steps == [] then 0 else (if steps[0].RecordStep? then 1 else 0) + RecordSteps(steps[1..])
  }

  /** Once stopped, the loop ends: as many turns of the recorder thread as the measure says are enough. */
  lemma {:induction false} StoppedLoopEnds(w: World, s: State, steps: seq<Step>)
    requires Good(s) && s.stopped && IsRun(w, s, steps) && RecordSteps(steps) >= Measure(s)
    ensures After(w, s, steps).phase.Done?
    decreases |steps|
  {
    if steps == [] {
      assert Measure(s) == 0;
    } else {
      var t := Next(w, s, steps[0]);
      StepKeepsGood(w, s, steps[0]);
      if steps[0].RecordStep? && !s.phase.Done? {
        DrainDecreases(w, s);
      } else {
        assert t == s;
      }
      StoppedLoopEnds(w, t, steps[1..]);
    }
  }

  // ----- When a recording fails

  /** The guard of the branch that gives up: stopped, no origin yet, and no packet at hand that could give it. */
  predicate StopsBlind(s: State) {
    && s.phase.Holding? && s.stopped && s.origin.None?
    && TimedPkt(s.v.pkt) == [] && (s.video || TimedPkt(s.a.pkt) == [])
  }

  predicate WritesVideo(s: State) { TimedPkt(s.v.pkt) != [] && s.v.previous.Some? }

  /** The origin is known, or becomes known, in this round, and one of the writes of the round fails. */
  predicate WriteFails(w: World, s: State) {
    && s.phase.Holding? && ChooseOrigin(DropConfigs(s)).Known?
    && ((WritesVideo(s) && !w.writeOk(s.writes))
        || (TimedPkt(s.a.pkt) != [] && !w.writeOk(s.writes + if WritesVideo(s) then 1 else 0)))
  }

  lemma BlindExactly(s: State)
    requires LoopInv(s) && s.phase.Holding?
    ensures ChooseOrigin(DropConfigs(s).(phase := Waiting)) == ChooseOrigin(DropConfigs(s))
    ensures ChooseOrigin(DropConfigs(s)).NoVideo? <==> StopsBlind(s)
  {
  }

  lemma WritesFailExactly(w: World, s: State, t: State, origin: int)
    requires s.phase.Holding? && t == DropConfigs(s).(phase := Waiting, origin := Some(origin))
    ensures ProcessBoth(w, t, origin).phase == Done(false) <==>
            || (WritesVideo(s) && !w.writeOk(s.writes))
            || (TimedPkt(s.a.pkt) != [] && !w.writeOk(s.writes + if WritesVideo(s) then 1 else 0))
  {
    var u := ProcessVideo(w, t, origin);
    assert u.phase.Done? <==> WritesVideo(s) && !w.writeOk(s.writes);
    assert !u.phase.Done? ==> u.a == t.a && u.writes == s.writes + if WritesVideo(s) then 1 else 0;
  }

  lemma ProcessFailsExactly(w: World, s: State)
    requires LoopInv(s) && s.phase.Holding?
    ensures Process(w, s).phase == Done(false) <==> WriteFails(w, s) || StopsBlind(s)
  {
    BlindExactly(s);
    var t := DropConfigs(s).(phase := Waiting);
    match ChooseOrigin(t)
    case Known(origin) => WritesFailExactly(w, s, t.(origin := Some(origin)), origin);
    case _ =>
  }

  /** A turn fails exactly by the trailer, by one of its own writes, or by giving up on a stop without an origin. */
  lemma FailsExactly(w: World, s: State)
    requires LoopInv(s) && !s.phase.Done?
    ensures Record(w, s).phase == Done(false) <==>
            (s.phase.Finishing? && !w.trailerOk) || WriteFails(w, s) || StopsBlind(s)
  {
    if s.phase.Holding? {
      ProcessFailsExactly(w, s);
    }
  }

  ghost predicate AllGood(w: World) { w.trailerOk && forall k :: w.writeOk(k) }

  /** Some turn of the run gives up. */
  predicate GivesUp(w: World, s: State, steps: seq<Step>)
    decreases |steps|
  {
    steps != [] && ((steps[0].RecordStep? && StopsBlind(s)) || GivesUp(w, Next(w, s, steps[0]), steps[1..]))
  }

  lemma DoneStays(w: World, s: State, step: Step)
    requires s.phase.Done?
    ensures Next(w, s, step).phase == s.phase
  {
  }

  /** With a muxer that never fails, a recording that has ended went well exactly when no turn gave up. */
  lemma {:induction false} EndsWellExactly(w: World, s: State, steps: seq<Step>)
    requires AllGood(w) && Good(s) && IsRun(w, s, steps) && s.phase != Done(false)
    requires After(w, s, steps).phase.Done?
    ensures After(w, s, steps).phase == Done(true) <==> !GivesUp(w, s, steps)
    decreases |steps|
  {
    if steps != [] {
      var step := steps[0];
      var t := Next(w, s, step);
      StepKeepsGood(w, s, step);
      if s.phase.Done? {
        DoneStays(w, s, step);
      } else if step.RecordStep? {
        FailsExactly(w, s);
      }
      if t.phase == Done(false) {
        FailedStays(w, t, steps[1..]);
      } else {
        EndsWellExactly(w, t, steps[1..]);
      }
    }
  }

  lemma {:induction false} FailedStays(w: World, s: State, steps: seq<Step>)
    requires s.phase == Done(false)
    ensures After(w, s, steps).phase == Done(false)
    decreases |steps|
  {
    if steps != [] {
      DoneStays(w, s, steps[0]);
      FailedStays(w, Next(w, s, steps[0]), steps[1..]);
    }
  }

  lemma {:induction false} AfterAppend(w: World, s: State, before: seq<Step>, more: seq<Step>)
    requires IsRun(w, s, before + more)
    ensures IsRun(w, s, before) && IsRun(w, After(w, s, before), more)
    ensures After(w, s, before + more) == After(w, After(w, s, before), more)
    decreases |before|
  {
    if before == [] {
      assert before + more == more;
    } else {
      assert (before + more)[1..] == before[1..] + more && (before + more)[0] == before[0];
      AfterAppend(w, Next(w, s, before[0]), before[1..], more);
    }
  }

  /**
   Every schedule with a stop and then enough turns, and a muxer that never fails: the recording
   ends, and it ends well if and only if no turn gave up.
   */
  lemma StoppedRunEndsWellExactly(w: World, s: State, before: seq<Step>, more: seq<Step>)
    requires AllGood(w) && Starts(s) && IsRun(w, s, before + more) && After(w, s, before).stopped
    requires RecordSteps(more) >= Measure(After(w, s, before))
    ensures var t := After(w, s, before + more);
            t.phase.Done? && (t.phase == Done(true) <==> !GivesUp(w, s, before + more))
  {
    StartIsGood(s);
    AfterAppend(w, s, before, more);
    RunKeepsGood(w, s, before);
    StoppedLoopEnds(w, After(w, s, before), more);
    EndsWellExactly(w, s, before + more);
  }

  /** Giving up loses exactly the video frames that wait in the queue: none was written before. */
  lemma GivingUpLosesTheQueue(w: World, s: State)
    requires Inv(s) && StopsBlind(s)
    ensures var t := Record(w, s);
            && t.phase == Done(false) && t.v.stream.out == []
            && Timed(t.v.accepted) == Timed(s.v.queue) == Timed(t.v.queue)
  {
    BlindExactly(s);
    assert s.v.previous.None? && s.v.stream.out == [];
    assert [] + ([] + ([] + Timed(s.v.queue))) == Timed(s.v.queue);
  }

  /**
   A schedule that gives up with a frame in the queue: the stop comes while only a config packet is
   at hand, and the frame waits behind it.
   */
  lemma StopBehindConfigLosesVideo(w: World)
    ensures var config, frame := Packet(0, None), Packet(1, Some(0));
            var t := After(w, Initial(true, false, [config, frame], []), [RecordStep, StopStep, RecordStep]);
            t.phase == Done(false) && t.v.queue == [frame] && t.v.stream.out == []
  {
    var config, frame := Packet(0, None), Packet(1, Some(0));
    var s := Initial(true, false, [config, frame], []);
    var steps := [RecordStep, StopStep, RecordStep];
    var s1 := Next(w, s, RecordStep);
    assert s1.phase.Holding? && s1.v.pkt == Some(config) && s1.v.queue == [frame];
    var s2 := Next(w, s1, StopStep);
    var s3 := Next(w, s2, RecordStep);
    assert After(w, s3, []) == s3;
    assert After(w, s2, [RecordStep]) == After(w, s3, [RecordStep][1..]) && [RecordStep][1..] == [];
    assert [StopStep, RecordStep][1..] == [RecordStep] && steps[1..] == [StopStep, RecordStep];
    assert After(w, s1, [StopStep, RecordStep]) == After(w, s2, [RecordStep]);
    assert After(w, s, steps) == After(w, s1, steps[1..]);
  }

  /** Another one: an audio packet is at hand, and the frame and the stop arrive before it is processed. */
  lemma StopBehindAudioLosesVideo(w: World)
    ensures var sound, frame := Packet(0, Some(0)), Packet(1, Some(0));
            var t := After(w, Initial(true, true, [], [sound]), [RecordStep, VideoStep(frame), StopStep, RecordStep]);
            t.phase == Done(false) && t.v.queue == [frame] && t.v.stream.out == []
  {
    var sound, frame := Packet(0, Some(0)), Packet(1, Some(0));
    var s := Initial(true, true, [], [sound]);
    var s1 := Next(w, s, RecordStep);
    assert s1.phase.Holding? && s1.a.pkt == Some(sound) && s1.v.pkt.None? && s1.v.queue == [] && s1.origin.None?;
    var s2 := Next(w, s1, VideoStep(frame));
    assert [] + [frame] == [frame];
    var s3 := Next(w, s2, StopStep);
    var s4 := Next(w, s3, RecordStep);
    assert s4.phase == Done(false) && s4.v.queue == [frame];
    var four, three, two := [RecordStep, VideoStep(frame), StopStep, RecordStep], [VideoStep(frame), StopStep, RecordStep], [StopStep, RecordStep];
    assert four[1..] == three && three[1..] == two && two[1..] == [RecordStep] && [RecordStep][1..] == [];
    assert After(w, s4, []) == s4;
    assert After(w, s3, [RecordStep]) == After(w, s4, [RecordStep][1..]);
    assert After(w, s2, two) == After(w, s3, two[1..]);
    assert After(w, s1, three) == After(w, s2, three[1..]);
    assert After(w, s, four) == After(w, s1, four[1..]);
  }

  // ----- The structure itself

  class Recorder {
    const video: bool
    const audio: bool
    var videoQueue: seq<Packet>
    var audioQueue: seq<Packet>
    var stopped: bool
    var phase: Phase
    var videoPkt: Option<Packet>
    var audioPkt: Option<Packet>
    var previous: Option<Held>
    var origin: Option<int>
    var videoStream: Stream
    var audioStream: Stream
    var writes: nat
    ghost var lastLost: bool
    ghost var videoAccepted: seq<Packet>
    ghost var audioAccepted: seq<Packet>

    ghost function Value(): State
      reads this
    {
      State(video, audio, stopped, phase,
            VideoSide(videoQueue, videoPkt, previous, videoStream, videoAccepted),
            AudioSide(audioQueue, audioPkt, audioStream, audioAccepted),
            origin, writes, lastLost)
    }

    constructor (video: bool, audio: bool, videoQueue: seq<Packet>, audioQueue: seq<Packet>)
      ensures Value() == Initial(video, audio, videoQueue, audioQueue)
    {
      this.video, this.audio, this.videoQueue, this.audioQueue := video, audio, videoQueue, audioQueue;
      stopped, phase, videoPkt, audioPkt, previous, origin := false, Waiting, None, None, None, None;
      videoStream, audioStream, writes := Stream(None, []), Stream(None, []), 0;
      lastLost, videoAccepted, audioAccepted := false, videoQueue, audioQueue;
    }

    method VideoSinkPush(w: World, p: Packet) returns (ok: bool)
      modifies this
      ensures Value() == Next(w, old(Value()), VideoStep(p)) && ok == !old(stopped)
    {
      if stopped {
        return false;
      }
      videoQueue, videoAccepted := videoQueue + [p], videoAccepted + [p];
      return true;
    }

    method AudioSinkPush(w: World, p: Packet) returns (ok: bool)
      modifies this
      ensures Value() == Next(w, old(Value()), AudioStep(p)) && ok == !old(stopped)
    {
      if stopped {
        return false;
      }
      audioQueue, audioAccepted := audioQueue + [p], audioAccepted + [p];
      return true;
    }

    method RequestStop(w: World)
      modifies this
      ensures Value() == Next(w, old(Value()), StopStep)
    {
      stopped := true;
    }

    /** The section under the mutex, entered when the wait ends. */
    method TakePackets()
      requires MayTake(Value())
      modifies this
      ensures Value() == Take(old(Value()))
    {
      if videoPkt.None? && videoQueue != [] {
        videoPkt, videoQueue := Some(videoQueue[0]), videoQueue[1..];
      }
      if audioPkt.None? && audioQueue != [] {
        audioPkt, audioQueue := Some(audioQueue[0]), audioQueue[1..];
      }
      phase := if stopped && videoPkt.None? && audioPkt.None? then Finishing else Holding;
    }

    method WriteVideo(w: World, duration: int) returns (ok: bool)
      requires previous.Some?
      modifies this`videoStream, this`previous, this`writes
      ensures ok == w.writeOk(old(writes))
      ensures var s := old(Value());
              Value() == s.(v := WritePrevious(s.v, w.videoScale, duration, ok), writes := s.writes + 1)
    {
      ok := w.writeOk(writes);
      var pts := w.videoScale(previous.value.pts);
      videoStream := WriteStream(videoStream, previous.value.source, pts, Some(duration), ok);
      previous, writes := None, writes + 1;
    }

    /** The packet that is written gets a timestamp above the last one. */
    method WriteStream(st: Stream, source: Packet, scaled: int, duration: Option<int>, ok: bool) returns (t: Stream)
      ensures t == Write(st, source, scaled, duration, ok)
    {
      var pts := scaled;
      if st.lastPts.Some? && pts <= st.lastPts.value {
        pts := st.lastPts.value + 1;
      }
      var written := Written(source, pts, pts, duration);
      t := Stream(Some(pts), if ok then st.out + [written] else st.out);
    }

    method WriteAudio(w: World) returns (ok: bool)
      requires audioPkt.Some? && origin.Some?
      modifies this`audioStream, this`audioPkt, this`writes
      ensures ok == w.writeOk(old(writes))
      ensures var s := old(Value());
              Value() == s.(a := WritePacket(s.a, w.audioScale, s.origin.value, ok), writes := s.writes + 1)
    {
      ok := w.writeOk(writes);
      var pts := w.audioScale(PtsOf(audioPkt.value) - origin.value);
      audioStream := WriteStream(audioStream, audioPkt.value, pts, None, ok);
      if ok {
        audioPkt := None;
      }
      writes := writes + 1;
    }

    method IgnoreConfigs()
      modifies this
      ensures Value() == DropConfigs(old(Value())).(phase := Waiting)
    {
      phase := Waiting;
      if videoPkt.Some? && videoPkt.value.pts.None? {
        videoPkt := None;
      }
      if audioPkt.Some? && audioPkt.value.pts.None? {
        audioPkt := None;
      }
    }

    method ForwardAudio(w: World)
      requires origin.Some?
      modifies this
      ensures Value() == ProcessAudio(w, old(Value()), old(origin).value)
    {
      if audioPkt.Some? {
        var ok := WriteAudio(w);
        if !ok {
          phase := Done(false);
        }
      }
    }

    /** The processing of one round, outside the mutex. */
    method ProcessPackets(w: World)
      requires phase.Holding?
      modifies this
      ensures Value() == Process(w, old(Value()))
    {
      IgnoreConfigs();
      var start := FindOrigin();
      if start.Later? {
        return;
      }
      if start.NoVideo? {
        phase := Done(false);
        return;
      }
      origin := Some(start.us);
      ProcessPair(w);
    }

    method ProcessPair(w: World)
      requires origin.Some?
      modifies this
      ensures Value() == ProcessBoth(w, old(Value()), old(origin).value)
    {
      HoldVideo(w);
      if !phase.Done? {
        ForwardAudio(w);
      }
    }

    method FindOrigin() returns (start: Origin)
      ensures start == ChooseOrigin(Value())
    {
      if origin.Some? {
        return Known(origin.value);
      }
      if !audio && videoPkt.Some? {
        return Known(PtsOf(videoPkt.value));
      }
      if !video && audioPkt.Some? {
        return Known(PtsOf(audioPkt.value));
      }
      if video && audio && videoPkt.Some? && audioPkt.Some? {
        return Known(Min(PtsOf(videoPkt.value), PtsOf(audioPkt.value)));
      }
      if !stopped {
        return Later;
      }
      return if videoPkt.Some? then Known(PtsOf(videoPkt.value)) else NoVideo;
    }

    method HoldVideo(w: World)
      requires origin.Some?
      modifies this`videoStream, this`previous, this`videoPkt, this`writes, this`phase
      ensures Value() == ProcessVideo(w, old(Value()), old(origin).value)
    {
      if videoPkt.Some? {
        var pts := PtsOf(videoPkt.value) - origin.value;
        if previous.Some? {
          var ok := WriteVideo(w, pts - previous.value.pts);
          if !ok {
            phase := Done(false);
            return;
          }
        }
        HoldPacket(pts);
      }
    }

    method HoldPacket(pts: int)
      requires videoPkt.Some? && origin.Some? && pts == PtsOf(videoPkt.value) - origin.value
      modifies this`previous, this`videoPkt
      ensures var s := old(Value()); Value() == s.(v := Hold(s.v, s.origin.value))
    {
      previous, videoPkt := Some(Held(videoPkt.value, pts)), None;
    }

    method FinishRecording(w: World)
      requires phase.Finishing?
      modifies this
      ensures Value() == Finish(w, old(Value()))
    {
      if previous.Some? {
        var ok := WriteVideo(w, LAST_DURATION);
        lastLost := !ok;
      }
      phase := Done(w.trailerOk);
    }
  }
}
