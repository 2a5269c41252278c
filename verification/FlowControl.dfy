/**
 The video flow control of the reverse display: the capture thread that sends frames under
 a two-frame window, the receiver thread that accepts cumulative ACKs, and the main thread
 that stops the session (app/src/reverse_display.c).

 Every access to state that the threads share (an atomic load or store, or one section under
 the watchdog mutex) is one step, and a run is any sequence of steps, so all interleavings
 are covered.  What the encoder, the socket, the capture API and the phone do is chosen by
 the steps.
 */
module FlowControl {
  import opened Common
  import opened AckWindow
  import W = Watchdog

  const MAX_FRAMES_IN_FLIGHT := 2

  /** Where the capture thread is. */
  datatype Phase =
    | Opening                 // before the watchdog is started for the stream header
    | Header                  // header and codec configuration are being sent
    | LoopTop                 // about to test `ok && !stopped`
    | CheckPaused
    | WindowTest              // about to test the pending count
    | WaitStopped             // window full, about to load `stopped`
    | WaitAck                 // window full, about to load the last acknowledged pts
    | AfterWait               // about to load `stopped` again
    | RecheckPaused
    | Capturing
    | Starting                // a frame was captured, about to start the watchdog
    | Encoding                // waiting for the encoder's next packet
    | Submitting(pts: int)    // about to submit a packet to the watchdog
    | Sending(pts: int)       // about to write a packet to the socket
    | Recording               // the frame is encoded, its pts is about to be recorded
    | Ending                  // about to end the watchdog's busy period
    | Finished

  /** The receiver thread: between accepting an ACK under the mutex and publishing it. */
  datatype Receiver = Listening | Publishing(pts: int)

  /** The capture thread's own variables. */
  datatype Loop = Loop(
    phase: Phase,
    ok: bool,
    pending: seq<int>,
    sentPts: Option<int>,
    current: Option<seq<int>>,  // packets of the frame being sent, or of the frame that failed
    frames: seq<seq<int>>)      // packets of every recorded frame

  datatype State = State(
    loop: Loop,
    lastAcked: int,
    receiver: Receiver,
    stopped: bool,
    videoPaused: bool,
    watchdog: W.State,
    calls: W.History)           // every call made on the watchdog

  function Initial(): State {
    State(Loop(Opening, true, [], None, None, []), -1, Listening, false, false, W.Initial(false), [])
  }

  /** What the environment answers to the capture thread. */
  datatype Answer = Fine | Timeout | Interrupted | Failure | Packet(pts: int)

  datatype Step =
    | CaptureThread(now: nat, answer: Answer)
    | ReceiveAck(pts: int, now: nat)
    | PublishAck
    | StorePaused(paused: bool)
    | PauseWatchdog(paused: bool, now: nat)
    | Stop

  function Called(s: State, c: W.Call): State {
    s.(watchdog := W.Apply(s.watchdog, c), calls := s.calls + [c])
  }

  /** The watchdog call that the capture thread makes in a phase, if any. */
  function CaptureCall(phase: Phase, now: nat): Option<W.Call> {
    match phase
    case Opening => Some(W.BeginCall(now))
    case Header => Some(W.EndCall)
    case Starting => Some(W.BeginCall(now))
    case Submitting(pts) => Some(W.SubmitCall(pts))
    case Ending => Some(W.EndCall)
    case _ => None
  }

  /** One step of the capture thread on its own variables. */
  function LoopStep(l: Loop, lastAcked: int, stopped: bool, paused: bool, answer: Answer): Loop {
    match l.phase
    case Opening => l.(phase := Header)
    case Header => l.(phase := LoopTop, ok := answer != Failure)
    case LoopTop => l.(phase := if l.ok && !stopped then CheckPaused else Finished)
    case CheckPaused => l.(phase := if paused then LoopTop else WindowTest)
    case WindowTest =>
      l.(phase := if |l.pending| >= MAX_FRAMES_IN_FLIGHT then WaitStopped else AfterWait)
    case WaitStopped => l.(phase := if stopped then AfterWait else WaitAck)
    case WaitAck =>
      var left := Acknowledge(l.pending, lastAcked);
      l.(pending := left, phase := if |left| < |l.pending| then AfterWait else WindowTest)
    case AfterWait => l.(phase := if stopped then Finished else RecheckPaused)
    case RecheckPaused => l.(phase := if paused then LoopTop else Capturing)
    case Capturing =>
      (match answer
       case Timeout => l.(phase := LoopTop)
       case Interrupted => l.(phase := Finished)
       case Failure => l.(phase := Finished, ok := false)
       case _ => l.(phase := Starting))
    case Starting => l.(phase := Encoding, sentPts := None, current := Some([]))
    case Encoding =>
      (match answer
       case Packet(pts) => l.(phase := Submitting(pts))
       case Failure => l.(phase := Ending, ok := false)
       case _ => l.(phase := Recording))
    case Submitting(pts) => l.(phase := Sending(pts))
    case Sending(pts) =>
      var sent := if l.current.Some? then l.current.value + [pts] else [pts];
      if answer == Failure then l.(phase := Ending, ok := false, current := Some(sent))
      else l.(phase := Encoding, sentPts := Some(pts), current := Some(sent))
    case Recording =>
      l.(phase := Ending,
         pending := if l.sentPts.Some? then l.pending + [l.sentPts.value] else l.pending,
         frames := if l.current.Some? then l.frames + [l.current.value] else l.frames,
         current := None)
    case Ending => l.(phase := LoopTop)
    case Finished => l
  }

  function CaptureStep(s: State, now: nat, answer: Answer): State {
    var t := s.(loop := LoopStep(s.loop, s.lastAcked, s.stopped, s.videoPaused, answer));
    var call := CaptureCall(s.loop.phase, now);
    if call.Some? then Called(t, call.value) else t
  }

  function Next(s: State, step: Step): State {
    match step
    case CaptureThread(now, answer) => CaptureStep(s, now, answer)
    case ReceiveAck(pts, now) =>
      if s.receiver.Publishing? then s
      else Called(s, W.AckCall(pts, now)).(receiver := if s.watchdog.Accepts(pts) then Publishing(pts) else Listening)
    case PublishAck =>
      if s.receiver.Publishing? then s.(lastAcked := s.receiver.pts, receiver := Listening) else s
    case StorePaused(p) => s.(videoPaused := p)
    case PauseWatchdog(p, now) => Called(s, W.PauseCall(p, now))
    case Stop => s.(stopped := true)
  }

  function After(run: seq<Step>): State {
    if run == [] then Initial() else Next(After(run[..|run| - 1]), run[|run| - 1])
  }

  // ----- What is in flight

  /** The pts recorded for each frame that produced a packet: the one sent last. */
  function LastPts(frames: seq<seq<int>>): seq<int> {
    if frames == [] then []
    else LastPts(frames[..|frames| - 1]) + Tail(frames[|frames| - 1])
  }

  function Tail(frame: seq<int>): seq<int> {
    if frame == [] then [] else [frame[|frame| - 1]]
  }

  /** Every frame handed to the socket, the one being sent or having failed included. */
  function AllFrames(l: Loop): seq<seq<int>> {
    l.frames + if l.current.Some? then [l.current.value] else []
  }

  predicate InFlight(frame: seq<int>, acked: int) { exists i :: 0 <= i < |frame| && frame[i] > acked }

  /** The frames that have a packet above the published acknowledgement. */
  function FramesInFlight(frames: seq<seq<int>>, acked: int): seq<seq<int>> {
    if frames == [] then []
    else FramesInFlight(frames[..|frames| - 1], acked)
         + if InFlight(frames[|frames| - 1], acked) then [frames[|frames| - 1]] else []
  }

  /** The packets above the published acknowledgement. */
  function PacketsInFlight(frames: seq<seq<int>>, acked: int): seq<int> {
    if frames == [] then []
    else PacketsInFlight(frames[..|frames| - 1], acked) + Above(frames[|frames| - 1], acked)
  }

  // ----- The invariant

  predicate WhileBusy(p: Phase) {
    p.Header? || p.Encoding? || p.Submitting? || p.Sending? || p.Recording? || p.Ending?
  }

  predicate WithinFrame(p: Phase) { p.Encoding? || p.Submitting? || p.Sending? || p.Recording? }

  /** Phases reached only past the window test. */
  predicate PastWindow(p: Phase) { p.RecheckPaused? || p.Capturing? || p.Starting? || WithinFrame(p) }

  ghost predicate WindowInv(phase: Phase, count: nat, sending: bool, stopped: bool) {
    && count <= MAX_FRAMES_IN_FLIGHT
    && (PastWindow(phase) || sending ==> count < MAX_FRAMES_IN_FLIGHT)
    && (phase.AfterWait? ==> count < MAX_FRAMES_IN_FLIGHT || stopped)
    && (phase.WaitStopped? || phase.WaitAck? ==> count == MAX_FRAMES_IN_FLIGHT)
  }

  /** The frame being sent is the unrecorded one; a failed frame stops the loop. */
  ghost predicate FrameInv(l: Loop) {
    && (WithinFrame(l.phase) ==>
          l.current.Some? && Tail(l.current.value) == if l.sentPts.Some? then [l.sentPts.value] else [])
    && (l.current.Some? ==>
          WithinFrame(l.phase) || (!l.ok && (l.phase.Ending? || l.phase.LoopTop? || l.phase.Finished?)))
  }

  /** The window holds the most recent frames, and no frame outside it is in flight. */
  ghost predicate PendingInv(pending: seq<int>, recorded: seq<int>, lastAcked: int) {
    && |pending| <= |recorded|
    && pending == recorded[|recorded| - |pending|..]
    && Above(pending, lastAcked) == Above(recorded, lastAcked)
  }

  ghost predicate AckInv(lastAcked: int, receiver: Receiver, watchdog: W.State) {
    && lastAcked <= watchdog.acked <= watchdog.submitted
    && (receiver.Listening? ==> lastAcked == watchdog.acked)
    && (receiver.Publishing? ==> lastAcked < receiver.pts == watchdog.acked)
  }

  ghost predicate WatchdogInv(watchdog: W.State, calls: W.History, phase: Phase) {
    && watchdog == W.Run(false, calls)
    && W.Disciplined(calls)
    && (watchdog.busy <==> WhileBusy(phase))
  }

  /** What holds of the capture thread's variables. */
  ghost predicate LoopInv(l: Loop, lastAcked: int, stopped: bool) {
    && WindowInv(l.phase, |l.pending|, l.current.Some?, stopped)
    && FrameInv(l)
    && PendingInv(l.pending, LastPts(l.frames), lastAcked)
  }

  ghost predicate Inv(s: State) {
    && LoopInv(s.loop, s.lastAcked, s.stopped)
    && AckInv(s.lastAcked, s.receiver, s.watchdog)
    && WatchdogInv(s.watchdog, s.calls, s.loop.phase)
  }

  /** The phases before and after the handling of a frame. */
  predicate OutsideFrame(p: Phase) {
    p.Opening? || p.Header? || p.LoopTop? || p.CheckPaused? || p.RecheckPaused? || p.Ending? || p.Finished?
  }

  /** The phases that test or wait for the window. */
  predicate AtWindow(p: Phase) { p.WindowTest? || p.WaitStopped? || p.WaitAck? || p.AfterWait? }

  lemma OutsideStep(l: Loop, lastAcked: int, stopped: bool, paused: bool, answer: Answer)
    requires OutsideFrame(l.phase)
    ensures var t := LoopStep(l, lastAcked, stopped, paused, answer);
            && t.pending == l.pending && t.frames == l.frames && t.current == l.current && t.sentPts == l.sentPts
            && (t.ok ==> l.ok || l.phase.Header?)
            && (if l.phase.RecheckPaused? && !paused then t.phase.Capturing?
                else if l.phase.CheckPaused? && !paused then t.phase.WindowTest?
                else if l.phase.LoopTop? && l.ok && !stopped then t.phase.CheckPaused?
                else if l.phase.Opening? then t.phase.Header?
                else t.phase.LoopTop? || t.phase.Finished?)
  {
  }

  lemma WindowStep(l: Loop, lastAcked: int, stopped: bool, paused: bool, answer: Answer)
    requires AtWindow(l.phase)
    ensures var t := LoopStep(l, lastAcked, stopped, paused, answer);
            && t.frames == l.frames && t.current == l.current && t.sentPts == l.sentPts && t.ok == l.ok
            && t.pending == (if l.phase.WaitAck? then Acknowledge(l.pending, lastAcked) else l.pending)
            && |t.pending| <= |l.pending|
            && (match l.phase
                case WindowTest => t.phase == if |l.pending| >= MAX_FRAMES_IN_FLIGHT then WaitStopped else AfterWait
                case WaitStopped => t.phase == if stopped then AfterWait else WaitAck
                case WaitAck => t.phase == if |t.pending| < |l.pending| then AfterWait else WindowTest
                case _ => t.phase == if stopped then Finished else RecheckPaused)
  {
    AcknowledgeSplits(l.pending, lastAcked);
  }

  lemma FrameStep(l: Loop, lastAcked: int, stopped: bool, paused: bool, answer: Answer)
    requires l.phase.Capturing? || l.phase.Starting? || WithinFrame(l.phase)
    ensures var t := LoopStep(l, lastAcked, stopped, paused, answer);
            && (!l.phase.Recording? ==> t.pending == l.pending && t.frames == l.frames)
            && (l.phase.Capturing? ==> t.current == l.current && t.sentPts == l.sentPts
                                       && (t.phase.LoopTop? || t.phase.Finished? || t.phase.Starting?))
            && (l.phase.Starting? ==> t.phase.Encoding? && t.current == Some([]) && t.sentPts == None)
            && (l.phase.Encoding? || l.phase.Submitting? ==>
                  && t.current == l.current && t.sentPts == l.sentPts
                  && (WithinFrame(t.phase) || (t.phase.Ending? && !t.ok)))
  {
  }

  /** The two steps within a frame that change what is recorded or will be. */
  lemma SendOrRecord(l: Loop, lastAcked: int, stopped: bool, paused: bool, answer: Answer)
    requires (l.phase.Sending? || l.phase.Recording?) && l.current.Some?
    ensures var t := LoopStep(l, lastAcked, stopped, paused, answer);
            && (l.phase.Sending? ==>
                  && t.current == Some(l.current.value + [l.phase.pts])
                  && (if answer == Failure then t.phase.Ending? && !t.ok
                      else t.phase.Encoding? && t.sentPts == Some(l.phase.pts)))
            && (l.phase.Recording? ==>
                  && t.phase.Ending? && t.current == None && t.frames == l.frames + [l.current.value]
                  && t.pending == l.pending + if l.sentPts.Some? then [l.sentPts.value] else [])
  {
  }

  lemma LoopKeepsWindow(l: Loop, lastAcked: int, stopped: bool, paused: bool, answer: Answer, t: Loop)
    requires WindowInv(l.phase, |l.pending|, l.current.Some?, stopped) && FrameInv(l)
    requires t == LoopStep(l, lastAcked, stopped, paused, answer)
    ensures WindowInv(t.phase, |t.pending|, t.current.Some?, stopped)
  {
    if OutsideFrame(l.phase) {
      OutsideStep(l, lastAcked, stopped, paused, answer);
    } else if AtWindow(l.phase) {
      WindowStep(l, lastAcked, stopped, paused, answer);
    } else {
      FrameStep(l, lastAcked, stopped, paused, answer);
      if l.phase.Sending? || l.phase.Recording? {
        SendOrRecord(l, lastAcked, stopped, paused, answer);
      }
    }
  }

  lemma LoopKeepsFrame(l: Loop, lastAcked: int, stopped: bool, paused: bool, answer: Answer, t: Loop)
    requires FrameInv(l) && t == LoopStep(l, lastAcked, stopped, paused, answer)
    ensures FrameInv(t)
  {
    if OutsideFrame(l.phase) {
      OutsideStep(l, lastAcked, stopped, paused, answer);
    } else if AtWindow(l.phase) {
      WindowStep(l, lastAcked, stopped, paused, answer);
    } else {
      FrameStep(l, lastAcked, stopped, paused, answer);
      if l.phase.Sending? || l.phase.Recording? {
        SendOrRecord(l, lastAcked, stopped, paused, answer);
      }
    }
  }

  lemma AckKeepsPending(pending: seq<int>, recorded: seq<int>, lastAcked: int)
    requires PendingInv(pending, recorded, lastAcked)
    ensures PendingInv(Acknowledge(pending, lastAcked), recorded, lastAcked)
  {
    AcknowledgeSplits(pending, lastAcked);
    AcknowledgeKeepsAbove(pending, lastAcked, lastAcked);
  }

  lemma RecordKeepsPending(pending: seq<int>, recorded: seq<int>, more: seq<int>, lastAcked: int)
    requires PendingInv(pending, recorded, lastAcked)
    ensures PendingInv(pending + more, recorded + more, lastAcked)
  {
    AboveAppend(pending, more, lastAcked);
    AboveAppend(recorded, more, lastAcked);
  }

  /** Only two phases touch the window or the recorded frames. */
  lemma LoopMovesPending(l: Loop, lastAcked: int, stopped: bool, paused: bool, answer: Answer)
    requires FrameInv(l)
    ensures var t := LoopStep(l, lastAcked, stopped, paused, answer);
            && (!l.phase.WaitAck? && !l.phase.Recording? ==> t.pending == l.pending)
            && (l.phase.WaitAck? ==> t.pending == Acknowledge(l.pending, lastAcked))
            && (l.phase.Recording? ==> t.pending == l.pending + Tail(l.current.value))
            && t.frames == if l.phase.Recording? then l.frames + [l.current.value] else l.frames
  {
  }

  lemma LoopKeepsPending(l: Loop, lastAcked: int, stopped: bool, paused: bool, answer: Answer)
    requires FrameInv(l) && PendingInv(l.pending, LastPts(l.frames), lastAcked)
    ensures var t := LoopStep(l, lastAcked, stopped, paused, answer);
            PendingInv(t.pending, LastPts(t.frames), lastAcked)
  {
    LoopMovesPending(l, lastAcked, stopped, paused, answer);
    if l.phase.WaitAck? {
      AckKeepsPending(l.pending, LastPts(l.frames), lastAcked);
    } else if l.phase.Recording? {
      var frame := l.current.value;
      var frames := l.frames + [frame];
      assert frames[..|frames| - 1] == l.frames;
      RecordKeepsPending(l.pending, LastPts(l.frames), Tail(frame), lastAcked);
    }
  }

  /** A watchdog call other than an ACK leaves both sides of the acknowledgement alone. */
  lemma CallKeepsAck(lastAcked: int, receiver: Receiver, watchdog: W.State, c: W.Call)
    requires AckInv(lastAcked, receiver, watchdog) && !c.AckCall?
    ensures AckInv(lastAcked, receiver, W.Apply(watchdog, c))
  {
  }

  /** What a step from this phase leaves the watchdog's busy flag at. */
  predicate BusyAfter(p: Phase) {
    p.Opening? || p.Starting? || (WhileBusy(p) && !p.Header? && !p.Ending?)
  }

  lemma LoopBusy(l: Loop, lastAcked: int, stopped: bool, paused: bool, answer: Answer)
    ensures WhileBusy(LoopStep(l, lastAcked, stopped, paused, answer).phase) <==> BusyAfter(l.phase)
  {
    match l.phase
    case WaitAck =>
    case Capturing =>
    case Encoding =>
    case _ =>
  }

  lemma CallBusy(p: Phase, watchdog: W.State, now: nat)
    requires watchdog.busy <==> WhileBusy(p)
    ensures var call := CaptureCall(p, now);
            (if call.Some? then W.Apply(watchdog, call.value) else watchdog).busy <==> BusyAfter(p)
    ensures var call := CaptureCall(p, now);
            call.Some? ==> !call.value.AckCall? && (call.value.SubmitCall? ==> watchdog.busy)
                           && (call.value.BeginCall? ==> call.value.now == now) && !call.value.PauseCall?
  {
  }

  lemma CaptureStepKeepsInv(s: State, now: nat, answer: Answer)
    requires Inv(s)
    ensures Inv(CaptureStep(s, now, answer))
  {
    var t := CaptureStep(s, now, answer);
    LoopKeepsWindow(s.loop, s.lastAcked, s.stopped, s.videoPaused, answer, t.loop);
    LoopKeepsFrame(s.loop, s.lastAcked, s.stopped, s.videoPaused, answer, t.loop);
    LoopKeepsPending(s.loop, s.lastAcked, s.stopped, s.videoPaused, answer);
    LoopBusy(s.loop, s.lastAcked, s.stopped, s.videoPaused, answer);
    CallBusy(s.loop.phase, s.watchdog, now);
    var call := CaptureCall(s.loop.phase, now);
    if call.Some? {
      W.CallExtends(false, s.watchdog, s.calls, call.value);
      CallKeepsAck(s.lastAcked, s.receiver, s.watchdog, call.value);
    }
  }

  lemma ReceiveAckKeepsInv(s: State, pts: int, now: nat)
    requires Inv(s)
    ensures Inv(Next(s, ReceiveAck(pts, now)))
  {
    W.CallExtends(false, s.watchdog, s.calls, W.AckCall(pts, now));
  }

  lemma PublishKeepsInv(s: State)
    requires Inv(s)
    ensures Inv(Next(s, PublishAck))
  {
    if s.receiver.Publishing? {
      AboveTwice(s.loop.pending, s.lastAcked, s.receiver.pts);
      AboveTwice(LastPts(s.loop.frames), s.lastAcked, s.receiver.pts);
    }
  }

  lemma PauseKeepsInv(s: State, p: bool, now: nat)
    requires Inv(s)
    ensures Inv(Next(s, PauseWatchdog(p, now)))
  {
    W.CallExtends(false, s.watchdog, s.calls, W.PauseCall(p, now));
    CallKeepsAck(s.lastAcked, s.receiver, s.watchdog, W.PauseCall(p, now));
  }

  lemma StepKeepsInv(s: State, step: Step)
    requires Inv(s)
    ensures Inv(Next(s, step))
  {
    match step
    case CaptureThread(now, answer) => CaptureStepKeepsInv(s, now, answer);
    case ReceiveAck(pts, now) => ReceiveAckKeepsInv(s, pts, now);
    case PublishAck => PublishKeepsInv(s);
    case PauseWatchdog(p, now) => PauseKeepsInv(s, p, now);
    case _ =>
  }

  lemma {:induction false} RunKeepsInv(run: seq<Step>)
    ensures Inv(After(run))
  {
    if run != [] {
      RunKeepsInv(run[..|run| - 1]);
      StepKeepsInv(After(run[..|run| - 1]), run[|run| - 1]);
    }
  }

  // ----- The main results, for every run

  /**
   At most two frames have their last packet above the published acknowledgement, whatever
   order the encoder gives its timestamps.
   */
  lemma AtMostTwoFramesUnacknowledged(run: seq<Step>)
    ensures var s := After(run);
            |Above(LastPts(AllFrames(s.loop)), s.lastAcked)| <= MAX_FRAMES_IN_FLIGHT
  {
    var s := After(run);
    RunKeepsInv(run);
    if s.loop.current.Some? {
      var all := AllFrames(s.loop);
      assert all[..|all| - 1] == s.loop.frames;
      AboveAppend(LastPts(s.loop.frames), Tail(s.loop.current.value), s.lastAcked);
    } else {
      assert AllFrames(s.loop) == s.loop.frames;
    }
  }

  predicate NonDecreasing(frame: seq<int>) { forall i, j :: 0 <= i < j < |frame| ==> frame[i] <= frame[j] }

  lemma LastDecides(frame: seq<int>, acked: int)
    requires NonDecreasing(frame)
    ensures InFlight(frame, acked) <==> frame != [] && frame[|frame| - 1] > acked
  {
    if i :| 0 <= i < |frame| && frame[i] > acked {
      assert i < |frame| - 1 ==> frame[i] <= frame[|frame| - 1];
    }
  }

  lemma TailInFlight(frame: seq<int>, acked: int)
    ensures |Above(Tail(frame), acked)| == if frame != [] && frame[|frame| - 1] > acked then 1 else 0
  {
    if frame != [] {
      assert Tail(frame)[1..] == [];
    }
  }

  lemma {:induction false} OrderedFramesInFlight(frames: seq<seq<int>>, acked: int)
    requires forall i :: 0 <= i < |frames| ==> NonDecreasing(frames[i])
    ensures |FramesInFlight(frames, acked)| == |Above(LastPts(frames), acked)|
  {
    if frames != [] {
      var front, frame := frames[..|frames| - 1], frames[|frames| - 1];
      OrderedFramesInFlight(front, acked);
      AboveAppend(LastPts(front), Tail(frame), acked);
      LastDecides(frame, acked);
      TailInFlight(frame, acked);
    }
  }

  /** When the packets of one frame come in order, at most two frames have any packet in flight. */
  lemma AtMostTwoFramesInFlight(run: seq<Step>)
    requires forall frame :: frame in AllFrames(After(run).loop) ==> NonDecreasing(frame)
    ensures var s := After(run);
            |FramesInFlight(AllFrames(s.loop), s.lastAcked)| <= MAX_FRAMES_IN_FLIGHT
  {
    AtMostTwoFramesUnacknowledged(run);
    OrderedFramesInFlight(AllFrames(After(run).loop), After(run).lastAcked);
  }

  lemma {:induction false} SinglePacketFrames(frames: seq<seq<int>>, acked: int)
    requires forall i :: 0 <= i < |frames| ==> |frames[i]| <= 1
    ensures PacketsInFlight(frames, acked) == Above(LastPts(frames), acked)
  {
    if frames != [] {
      var front, frame := frames[..|frames| - 1], frames[|frames| - 1];
      SinglePacketFrames(front, acked);
      AboveAppend(LastPts(front), Tail(frame), acked);
      assert Tail(frame) == frame;
    }
  }

  /** With one packet a frame, at most two packets are in flight. */
  lemma AtMostTwoPacketsInFlight(run: seq<Step>)
    requires forall frame :: frame in AllFrames(After(run).loop) ==> |frame| <= 1
    ensures var s := After(run);
            |PacketsInFlight(AllFrames(s.loop), s.lastAcked)| <= MAX_FRAMES_IN_FLIGHT
  {
    AtMostTwoFramesUnacknowledged(run);
    SinglePacketFrames(AllFrames(After(run).loop), After(run).lastAcked);
  }

  /** The window has room whenever a pts is recorded, although nothing is tested in between. */
  lemma RoomWhenRecording(run: seq<Step>)
    ensures After(run).loop.phase.Recording? ==> |After(run).loop.pending| < MAX_FRAMES_IN_FLIGHT
  {
    RunKeepsInv(run);
  }

  lemma StepAcksOnlyGrow(s: State, step: Step)
    requires AckInv(s.lastAcked, s.receiver, s.watchdog)
    ensures s.lastAcked <= Next(s, step).lastAcked && s.watchdog.acked <= Next(s, step).watchdog.acked
  {
    match step
    case CaptureThread(now, answer) =>
      var call := CaptureCall(s.loop.phase, now);
      if call.Some? {
        CallKeepsAck(s.lastAcked, s.receiver, s.watchdog, call.value);
      }
    case _ =>
  }

  /**
   Acknowledgements only grow, in whatever order the threads run, and the published one
   never passes the accepted one nor that the submitted one.
   */
  lemma {:induction false} AcksOnlyGrow(run: seq<Step>, k: nat)
    requires k <= |run|
    ensures After(run[..k]).lastAcked <= After(run).lastAcked
    ensures After(run[..k]).watchdog.acked <= After(run).watchdog.acked
    ensures After(run).lastAcked <= After(run).watchdog.acked <= After(run).watchdog.submitted
  {
    RunKeepsInv(run);
    if k < |run| {
      var front := run[..|run| - 1];
      assert front[..k] == run[..k];
      AcksOnlyGrow(front, k);
      RunKeepsInv(front);
      StepAcksOnlyGrow(After(front), run[|run| - 1]);
    } else {
      assert run[..k] == run;
    }
  }

  /** Whether the capture thread goes on waiting with the acknowledgement it reads. */
  predicate GoesOnWaiting(s: State, now: nat, answer: Answer) {
    CaptureStep(s, now, answer).loop.phase.WindowTest?
  }

  function CountInFlight(s: State): nat { |Above(LastPts(AllFrames(s.loop)), s.lastAcked)| }

  lemma AboveTwoEntries(a: int, b: int, ack: int)
    ensures Above([a, b], ack) == (if a > ack then [a] else []) + (if b > ack then [b] else [])
  {
    AboveAppend([a], [b], ack);
    assert [a] + [b] == [a, b];
    if a > ack { AboveAll([a], ack); } else { AboveNone([a], ack); }
    if b > ack { AboveAll([b], ack); } else { AboveNone([b], ack); }
  }

  lemma WaitsForOldest(s: State, now: nat, answer: Answer)
    requires s.loop.phase.WaitAck? && s.loop.pending != []
    ensures GoesOnWaiting(s, now, answer) <==> s.loop.pending[0] > s.lastAcked
  {
    AcknowledgeSplits(s.loop.pending, s.lastAcked);
    assert CaptureCall(s.loop.phase, now) == None;
  }

  lemma WindowIsInFlight(loop: Loop, stopped: bool, lastAcked: int)
    requires LoopInv(loop, lastAcked, stopped) && loop.phase.WaitAck?
    ensures |loop.pending| == MAX_FRAMES_IN_FLIGHT
    ensures Above(LastPts(AllFrames(loop)), lastAcked) == Above(loop.pending, lastAcked)
  {
    assert AllFrames(loop) == loop.frames;
  }

  /**
   The capture thread goes on waiting exactly when the older frame of the full window is not
   acknowledged.  That is waiting for two frames in flight, exactly unless the acknowledgement
   lies between timestamps that are out of order.
   */
  lemma WaitsExactlyWhenWindowFull(run: seq<Step>, now: nat, answer: Answer)
    requires After(run).loop.phase.WaitAck?
    ensures var s := After(run);
            && |s.loop.pending| == 2
            && (GoesOnWaiting(s, now, answer) <==> s.loop.pending[0] > s.lastAcked)
            && ((GoesOnWaiting(s, now, answer) <==> CountInFlight(s) == MAX_FRAMES_IN_FLIGHT)
                <==> !(s.loop.pending[1] <= s.lastAcked < s.loop.pending[0]))
  {
    var s := After(run);
    RunKeepsInv(run);
    WindowIsInFlight(s.loop, s.stopped, s.lastAcked);
    WaitsForOldest(s, now, answer);
    var a, b := s.loop.pending[0], s.loop.pending[1];
    assert s.loop.pending == [a, b];
    AboveTwoEntries(a, b, s.lastAcked);
  }

  /** A full window waits for two frames in flight under every acknowledgement if and only if its timestamps are in order. */
  lemma WindowWaitsRightlyExactly(a: int, b: int)
    ensures (forall ack :: Acknowledge([a, b], ack) == [a, b] <==> |Above([a, b], ack)| == 2) <==> a <= b
  {
    forall ack
      ensures Acknowledge([a, b], ack) == [a, b] <==> a > ack
      ensures |Above([a, b], ack)| == 2 <==> a > ack && b > ack
    {
      AcknowledgeSplits([a, b], ack);
      AboveTwoEntries(a, b, ack);
    }
    if a > b {
      assert Acknowledge([a, b], b) == [a, b] && |Above([a, b], b)| != 2;
    }
  }

  // ----- A run with timestamps out of order

  const CONFIG_SENT: seq<Step> := [CaptureThread(0, Fine), CaptureThread(0, Fine)]

  const TO_CAPTURE: seq<Step> :=
    [CaptureThread(0, Fine), CaptureThread(0, Fine), CaptureThread(0, Fine), CaptureThread(0, Fine),
     CaptureThread(0, Fine), CaptureThread(0, Fine)]

  /** The encoder gives one packet for the captured frame, and it is sent. */
  function EncodeAndSend(pts: int): seq<Step> {
    [CaptureThread(0, Fine), CaptureThread(0, Packet(pts)), CaptureThread(0, Fine), CaptureThread(0, Fine),
     CaptureThread(0, Fine), CaptureThread(0, Fine), CaptureThread(0, Fine)]
  }

  const TO_WAIT: seq<Step> :=
    [CaptureThread(0, Fine), CaptureThread(0, Fine), CaptureThread(0, Fine), CaptureThread(0, Fine)]

  /** Frames with timestamps 7 and 5 are sent, and 5 is acknowledged. */
  function OutOfOrderRun(): seq<Step> {
    CONFIG_SENT + (TO_CAPTURE + EncodeAndSend(7)) + (TO_CAPTURE + EncodeAndSend(5)) + TO_WAIT
    + [ReceiveAck(5, 0), PublishAck]
  }

  lemma OneMore(run: seq<Step>, step: Step)
    ensures After(run + [step]) == Next(After(run), step)
  {
    assert (run + [step])[..|run|] == run;
  }

  /** The state shared with other threads is as a run without pause, stop or acknowledgement leaves it. */
  ghost predicate Undisturbed(s: State, submitted: int) {
    && !s.stopped && !s.videoPaused && s.lastAcked == -1 && s.receiver.Listening?
    && s.watchdog.acked == -1 && s.watchdog.submitted == submitted
  }

  /** The run leads to these variables of the capture thread, undisturbed by other threads. */
  ghost predicate LeadsTo(run: seq<Step>, loop: Loop, submitted: int) {
    After(run).loop == loop && Undisturbed(After(run), submitted)
  }

  /** A step of the capture thread that submits nothing. */
  lemma QuietStep(run: seq<Step>, loop: Loop, next: Loop, submitted: int)
    requires LeadsTo(run, loop, submitted) && !loop.phase.Submitting?
    requires next == LoopStep(loop, -1, false, false, Fine)
    ensures LeadsTo(run + [CaptureThread(0, Fine)], next, submitted)
  {
    OneMore(run, CaptureThread(0, Fine));
  }

  lemma PacketStep(run: seq<Step>, loop: Loop, pts: int, submitted: int)
    requires LeadsTo(run, loop, submitted) && loop.phase.Encoding?
    ensures LeadsTo(run + [CaptureThread(0, Packet(pts))], loop.(phase := Submitting(pts)), submitted)
  {
    OneMore(run, CaptureThread(0, Packet(pts)));
  }

  lemma SubmitStep(run: seq<Step>, loop: Loop, pts: int, submitted: int)
    requires LeadsTo(run, loop, submitted) && loop.phase == Submitting(pts)
    ensures LeadsTo(run + [CaptureThread(0, Fine)], loop.(phase := Sending(pts)), W.Max(pts, submitted))
  {
    OneMore(run, CaptureThread(0, Fine));
  }

  /** From the top of the loop to a captured frame. */
  lemma ReachesCapture(run: seq<Step>, pending: seq<int>, sent: Option<int>, frames: seq<seq<int>>, submitted: int)
    requires LeadsTo(run, Loop(LoopTop, true, pending, sent, None, frames), submitted)
    requires |pending| < MAX_FRAMES_IN_FLIGHT
    ensures LeadsTo(run + TO_CAPTURE, Loop(Starting, true, pending, sent, None, frames), submitted)
  {
    var fine := CaptureThread(0, Fine);
    var r1, r2, r3 := run + [fine], run + [fine] + [fine], run + [fine] + [fine] + [fine];
    var r4, r5 := r3 + [fine], r3 + [fine] + [fine];
    var l1 := Loop(CheckPaused, true, pending, sent, None, frames);
    var l2 := Loop(WindowTest, true, pending, sent, None, frames);
    var l3 := Loop(AfterWait, true, pending, sent, None, frames);
    var l4 := Loop(RecheckPaused, true, pending, sent, None, frames);
    var l5 := Loop(Capturing, true, pending, sent, None, frames);
    QuietStep(run, Loop(LoopTop, true, pending, sent, None, frames), l1, submitted);
    QuietStep(r1, l1, l2, submitted);
    QuietStep(r2, l2, l3, submitted);
    QuietStep(r3, l3, l4, submitted);
    QuietStep(r4, l4, l5, submitted);
    QuietStep(r5, l5, Loop(Starting, true, pending, sent, None, frames), submitted);
    assert r5 + [fine] == run + TO_CAPTURE;
  }

  /** From the captured frame to its packet about to be sent. */
  lemma SubmitsPacket(run: seq<Step>, pts: int, pending: seq<int>, sent: Option<int>, frames: seq<seq<int>>, submitted: int)
    requires LeadsTo(run, Loop(Starting, true, pending, sent, None, frames), submitted)
    ensures LeadsTo(run + EncodeAndSend(pts)[..3], Loop(Sending(pts), true, pending, None, Some([]), frames), W.Max(pts, submitted))
  {
    var fine, packet := CaptureThread(0, Fine), CaptureThread(0, Packet(pts));
    var l1 := Loop(Encoding, true, pending, None, Some([]), frames);
    QuietStep(run, Loop(Starting, true, pending, sent, None, frames), l1, submitted);
    PacketStep(run + [fine], l1, pts, submitted);
    SubmitStep(run + [fine] + [packet], Loop(Submitting(pts), true, pending, None, Some([]), frames), pts, submitted);
    assert run + [fine] + [packet] + [fine] == run + EncodeAndSend(pts)[..3];
  }

  /** From the packet about to be sent to the frame encoded. */
  lemma SendsPacket(run: seq<Step>, pts: int, pending: seq<int>, frames: seq<seq<int>>, submitted: int)
    requires LeadsTo(run, Loop(Sending(pts), true, pending, None, Some([]), frames), submitted)
    ensures LeadsTo(run + [CaptureThread(0, Fine)] + [CaptureThread(0, Fine)],
                    Loop(Recording, true, pending, Some(pts), Some([pts]), frames), submitted)
  {
    var l1 := Loop(Encoding, true, pending, Some(pts), Some([pts]), frames);
    assert [] + [pts] == [pts];
    QuietStep(run, Loop(Sending(pts), true, pending, None, Some([]), frames), l1, submitted);
    QuietStep(run + [CaptureThread(0, Fine)], l1, Loop(Recording, true, pending, Some(pts), Some([pts]), frames), submitted);
  }

  /** From the frame encoded to the top of the loop, with its timestamp recorded. */
  lemma RecordsPacket(run: seq<Step>, pts: int, pending: seq<int>, frames: seq<seq<int>>, submitted: int)
    requires LeadsTo(run, Loop(Recording, true, pending, Some(pts), Some([pts]), frames), submitted)
    ensures LeadsTo(run + [CaptureThread(0, Fine)] + [CaptureThread(0, Fine)],
                    Loop(LoopTop, true, pending + [pts], Some(pts), None, frames + [[pts]]), submitted)
  {
    var l1 := Loop(Ending, true, pending + [pts], Some(pts), None, frames + [[pts]]);
    QuietStep(run, Loop(Recording, true, pending, Some(pts), Some([pts]), frames), l1, submitted);
    QuietStep(run + [CaptureThread(0, Fine)], l1, Loop(LoopTop, true, pending + [pts], Some(pts), None, frames + [[pts]]), submitted);
  }

  /** One round of the loop with room in the window. */
  lemma SendsFrame(run: seq<Step>, pts: int, pending: seq<int>, sent: Option<int>, frames: seq<seq<int>>, submitted: int)
    requires LeadsTo(run, Loop(LoopTop, true, pending, sent, None, frames), submitted)
    requires |pending| < MAX_FRAMES_IN_FLIGHT
    ensures LeadsTo(run + (TO_CAPTURE + EncodeAndSend(pts)),
                    Loop(LoopTop, true, pending + [pts], Some(pts), None, frames + [[pts]]), W.Max(pts, submitted))
  {
    var captured, steps := run + TO_CAPTURE, EncodeAndSend(pts);
    ReachesCapture(run, pending, sent, frames, submitted);
    SubmitsPacket(captured, pts, pending, sent, frames, submitted);
    SendsPacket(captured + steps[..3], pts, pending, frames, W.Max(pts, submitted));
    RecordsPacket(captured + steps[..3] + [steps[3]] + [steps[4]], pts, pending, frames, W.Max(pts, submitted));
    assert captured + steps[..3] + [steps[3]] + [steps[4]] + [steps[5]] + [steps[6]] == run + (TO_CAPTURE + steps);
  }

  lemma ReachesWait(run: seq<Step>, pending: seq<int>, sent: Option<int>, frames: seq<seq<int>>, submitted: int)
    requires LeadsTo(run, Loop(LoopTop, true, pending, sent, None, frames), submitted)
    requires |pending| == MAX_FRAMES_IN_FLIGHT
    ensures LeadsTo(run + TO_WAIT, Loop(WaitAck, true, pending, sent, None, frames), submitted)
  {
    var fine := CaptureThread(0, Fine);
    var l1 := Loop(CheckPaused, true, pending, sent, None, frames);
    var l2 := Loop(WindowTest, true, pending, sent, None, frames);
    var l3 := Loop(WaitStopped, true, pending, sent, None, frames);
    QuietStep(run, Loop(LoopTop, true, pending, sent, None, frames), l1, submitted);
    QuietStep(run + [fine], l1, l2, submitted);
    QuietStep(run + [fine] + [fine], l2, l3, submitted);
    QuietStep(run + [fine] + [fine] + [fine], l3, Loop(WaitAck, true, pending, sent, None, frames), submitted);
    assert run + [fine] + [fine] + [fine] + [fine] == run + TO_WAIT;
  }

  lemma ConfigSent()
    ensures LeadsTo(CONFIG_SENT, Loop(LoopTop, true, [], None, None, []), -1)
  {
    var fine := CaptureThread(0, Fine);
    QuietStep([], Loop(Opening, true, [], None, None, []), Loop(Header, true, [], None, None, []), -1);
    QuietStep([] + [fine], Loop(Header, true, [], None, None, []), Loop(LoopTop, true, [], None, None, []), -1);
    assert [] + [fine] + [fine] == CONFIG_SENT;
  }

  lemma TwoFramesSent()
    ensures LeadsTo(CONFIG_SENT + (TO_CAPTURE + EncodeAndSend(7)) + (TO_CAPTURE + EncodeAndSend(5)) + TO_WAIT,
                    Loop(WaitAck, true, [7, 5], Some(5), None, [[7], [5]]), 7)
  {
    var one := CONFIG_SENT + (TO_CAPTURE + EncodeAndSend(7));
    assert [] + [7] == [7] && [7] + [5] == [7, 5] && [] + [[7]] == [[7]] && [[7]] + [[5]] == [[7], [5]];
    ConfigSent();
    SendsFrame(CONFIG_SENT, 7, [], None, [], -1);
    SendsFrame(one, 5, [7], Some(7), [[7]], 7);
    ReachesWait(one + (TO_CAPTURE + EncodeAndSend(5)), [7, 5], Some(5), [[7], [5]], 7);
  }

  /** Out-of-order timestamps make the capture thread wait although only one frame is in flight. */
  lemma OutOfOrderWaitsTooLong(now: nat, answer: Answer)
    ensures var s := After(OutOfOrderRun());
            && s.loop.phase.WaitAck? && s.loop.pending == [7, 5] && s.lastAcked == 5
            && GoesOnWaiting(s, now, answer) && CountInFlight(s) == 1
  {
    TwoFramesSent();
    var waiting := CONFIG_SENT + (TO_CAPTURE + EncodeAndSend(7)) + (TO_CAPTURE + EncodeAndSend(5)) + TO_WAIT;
    OneMore(waiting, ReceiveAck(5, 0));
    OneMore(waiting + [ReceiveAck(5, 0)], PublishAck);
    assert waiting + [ReceiveAck(5, 0)] + [PublishAck] == OutOfOrderRun();
    var s := After(OutOfOrderRun());
    WaitsExactlyWhenWindowFull(OutOfOrderRun(), now, answer);
    RunKeepsInv(OutOfOrderRun());
    WindowIsInFlight(s.loop, s.stopped, s.lastAcked);
    AboveTwoEntries(7, 5, 5);
  }

  /**
   What the main thread reads from the watchdog, at any point of any run: expired exactly
   when the calls made so far hold ten seconds of outstanding, unpaused work without an
   accepted acknowledgement.
   */
  lemma StallReportedExactly(run: seq<Step>, now: int)
    ensures After(run).watchdog.Expired(now) <==> W.Stalled(false, After(run).calls, now)
  {
    RunKeepsInv(run);
    W.ExpiredExactlyOnStall(false, After(run).calls, now);
  }

  /** While a packet is not acknowledged or a frame is being sent, the watchdog is armed. */
  lemma ArmedWhileWorkRemains(run: seq<Step>)
    ensures var s := After(run);
            s.watchdog.deadline != 0 <==> WhileBusy(s.loop.phase) || s.watchdog.acked < s.watchdog.submitted
  {
    var s := After(run);
    RunKeepsInv(run);
    W.FieldsMatchHistory(false, s.calls);
    W.DeadlineTracksProgress(false, s.calls);
  }
}
