/**
 What the main thread reads to notice a stall (app/src/reverse_display.c): the video watchdog of
 `FlowControl` and the audio watchdog, which the audio sender, the receiver thread and the phone's
 commands update under the same mutex.

 Commands and acknowledgements are handled by the receiver thread, one after the other.  A command
 takes several steps: stores to the two flags, and one section under the mutex.
 */
module StallReport {
  import opened Common
  import F = FlowControl
  import W = Watchdog

  /** Where the receiver thread is in a command of the phone. */
  datatype Command =
    | Idle
    | SwitchingAudio      // stored whether audio is enabled
    | Pausing             // stored that video is paused
    | Resuming            // resumed the watchdogs

  datatype State = State(
    video: F.State,
    audio: W.State,
    audioEnabled: bool,
    command: Command,
    sending: bool,        // the audio sender is between begin and end
    calls: W.History)     // every call made on the audio watchdog

  /** Old phones receive video only, so the audio watchdog begins paused. */
  function Initial(): State { State(F.Initial(), W.Initial(true), false, Idle, false, []) }

  datatype Step =
    | OnVideo(step: F.Step)                       // the capture thread, the video acknowledgements, the stop
    | BeginAudio(packet: Option<int>, now: nat)   // a packet is submitted, the configuration is not
    | EndAudio
    | ReceiveAudioAck(pts: int, now: nat)
    | SwitchAudio(enabled: bool)
    | PauseVideo
    | ResumeVideo(videoNow: nat, audioNow: nat)
    | FinishCommand(videoNow: nat, audioNow: nat)

  function Called(s: State, c: W.Call): State {
    s.(audio := W.Apply(s.audio, c), calls := s.calls + [c])
  }

  /** The receiver thread is free: between messages. */
  predicate Free(s: State) { s.command.Idle? && s.video.receiver.Listening? }

  /** The step that a step of all threads is for the part that `FlowControl` models. */
  function VideoStep(s: State, step: Step): Option<F.Step> {
    match step
    case OnVideo(v) =>
      if v.StorePaused? || v.PauseWatchdog? || (v.ReceiveAck? && !s.command.Idle?) then None else Some(v)
    case PauseVideo => if Free(s) then Some(F.StorePaused(true)) else None
    case ResumeVideo(now, _) => if Free(s) then Some(F.PauseWatchdog(false, now)) else None
    case FinishCommand(now, _) =>
      if s.command.Pausing? then Some(F.PauseWatchdog(true, now))
      else if s.command.Resuming? then Some(F.StorePaused(false))
      else None
    case _ => None
  }

  /** What a step does to everything else. */
  function AudioStep(s: State, step: Step): State {
    match step
    case OnVideo(_) => s
    case BeginAudio(packet, now) =>
      if s.sending then s
      else
        var t := Called(s, W.BeginCall(now)).(sending := true);
        if packet.Some? then Called(t, W.SubmitCall(packet.value)) else t
    case EndAudio => if s.sending then Called(s, W.EndCall).(sending := false) else s
    case ReceiveAudioAck(pts, now) => if Free(s) then Called(s, W.AckCall(pts, now)) else s
    case SwitchAudio(enabled) => if Free(s) then s.(audioEnabled := enabled, command := SwitchingAudio) else s
    case PauseVideo => if Free(s) then s.(command := Pausing) else s
    case ResumeVideo(_, now) =>
      if Free(s) then Called(s, W.PauseCall(!s.audioEnabled, now)).(command := Resuming) else s
    case FinishCommand(_, now) =>
      (match s.command
       case Idle => s
       case SwitchingAudio => Called(s, W.PauseCall(!s.audioEnabled || s.video.videoPaused, now)).(command := Idle)
       case Pausing => Called(s, W.PauseCall(true, now)).(command := Idle)
       case Resuming => s.(command := Idle))
  }

  function Next(s: State, step: Step): State {
    var v := VideoStep(s, step);
    AudioStep(s, step).(video := if v.Some? then F.Next(s.video, v.value) else s.video)
  }

  function After(run: seq<Step>): State {
    if run == [] then Initial() else Next(After(run[..|run| - 1]), run[|run| - 1])
  }

  /** The steps of a run that `FlowControl` models. */
  function VideoSteps(run: seq<Step>): seq<F.Step> {
    if run == [] then []
    else
      var front := run[..|run| - 1];
      var v := VideoStep(After(front), run[|run| - 1]);
      VideoSteps(front) + if v.Some? then [v.value] else []
  }

  // ----- The audio watchdog sees a disciplined history

  ghost predicate AudioInv(audio: W.State, sending: bool, calls: W.History) {
    audio == W.Run(true, calls) && W.Disciplined(calls) && (audio.busy <==> sending)
  }

  lemma CallKeepsAudio(s: State, c: W.Call)
    requires AudioInv(s.audio, s.sending, s.calls) && (c.AckCall? || c.PauseCall?) && c.now >= 0
    ensures var t := Called(s, c); AudioInv(t.audio, t.sending, t.calls)
  {
    W.CallExtends(true, s.audio, s.calls, c);
  }

  lemma BeginKeepsAudio(s: State, packet: Option<int>, now: nat)
    requires AudioInv(s.audio, s.sending, s.calls) && !s.sending
    ensures var t := AudioStep(s, BeginAudio(packet, now)); AudioInv(t.audio, t.sending, t.calls)
  {
    W.CallExtends(true, s.audio, s.calls, W.BeginCall(now));
    var t := Called(s, W.BeginCall(now));
    if packet.Some? {
      W.CallExtends(true, t.audio, t.calls, W.SubmitCall(packet.value));
    }
  }

  lemma ResumeKeepsAudio(s: State, videoNow: nat, audioNow: nat)
    requires AudioInv(s.audio, s.sending, s.calls)
    ensures var t := AudioStep(s, ResumeVideo(videoNow, audioNow)); AudioInv(t.audio, t.sending, t.calls)
  {
    if Free(s) {
      CallKeepsAudio(s, W.PauseCall(!s.audioEnabled, audioNow));
    }
  }

  lemma FinishKeepsAudio(s: State, videoNow: nat, audioNow: nat)
    requires AudioInv(s.audio, s.sending, s.calls)
    ensures var t := AudioStep(s, FinishCommand(videoNow, audioNow)); AudioInv(t.audio, t.sending, t.calls)
  {
    if s.command.SwitchingAudio? {
      CallKeepsAudio(s, W.PauseCall(!s.audioEnabled || s.video.videoPaused, audioNow));
    } else if s.command.Pausing? {
      CallKeepsAudio(s, W.PauseCall(true, audioNow));
    }
  }

  lemma SendKeepsAudio(s: State, step: Step)
    requires AudioInv(s.audio, s.sending, s.calls) && (step.BeginAudio? || step.EndAudio? || step.ReceiveAudioAck?)
    ensures var t := AudioStep(s, step); AudioInv(t.audio, t.sending, t.calls)
  {
    match step
    case BeginAudio(packet, now) =>
      if !s.sending {
        BeginKeepsAudio(s, packet, now);
      }
    case EndAudio =>
      if s.sending {
        W.CallExtends(true, s.audio, s.calls, W.EndCall);
      }
    case ReceiveAudioAck(pts, now) => CallKeepsAudio(s, W.AckCall(pts, now));
  }

  lemma StepKeepsAudio(s: State, step: Step)
    requires AudioInv(s.audio, s.sending, s.calls)
    ensures var t := AudioStep(s, step); AudioInv(t.audio, t.sending, t.calls)
  {
    match step
    case ResumeVideo(videoNow, audioNow) => ResumeKeepsAudio(s, videoNow, audioNow);
    case FinishCommand(videoNow, audioNow) => FinishKeepsAudio(s, videoNow, audioNow);
    case OnVideo(_) =>
    case SwitchAudio(_) =>
    case PauseVideo =>
    case _ => SendKeepsAudio(s, step);
  }

  lemma {:induction false} VideoIsItsOwnRun(run: seq<Step>)
    ensures After(run).video == F.After(VideoSteps(run))
  {
    if run != [] {
      var front, step := run[..|run| - 1], run[|run| - 1];
      VideoIsItsOwnRun(front);
      var v := VideoStep(After(front), step);
      if v.Some? {
        F.OneMore(VideoSteps(front), v.value);
      } else {
        NothingAdded(VideoSteps(front));
      }
    }
  }

  lemma {:induction false} RunKeepsAudio(run: seq<Step>)
    ensures AudioInv(After(run).audio, After(run).sending, After(run).calls)
  {
    if run != [] {
      RunKeepsAudio(run[..|run| - 1]);
      StepKeepsAudio(After(run[..|run| - 1]), run[|run| - 1]);
    }
  }

  /**
   What the main thread reads, at any point of any interleaving of all threads: a stall is
   reported exactly when the calls made on one of the two watchdogs hold ten seconds of
   outstanding, unpaused work without an accepted acknowledgement.  The two times are read one
   after the other.
   */
  lemma StallReportedExactly(run: seq<Step>, videoNow: int, audioNow: int)
    ensures var s := After(run);
            s.video.watchdog.Expired(videoNow) || s.audio.Expired(audioNow) <==>
            W.Stalled(false, s.video.calls, videoNow) || W.Stalled(true, s.calls, audioNow)
  {
    VideoIsItsOwnRun(run);
    RunKeepsAudio(run);
    F.StallReportedExactly(VideoSteps(run), videoNow);
    W.ExpiredExactlyOnStall(true, After(run).calls, audioNow);
  }

  // ----- Pausing

  /** The watchdogs follow the flags, but for what the command at hand has still to do. */
  predicate PauseInv(s: State) {
    match s.command
    case Idle =>
      (s.video.watchdog.paused <==> s.video.videoPaused) && (s.audio.paused <==> !s.audioEnabled || s.video.videoPaused)
    case SwitchingAudio => s.video.watchdog.paused <==> s.video.videoPaused
    case Pausing => s.video.videoPaused && (!s.audioEnabled ==> s.audio.paused)
    case Resuming => !s.video.watchdog.paused && (s.audio.paused <==> !s.audioEnabled)
  }

  /** Sends, acknowledgements and the stop leave both flags and the pause of the watchdog alone. */
  lemma OthersKeepVideoPause(v: F.State, step: F.Step)
    requires !step.StorePaused? && !step.PauseWatchdog?
    ensures F.Next(v, step).videoPaused == v.videoPaused && F.Next(v, step).watchdog.paused == v.watchdog.paused
  {
  }

  lemma StepKeepsPause(s: State, step: Step)
    requires PauseInv(s)
    ensures PauseInv(Next(s, step))
  {
    if step.OnVideo? && VideoStep(s, step).Some? {
      OthersKeepVideoPause(s.video, step.step);
    }
  }

  lemma {:induction false} RunKeepsPause(run: seq<Step>)
    ensures PauseInv(After(run))
  {
    if run != [] {
      RunKeepsPause(run[..|run| - 1]);
      StepKeepsPause(After(run[..|run| - 1]), run[|run| - 1]);
    }
  }

  /**
   Whatever commands the phone has given, and whatever the other threads do: after each of them the
   video watchdog is paused exactly when video is, and the audio watchdog exactly when audio is
   disabled or video is paused.
   */
  lemma PausesFollowCommands(run: seq<Step>)
    requires After(run).command.Idle?
    ensures var s := After(run);
            && (s.video.watchdog.paused <==> s.video.videoPaused)
            && (s.audio.paused <==> !s.audioEnabled || s.video.videoPaused)
  {
    RunKeepsPause(run);
  }

  /** So once a pause command is done, a phone that has paused video is not taken for a stall. */
  lemma PausedIsSilent(run: seq<Step>, videoNow: int, audioNow: int)
    requires After(run).command.Idle? && After(run).video.videoPaused
    ensures !After(run).video.watchdog.Expired(videoNow) && !After(run).audio.Expired(audioNow)
  {
    RunKeepsPause(run);
  }

  /** While audio is disabled its watchdog reports nothing, from the end of the command that disabled it on. */
  lemma SilentWhileDisabled(run: seq<Step>, now: int)
    requires !After(run).audioEnabled && !After(run).command.SwitchingAudio?
    ensures After(run).audio.paused && !After(run).audio.Expired(now)
  {
    RunKeepsPause(run);
  }

  lemma StaysDisabled(s: State, step: Step)
    requires !s.audioEnabled && s.audio.paused && (step.SwitchAudio? ==> !step.enabled)
    ensures !AudioStep(s, step).audioEnabled && AudioStep(s, step).audio.paused
  {
  }

  lemma {:induction false} NeverEnabled(run: seq<Step>)
    requires forall i :: 0 <= i < |run| && run[i].SwitchAudio? ==> !run[i].enabled
    ensures !After(run).audioEnabled && After(run).audio.paused
  {
    if run != [] {
      var front, step := run[..|run| - 1], run[|run| - 1];
      assert forall i :: 0 <= i < |front| ==> front[i] == run[i];
      NeverEnabled(front);
      StaysDisabled(After(front), step);
    }
  }

  /** Until the phone first enables audio, its watchdog reports nothing, whatever is sent, paused or resumed. */
  lemma SilentUntilEnabled(run: seq<Step>, now: int)
    requires forall i :: 0 <= i < |run| && run[i].SwitchAudio? ==> !run[i].enabled
    ensures After(run).audio.paused && !After(run).audio.Expired(now)
  {
    NeverEnabled(run);
  }
}
