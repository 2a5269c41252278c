/**
 The hand-off of decoded frames from the decoder thread to the UI thread
 (app/src/frame_buffer.c, app/src/screen.c): one pending frame under a mutex, and a
 NEW_FRAME event that is posted only when no earlier frame is pending.

 Frames are numbered in the order in which they are pushed.  Posting an event succeeds.
 */
module FrameHandoff {
  import opened Common

  datatype Producer = Idle | Posting     // Posting: the frame is in, its event is not
  datatype Ui = Waiting | Consuming      // Consuming: the event is out, the frame is not

  /** A frame given to the display, and whether applying it succeeded. */
  datatype Given = Given(frame: nat, applied: bool)

  datatype State = State(
    pending: Option<nat>,
    events: nat,
    producer: Producer,
    ui: Ui,
    paused: bool,
    resumeFrame: Option<nat>,
    pushed: nat,             // frames pushed so far
    consumed: nat,
    overwritten: nat,
    given: seq<Given>)

  function Initial(): State { State(None, 0, Idle, Waiting, false, None, 0, 0, 0, []) }

  datatype Step =
    | PushStep(refOk: bool)      // the section of the frame sink under the mutex
    | PostStep
    | EventStep                  // the UI thread takes a NEW_FRAME event
    | ConsumeStep(applied: bool) // the event's handler
    | PauseStep(paused: bool, applied: bool)

  function Push(s: State, refOk: bool): State {
    if !s.producer.Idle? || !refOk then s
    else
      s.(pending := Some(s.pushed), pushed := s.pushed + 1,
         producer := if s.pending.None? then Posting else Idle,
         overwritten := if s.pending.None? then s.overwritten else s.overwritten + 1)
  }

  function Consume(s: State, applied: bool): State {
    if !s.ui.Consuming? || s.pending.None? then s
    else
      var t := s.(ui := Waiting, pending := None, consumed := s.consumed + 1);
      if s.paused then t.(resumeFrame := s.pending)
      else t.(given := s.given + [Given(s.pending.value, applied)])
  }

  function SetPaused(s: State, p: bool, applied: bool): State {
    if !s.ui.Waiting? || (!p && !s.paused) then s
    else if s.paused && s.resumeFrame.Some?
    then s.(given := s.given + [Given(s.resumeFrame.value, applied)], resumeFrame := None, paused := p)
    else s.(paused := p)
  }

  function Next(s: State, step: Step): State {
    match step
    case PushStep(refOk) => Push(s, refOk)
    case PostStep => if s.producer.Posting? then s.(producer := Idle, events := s.events + 1) else s
    case EventStep => if s.ui.Waiting? && s.events > 0 then s.(ui := Consuming, events := s.events - 1) else s
    case ConsumeStep(applied) => Consume(s, applied)
    case PauseStep(p, applied) => SetPaused(s, p, applied)
  }

  function After(run: seq<Step>): State {
    if run == [] then Initial() else Next(After(run[..|run| - 1]), run[|run| - 1])
  }

  /** Events posted, about to be posted, or taken and about to be handled. */
  function Tokens(s: State): nat {
    s.events + (if s.producer.Posting? then 1 else 0) + (if s.ui.Consuming? then 1 else 0)
  }

  function PendingCount(s: State): nat { if s.pending.Some? then 1 else 0 }

  /** One token for each pending frame: an event, a producer about to post it, or a UI that has taken it. */
  ghost predicate TokenInv(s: State) {
    Tokens(s) == PendingCount(s)
  }

  /** The frames that were applied, so that they are on display. */
  function Displayed(given: seq<Given>): seq<nat> {
    if given == [] then []
    else Displayed(given[..|given| - 1]) + if given[|given| - 1].applied then [given[|given| - 1].frame] else []
  }

  /** Given to the display in order, each once, and before `next`. */
  ghost predicate GivenInOrder(given: seq<Given>, next: nat) {
    && (forall i, j :: 0 <= i < j < |given| ==> given[i].frame < given[j].frame)
    && (forall i :: 0 <= i < |given| ==> given[i].frame < next)
  }

  /** Given before held for resuming before pending. */
  ghost predicate OrderInv(given: seq<Given>, resumeFrame: Option<nat>, pending: Option<nat>, pushed: nat) {
    && GivenInOrder(given, pushed)
    && (resumeFrame.Some? ==> resumeFrame.value < pushed && GivenInOrder(given, resumeFrame.value))
    && (pending.Some? ==> pending.value == pushed - 1 && GivenInOrder(given, pending.value))
    && (pending.Some? && resumeFrame.Some? ==> resumeFrame.value < pending.value)
  }

  /** The newest frame is pending, held or the last one given. */
  ghost predicate NewestInv(given: seq<Given>, resumeFrame: Option<nat>, pending: Option<nat>, pushed: nat) {
    pending.None? && pushed > 0 ==>
      if resumeFrame.Some? then resumeFrame.value == pushed - 1
      else given != [] && given[|given| - 1].frame == pushed - 1
  }

  ghost predicate Inv(s: State) {
    && TokenInv(s)
    && OrderInv(s.given, s.resumeFrame, s.pending, s.pushed)
    && NewestInv(s.given, s.resumeFrame, s.pending, s.pushed)
    && (s.resumeFrame.Some? ==> s.paused)
    && s.pushed == s.consumed + s.overwritten + PendingCount(s)
  }

  lemma StepKeepsTokens(s: State, step: Step)
    requires TokenInv(s)
    ensures TokenInv(Next(s, step))
  {
  }

  lemma GiveKeepsOrder(given: seq<Given>, g: Given, next: nat)
    requires GivenInOrder(given, g.frame) && g.frame < next
    ensures GivenInOrder(given + [g], next)
  {
  }

  lemma PushKeepsInv(s: State, refOk: bool)
    requires Inv(s)
    ensures Inv(Push(s, refOk))
  {
  }

  lemma ConsumeKeepsInv(s: State, applied: bool)
    requires Inv(s)
    ensures Inv(Consume(s, applied))
  {
    if s.pending.Some? {
      GiveKeepsOrder(s.given, Given(s.pending.value, applied), s.pushed);
    }
  }

  lemma PauseKeepsInv(s: State, p: bool, applied: bool)
    requires Inv(s)
    ensures Inv(SetPaused(s, p, applied))
  {
    if s.resumeFrame.Some? {
      var g := Given(s.resumeFrame.value, applied);
      GiveKeepsOrder(s.given, g, s.pushed);
      if s.pending.Some? {
        GiveKeepsOrder(s.given, g, s.pending.value);
      }
    }
  }

  lemma StepKeepsInv(s: State, step: Step, t: State)
    requires Inv(s) && t == Next(s, step)
    ensures Inv(t)
  {
    match step
    case PushStep(refOk) => PushKeepsInv(s, refOk);
    case ConsumeStep(applied) => ConsumeKeepsInv(s, applied);
    case PauseStep(p, applied) => PauseKeepsInv(s, p, applied);
    case _ =>
  }

  lemma {:induction false} RunKeepsInv(run: seq<Step>)
    ensures Inv(After(run))
  {
    if run != [] {
      var front := run[..|run| - 1];
      RunKeepsInv(front);
      StepKeepsInv(After(front), run[|run| - 1], After(run));
    }
  }

  /** Events queued, being posted and being handled together are one per pending frame; so the handler always finds a frame. */
  lemma {:induction false} EventsMatchFrames(run: seq<Step>)
    ensures var s := After(run);
            && Tokens(s) == PendingCount(s)
            && (s.ui.Consuming? ==> s.pending.Some?)
  {
    RunKeepsInv(run);
  }

  lemma {:induction false} DisplayedAreGiven(given: seq<Given>, next: nat)
    requires GivenInOrder(given, next)
    ensures forall i, j :: 0 <= i < j < |Displayed(given)| ==> Displayed(given)[i] < Displayed(given)[j]
    ensures forall i :: 0 <= i < |Displayed(given)| ==> Displayed(given)[i] < next
  {
    if given != [] {
      var front, last := given[..|given| - 1], given[|given| - 1];
      assert GivenInOrder(front, last.frame);
      DisplayedAreGiven(front, last.frame);
    }
  }

  /** Frames are displayed in order and at most once, across pauses, repeated pauses, resumes and failures to apply one. */
  lemma DisplayedInOrder(run: seq<Step>)
    ensures var s := After(run);
            var displayed := Displayed(s.given);
            && (forall i, j :: 0 <= i < j < |displayed| ==> displayed[i] < displayed[j])
            && (forall i :: 0 <= i < |displayed| ==> displayed[i] < s.pushed)
  {
    RunKeepsInv(run);
    DisplayedAreGiven(After(run).given, After(run).pushed);
  }

  predicate Shows(s: State, frame: int) {
    var displayed := Displayed(s.given);
    displayed != [] && displayed[|displayed| - 1] == frame
  }

  lemma LastGivenShows(given: seq<Given>, next: nat)
    requires GivenInOrder(given, next) && given != []
    ensures var displayed, last := Displayed(given), given[|given| - 1];
            displayed != [] && displayed[|displayed| - 1] == last.frame <==> last.applied
  {
    var last := given[|given| - 1];
    DisplayedAreGiven(given[..|given| - 1], last.frame);
  }

  /** When nothing is pending and the display is not paused, the newest frame is on display, exactly unless applying it failed. */
  lemma NewestFrameDisplayed(run: seq<Step>)
    requires After(run).pending.None? && !After(run).paused && After(run).pushed > 0
    ensures var s := After(run);
            && s.given != [] && s.given[|s.given| - 1].frame == s.pushed - 1
            && (Shows(s, s.pushed - 1) <==> s.given[|s.given| - 1].applied)
  {
    var s := After(run);
    RunKeepsInv(run);
    LastGivenShows(s.given, s.pushed);
  }

  /**
   Unpausing, or pausing again, gives the newest frame consumed during the pause to the display:
   it shows exactly if applying it succeeds, and nothing is given when none was consumed.
   */
  lemma PauseEndShowsKept(run: seq<Step>, p: bool, applied: bool)
    requires After(run).paused && After(run).ui.Waiting?
    ensures var s, t := After(run), After(run + [PauseStep(p, applied)]);
            && t.paused == p && t.pending == s.pending && t.resumeFrame.None?
            && (if s.resumeFrame.Some? then
                  t.given == s.given + [Given(s.resumeFrame.value, applied)]
                  && (Shows(t, s.resumeFrame.value) <==> applied)
                else t.given == s.given)
  {
    var s, t := After(run), After(run + [PauseStep(p, applied)]);
    assert (run + [PauseStep(p, applied)])[..|run|] == run;
    RunKeepsInv(run);
    RunKeepsInv(run + [PauseStep(p, applied)]);
    if s.resumeFrame.Some? {
      LastGivenShows(t.given, t.pushed);
    }
  }

  /** With nothing pending, what unpausing shows is the newest frame of all. */
  lemma UnpauseShowsNewest(run: seq<Step>, applied: bool)
    requires After(run).paused && After(run).ui.Waiting? && After(run).pending.None? && After(run).pushed > 0
    ensures var t := After(run + [PauseStep(false, applied)]);
            && !t.paused && t.given != [] && t.given[|t.given| - 1].frame == t.pushed - 1
            && (Shows(t, t.pushed - 1) <==> t.given[|t.given| - 1].applied)
  {
    var more := run + [PauseStep(false, applied)];
    assert more[..|run|] == run;
    NewestFrameDisplayed(more);
  }

  /** Every pushed frame was consumed, was overwritten before that, or is pending. */
  lemma {:induction false} FramesAccountedFor(run: seq<Step>)
    ensures var s := After(run);
            s.pushed == s.consumed + s.overwritten + PendingCount(s)
  {
    RunKeepsInv(run);
  }

  // ----- The structures themselves

  /** The frame buffer: the pending frame and whether it was consumed. */
  class FrameBuffer {
    var pendingFrame: nat
    var pendingFrameConsumed: bool

    ghost function Value(): Option<nat>
      reads this
    {
      if pendingFrameConsumed then None else Some(pendingFrame)
    }

    constructor ()
      ensures Value() == None
    {
      pendingFrame, pendingFrameConsumed := 0, true;
    }

    method HasFrame() returns (has: bool)
      ensures has == Value().Some?
    {
      has := !pendingFrameConsumed;
    }

    method Push(frame: nat, refOk: bool) returns (ok: bool)
      modifies this
      ensures ok == refOk && Value() == if ok then Some(frame) else old(Value())
    {
      if !refOk {
        return false;
      }
      pendingFrame, pendingFrameConsumed := frame, false;
      return true;
    }

    method Consume() returns (frame: nat)
      requires Value().Some?
      modifies this
      ensures Value() == None && Some(frame) == old(Value())
    {
      pendingFrameConsumed := true;
      frame := pendingFrame;
    }
  }

  /** The part of the screen that the UI thread and the frame sink share. */
  class Screen {
    const fb: FrameBuffer
    var paused: bool
    var resumeFrame: Option<nat>
    ghost var s: State

    ghost predicate Valid()
      reads this, fb
    {
      s.pending == fb.Value() && s.paused == paused && s.resumeFrame == resumeFrame && TokenInv(s)
    }

    constructor ()
      ensures Valid() && s == Initial() && fresh(fb)
    {
      fb := new FrameBuffer();
      paused, resumeFrame, s := false, None, Initial();
    }

    /** The frame sink: returns whether an event has to be posted. */
    method FrameSinkPush(frame: nat, refOk: bool) returns (ok: bool, post: bool)
      requires Valid() && s.producer.Idle? && frame == s.pushed
      modifies this`s, fb
      ensures Valid() && s == Next(old(s), PushStep(refOk))
      ensures ok == refOk && post == s.producer.Posting?
    {
      StepKeepsTokens(s, PushStep(refOk));
      var previousSkipped := fb.HasFrame();
      ok := fb.Push(frame, refOk);
      s := Push(s, refOk);
      post := ok && !previousSkipped;
    }

    /** The handler of a NEW_FRAME event: the frame for the display, unless paused; `applied` is how applying it goes. */
    method UpdateFrame(applied: bool) returns (display: Option<nat>, ok: bool)
      requires Valid() && s.ui.Consuming?
      modifies this, fb
      ensures Valid() && s == Next(old(s), ConsumeStep(applied))
      ensures s.given == old(s).given + if display.Some? then [Given(display.value, applied)] else []
      ensures ok == (display.Some? ==> applied)
    {
      StepKeepsTokens(s, ConsumeStep(applied));
      var frame := fb.Consume();
      s := Consume(s, applied);
      if paused {
        resumeFrame := Some(frame);
        return None, true;
      }
      return Some(frame), applied;
    }

    method SetPaused(p: bool, ghost applied: bool) returns (display: Option<nat>)
      requires Valid() && s.ui.Waiting?
      modifies this
      ensures Valid() && s == Next(old(s), PauseStep(p, applied))
      ensures s.given == old(s).given + if display.Some? then [Given(display.value, applied)] else []
    {
      StepKeepsTokens(s, PauseStep(p, applied));
      display := None;
      s := Next(s, PauseStep(p, applied));
      if !p && !paused {
        return;
      }
      if paused && resumeFrame.Some? {
        display, resumeFrame := resumeFrame, None;
      }
      paused := p;
    }
  }
}
