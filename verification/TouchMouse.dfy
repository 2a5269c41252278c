/**
 The mouse button of the touch injector: when it goes down and up, and when it stays down.
 */
module TouchMouse {
  import opened Common
  import opened Touch

  // ----- The mouse button

  /** Successful presses (true) and attempted releases (false), in order. */
  function Buttons(log: seq<Output>): seq<bool> {
    if log == [] then []
    else Buttons(log[..|log| - 1]) + ButtonOf(log[|log| - 1])
  }

  function ButtonOf(o: Output): seq<bool> {
    match o
    case Mouse(Press, _, _, true) => [true]
    case Mouse(Release, _, _, _) => [false]
    case _ => []
  }

  ghost predicate Alternates(bs: seq<bool>) {
    forall i :: 0 <= i < |bs| ==> bs[i] == (i % 2 == 0)
  }

  ghost predicate ButtonInv(log: seq<Output>, fallback: Fallback) {
    && Alternates(Buttons(log))
    && fallback.held == (|Buttons(log)| % 2 == 1)
    && (fallback.held ==> fallback.used)
  }

  lemma SendKeepsButtons(log: seq<Output>, o: Output, f: Fallback, g: Fallback)
    requires ButtonInv(log, f) && (g.held ==> g.used)
    requires match o
             case Mouse(Press, _, _, ok) => !f.held && g.held == ok
             case Mouse(Release, _, _, _) => f.held && !g.held
             case _ => g.held == f.held
    ensures ButtonInv(log + [o], g)
  {
    assert (log + [o])[..|log|] == log;
    assert Buttons(log + [o]) == Buttons(log) + ButtonOf(o);
  }

  lemma MouseFrameKeepsButtons(s: State, k: nat, flags: Flags, ok: bool)
    requires k < |s.touches.contacts| <= MAX_TOUCHES && ButtonInv(s.log, s.fallback) && s.fallback.used
    ensures var t := MouseFrame(s, k, flags, ok).0; ButtonInv(t.log, t.fallback)
  {
    var t := MouseFrame(s, k, flags, ok).0;
    if t.log != s.log {
      SendKeepsButtons(s.log, t.log[|s.log|], s.fallback, t.fallback);
    }
  }

  lemma TouchFrameKeepsButtons(s: State, k: nat, flags: Flags, answers: Answers)
    requires k < |s.touches.contacts| <= MAX_TOUCHES && ButtonInv(s.log, s.fallback)
    ensures var t := TouchFrame(s, k, flags, answers).0; ButtonInv(t.log, t.fallback)
  {
    if s.fallback.used {
      MouseFrameKeepsButtons(s, k, flags, answers.mouse);
    } else {
      var o := Frame(Entries(s.touches.contacts, k, flags), answers.frame);
      SendKeepsButtons(s.log, o, s.fallback, s.fallback);
      if !answers.frame {
        MouseFrameKeepsButtons(s.(log := s.log + [o], fallback := s.fallback.(used := true)), k, flags, answers.mouse);
      }
    }
  }

  lemma CancelKeepsButtons(s: State, ok: bool)
    requires |s.touches.contacts| <= MAX_TOUCHES && ButtonInv(s.log, s.fallback)
    ensures var t := Cancel(s, ok); ButtonInv(t.log, t.fallback)
  {
    var t := Cancel(s, ok);
    if t.log != s.log {
      SendKeepsButtons(s.log, t.log[|s.log|], s.fallback, t.fallback);
    }
  }

  lemma ChangeKeepsButtons(s: State, contacts: seq<Contact>, primary: nat, k: nat, flags: Flags, answers: Answers)
    requires k < |contacts| <= MAX_TOUCHES && ButtonInv(s.log, s.fallback)
    ensures var t := Change(s, contacts, primary, k, flags, answers); ButtonInv(t.log, t.fallback)
  {
    TouchFrameKeepsButtons(s.(touches := Touches(contacts, primary)), k, flags, answers);
  }

  lemma DownKeepsButtons(s: State, m: Msg, d: Desktop, answers: Answers)
    requires |s.touches.contacts| <= MAX_TOUCHES && ButtonInv(s.log, s.fallback)
    ensures var t := TouchDown(s, m, d, answers); ButtonInv(t.log, t.fallback)
  {
    CancelKeepsButtons(s, answers.cancel);
    if at :| MapPosition(m.position, d) == Some(at) {
      ChangeKeepsButtons(Cancel(s, answers.cancel), [ContactOf(m, at)], m.id, 0, DownFlags, answers);
    }
  }

  lemma MoveKeepsButtons(s: State, m: Msg, d: Desktop, answers: Answers)
    requires |s.touches.contacts| <= MAX_TOUCHES && ButtonInv(s.log, s.fallback)
    ensures var t := TouchMove(s, m, d, answers); ButtonInv(t.log, t.fallback)
  {
    var contacts, primary := s.touches.contacts, s.touches.primary;
    var flags := if ActionOf(m.action) == PointerDown then DownFlags else UpdateFlags;
    if at :| MapPosition(m.position, d) == Some(at) {
      var k, c := Find(contacts, m.id), ContactOf(m, at);
      if k < |contacts| {
        ChangeKeepsButtons(s, contacts[k := c], primary, k, flags, answers);
      } else if |contacts| < MAX_TOUCHES {
        ChangeKeepsButtons(s, contacts + [c], primary, |contacts|, flags, answers);
      }
    }
  }

  lemma UpKeepsButtons(s: State, m: Msg, answers: Answers)
    requires |s.touches.contacts| <= MAX_TOUCHES && ButtonInv(s.log, s.fallback)
    ensures var t := TouchUp(s, m, answers); ButtonInv(t.log, t.fallback)
  {
    var k := Find(s.touches.contacts, m.id);
    if k < |s.touches.contacts| {
      ChangeKeepsButtons(s, s.touches.contacts, s.touches.primary, k, UpFlags, answers);
    }
  }

  lemma InjectKeepsButtons(s: State, m: Msg, d: Desktop, answers: Answers)
    requires |s.touches.contacts| <= MAX_TOUCHES && ButtonInv(s.log, s.fallback)
    ensures var t := Inject(s, m, d, answers); ButtonInv(t.log, t.fallback)
  {
    match ActionOf(m.action)
    case Down => DownKeepsButtons(s, m, d, answers);
    case PointerDown => MoveKeepsButtons(s, m, d, answers);
    case Move => MoveKeepsButtons(s, m, d, answers);
    case Up => UpKeepsButtons(s, m, answers);
    case PointerUp => UpKeepsButtons(s, m, answers);
    case CancelAll => CancelKeepsButtons(s, answers.cancel);
    case Other =>
  }

  lemma ScrollKeepsButtons(s: State, p: Position, d: Desktop, answers: Answers)
    requires |s.touches.contacts| <= MAX_TOUCHES && ButtonInv(s.log, s.fallback)
    ensures var t := Scroll(s, p, d, answers); ButtonInv(t.log, t.fallback)
  {
    CancelKeepsButtons(s, answers.cancel);
    var t, u := Cancel(s, answers.cancel), Scroll(s, p, d, answers);
    if u != s {
      SendKeepsButtons(t.log, u.log[|t.log|], t.fallback, u.fallback);
    }
  }

  lemma StepKeepsButtons(s: State, step: Step, t: State)
    requires |s.touches.contacts| <= MAX_TOUCHES && ButtonInv(s.log, s.fallback) && t == Next(s, step)
    ensures ButtonInv(t.log, t.fallback)
  {
    match step
    case OnTouch(m, d, answers) => InjectKeepsButtons(s, m, d, answers);
    case OnScroll(p, d, answers) => ScrollKeepsButtons(s, p, d, answers);
    case OnEnd(answers) => CancelKeepsButtons(s, answers.cancel);
  }

  /**
   For every run, whatever the system answers: successful presses and attempted releases of the
   button alternate, beginning with a press, and the flag says which came last.
   */
  lemma {:induction false} ButtonsAlternate(initialized: bool, run: seq<Step>)
    ensures ButtonInv(After(initialized, run).log, After(initialized, run).fallback)
  {
    if run != [] {
      ButtonsAlternate(initialized, run[..|run| - 1]);
      StepKeepsButtons(After(initialized, run[..|run| - 1]), run[|run| - 1], After(initialized, run));
    }
  }

  /** Whether the button is down as the system sees it. */
  function Pressed(log: seq<Output>): bool {
    if log == [] then false
    else match log[|log| - 1]
         case Mouse(Press, _, _, true) => true
         case Mouse(Release, _, _, true) => false
         case _ => Pressed(log[..|log| - 1])
  }

  ghost predicate ReleasesSucceed(log: seq<Output>) {
    forall i :: 0 <= i < |log| && log[i].Mouse? && log[i].button.Release? ==> log[i].ok
  }

  lemma AlternatesBefore(before: seq<bool>, last: seq<bool>)
    requires Alternates(before + last)
    ensures Alternates(before)
    ensures last != [] ==> last[0] == (|before| % 2 == 0)
  {
    assert forall i :: 0 <= i < |before| ==> before[i] == (before + last)[i];
    assert last != [] ==> last[0] == (before + last)[|before|];
  }

  lemma {:induction false} PressedIsParity(log: seq<Output>)
    requires ReleasesSucceed(log) && Alternates(Buttons(log))
    ensures Pressed(log) == (|Buttons(log)| % 2 == 1)
  {
    if log != [] {
      var before, o := log[..|log| - 1], log[|log| - 1];
      AlternatesBefore(Buttons(before), ButtonOf(o));
      if ButtonOf(o) == [] {
        PressedIsParity(before);
      }
    }
  }

  /** When no release fails, the flag is the state of the button. */
  lemma HeldIsPressed(initialized: bool, run: seq<Step>)
    requires ReleasesSucceed(After(initialized, run).log)
    ensures After(initialized, run).fallback.held == Pressed(After(initialized, run).log)
  {
    ButtonsAlternate(initialized, run);
    PressedIsParity(After(initialized, run).log);
  }

  // ----- A button that stays down

  /** The button is held and no contact is left that could release it. */
  predicate Stranded(s: State) { s.fallback.held && s.touches.contacts == [] }

  /** A move whose mouse event fails while the button is held. */
  predicate MoveFails(s: State, m: Msg, d: Desktop, answers: Answers)
    requires |s.touches.contacts| <= MAX_TOUCHES
  {
    && ActionOf(m.action) == Move && MapPosition(m.position, d).Some?
    && s.fallback.held && !answers.mouse
    && Find(s.touches.contacts, m.id) < |s.touches.contacts|
    && Find(s.touches.contacts, s.touches.primary) < |s.touches.contacts|
  }

  /** The last contact is lifted, it is not the primary, and it holds or now presses the button. */
  predicate OtherLiftsLast(s: State, m: Msg, answers: Answers)
    requires |s.touches.contacts| <= MAX_TOUCHES
  {
    && (ActionOf(m.action) == Up || ActionOf(m.action) == PointerUp)
    && |s.touches.contacts| == 1 && s.touches.contacts[0].id == m.id != s.touches.primary
    && (s.fallback.held || ((s.fallback.used || !answers.frame) && answers.mouse))
  }

  predicate Strands(s: State, step: Step)
    requires |s.touches.contacts| <= MAX_TOUCHES
  {
    && step.OnTouch? && step.msg.id <= MAX_POINTER_ID
    && (MoveFails(s, step.msg, step.desktop, step.answers) || OtherLiftsLast(s, step.msg, step.answers))
  }

  /** What is needed of a state: everything here holds after any run. */
  ghost predicate MouseInv(s: State) {
    TouchesInv(s.touches) && (s.fallback.held ==> s.fallback.used)
  }

  /** When a change of some contact leaves the button down with no contact. */
  lemma ChangeStrands(s: State, contacts: seq<Contact>, primary: nat, k: nat, flags: Flags, answers: Answers)
    requires TouchesInv(Touches(contacts, primary)) && k < |contacts| && (s.fallback.held ==> s.fallback.used)
    requires flags != CancelFlags
    ensures Stranded(Change(s, contacts, primary, k, flags, answers)) <==>
            || (flags == UpdateFlags && s.fallback.held && !answers.mouse && Find(contacts, primary) < |contacts|)
            || (flags == UpFlags && |contacts| == 1 && contacts[k].id != primary
                && (s.fallback.held || ((s.fallback.used || !answers.frame) && answers.mouse)))
  {
    FindsLive(contacts, primary);
  }

  lemma MoveStrands(s: State, m: Msg, d: Desktop, answers: Answers)
    requires MouseInv(s) && !Stranded(s) && m.id <= MAX_POINTER_ID
    ensures Stranded(TouchMove(s, m, d, answers)) <==> 
            MapPosition(m.position, d).Some? && ActionOf(m.action) != PointerDown && s.fallback.held && !answers.mouse
            && Find(s.touches.contacts, m.id) < |s.touches.contacts|
            && Find(s.touches.contacts, s.touches.primary) < |s.touches.contacts|
  {
    var contacts, primary := s.touches.contacts, s.touches.primary;
    var flags := if ActionOf(m.action) == PointerDown then DownFlags else UpdateFlags;
    if at :| MapPosition(m.position, d) == Some(at) {
      var k, c := Find(contacts, m.id), ContactOf(m, at);
      FindsLive(contacts, m.id);
      if k < |contacts| {
        ReplaceKeepsTouches(s.touches, k, c);
        ChangeStrands(s, contacts[k := c], primary, k, flags, answers);
        ReplaceKeepsLive(contacts, k, c, primary);
      } else if |contacts| < MAX_TOUCHES {
        AddKeepsTouches(s.touches, c);
        ChangeStrands(s, contacts + [c], primary, |contacts|, flags, answers);
      }
    }
  }

  lemma ReplaceKeepsLive(contacts: seq<Contact>, k: nat, c: Contact, id: nat)
    requires k < |contacts| <= MAX_TOUCHES && c.id == contacts[k].id
    ensures Find(contacts[k := c], id) < |contacts| <==> Find(contacts, id) < |contacts|
  {
    FindsLive(contacts, id);
    FindsLive(contacts[k := c], id);
    if i :| 0 <= i < |contacts| && contacts[i].id == id {
      assert contacts[k := c][i].id == id;
    }
    var changed := contacts[k := c];
    if i :| 0 <= i < |changed| && changed[i].id == id {
      assert contacts[i].id == id;
    }
  }

  lemma UpStrands(s: State, m: Msg, answers: Answers)
    requires MouseInv(s) && !Stranded(s)
    ensures Stranded(TouchUp(s, m, answers)) <==>
            && |s.touches.contacts| == 1 && s.touches.contacts[0].id == m.id != s.touches.primary
            && (s.fallback.held || ((s.fallback.used || !answers.frame) && answers.mouse))
  {
    var k := Find(s.touches.contacts, m.id);
    FindsLive(s.touches.contacts, m.id);
    if k < |s.touches.contacts| {
      ChangeStrands(s, s.touches.contacts, s.touches.primary, k, UpFlags, answers);
    } else if |s.touches.contacts| == 1 {
      assert s.touches.contacts[0].id != m.id;
    }
  }

  lemma DownDoesNotStrand(s: State, m: Msg, d: Desktop, answers: Answers)
    requires MouseInv(s) && !Stranded(s) && m.id <= MAX_POINTER_ID
    ensures !Stranded(TouchDown(s, m, d, answers))
  {
    if at :| MapPosition(m.position, d) == Some(at) {
      var one := [ContactOf(m, at)];
      assert one[0].id == m.id;
      ChangeStrands(Cancel(s, answers.cancel), one, m.id, 0, DownFlags, answers);
    }
  }

  /** Exactly when a step leaves the button held with no contact. */
  lemma StrandsExactly(s: State, step: Step)
    requires MouseInv(s) && !Stranded(s)
    ensures Stranded(Next(s, step)) <==> Strands(s, step)
  {
    match step
    case OnTouch(m, d, answers) =>
      if m.id <= MAX_POINTER_ID {
        match ActionOf(m.action)
        case Down => DownDoesNotStrand(s, m, d, answers);
        case PointerDown => MoveStrands(s, m, d, answers);
        case Move => MoveStrands(s, m, d, answers);
        case Up => UpStrands(s, m, answers);
        case PointerUp => UpStrands(s, m, answers);
        case _ =>
      }
    case _ =>
  }

  lemma RunKeepsMouse(initialized: bool, run: seq<Step>)
    ensures MouseInv(After(initialized, run))
  {
    ContactsValid(initialized, run);
    ButtonsAlternate(initialized, run);
  }

  /** The end of the session releases the button exactly when it is not stranded. */
  lemma EndReleases(initialized: bool, run: seq<Step>, answers: Answers)
    ensures var s := After(initialized, run);
            Next(s, OnEnd(answers)).fallback.held <==> Stranded(s)
  {
    RunKeepsMouse(initialized, run);
  }

  /** No step of the run is one that strands the button. */
  predicate Avoids(initialized: bool, run: seq<Step>) {
    run == [] || (Avoids(initialized, run[..|run| - 1]) && !Strands(After(initialized, run[..|run| - 1]), run[|run| - 1]))
  }

  /** The button is not stranded after the run or any beginning of it. */
  predicate NeverStranded(initialized: bool, run: seq<Step>) {
    !Stranded(After(initialized, run)) && (run == [] || NeverStranded(initialized, run[..|run| - 1]))
  }

  /** For every run: the button is never stranded if and only if no step is a failing move or a last lift of another contact. */
  lemma {:induction false} NeverStrandedExactly(initialized: bool, run: seq<Step>)
    ensures NeverStranded(initialized, run) <==> Avoids(initialized, run)
  {
    if run != [] {
      var before := run[..|run| - 1];
      NeverStrandedExactly(initialized, before);
      if !Stranded(After(initialized, before)) {
        RunKeepsMouse(initialized, before);
        StrandsExactly(After(initialized, before), run[|run| - 1]);
      }
    }
  }

  // ----- Orderly gestures

  /**
   One step of an orderly gesture: other contacts join a gesture that has begun with a down, the
   primary lifts last, and moving the mouse works.
   */
  predicate Orderly(s: State, step: Step)
    requires |s.touches.contacts| <= MAX_TOUCHES
  {
    step.OnTouch? ==>
      var m, action := step.msg, ActionOf(step.msg.action);
      && (action == PointerDown ==> s.touches.contacts != [])
      && ((action == Up || action == PointerUp) && m.id == s.touches.primary ==> |s.touches.contacts| == 1)
      && (action == Move ==> step.answers.mouse)
  }

  predicate OrderlyRun(initialized: bool, run: seq<Step>) {
    run == [] || (OrderlyRun(initialized, run[..|run| - 1]) && Orderly(After(initialized, run[..|run| - 1]), run[|run| - 1]))
  }

  ghost predicate HasPrimary(t: Touches) { t.contacts == [] || Live(t.contacts, t.primary) }

  lemma ChangeKeepsPrimary(s: State, contacts: seq<Contact>, primary: nat, k: nat, flags: Flags, answers: Answers)
    requires TouchesInv(Touches(contacts, primary)) && HasPrimary(Touches(contacts, primary)) && k < |contacts|
    requires flags == UpFlags && contacts[k].id == primary ==> |contacts| == 1
    ensures HasPrimary(Change(s, contacts, primary, k, flags, answers).touches)
  {
    RemoveKeepsTouches(Touches(contacts, primary), k);
  }

  lemma MoveKeepsPrimary(s: State, m: Msg, d: Desktop, answers: Answers)
    requires TouchesInv(s.touches) && HasPrimary(s.touches) && m.id <= MAX_POINTER_ID
    requires ActionOf(m.action) == PointerDown ==> s.touches.contacts != []
    ensures HasPrimary(TouchMove(s, m, d, answers).touches)
  {
    var contacts, primary := s.touches.contacts, s.touches.primary;
    var flags := if ActionOf(m.action) == PointerDown then DownFlags else UpdateFlags;
    if at :| MapPosition(m.position, d) == Some(at) {
      var k, c := Find(contacts, m.id), ContactOf(m, at);
      FindsLive(contacts, m.id);
      if k < |contacts| {
        ReplaceKeepsTouches(s.touches, k, c);
        NoPrimaryNotLive(s.touches);
        ChangeKeepsPrimary(s, contacts[k := c], primary, k, flags, answers);
      } else if 0 < |contacts| < MAX_TOUCHES {
        AddKeepsTouches(s.touches, c);
        NoPrimaryNotLive(s.touches);
        ChangeKeepsPrimary(s, contacts + [c], primary, |contacts|, flags, answers);
      }
    }
  }

  /** "No primary" is the id of no contact. */
  lemma NoPrimaryNotLive(t: Touches)
    requires TouchesInv(t)
    ensures !Live(t.contacts, NO_PRIMARY)
  {
  }

  lemma StepKeepsPrimary(s: State, step: Step)
    requires TouchesInv(s.touches) && HasPrimary(s.touches) && Orderly(s, step)
    ensures HasPrimary(Next(s, step).touches)
  {
    match step
    case OnTouch(m, d, answers) =>
      if m.id <= MAX_POINTER_ID {
        match ActionOf(m.action)
        case Down =>
          if at :| MapPosition(m.position, d) == Some(at) {
            var one := [ContactOf(m, at)];
            assert one[0].id == m.id;
            ChangeKeepsPrimary(Cancel(s, answers.cancel), one, m.id, 0, DownFlags, answers);
          }
        case PointerDown => MoveKeepsPrimary(s, m, d, answers);
        case Move => MoveKeepsPrimary(s, m, d, answers);
        case Up => UpKeepsPrimary(s, m, answers);
        case PointerUp => UpKeepsPrimary(s, m, answers);
        case _ =>
      }
    case _ =>
  }

  lemma UpKeepsPrimary(s: State, m: Msg, answers: Answers)
    requires TouchesInv(s.touches) && HasPrimary(s.touches)
    requires m.id == s.touches.primary ==> |s.touches.contacts| == 1
    ensures HasPrimary(TouchUp(s, m, answers).touches)
  {
    var k := Find(s.touches.contacts, m.id);
    if k < |s.touches.contacts| {
      ChangeKeepsPrimary(s, s.touches.contacts, s.touches.primary, k, UpFlags, answers);
    }
  }

  /** In orderly gestures the button is never held when no contact is live, so the end of a session always releases it. */
  lemma {:induction false} OrderlyNeverStrands(initialized: bool, run: seq<Step>)
    requires OrderlyRun(initialized, run)
    ensures var s := After(initialized, run);
            !Stranded(s) && HasPrimary(s.touches)
  {
    if run != [] {
      var before := run[..|run| - 1];
      var s, step := After(initialized, before), run[|run| - 1];
      OrderlyNeverStrands(initialized, before);
      RunKeepsMouse(initialized, before);
      StrandsExactly(s, step);
      StepKeepsPrimary(s, step);
      if |s.touches.contacts| == 1 {
        assert s.touches.contacts[0].id == s.touches.primary;
      }
    }
  }

  // ----- Two fingers, of which the first lifts first

  lemma FirstFingerDown(s: State)
    requires s.touches == NO_TOUCHES && s.fallback.used && !s.fallback.held
    ensures var t := Next(s, Finger(0, 1));
            t.touches == Touches([FingerAt(1)], 1) && t.fallback == Fallback(true, true, 1)
  {
  }

  lemma SecondFingerDown(s: State)
    requires s.touches == Touches([FingerAt(1)], 1) && s.fallback == Fallback(true, true, 1)
    ensures var t := Next(s, Finger(5, 2));
            t.touches == Touches([FingerAt(1), FingerAt(2)], 1) && t.fallback == Fallback(true, true, 1)
  {
    assert Find([FingerAt(1)], 2) == MAX_TOUCHES;
    assert [FingerAt(1)] + [FingerAt(2)] == [FingerAt(1), FingerAt(2)];
  }

  lemma FirstFingerUp(s: State)
    requires s.touches == Touches([FingerAt(1), FingerAt(2)], 1) && s.fallback == Fallback(true, true, 1)
    ensures var t := Next(s, Finger(6, 1));
            t.touches == Touches([FingerAt(2)], NO_PRIMARY) && t.fallback == Fallback(true, false, 1)
  {
    assert s.touches.contacts[..0] + s.touches.contacts[1..] == [FingerAt(2)];
  }

  /** Two fingers go down, the first lifts, then the second. */
  function FirstLiftsFirst(): seq<Step> { [Finger(0, 1), Finger(5, 2), Finger(6, 1), Finger(1, 2)] }

  /** The lift of the second finger presses the button, and the end of the session does not release it. */
  lemma FirstFingerLiftsFirst(answers: Answers)
    ensures After(false, FirstLiftsFirst()).touches.contacts == []
    ensures After(false, FirstLiftsFirst()).fallback.held
    ensures Next(After(false, FirstLiftsFirst()), OnEnd(answers)).fallback.held
  {
    var one := [] + [Finger(0, 1)];
    var two := one + [Finger(5, 2)];
    var three := two + [Finger(6, 1)];
    var four := three + [Finger(1, 2)];
    AfterOneMore(false, [], Finger(0, 1));
    FirstFingerDown(After(false, []));
    AfterOneMore(false, one, Finger(5, 2));
    SecondFingerDown(After(false, one));
    AfterOneMore(false, two, Finger(6, 1));
    FirstFingerUp(After(false, two));
    AfterOneMore(false, three, Finger(1, 2));
    RunKeepsMouse(false, three);
    StrandsExactly(After(false, three), Finger(1, 2));
    EndReleases(false, four, answers);
    assert four == FirstLiftsFirst();
  }
}
