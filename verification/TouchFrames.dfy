/**
 What the touch injector shows the system: each native frame continues the one before it, and
 everything that is sent lies inside the desktop.
 */
module TouchFrames {
  import opened Common
  import opened Touch

  // ----- The contacts that the frames leave on the screen

  /** The contacts that are still down after a frame. */
  function Survivors(entries: seq<Entry>): seq<Contact> {
    if entries == [] then []
    else
      var last := entries[|entries| - 1];
      Survivors(entries[..|entries| - 1]) +
      if last.flags == UpFlags || last.flags == CancelFlags then [] else [last.contact]
  }

  /** The contacts that are down according to the last frame of a log, accepted or not. */
  function Shown(log: seq<Output>): seq<Contact> {
    if log == [] then []
    else if log[|log| - 1].Frame? then Survivors(log[|log| - 1].entries)
    else Shown(log[..|log| - 1])
  }

  /** Contact `k` changed: it appeared, moved or lifted; all others are repeated where they were. */
  ghost predicate Changed(shown: seq<Contact>, entries: seq<Entry>, k: nat) {
    && k < |entries| && (forall i :: 0 <= i < |shown| && i != k ==> i < |entries| && entries[i] == Entry(shown[i], UpdateFlags))
    && (if k < |shown| then
          && |entries| == |shown|
          && entries[k].contact.id == shown[k].id
          && entries[k].flags != CancelFlags
          && (entries[k].flags == UpFlags ==> entries[k].contact == shown[k])
        else
          && k == |shown| && |entries| == |shown| + 1
          && entries[k].flags == DownFlags
          && !Live(shown, entries[k].contact.id))
  }

  ghost predicate AllCancelled(shown: seq<Contact>, entries: seq<Entry>) {
    |entries| == |shown| && forall i :: 0 <= i < |entries| ==> entries[i] == Entry(shown[i], CancelFlags)
  }

  ghost predicate Continues(shown: seq<Contact>, entries: seq<Entry>) {
    AllCancelled(shown, entries) || exists k :: Changed(shown, entries, k)
  }

  predicate IsCancel(entries: seq<Entry>) { entries != [] && entries[0].flags == CancelFlags }

  /** A touch frame, other than a cancellation, was refused. */
  predicate Refused(log: seq<Output>) {
    log != [] &&
    (Refused(log[..|log| - 1])
     || (log[|log| - 1].Frame? && !log[|log| - 1].ok && !IsCancel(log[|log| - 1].entries)))
  }

  /** Every frame continues the one before, and none follows a refusal. */
  ghost predicate Lawful(log: seq<Output>) {
    log != [] ==>
      var before, last := log[..|log| - 1], log[|log| - 1];
      Lawful(before) && (last.Frame? ==> Continues(Shown(before), last.entries) && !Refused(before))
  }

  /** While native frames are used, the contacts are those of the last frame. */
  ghost predicate FrameInv(log: seq<Output>, contacts: seq<Contact>, f: Fallback) {
    && Lawful(log)
    && (Refused(log) ==> f.used)
    && (!f.used ==> Shown(log) == contacts && !f.held)
  }

  lemma SurvivorsGrow(entries: seq<Entry>, n: nat)
    requires 0 < n <= |entries|
    ensures var e := entries[n - 1];
            Survivors(entries[..n]) ==
            Survivors(entries[..n - 1]) + if e.flags == UpFlags || e.flags == CancelFlags then [] else [e.contact]
  {
    assert entries[..n][..n - 1] == entries[..n - 1];
  }

  lemma {:induction false} CancelLeavesNone(contacts: seq<Contact>, n: nat)
    requires n <= |contacts|
    ensures Survivors(Cancelled(contacts)[..n]) == []
  {
    if n > 0 {
      SurvivorsGrow(Cancelled(contacts), n);
      CancelLeavesNone(contacts, n - 1);
    }
  }

  /** What is left of the first `n` contacts. */
  function Left(contacts: seq<Contact>, k: nat, flags: Flags, n: nat): seq<Contact>
    requires k < |contacts| && n <= |contacts|
  {
    if flags == UpFlags && k < n then contacts[..k] + contacts[k + 1..n] else contacts[..n]
  }

  lemma LeftGrows(contacts: seq<Contact>, k: nat, flags: Flags, n: nat)
    requires k < |contacts| && 0 < n <= |contacts|
    ensures Left(contacts, k, flags, n) ==
            Left(contacts, k, flags, n - 1) + if flags == UpFlags && k == n - 1 then [] else [contacts[n - 1]]
  {
  }

  lemma {:induction false} FrameLeaves(contacts: seq<Contact>, k: nat, flags: Flags, n: nat)
    requires k < |contacts| && n <= |contacts| && flags != CancelFlags
    ensures Survivors(Entries(contacts, k, flags)[..n]) == Left(contacts, k, flags, n)
  {
    if n > 0 {
      SurvivorsGrow(Entries(contacts, k, flags), n);
      FrameLeaves(contacts, k, flags, n - 1);
      LeftGrows(contacts, k, flags, n);
    }
  }

  // ----- Sending keeps the log lawful

  lemma SendMouseKeepsFrames(log: seq<Output>, o: Output, contacts: seq<Contact>, f: Fallback, g: Fallback)
    requires FrameInv(log, contacts, f) && o.Mouse? && (f.used ==> g.used) && (!g.used ==> !g.held)
    ensures FrameInv(log + [o], contacts, g)
  {
    assert (log + [o])[..|log|] == log;
  }

  lemma FallbackKeepsFrames(log: seq<Output>, contacts: seq<Contact>, more: seq<Contact>, f: Fallback, g: Fallback)
    requires FrameInv(log, contacts, f) && g.used
    ensures FrameInv(log, more, g)
  {
  }

  lemma MouseFrameKeepsFrames(s: State, k: nat, flags: Flags, ok: bool, any: seq<Contact>)
    requires k < |s.touches.contacts| <= MAX_TOUCHES && FrameInv(s.log, any, s.fallback) && s.fallback.used
    ensures var t := MouseFrame(s, k, flags, ok).0; FrameInv(t.log, any, t.fallback) && t.fallback.used
  {
    var t := MouseFrame(s, k, flags, ok).0;
    if t.log != s.log {
      SendMouseKeepsFrames(s.log, t.log[|s.log|], any, s.fallback, t.fallback);
    }
  }

  lemma NativeFrameKeepsFrames(log: seq<Output>, shown: seq<Contact>, contacts: seq<Contact>, f: Fallback,
                               k: nat, flags: Flags, ok: bool)
    requires FrameInv(log, shown, f) && !f.used && k < |contacts| && flags != CancelFlags
    requires Changed(shown, Entries(contacts, k, flags), k)
    ensures var o := Frame(Entries(contacts, k, flags), ok);
            FrameInv(log + [o], Left(contacts, k, flags, |contacts|), f.(used := !ok))
  {
    var o := Frame(Entries(contacts, k, flags), ok);
    assert (log + [o])[..|log|] == log;
    FrameLeaves(contacts, k, flags, |contacts|);
    assert o.entries[..|contacts|] == o.entries;
  }

  lemma FallbackChangeKeepsFrames(s: State, contacts: seq<Contact>, primary: nat, k: nat, flags: Flags, answers: Answers,
                                  shown: seq<Contact>)
    requires FrameInv(s.log, shown, s.fallback) && k < |contacts| <= MAX_TOUCHES && s.fallback.used
    ensures var t := Change(s, contacts, primary, k, flags, answers);
            FrameInv(t.log, t.touches.contacts, t.fallback)
  {
    var t := Change(s, contacts, primary, k, flags, answers);
    MouseFrameKeepsFrames(s.(touches := Touches(contacts, primary)), k, flags, answers.mouse, shown);
    FallbackKeepsFrames(t.log, shown, t.touches.contacts, t.fallback, t.fallback);
  }

  lemma RefusedChangeKeepsFrames(s: State, contacts: seq<Contact>, primary: nat, k: nat, flags: Flags, answers: Answers)
    requires FrameInv(s.log, s.touches.contacts, s.fallback) && k < |contacts| <= MAX_TOUCHES && flags != CancelFlags
    requires Changed(s.touches.contacts, Entries(contacts, k, flags), k) && !s.fallback.used && !answers.frame
    ensures var t := Change(s, contacts, primary, k, flags, answers);
            FrameInv(t.log, t.touches.contacts, t.fallback)
  {
    var refused := s.(log := s.log + [Frame(Entries(contacts, k, flags), false)], fallback := s.fallback.(used := true));
    NativeFrameKeepsFrames(s.log, s.touches.contacts, contacts, s.fallback, k, flags, false);
    FallbackChangeKeepsFrames(refused, contacts, primary, k, flags, answers, Left(contacts, k, flags, |contacts|));
  }

  lemma AcceptedChangeKeepsFrames(s: State, contacts: seq<Contact>, primary: nat, k: nat, flags: Flags, answers: Answers)
    requires FrameInv(s.log, s.touches.contacts, s.fallback) && k < |contacts| <= MAX_TOUCHES && flags != CancelFlags
    requires Changed(s.touches.contacts, Entries(contacts, k, flags), k) && !s.fallback.used && answers.frame
    ensures var t := Change(s, contacts, primary, k, flags, answers);
            FrameInv(t.log, t.touches.contacts, t.fallback)
  {
    NativeFrameKeepsFrames(s.log, s.touches.contacts, contacts, s.fallback, k, flags, true);
    AcceptedChangeIs(s, contacts, primary, k, flags, answers);
  }

  lemma AcceptedChangeIs(s: State, contacts: seq<Contact>, primary: nat, k: nat, flags: Flags, answers: Answers)
    requires k < |contacts| <= MAX_TOUCHES && !s.fallback.used && answers.frame
    ensures var t := Change(s, contacts, primary, k, flags, answers);
            && t.log == s.log + [Frame(Entries(contacts, k, flags), true)] && t.fallback == s.fallback
            && t.touches.contacts == Left(contacts, k, flags, |contacts|)
  {
    assert contacts[..|contacts|] == contacts && contacts[k + 1..|contacts|] == contacts[k + 1..];
  }

  lemma ChangeKeepsFrames(s: State, contacts: seq<Contact>, primary: nat, k: nat, flags: Flags, answers: Answers)
    requires FrameInv(s.log, s.touches.contacts, s.fallback) && k < |contacts| <= MAX_TOUCHES && flags != CancelFlags
    requires Changed(s.touches.contacts, Entries(contacts, k, flags), k)
    ensures var t := Change(s, contacts, primary, k, flags, answers);
            FrameInv(t.log, t.touches.contacts, t.fallback)
  {
    if s.fallback.used {
      FallbackChangeKeepsFrames(s, contacts, primary, k, flags, answers, s.touches.contacts);
    } else if answers.frame {
      AcceptedChangeKeepsFrames(s, contacts, primary, k, flags, answers);
    } else {
      RefusedChangeKeepsFrames(s, contacts, primary, k, flags, answers);
    }
  }

  lemma CancelKeepsFrames(s: State, ok: bool)
    requires FrameInv(s.log, s.touches.contacts, s.fallback) && |s.touches.contacts| <= MAX_TOUCHES
    ensures var t := Cancel(s, ok);
            FrameInv(t.log, t.touches.contacts, t.fallback)
  {
    var contacts := s.touches.contacts;
    var t := Cancel(s, ok);
    if contacts != [] {
      if s.fallback.used {
        if t.log != s.log {
          SendMouseKeepsFrames(s.log, t.log[|s.log|], contacts, s.fallback, t.fallback);
        }
      } else {
        var o := Frame(Cancelled(contacts), ok);
        assert t.log == s.log + [o] && t.log[..|s.log|] == s.log;
        CancelLeavesNone(contacts, |contacts|);
        assert o.entries[..|contacts|] == o.entries;
      }
    }
  }

  // ----- Messages

  lemma ReplacedIsChanged(contacts: seq<Contact>, k: nat, c: Contact, flags: Flags)
    requires k < |contacts| && c.id == contacts[k].id && (flags == DownFlags || flags == UpdateFlags)
    ensures Changed(contacts, Entries(contacts[k := c], k, flags), k)
  {
  }

  lemma AddedIsChanged(contacts: seq<Contact>, c: Contact)
    requires !Live(contacts, c.id)
    ensures Changed(contacts, Entries(contacts + [c], |contacts|, DownFlags), |contacts|)
  {
  }

  lemma FirstIsChanged(c: Contact)
    ensures Changed([], Entries([c], 0, DownFlags), 0)
  {
  }

  lemma LiftedIsChanged(contacts: seq<Contact>, k: nat)
    requires k < |contacts|
    ensures Changed(contacts, Entries(contacts, k, UpFlags), k)
  {
  }

  lemma FirstKeepsFrames(s: State, c: Contact, primary: nat, answers: Answers)
    requires FrameInv(s.log, [], s.fallback) && s.touches.contacts == []
    ensures var t := Change(s, [c], primary, 0, DownFlags, answers);
            FrameInv(t.log, t.touches.contacts, t.fallback)
  {
    FirstIsChanged(c);
    ChangeKeepsFrames(s, [c], primary, 0, DownFlags, answers);
  }

  lemma DownKeepsFrames(s: State, m: Msg, d: Desktop, answers: Answers)
    requires FrameInv(s.log, s.touches.contacts, s.fallback) && |s.touches.contacts| <= MAX_TOUCHES
    ensures var t := TouchDown(s, m, d, answers); FrameInv(t.log, t.touches.contacts, t.fallback)
  {
    var ended := Cancel(s, answers.cancel);
    CancelKeepsFrames(s, answers.cancel);
    match MapPosition(m.position, d)
    case None =>
    case Some(at) => FirstKeepsFrames(ended, ContactOf(m, at), m.id, answers);
  }

  lemma MoveKeepsFrames(s: State, m: Msg, d: Desktop, answers: Answers)
    requires FrameInv(s.log, s.touches.contacts, s.fallback) && |s.touches.contacts| <= MAX_TOUCHES
    ensures var t := TouchMove(s, m, d, answers); FrameInv(t.log, t.touches.contacts, t.fallback)
  {
    var contacts, primary := s.touches.contacts, s.touches.primary;
    var flags := if ActionOf(m.action) == PointerDown then DownFlags else UpdateFlags;
    if at :| MapPosition(m.position, d) == Some(at) {
      var k, c := Find(contacts, m.id), ContactOf(m, at);
      FindsLive(contacts, m.id);
      if k < |contacts| {
        ReplacedIsChanged(contacts, k, c, flags);
        ChangeKeepsFrames(s, contacts[k := c], primary, k, flags, answers);
      } else if |contacts| < MAX_TOUCHES && flags == DownFlags {
        AddedIsChanged(contacts, c);
        ChangeKeepsFrames(s, contacts + [c], primary, |contacts|, flags, answers);
      }
    }
  }

  lemma UpKeepsFrames(s: State, m: Msg, answers: Answers)
    requires FrameInv(s.log, s.touches.contacts, s.fallback) && |s.touches.contacts| <= MAX_TOUCHES
    ensures var t := TouchUp(s, m, answers); FrameInv(t.log, t.touches.contacts, t.fallback)
  {
    var k := Find(s.touches.contacts, m.id);
    if k < |s.touches.contacts| {
      LiftedIsChanged(s.touches.contacts, k);
      ChangeKeepsFrames(s, s.touches.contacts, s.touches.primary, k, UpFlags, answers);
    }
  }

  lemma ScrollKeepsFrames(s: State, p: Position, d: Desktop, answers: Answers)
    requires FrameInv(s.log, s.touches.contacts, s.fallback) && |s.touches.contacts| <= MAX_TOUCHES
    ensures var t := Scroll(s, p, d, answers); FrameInv(t.log, t.touches.contacts, t.fallback)
  {
    CancelKeepsFrames(s, answers.cancel);
    var t, u := Cancel(s, answers.cancel), Scroll(s, p, d, answers);
    if u != s {
      SendMouseKeepsFrames(t.log, u.log[|t.log|], t.touches.contacts, t.fallback, u.fallback);
    }
  }

  lemma InjectKeepsFrames(s: State, m: Msg, d: Desktop, answers: Answers)
    requires FrameInv(s.log, s.touches.contacts, s.fallback) && |s.touches.contacts| <= MAX_TOUCHES
    ensures var t := Inject(s, m, d, answers); FrameInv(t.log, t.touches.contacts, t.fallback)
  {
    match ActionOf(m.action)
    case Down => DownKeepsFrames(s, m, d, answers);
    case PointerDown => MoveKeepsFrames(s, m, d, answers);
    case Move => MoveKeepsFrames(s, m, d, answers);
    case Up => UpKeepsFrames(s, m, answers);
    case PointerUp => UpKeepsFrames(s, m, answers);
    case CancelAll => CancelKeepsFrames(s, answers.cancel);
    case Other =>
  }

  lemma StepKeepsFrames(s: State, step: Step, t: State)
    requires FrameInv(s.log, s.touches.contacts, s.fallback) && |s.touches.contacts| <= MAX_TOUCHES && t == Next(s, step)
    ensures FrameInv(t.log, t.touches.contacts, t.fallback)
  {
    match step
    case OnTouch(m, d, answers) => InjectKeepsFrames(s, m, d, answers);
    case OnScroll(p, d, answers) => ScrollKeepsFrames(s, p, d, answers);
    case OnEnd(answers) => CancelKeepsFrames(s, answers.cancel);
  }

  /**
   For every run: each native frame repeats every contact of the frame before it where it was,
   but for one contact that appears, changes or lifts where it was, or cancels them all; and as
   long as frames are used, the contacts of the injector are those of its last frame.
   */
  lemma {:induction false} FramesContinue(initialized: bool, run: seq<Step>)
    ensures var s := After(initialized, run);
            Lawful(s.log) && (!s.fallback.used ==> Shown(s.log) == s.touches.contacts)
    ensures var s := After(initialized, run);
            FrameInv(s.log, s.touches.contacts, s.fallback)
  {
    if run != [] {
      FramesContinue(initialized, run[..|run| - 1]);
      StepKeepsFrames(After(initialized, run[..|run| - 1]), run[|run| - 1], After(initialized, run));
    }
  }

  // ----- The contacts on the screen

  /** The contacts that are down after the accepted frames of a log. */
  function OnScreen(log: seq<Output>): seq<Contact> {
    if log == [] then []
    else
      var last := log[|log| - 1];
      if last.Frame? && last.ok then Survivors(last.entries) else OnScreen(log[..|log| - 1])
  }

  /** The last touch frame was a cancellation, and it was refused. */
  predicate CancelRefused(log: seq<Output>) {
    log != [] &&
    var last := log[|log| - 1];
    if last.Frame? then IsCancel(last.entries) && !last.ok else CancelRefused(log[..|log| - 1])
  }

  lemma CancelShowsNone(shown: seq<Contact>, entries: seq<Entry>)
    requires Continues(shown, entries) && IsCancel(entries)
    ensures shown != [] && Survivors(entries) == []
  {
    assert AllCancelled(shown, entries);
    CancelLeavesNone(shown, |shown|);
    assert entries == Cancelled(shown) == Cancelled(shown)[..|shown|];
  }

  lemma {:induction false} ShownOnScreen(log: seq<Output>)
    requires Lawful(log) && !Refused(log)
    ensures if CancelRefused(log) then Shown(log) == [] && OnScreen(log) != [] else OnScreen(log) == Shown(log)
  {
    if log != [] {
      var before, last := log[..|log| - 1], log[|log| - 1];
      ShownOnScreen(before);
      if last.Frame? && !last.ok {
        CancelShowsNone(Shown(before), last.entries);
      }
    }
  }

  /** While native frames are used, the contacts on the screen are those of the injector exactly unless the last frame is a refused cancellation. */
  lemma ScreenMatchesExactly(initialized: bool, run: seq<Step>)
    requires !After(initialized, run).fallback.used
    ensures var s := After(initialized, run);
            OnScreen(s.log) == s.touches.contacts <==> !CancelRefused(s.log)
  {
    FramesContinue(initialized, run);
    ShownOnScreen(After(initialized, run).log);
  }

  lemma FingerIsShown()
    ensures var s := Next(Initial(true), Finger(0, 1));
            s.touches.contacts == [FingerAt(1)] && !s.fallback.used && OnScreen(s.log) == [FingerAt(1)]
  {
    var s := Next(Initial(true), Finger(0, 1));
    assert s.log == [Frame(Entries([FingerAt(1)], 0, DownFlags), true)];
    FrameLeaves([FingerAt(1)], 0, DownFlags, 1);
    var entries := Entries([FingerAt(1)], 0, DownFlags);
    assert entries[..1] == entries;
  }

  /** A finger goes down, and the system refuses to cancel it when the session ends. */
  function RefusedCancel(): seq<Step> { [Finger(0, 1)] + [OnEnd(Answers(false, true, true))] }

  /** That leaves the finger on the screen, though the injector has forgotten it. */
  lemma RefusedCancelForgets()
    ensures var s := After(true, RefusedCancel());
            && !s.fallback.used && s.touches.contacts == [] && OnScreen(s.log) == [FingerAt(1)]
            && CancelRefused(s.log)
  {
    AfterOneMore(true, [], Finger(0, 1));
    assert [] + [Finger(0, 1)] == [Finger(0, 1)];
    FingerIsShown();
    var s := After(true, [Finger(0, 1)]);
    AfterOneMore(true, [Finger(0, 1)], OnEnd(Answers(false, true, true)));
    var t := After(true, RefusedCancel());
    assert t.log[..|s.log|] == s.log;
  }

  // ----- Everything inside the desktop

  ghost predicate ContactsInside(contacts: seq<Contact>, area: Desktop) {
    forall i :: 0 <= i < |contacts| ==> area.Contains(contacts[i].x, contacts[i].y)
  }

  ghost predicate EntriesInside(entries: seq<Entry>, area: Desktop) {
    forall i :: 0 <= i < |entries| ==> area.Contains(entries[i].contact.x, entries[i].contact.y)
  }

  ghost predicate OutputInside(o: Output, area: Desktop) {
    match o
    case Frame(entries, _) => EntriesInside(entries, area)
    case Mouse(_, x, y, _) => area.Contains(x, y)
  }

  ghost predicate AllInside(s: State, area: Desktop) {
    && ContactsInside(s.touches.contacts, area)
    && forall i :: 0 <= i < |s.log| ==> OutputInside(s.log[i], area)
  }

  /** A desktop, when it has any pixels, lies within the area. */
  predicate Within(d: Desktop, area: Desktop) {
    d.width > 0 && d.height > 0 ==>
      && area.left <= d.left && d.left + d.width <= area.left + area.width
      && area.top <= d.top && d.top + d.height <= area.top + area.height
  }

  predicate StepWithin(step: Step, area: Desktop) {
    match step
    case OnTouch(_, d, _) => Within(d, area)
    case OnScroll(_, d, _) => Within(d, area)
    case OnEnd(_) => true
  }

  lemma MouseFrameInside(s: State, k: nat, flags: Flags, ok: bool, area: Desktop)
    requires k < |s.touches.contacts| <= MAX_TOUCHES && AllInside(s, area)
    ensures AllInside(MouseFrame(s, k, flags, ok).0, area)
  {
  }

  lemma ChangeInside(s: State, contacts: seq<Contact>, primary: nat, k: nat, flags: Flags, answers: Answers, area: Desktop)
    requires k < |contacts| <= MAX_TOUCHES && AllInside(s, area) && ContactsInside(contacts, area)
    ensures AllInside(Change(s, contacts, primary, k, flags, answers), area)
  {
    var u := s.(touches := Touches(contacts, primary));
    if s.fallback.used {
      MouseFrameInside(u, k, flags, answers.mouse, area);
    } else {
      var o := Frame(Entries(contacts, k, flags), answers.frame);
      var v := u.(log := u.log + [o], fallback := u.fallback.(used := true));
      assert AllInside(v, area);
      MouseFrameInside(v, k, flags, answers.mouse, area);
    }
  }

  lemma CancelInside(s: State, ok: bool, area: Desktop)
    requires |s.touches.contacts| <= MAX_TOUCHES && AllInside(s, area)
    ensures AllInside(Cancel(s, ok), area)
  {
  }

  lemma MoveInside(s: State, m: Msg, d: Desktop, answers: Answers, area: Desktop)
    requires |s.touches.contacts| <= MAX_TOUCHES && AllInside(s, area) && Within(d, area)
    ensures AllInside(TouchMove(s, m, d, answers), area)
  {
    var contacts, primary := s.touches.contacts, s.touches.primary;
    var flags := if ActionOf(m.action) == PointerDown then DownFlags else UpdateFlags;
    if at :| MapPosition(m.position, d) == Some(at) {
      var k, c := Find(contacts, m.id), ContactOf(m, at);
      if k < |contacts| {
        ChangeInside(s, contacts[k := c], primary, k, flags, answers, area);
      } else if |contacts| < MAX_TOUCHES {
        ChangeInside(s, contacts + [c], primary, |contacts|, flags, answers, area);
      }
    }
  }

  lemma InjectInside(s: State, m: Msg, d: Desktop, answers: Answers, area: Desktop)
    requires |s.touches.contacts| <= MAX_TOUCHES && AllInside(s, area) && Within(d, area)
    ensures AllInside(Inject(s, m, d, answers), area)
  {
    CancelInside(s, answers.cancel, area);
    match ActionOf(m.action)
    case Down =>
      if at :| MapPosition(m.position, d) == Some(at) {
        ChangeInside(Cancel(s, answers.cancel), [ContactOf(m, at)], m.id, 0, DownFlags, answers, area);
      }
    case PointerDown => MoveInside(s, m, d, answers, area);
    case Move => MoveInside(s, m, d, answers, area);
    case Up => UpInside(s, m, answers, area);
    case PointerUp => UpInside(s, m, answers, area);
    case _ =>
  }

  lemma UpInside(s: State, m: Msg, answers: Answers, area: Desktop)
    requires |s.touches.contacts| <= MAX_TOUCHES && AllInside(s, area)
    ensures AllInside(TouchUp(s, m, answers), area)
  {
    var k := Find(s.touches.contacts, m.id);
    if k < |s.touches.contacts| {
      ChangeInside(s, s.touches.contacts, s.touches.primary, k, UpFlags, answers, area);
    }
  }

  lemma StepInside(s: State, step: Step, area: Desktop)
    requires |s.touches.contacts| <= MAX_TOUCHES && AllInside(s, area) && StepWithin(step, area)
    ensures AllInside(Next(s, step), area)
  {
    match step
    case OnTouch(m, d, answers) => InjectInside(s, m, d, answers, area);
    case OnScroll(p, d, answers) => CancelInside(s, answers.cancel, area);
    case OnEnd(answers) => CancelInside(s, answers.cancel, area);
  }

  /**
   For every run in which the desktop, which may change, stays within an area: every contact, and
   every position ever sent, lies in that area.
   */
  lemma {:induction false} EverythingInside(initialized: bool, run: seq<Step>, area: Desktop)
    requires forall i :: 0 <= i < |run| ==> StepWithin(run[i], area)
    ensures AllInside(After(initialized, run), area)
  {
    if run != [] {
      EverythingInside(initialized, run[..|run| - 1], area);
      StepInside(After(initialized, run[..|run| - 1]), run[|run| - 1], area);
    }
  }
}
