/**
 The touch injector of the reverse display (app/src/reverse_display.c): phone touches become
 native touch frames on the desktop or, once the system refuses those, presses and moves of
 the mouse by the primary contact.

 What the system answers to a frame or a mouse event is chosen by the steps; `log` keeps what
 was sent with the answers.
 */
module Touch {
  import opened Common

  const MAX_TOUCHES := 10
  const NO_PRIMARY := 0xFFFF_FFFF_FFFF_FFFF
  const MAX_POINTER_ID := 0xFFFF_FFFF

  // ----- Mapping a phone position to the desktop

  datatype Desktop = Desktop(left: int, top: int, width: int, height: int) {
    predicate Contains(x: int, y: int) {
      left <= x < left + width && top <= y < top + height
    }
  }

  /** One coordinate: from 0..size-1 to the `extent` pixels that start at `start`. */
  function MapAxis(v: int, size: nat, start: int, extent: nat): (r: int)
    requires size > 0 && extent > 0
    ensures start <= r < start + extent
  {
    var mapped := start + Truncate(v * (extent - 1), if size - 1 > 0 then size - 1 else 1);
    if mapped < start then start
    else if mapped > start + extent - 1 then start + extent - 1
    else mapped
  }

  function MapPosition(p: Position, d: Desktop): (r: Option<(int, int)>)
    ensures r.Some? <==> p.width > 0 && p.height > 0 && d.width > 0 && d.height > 0
    ensures r.Some? ==> d.Contains(r.value.0, r.value.1)
  {
    if p.width <= 0 || p.height <= 0 || d.width <= 0 || d.height <= 0 then None
    else Some((MapAxis(p.x, p.width, d.left, d.width), MapAxis(p.y, p.height, d.top, d.height)))
  }

  lemma QuotientGrows(a: nat, b: nat, d: nat)
    requires a <= b && d > 0
    ensures a / d <= b / d
  {
    var q, r := a / d, b / d;
    assert q * d <= a && b < r * d + d;
    if r < q {
      ProductGrows(r + 1, q, d);
    }
  }

  lemma TruncateGrows(a: int, b: int, d: nat)
    requires a <= b && d > 0
    ensures Truncate(a, d) <= Truncate(b, d)
  {
    if a >= 0 {
      QuotientGrows(a, b, d);
    } else if b < 0 {
      QuotientGrows(-b, -a, d);
    } else {
      QuotientGrows(0, -a, d);
      QuotientGrows(0, b, d);
    }
  }

  lemma QuotientOfMultiple(m: nat, d: nat)
    requires d > 0
    ensures Truncate(d * m, d) == m
  {
    var a := d * m;
    var q := a / d;
    assert q * d <= a < q * d + d;
    if q < m {
      ProductGrows(q + 1, m, d);
    } else if m < q {
      ProductGrows(m + 1, q, d);
    }
  }

  /** The mapping keeps the order of points: neither axis is ever mirrored. */
  lemma MapAxisGrows(v: int, w: int, size: nat, start: int, extent: nat)
    requires size > 0 && extent > 0 && v <= w
    ensures MapAxis(v, size, start, extent) <= MapAxis(w, size, start, extent)
  {
    ProductGrows(v, w, extent - 1);
    TruncateGrows(v * (extent - 1), w * (extent - 1), if size - 1 > 0 then size - 1 else 1);
  }

  /** The first pixel maps to the first and the last to the last, and so does anything beyond them. */
  lemma MapAxisMeetsEdges(v: int, size: nat, start: int, extent: nat)
    requires size > 0 && extent > 0
    ensures v <= 0 ==> MapAxis(v, size, start, extent) == start
    ensures v >= size - 1 && size > 1 ==> MapAxis(v, size, start, extent) == start + extent - 1
  {
    assert 0 * (extent - 1) == 0;
    if v <= 0 {
      MapAxisGrows(v, 0, size, start, extent);
    } else if size > 1 && v >= size - 1 {
      QuotientOfMultiple(extent - 1, size - 1);
      MapAxisGrows(size - 1, v, size, start, extent);
    }
  }

  /** Pressure in the units of the system, which are 1024ths. */
  function TouchPressure(pressure: real): (r: nat)
    ensures r <= 1024
  {
    if !(pressure > 0.0) then 0
    else if pressure >= 1.0 then 1024
    else (pressure * 1024.0).Floor
  }

  // ----- The state

  datatype Contact = Contact(id: nat, x: int, y: int, pressure: nat)

  /** The flags of a contact in a native frame. */
  datatype Flags = DownFlags | UpdateFlags | UpFlags | CancelFlags

  datatype Entry = Entry(contact: Contact, flags: Flags)

  datatype Button = Press | Release | Motion

  /** What was sent to the system, and whether it was accepted. */
  datatype Output =
    | Frame(entries: seq<Entry>, ok: bool)
    | Mouse(button: Button, x: int, y: int, ok: bool)

  datatype Touches = Touches(contacts: seq<Contact>, primary: nat)

  datatype Fallback = Fallback(used: bool, held: bool, holder: nat)

  datatype State = State(touches: Touches, fallback: Fallback, log: seq<Output>)

  function Initial(initialized: bool): State {
    State(Touches([], NO_PRIMARY), Fallback(!initialized, false, 0), [])
  }

  /** The index of a contact, or MAX_TOUCHES. */
  function FindFrom(contacts: seq<Contact>, id: nat, i: nat): (r: nat)
    requires i <= |contacts| <= MAX_TOUCHES
    ensures r == MAX_TOUCHES || (i <= r < |contacts| && contacts[r].id == id)
    decreases |contacts| - i
  {
    if i == |contacts| then MAX_TOUCHES
    else if contacts[i].id == id then i
    else FindFrom(contacts, id, i + 1)
  }

  function Find(contacts: seq<Contact>, id: nat): (r: nat)
    requires |contacts| <= MAX_TOUCHES
    ensures r == MAX_TOUCHES || (r < |contacts| && contacts[r].id == id)
  {
    FindFrom(contacts, id, 0)
  }

  ghost predicate Live(contacts: seq<Contact>, id: nat) {
    exists i :: 0 <= i < |contacts| && contacts[i].id == id
  }

  lemma {:induction false} FindFromMisses(contacts: seq<Contact>, id: nat, i: nat, j: nat)
    requires i <= j < |contacts| <= MAX_TOUCHES && contacts[j].id == id
    ensures FindFrom(contacts, id, i) <= j
    decreases |contacts| - i
  {
    if contacts[i].id != id {
      FindFromMisses(contacts, id, i + 1, j);
    }
  }

  lemma FindsLive(contacts: seq<Contact>, id: nat)
    requires |contacts| <= MAX_TOUCHES
    ensures Find(contacts, id) < |contacts| <==> Live(contacts, id)
    ensures Find(contacts, id) == MAX_TOUCHES <==> !Live(contacts, id)
  {
    if j :| 0 <= j < |contacts| && contacts[j].id == id {
      FindFromMisses(contacts, id, 0, j);
    }
  }

  // ----- Sending

  /** The answers of the system to what one message makes the injector send. */
  datatype Answers = Answers(cancel: bool, frame: bool, mouse: bool)

  function SendMouse(s: State, button: Button, at: Contact, ok: bool): State {
    s.(log := s.log + [Mouse(button, at.x, at.y, ok)])
  }

  /** The mouse in place of a touch frame, and whether it succeeded. */
  function MouseFrame(s: State, changed: nat, flags: Flags, ok: bool): (r: (State, bool))
    requires changed < |s.touches.contacts| <= MAX_TOUCHES
    ensures r.0.touches == s.touches
  {
    var contacts := s.touches.contacts;
    var p := Find(contacts, s.touches.primary);
    if contacts[changed].id == s.touches.primary && flags == UpFlags then
      if !s.fallback.held then (s, true)
      else (SendMouse(s, Release, contacts[changed], ok).(fallback := s.fallback.(held := false)), ok)
    else if !s.fallback.held then
      var at := contacts[if p == MAX_TOUCHES then changed else p];
      var t := SendMouse(s, Press, at, ok);
      if ok then (t.(fallback := s.fallback.(held := true, holder := at.id)), true) else (t, false)
    else if p != MAX_TOUCHES && flags == UpdateFlags then (SendMouse(s, Motion, contacts[p], ok), ok)
    else (s, true)
  }

  /** Every live contact, with the flags of the one that changed. */
  function Entries(contacts: seq<Contact>, changed: nat, flags: Flags): (r: seq<Entry>)
    ensures |r| == |contacts|
    ensures forall i :: 0 <= i < |r| ==> r[i] == Entry(contacts[i], if i == changed then flags else UpdateFlags)
  {
    seq(|contacts|, i requires 0 <= i < |contacts| => Entry(contacts[i], if i == changed then flags else UpdateFlags))
  }

  function Cancelled(contacts: seq<Contact>): (r: seq<Entry>)
    ensures |r| == |contacts|
    ensures forall i :: 0 <= i < |r| ==> r[i] == Entry(contacts[i], CancelFlags)
  {
    seq(|contacts|, i requires 0 <= i < |contacts| => Entry(contacts[i], CancelFlags))
  }

  /** A native frame, or the mouse if those are or now become unavailable. */
  function TouchFrame(s: State, changed: nat, flags: Flags, answers: Answers): (r: (State, bool))
    requires changed < |s.touches.contacts| <= MAX_TOUCHES
    ensures r.0.touches == s.touches
  {
    if s.fallback.used then MouseFrame(s, changed, flags, answers.mouse)
    else
      var t := s.(log := s.log + [Frame(Entries(s.touches.contacts, changed, flags), answers.frame)]);
      if answers.frame then (t, true)
      else MouseFrame(t.(fallback := t.fallback.(used := true)), changed, flags, answers.mouse)
  }

  const NO_TOUCHES := Touches([], NO_PRIMARY)

  /** Ends every contact: also what the end of the session and a pause do. */
  function Cancel(s: State, ok: bool): (t: State)
    requires |s.touches.contacts| <= MAX_TOUCHES
    ensures |t.touches.contacts| <= MAX_TOUCHES
  {
    var contacts := s.touches.contacts;
    if contacts == [] then s
    else if s.fallback.used then
      var h := Find(contacts, s.fallback.holder);
      var released := if !s.fallback.held then s
                      else SendMouse(s, Release, contacts[if h == MAX_TOUCHES then 0 else h], ok).(fallback := s.fallback.(held := false));
      released.(touches := NO_TOUCHES)
    else s.(log := s.log + [Frame(Cancelled(contacts), ok)], touches := NO_TOUCHES)
  }

  // ----- Messages

  datatype Action = Down | Up | Move | CancelAll | PointerDown | PointerUp | Other

  /** The action in the low byte; the pointer index above it is not used. */
  function ActionOf(code: nat): Action {
    match code % 256
    case 0 => Down
    case 1 => Up
    case 2 => Move
    case 3 => CancelAll
    case 5 => PointerDown
    case 6 => PointerUp
    case _ => Other
  }

  datatype Msg = Msg(action: nat, id: nat, position: Position, pressure: real)

  function ContactOf(m: Msg, at: (int, int)): Contact {
    Contact(m.id, at.0, at.1, TouchPressure(m.pressure))
  }

  /** After the frame: a failure forgets all contacts, a success the lifted one. */
  function Settle(r: (State, bool), changed: nat, lifted: bool): (t: State)
    requires changed < |r.0.touches.contacts| <= MAX_TOUCHES
    ensures |t.touches.contacts| <= MAX_TOUCHES
  {
    var was := r.0.touches;
    if !r.1 then r.0.(touches := NO_TOUCHES)
    else if lifted then
      r.0.(touches := Touches(was.contacts[..changed] + was.contacts[changed + 1..],
                              if was.contacts[changed].id == was.primary then NO_PRIMARY else was.primary))
    else r.0
  }

  function Change(s: State, contacts: seq<Contact>, primary: nat, changed: nat, flags: Flags, answers: Answers): (t: State)
    requires changed < |contacts| <= MAX_TOUCHES
    ensures |t.touches.contacts| <= MAX_TOUCHES
  {
    Settle(TouchFrame(s.(touches := Touches(contacts, primary)), changed, flags, answers), changed, flags == UpFlags)
  }

  function TouchDown(s: State, m: Msg, d: Desktop, answers: Answers): (t: State)
    requires |s.touches.contacts| <= MAX_TOUCHES
    ensures |t.touches.contacts| <= MAX_TOUCHES
  {
    var ended := Cancel(s, answers.cancel);
    match MapPosition(m.position, d)
    case None => ended
    case Some(at) => Change(ended, [ContactOf(m, at)], m.id, 0, DownFlags, answers)
  }

  function TouchMove(s: State, m: Msg, d: Desktop, answers: Answers): (t: State)
    requires |s.touches.contacts| <= MAX_TOUCHES
    ensures |t.touches.contacts| <= MAX_TOUCHES
  {
    var contacts, primary := s.touches.contacts, s.touches.primary;
    var adds := ActionOf(m.action) == PointerDown;
    var flags := if adds then DownFlags else UpdateFlags;
    match MapPosition(m.position, d)
    case None => s
    case Some(at) =>
      var k := Find(contacts, m.id);
      if k < |contacts| then Change(s, contacts[k := ContactOf(m, at)], primary, k, flags, answers)
      else if !adds || |contacts| >= MAX_TOUCHES then s
      else Change(s, contacts + [ContactOf(m, at)], primary, |contacts|, flags, answers)
  }

  function TouchUp(s: State, m: Msg, answers: Answers): (t: State)
    requires |s.touches.contacts| <= MAX_TOUCHES
    ensures |t.touches.contacts| <= MAX_TOUCHES
  {
    var k := Find(s.touches.contacts, m.id);
    if k < |s.touches.contacts| then Change(s, s.touches.contacts, s.touches.primary, k, UpFlags, answers) else s
  }

  function Inject(s: State, m: Msg, d: Desktop, answers: Answers): (t: State)
    requires |s.touches.contacts| <= MAX_TOUCHES
    ensures |t.touches.contacts| <= MAX_TOUCHES
  {
    if m.id > MAX_POINTER_ID then s
    else match ActionOf(m.action)
         case Down => TouchDown(s, m, d, answers)
         case PointerDown => TouchMove(s, m, d, answers)
         case Move => TouchMove(s, m, d, answers)
         case Up => TouchUp(s, m, answers)
         case PointerUp => TouchUp(s, m, answers)
         case CancelAll => Cancel(s, answers.cancel)
         case Other => s
  }

  /** A scroll first ends the touches and moves the mouse. */
  function Scroll(s: State, p: Position, d: Desktop, answers: Answers): (t: State)
    requires |s.touches.contacts| <= MAX_TOUCHES
    ensures |t.touches.contacts| <= MAX_TOUCHES
  {
    match MapPosition(p, d)
    case None => s
    case Some(at) => SendMouse(Cancel(s, answers.cancel), Motion, Contact(0, at.0, at.1, 0), answers.mouse)
  }

  datatype Step =
    | OnTouch(msg: Msg, desktop: Desktop, answers: Answers)
    | OnScroll(position: Position, desktop: Desktop, answers: Answers)
    | OnEnd(answers: Answers)       // a pause, a stop, or the end of the connection

  function Next(s: State, step: Step): (t: State)
    requires |s.touches.contacts| <= MAX_TOUCHES
    ensures |t.touches.contacts| <= MAX_TOUCHES
  {
    match step
    case OnTouch(m, d, answers) => Inject(s, m, d, answers)
    case OnScroll(p, d, answers) => Scroll(s, p, d, answers)
    case OnEnd(answers) => Cancel(s, answers.cancel)
  }

  /** The state after a run, which never has more than MAX_TOUCHES contacts. */
  function After(initialized: bool, run: seq<Step>): (s: State)
    ensures |s.touches.contacts| <= MAX_TOUCHES
  {
    if run == [] then Initial(initialized)
    else Next(After(initialized, run[..|run| - 1]), run[|run| - 1])
  }

  lemma AfterOneMore(initialized: bool, run: seq<Step>, step: Step)
    ensures After(initialized, run + [step]) == Next(After(initialized, run), step)
  {
    assert (run + [step])[..|run|] == run;
  }

  // ----- Fingers for examples

  const YES := Answers(true, true, true)
  const SCREEN := Desktop(0, 0, 100, 100)

  /** A message of one finger at the corner of the screen. */
  function Finger(action: nat, id: nat): Step {
    OnTouch(Msg(action, id, Position(0, 0, 1, 1), 1.0), SCREEN, YES)
  }

  function FingerAt(id: nat): Contact { Contact(id, 0, 0, 1024) }

  // ----- The contacts

  ghost predicate Distinct(contacts: seq<Contact>) {
    forall i, j :: 0 <= i < j < |contacts| ==> contacts[i].id != contacts[j].id
  }

  ghost predicate TouchesInv(t: Touches) {
    && |t.contacts| <= MAX_TOUCHES
    && Distinct(t.contacts)
    && (forall i :: 0 <= i < |t.contacts| ==> t.contacts[i].id <= MAX_POINTER_ID)
    && (t.primary == NO_PRIMARY || Live(t.contacts, t.primary))
  }

  lemma RemoveKeepsTouches(t: Touches, k: nat)
    requires TouchesInv(t) && k < |t.contacts|
    ensures TouchesInv(Touches(t.contacts[..k] + t.contacts[k + 1..], if t.contacts[k].id == t.primary then NO_PRIMARY else t.primary))
  {
    var rest := t.contacts[..k] + t.contacts[k + 1..];
    if t.primary != NO_PRIMARY && t.contacts[k].id != t.primary {
      var i :| 0 <= i < |t.contacts| && t.contacts[i].id == t.primary;
      assert rest[if i < k then i else i - 1].id == t.primary;
    }
  }

  lemma ReplaceKeepsTouches(t: Touches, k: nat, c: Contact)
    requires TouchesInv(t) && k < |t.contacts| && c.id == t.contacts[k].id
    ensures TouchesInv(t.(contacts := t.contacts[k := c]))
  {
    var changed := t.contacts[k := c];
    if t.primary != NO_PRIMARY {
      var i :| 0 <= i < |t.contacts| && t.contacts[i].id == t.primary;
      assert changed[i].id == t.primary;
    }
  }

  lemma AddKeepsTouches(t: Touches, c: Contact)
    requires TouchesInv(t) && |t.contacts| < MAX_TOUCHES && c.id <= MAX_POINTER_ID && !Live(t.contacts, c.id)
    ensures TouchesInv(t.(contacts := t.contacts + [c]))
  {
    var added := t.contacts + [c];
    if t.primary != NO_PRIMARY {
      var i :| 0 <= i < |t.contacts| && t.contacts[i].id == t.primary;
      assert added[i].id == t.primary;
    }
  }

  lemma ChangeKeepsTouches(s: State, contacts: seq<Contact>, primary: nat, k: nat, flags: Flags, answers: Answers)
    requires TouchesInv(Touches(contacts, primary)) && k < |contacts|
    ensures TouchesInv(Change(s, contacts, primary, k, flags, answers).touches)
  {
    RemoveKeepsTouches(Touches(contacts, primary), k);
  }

  lemma MoveKeepsTouches(s: State, m: Msg, d: Desktop, answers: Answers)
    requires TouchesInv(s.touches) && m.id <= MAX_POINTER_ID
    ensures TouchesInv(TouchMove(s, m, d, answers).touches)
  {
    var contacts, primary := s.touches.contacts, s.touches.primary;
    var flags := if ActionOf(m.action) == PointerDown then DownFlags else UpdateFlags;
    if at :| MapPosition(m.position, d) == Some(at) {
      var k, c := Find(contacts, m.id), ContactOf(m, at);
      FindsLive(contacts, m.id);
      if k < |contacts| {
        ReplaceKeepsTouches(s.touches, k, c);
        ChangeKeepsTouches(s, contacts[k := c], primary, k, flags, answers);
      } else if |contacts| < MAX_TOUCHES {
        AddKeepsTouches(s.touches, c);
        ChangeKeepsTouches(s, contacts + [c], primary, |contacts|, flags, answers);
      }
    }
  }

  lemma DownKeepsTouches(s: State, m: Msg, d: Desktop, answers: Answers)
    requires TouchesInv(s.touches) && m.id <= MAX_POINTER_ID
    ensures TouchesInv(TouchDown(s, m, d, answers).touches)
  {
    if at :| MapPosition(m.position, d) == Some(at) {
      var one := [ContactOf(m, at)];
      assert one[0].id == m.id;
      ChangeKeepsTouches(Cancel(s, answers.cancel), one, m.id, 0, DownFlags, answers);
    }
  }

  lemma UpKeepsTouches(s: State, m: Msg, answers: Answers)
    requires TouchesInv(s.touches)
    ensures TouchesInv(TouchUp(s, m, answers).touches)
  {
    var k := Find(s.touches.contacts, m.id);
    if k < |s.touches.contacts| {
      ChangeKeepsTouches(s, s.touches.contacts, s.touches.primary, k, UpFlags, answers);
    }
  }

  lemma StepKeepsTouches(s: State, step: Step, t: State)
    requires TouchesInv(s.touches) && t == Next(s, step)
    ensures TouchesInv(t.touches)
  {
    match step
    case OnTouch(m, d, answers) =>
      if m.id <= MAX_POINTER_ID {
        match ActionOf(m.action)
        case Down => DownKeepsTouches(s, m, d, answers);
        case PointerDown => MoveKeepsTouches(s, m, d, answers);
        case Move => MoveKeepsTouches(s, m, d, answers);
        case Up => UpKeepsTouches(s, m, answers);
        case PointerUp => UpKeepsTouches(s, m, answers);
        case _ =>
      }
    case _ =>
  }

  /**
   For every run: at most ten contacts, with different ids that Windows accepts, and the primary
   is one of them or none.
   */
  lemma {:induction false} ContactsValid(initialized: bool, run: seq<Step>)
    ensures TouchesInv(After(initialized, run).touches)
  {
    if run != [] {
      ContactsValid(initialized, run[..|run| - 1]);
      StepKeepsTouches(After(initialized, run[..|run| - 1]), run[|run| - 1], After(initialized, run));
    }
  }
}
