/**
 Device messages (app/src/device_msg.c): what one parse attempt finds at the front of the
 receive buffer, and the wire format.  What the device makes of a message before it writes it is
 in `DeviceWriter`.
 */
module DeviceMsg {
  import opened Common
  import opened Bytes

  const MAX_SIZE := 262144
  const SCROLL_LIMIT := 120

  datatype Msg =
    | Clipboard(text: seq<byte>)
    | AckClipboard(sequence: nat)
    | UhidOutput(id: nat, data: seq<byte>)
    | ReverseTouch(action: nat, pointerId: nat, position: Position, pressure: real, actionButton: nat, buttons: nat)
    | FrameAck(pts: int)
    | SystemAction(systemAction: nat)
    | AudioAck(pts: int)
    | ReverseScroll(position: Position, dx: int, dy: int)

  datatype Result = Incomplete | Malformed | Complete(msg: Msg, size: nat)

  /** An unsigned 16-bit fixed-point number, whose greatest value stands for 1. */
  function Pressure(field: nat): real {
    if field == 0xffff then 1.0 else field as real / 65536.0
  }

  function ReadPosition(buf: seq<byte>, at: nat): Position
    requires at + 12 <= |buf|
  {
    Position(Signed(Field(buf, at, 4), 4), Signed(Field(buf, at + 4, 4), 4), Field(buf, at + 8, 2), Field(buf, at + 10, 2))
  }

  function ReadClipboard(buf: seq<byte>): Result {
    if |buf| < 5 then Incomplete
    else
      var n := Field(buf, 1, 4);
      if n > |buf| - 5 then Incomplete else Complete(Clipboard(buf[5..5 + n]), 5 + n)
  }

  function ReadUhid(buf: seq<byte>): Result {
    if |buf| < 5 then Incomplete
    else
      var n := Field(buf, 3, 2);
      if n > |buf| - 5 then Incomplete else Complete(UhidOutput(Field(buf, 1, 2), buf[5..5 + n]), 5 + n)
  }

  function ReadTouch(buf: seq<byte>): Result {
    if |buf| < 32 then Incomplete
    else
      Complete(ReverseTouch(buf[1], Field(buf, 2, 8), ReadPosition(buf, 10), Pressure(Field(buf, 22, 2)),
                            Field(buf, 24, 4), Field(buf, 28, 4)), 32)
  }

  function ReadScroll(buf: seq<byte>): Result {
    if |buf| < 21 then Incomplete
    else
      var dx, dy := Signed(Field(buf, 13, 4), 4), Signed(Field(buf, 17, 4), 4);
      if -SCROLL_LIMIT <= dx <= SCROLL_LIMIT && -SCROLL_LIMIT <= dy <= SCROLL_LIMIT
      then Complete(ReverseScroll(ReadPosition(buf, 1), dx, dy), 21) else Malformed
  }

  /** One parse attempt at the front of a buffer. */
  function Deserialize(buf: seq<byte>): (r: Result)
    ensures r.Complete? ==> 0 < r.size <= |buf|
  {
    if buf == [] then Incomplete
    else if buf[0] == 0 then ReadClipboard(buf)
    else if buf[0] == 1 then if |buf| < 9 then Incomplete else Complete(AckClipboard(Field(buf, 1, 8)), 9)
    else if buf[0] == 2 then ReadUhid(buf)
    else if buf[0] == 3 then ReadTouch(buf)
    else if buf[0] == 4 then if |buf| < 9 then Incomplete else Complete(FrameAck(Signed(Field(buf, 1, 8), 8)), 9)
    else if buf[0] == 5 then if |buf| < 2 then Incomplete else Complete(SystemAction(buf[1]), 2)
    else if buf[0] == 6 then if |buf| < 9 then Incomplete else Complete(AudioAck(Signed(Field(buf, 1, 8), 8)), 9)
    else if buf[0] == 7 then ReadScroll(buf)
    else Malformed
  }

  // ----- A parse attempt depends on the front of the buffer only

  lemma PositionStable(buf: seq<byte>, more: seq<byte>, at: nat)
    requires at + 12 <= |buf|
    ensures ReadPosition(buf + more, at) == ReadPosition(buf, at)
  {
    FieldStable(buf, more, at, 4);
    FieldStable(buf, more, at + 4, 4);
    FieldStable(buf, more, at + 8, 2);
    FieldStable(buf, more, at + 10, 2);
  }

  lemma VariableStable(buf: seq<byte>, more: seq<byte>)
    ensures !ReadClipboard(buf).Incomplete? ==> ReadClipboard(buf + more) == ReadClipboard(buf)
    ensures !ReadUhid(buf).Incomplete? ==> ReadUhid(buf + more) == ReadUhid(buf)
  {
    if |buf| >= 5 {
      FieldStable(buf, more, 1, 4);
      FieldStable(buf, more, 1, 2);
      FieldStable(buf, more, 3, 2);
      var n := Field(buf, 1, 4);
      assert n <= |buf| - 5 ==> (buf + more)[5..5 + n] == buf[5..5 + n];
      var k := Field(buf, 3, 2);
      assert k <= |buf| - 5 ==> (buf + more)[5..5 + k] == buf[5..5 + k];
    }
  }

  lemma PointerStable(buf: seq<byte>, more: seq<byte>)
    ensures !ReadTouch(buf).Incomplete? ==> ReadTouch(buf + more) == ReadTouch(buf)
    ensures !ReadScroll(buf).Incomplete? ==> ReadScroll(buf + more) == ReadScroll(buf)
  {
    if |buf| >= 32 {
      FieldStable(buf, more, 2, 8);
      PositionStable(buf, more, 10);
      FieldStable(buf, more, 22, 2);
      FieldStable(buf, more, 24, 4);
      FieldStable(buf, more, 28, 4);
    }
    if |buf| >= 21 {
      PositionStable(buf, more, 1);
      FieldStable(buf, more, 13, 4);
      FieldStable(buf, more, 17, 4);
    }
  }

  /** Once the front of a buffer decides, further bytes change nothing. */
  lemma DecisionStable(buf: seq<byte>, more: seq<byte>)
    requires !Deserialize(buf).Incomplete?
    ensures Deserialize(buf + more) == Deserialize(buf)
  {
    VariableStable(buf, more);
    PointerStable(buf, more);
    if |buf| >= 9 {
      FieldStable(buf, more, 1, 8);
    }
  }

  /** A complete message decides as soon as its own bytes are there. */
  lemma CompleteEarly(buf: seq<byte>)
    requires Deserialize(buf).Complete?
    ensures var n := Deserialize(buf).size;
            Deserialize(buf[..n]) == Deserialize(buf)
  {
    var n := Deserialize(buf).size;
    var front := buf[..n];
    assert front + buf[n..] == buf;
    if buf[0] == 0 {
      FieldStable(front, buf[n..], 1, 4);
    } else if buf[0] == 2 {
      FieldStable(front, buf[n..], 3, 2);
    } else if buf[0] == 7 {
      FieldStable(front, buf[n..], 13, 4);
      FieldStable(front, buf[n..], 17, 4);
    }
    assert !Deserialize(front).Incomplete?;
    DecisionStable(front, buf[n..]);
  }

  /** A malformed one is noticed within 21 bytes. */
  lemma MalformedEarly(buf: seq<byte>, k: nat)
    requires Deserialize(buf).Malformed? && 21 <= k <= |buf|
    ensures Deserialize(buf[..k]).Malformed?
  {
    var front := buf[..k];
    assert front + buf[k..] == buf;
    assert !Deserialize(front).Incomplete?;
    DecisionStable(front, buf[k..]);
  }

  // ----- The wire format

  /** The fixed-point field that the device writes for a pressure between 0 and 1. */
  function PressureField(p: real): nat
    requires 0.0 <= p <= 1.0
  {
    var fixed := (p * 65536.0).Floor;
    if fixed >= 0xffff then 0xffff else fixed
  }

  function WritePosition(p: Position): seq<byte>
    requires InRange(p.x, 4) && InRange(p.y, 4)
  {
    LengthField(Twos(p.x, 4), 4) + (LengthField(Twos(p.y, 4), 4) + (LengthField(p.width, 2) + LengthField(p.height, 2)))
  }

  predicate ValidPosition(p: Position) {
    InRange(p.x, 4) && InRange(p.y, 4) && p.width < Pow256(2) && p.height < Pow256(2)
  }

  /** The messages whose fields fit their widths; a pressure must be one that the format can express. */
  predicate WellFormed(m: Msg) {
    match m
    case Clipboard(text) => |text| < Pow256(4)
    case AckClipboard(sequence) => sequence < Pow256(8)
    case UhidOutput(id, data) => id < Pow256(2) && |data| < Pow256(2)
    case ReverseTouch(action, id, position, pressure, actionButton, buttons) =>
      && action < 256 && id < Pow256(8) && ValidPosition(position)
      && 0.0 <= pressure <= 1.0 && Pressure(PressureField(pressure)) == pressure
      && actionButton < Pow256(4) && buttons < Pow256(4)
    case FrameAck(pts) => InRange(pts, 8)
    case SystemAction(action) => action < 256
    case AudioAck(pts) => InRange(pts, 8)
    case ReverseScroll(position, dx, dy) =>
      && ValidPosition(position)
      && -SCROLL_LIMIT <= dx <= SCROLL_LIMIT && -SCROLL_LIMIT <= dy <= SCROLL_LIMIT
  }

  lemma Pow256Values()
    ensures Pow256(1) == 256 && Pow256(2) == 65536 && Pow256(4) == 4294967296
    ensures Pow256(8) == 18446744073709551616
  {
    assert Pow256(0) == 1 && Pow256(3) == 16777216;
    assert Pow256(5) == 1099511627776 && Pow256(6) == 281474976710656 && Pow256(7) == 72057594037927936;
  }

  lemma ScrollInRange(d: int)
    requires -SCROLL_LIMIT <= d <= SCROLL_LIMIT
    ensures InRange(d, 4)
  {
    Pow256Values();
  }

  /** The bytes of a message.  The scroll form is the one that is read; no writer of it is part of this model. */
  function Wire(m: Msg): seq<byte>
    requires WellFormed(m)
  {
    match m
    case Clipboard(text) => [0] + (LengthField(|text|, 4) + text)
    case AckClipboard(sequence) => [1] + LengthField(sequence, 8)
    case UhidOutput(id, data) => [2] + (LengthField(id, 2) + (LengthField(|data|, 2) + data))
    case ReverseTouch(action, id, position, pressure, actionButton, buttons) =>
      [3, action] + (LengthField(id, 8) + (WritePosition(position) + (LengthField(PressureField(pressure), 2)
        + (LengthField(actionButton, 4) + LengthField(buttons, 4)))))
    case FrameAck(pts) => [4] + LengthField(Twos(pts, 8), 8)
    case SystemAction(action) => [5, action]
    case AudioAck(pts) => [6] + LengthField(Twos(pts, 8), 8)
    case ReverseScroll(position, dx, dy) =>
      ScrollInRange(dx);
      ScrollInRange(dy);
      [7] + (WritePosition(position) + (LengthField(Twos(dx, 4), 4) + LengthField(Twos(dy, 4), 4)))
  }

  lemma PositionReads(buf: seq<byte>, before: seq<byte>, p: Position, after: seq<byte>)
    requires ValidPosition(p) && buf == before + (WritePosition(p) + after)
    ensures |buf| >= |before| + 12 && ReadPosition(buf, |before|) == p
  {
    var x, y := LengthField(Twos(p.x, 4), 4), LengthField(Twos(p.y, 4), 4);
    var w, h := LengthField(p.width, 2), LengthField(p.height, 2);
    RegroupShort(x, y, w, h, after);
    FieldReads(buf, before, Twos(p.x, 4), 4, y + (w + (h + after)));
    Assoc(before, x, y + (w + (h + after)));
    FieldReads(buf, before + x, Twos(p.y, 4), 4, w + (h + after));
    Assoc(before + x, y, w + (h + after));
    FieldReads(buf, before + x + y, p.width, 2, h + after);
    Assoc(before + x + y, w, h + after);
    FieldReads(buf, before + x + y + w, p.height, 2, after);
    TwosDecodes(p.x, 4);
    TwosDecodes(p.y, 4);
  }

  lemma TouchHeadReads(m: Msg, buf: seq<byte>, more: seq<byte>)
    requires m.ReverseTouch? && WellFormed(m)
    requires buf == [3, m.action] + (LengthField(m.pointerId, 8) + (WritePosition(m.position) + more))
    ensures |buf| >= 22 && Field(buf, 2, 8) == m.pointerId && ReadPosition(buf, 10) == m.position
  {
    var head: seq<byte> := [3, m.action];
    var id, pos := LengthField(m.pointerId, 8), WritePosition(m.position);
    FieldReads(buf, head, m.pointerId, 8, pos + more);
    Assoc(head, id, pos + more);
    PositionReads(buf, head + id, m.position, more);
  }

  lemma TouchTailReads(m: Msg, buf: seq<byte>, head: seq<byte>, rest: seq<byte>)
    requires m.ReverseTouch? && WellFormed(m) && |head| == 22
    requires buf == head + (LengthField(PressureField(m.pressure), 2)
                            + (LengthField(m.actionButton, 4) + (LengthField(m.buttons, 4) + rest)))
    ensures |buf| >= 32 && Field(buf, 22, 2) == PressureField(m.pressure)
    ensures Field(buf, 24, 4) == m.actionButton && Field(buf, 28, 4) == m.buttons
  {
    Pow256Values();
    var pressure, action, buttons :=
      LengthField(PressureField(m.pressure), 2), LengthField(m.actionButton, 4), LengthField(m.buttons, 4);
    FieldReads(buf, head, PressureField(m.pressure), 2, action + (buttons + rest));
    Assoc(head, pressure, action + (buttons + rest));
    FieldReads(buf, head + pressure, m.actionButton, 4, buttons + rest);
    Assoc(head + pressure, action, buttons + rest);
    FieldReads(buf, head + pressure + action, m.buttons, 4, rest);
  }

  lemma Regroup<T>(a: seq<T>, b: seq<T>, c: seq<T>, d: seq<T>, e: seq<T>, f: seq<T>, g: seq<T>)
    ensures (a + (b + (c + (d + (e + f))))) + g == a + (b + (c + (d + (e + (f + g)))))
    ensures (a + (b + (c + (d + (e + f))))) + g == (a + (b + c)) + (d + (e + (f + g)))
  {
  }

  lemma TouchDecodes(m: Msg, buf: seq<byte>)
    requires m.ReverseTouch? && WellFormed(m)
    requires |buf| >= 32 && buf[0] == 3 && buf[1] == m.action
    requires Field(buf, 2, 8) == m.pointerId && ReadPosition(buf, 10) == m.position
    requires Field(buf, 22, 2) == PressureField(m.pressure)
    requires Field(buf, 24, 4) == m.actionButton && Field(buf, 28, 4) == m.buttons
    ensures Deserialize(buf) == Complete(m, 32)
  {
  }

  lemma TouchReads(m: Msg, rest: seq<byte>)
    requires m.ReverseTouch? && WellFormed(m)
    ensures Deserialize(Wire(m) + rest) == Complete(m, |Wire(m)|)
  {
    var buf := Wire(m) + rest;
    var head: seq<byte> := [3, m.action];
    var id, pos := LengthField(m.pointerId, 8), WritePosition(m.position);
    var pressure, action, buttons :=
      LengthField(PressureField(m.pressure), 2), LengthField(m.actionButton, 4), LengthField(m.buttons, 4);
    Regroup(head, id, pos, pressure, action, buttons, rest);
    assert buf[0] == 3 && buf[1] == m.action && |Wire(m)| == 32;
    TouchHeadReads(m, buf, pressure + (action + (buttons + rest)));
    TouchTailReads(m, buf, head + (id + pos), rest);
    TouchDecodes(m, buf);
  }

  lemma ScrollReads(m: Msg, rest: seq<byte>)
    requires m.ReverseScroll? && WellFormed(m)
    ensures Deserialize(Wire(m) + rest) == Complete(m, |Wire(m)|)
  {
    ScrollInRange(m.dx);
    ScrollInRange(m.dy);
    TwosDecodes(m.dx, 4);
    TwosDecodes(m.dy, 4);
    var buf := Wire(m) + rest;
    var head: seq<byte> := [7];
    var pos, dx, dy := WritePosition(m.position), LengthField(Twos(m.dx, 4), 4), LengthField(Twos(m.dy, 4), 4);
    RegroupShort(head, pos, dx, dy, rest);
    PositionReads(buf, head, m.position, dx + (dy + rest));
    Assoc(head, pos, dx + (dy + rest));
    FieldReads(buf, head + pos, Twos(m.dx, 4), 4, dy + rest);
    Assoc(head + pos, dx, dy + rest);
    FieldReads(buf, head + pos + dx, Twos(m.dy, 4), 4, rest);
    assert buf[0] == 7;
  }

  lemma RegroupShort<T>(a: seq<T>, b: seq<T>, c: seq<T>, d: seq<T>, e: seq<T>)
    ensures (a + (b + (c + d))) + e == a + (b + (c + (d + e)))
    ensures (a + (b + c)) + e == a + (b + (c + e))
  {
  }

  lemma UhidFields(buf: seq<byte>, id: nat, data: seq<byte>, rest: seq<byte>)
    requires id < Pow256(2) && |data| < Pow256(2)
    requires buf == [2] + (LengthField(id, 2) + (LengthField(|data|, 2) + (data + rest)))
    ensures |buf| >= 5 + |data| && Field(buf, 1, 2) == id && Field(buf, 3, 2) == |data|
    ensures buf[5..5 + |data|] == data
  {
    var head: seq<byte> := [2];
    var f, g := LengthField(id, 2), LengthField(|data|, 2);
    FieldReads(buf, head, id, 2, g + (data + rest));
    Assoc(head, f, g + (data + rest));
    FieldReads(buf, head + f, |data|, 2, data + rest);
    Assoc(head + f, g, data + rest);
    MiddleSlice(buf, head + f + g, data, rest);
  }

  lemma ClipboardFields(buf: seq<byte>, text: seq<byte>, rest: seq<byte>)
    requires |text| < Pow256(4) && buf == [0] + (LengthField(|text|, 4) + (text + rest))
    ensures |buf| >= 5 + |text| && Field(buf, 1, 4) == |text| && buf[5..5 + |text|] == text
  {
    var head: seq<byte> := [0];
    FieldReads(buf, head, |text|, 4, text + rest);
    Assoc(head, LengthField(|text|, 4), text + rest);
    MiddleSlice(buf, head + LengthField(|text|, 4), text, rest);
  }

  lemma VariableReads(m: Msg, rest: seq<byte>)
    requires (m.Clipboard? || m.UhidOutput?) && WellFormed(m)
    ensures Deserialize(Wire(m) + rest) == Complete(m, |Wire(m)|)
  {
    var buf := Wire(m) + rest;
    if m.Clipboard? {
      RegroupShort([0 as byte], LengthField(|m.text|, 4), m.text, [], rest);
      ClipboardFields(buf, m.text, rest);
      assert buf[0] == 0;
    } else {
      RegroupShort([2 as byte], LengthField(m.id, 2), LengthField(|m.data|, 2), m.data, rest);
      UhidFields(buf, m.id, m.data, rest);
      assert buf[0] == 2;
    }
  }

  lemma NumberReads(m: Msg, rest: seq<byte>)
    requires (m.AckClipboard? || m.FrameAck? || m.AudioAck?) && WellFormed(m)
    ensures Deserialize(Wire(m) + rest) == Complete(m, |Wire(m)|)
  {
    var buf := Wire(m) + rest;
    var n := if m.AckClipboard? then m.sequence else Twos(m.pts, 8);
    var head: seq<byte> := [buf[0]];
    assert Wire(m) == head + LengthField(n, 8);
    Assoc(head, LengthField(n, 8), rest);
    FieldReads(buf, head, n, 8, rest);
    if !m.AckClipboard? {
      TwosDecodes(m.pts, 8);
    }
  }

  /** Whatever follows it, a message in its wire form is read back, to its last byte and no further. */
  lemma WireReadsBack(m: Msg, rest: seq<byte>)
    requires WellFormed(m)
    ensures Deserialize(Wire(m) + rest) == Complete(m, |Wire(m)|)
  {
    match m
    case Clipboard(_) => VariableReads(m, rest);
    case UhidOutput(_, _) => VariableReads(m, rest);
    case ReverseTouch(_, _, _, _, _, _) => TouchReads(m, rest);
    case ReverseScroll(_, _, _) => ScrollReads(m, rest);
    case SystemAction(_) => assert (Wire(m) + rest)[0] == 5;
    case _ => NumberReads(m, rest);
  }

  /** Every fixed-point field is the one that its pressure is written with. */
  lemma PressureRoundTrip(field: nat)
    requires field < 65536
    ensures 0.0 <= Pressure(field) <= 1.0 && PressureField(Pressure(field)) == field
  {
    if field < 0xffff {
      assert Pressure(field) * 65536.0 == field as real;
    }
  }
}
