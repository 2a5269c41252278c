/**
 The device's message writer (DeviceMessageWriter.java): what becomes of a message when it is
 written, and that all of it arrives.
 */
module DeviceWriter {
  import opened Common
  import opened Bytes
  import opened DeviceMsg
  import opened Receiver

  const CLIPBOARD_TEXT_MAX_LENGTH := MAX_SIZE - 5

  /** A byte inside a UTF-8 sequence. */
  predicate Continuation(b: byte) { 0x80 <= b < 0xc0 }

  /** Text begins with the first byte of a character. */
  predicate BeginsCharacter(utf8: seq<byte>) { utf8 == [] || !Continuation(utf8[0]) }

  function LastBoundary(utf8: seq<byte>, n: nat): (b: nat)
    requires BeginsCharacter(utf8) && n < |utf8|
    ensures b <= n && !Continuation(utf8[b])
    ensures forall k :: b < k <= n ==> Continuation(utf8[k])
  {
    if Continuation(utf8[n]) then LastBoundary(utf8, n - 1) else n
  }

  /** The greatest length up to `max` that does not cut a character. */
  function TruncationIndex(utf8: seq<byte>, max: nat): (n: nat)
    requires BeginsCharacter(utf8)
    ensures n <= max && n <= |utf8| && (n < |utf8| ==> !Continuation(utf8[n]))
  {
    if |utf8| <= max then |utf8| else LastBoundary(utf8, max)
  }

  /** No longer beginning of the text that fits ends between two characters. */
  lemma TruncatesAtLastBoundary(utf8: seq<byte>, max: nat, k: nat)
    requires BeginsCharacter(utf8) && k <= |utf8| && k <= max && (k == |utf8| || !Continuation(utf8[k]))
    ensures k <= TruncationIndex(utf8, max)
  {
  }

  method FindTruncationIndex(utf8: seq<byte>, max: nat) returns (n: nat)
    requires BeginsCharacter(utf8)
    ensures n == TruncationIndex(utf8, max)
  {
    n := |utf8|;
    if n <= max {
      return;
    }
    n := max;
    while Continuation(utf8[n])
      invariant n <= max < |utf8|
      invariant LastBoundary(utf8, n) == LastBoundary(utf8, max)
      decreases n
    {
      n := n - 1;
    }
  }

  // ----- What becomes of a message

  function Clamp(p: real): real { if p < 0.0 then 0.0 else if p > 1.0 then 1.0 else p }

  /** The messages that the device can write; their fields fit, but a text may have any length and a pressure any value. */
  predicate Writable(m: Msg) {
    match m
    case Clipboard(text) => BeginsCharacter(text)
    case ReverseTouch(action, id, position, pressure, actionButton, buttons) =>
      && action < 256 && id < Pow256(8) && ValidPosition(position)
      && actionButton < Pow256(4) && buttons < Pow256(4)
    case ReverseScroll(_, _, _) => false
    case _ => WellFormed(m)
  }

  /** The message as it arrives: text cut at a character, pressure clamped and rounded down. */
  function AsWritten(m: Msg): Msg
    requires Writable(m)
  {
    match m
    case Clipboard(text) => Clipboard(text[..TruncationIndex(text, CLIPBOARD_TEXT_MAX_LENGTH)])
    case ReverseTouch(action, id, position, pressure, actionButton, buttons) =>
      ReverseTouch(action, id, position, Pressure(PressureField(Clamp(pressure))), actionButton, buttons)
    case _ => m
  }

  lemma WrittenPressure(p: real)
    requires 0.0 <= p <= 1.0
    ensures PressureField(p) < 65536
    ensures -1.0 / 65536.0 <= Pressure(PressureField(p)) - p <= 1.0 / 65536.0
  {
    var fixed := (p * 65536.0).Floor;
    assert fixed as real <= p * 65536.0 < fixed as real + 1.0;
  }

  /** Text that is not too long arrives whole, and pressure arrives within one fixed-point unit. */
  lemma WritingKeeps(m: Msg)
    requires Writable(m)
    ensures m.Clipboard? && |m.text| <= CLIPBOARD_TEXT_MAX_LENGTH ==> AsWritten(m) == m
    ensures m.ReverseTouch? ==>
              var arrived := AsWritten(m).pressure;
              -1.0 / 65536.0 <= arrived - Clamp(m.pressure) <= 1.0 / 65536.0
    ensures !m.Clipboard? && !m.ReverseTouch? ==> AsWritten(m) == m
  {
    if m.ReverseTouch? {
      WrittenPressure(Clamp(m.pressure));
    } else if m.Clipboard? && |m.text| <= CLIPBOARD_TEXT_MAX_LENGTH {
      assert m.text[..|m.text|] == m.text;
    }
  }

  lemma WrittenIsWellFormed(m: Msg)
    requires Writable(m)
    ensures WellFormed(AsWritten(m)) && |Wire(AsWritten(m))| <= MAX_SIZE
  {
    Pow256Values();
    if m.ReverseTouch? {
      WrittenPressure(Clamp(m.pressure));
      PressureRoundTrip(PressureField(Clamp(m.pressure)));
    }
  }

  /** Whatever is written is read back to its last byte, as it was written, and fits the receiver's buffer. */
  lemma WrittenReadsBack(m: Msg, rest: seq<byte>)
    requires Writable(m)
    ensures WellFormed(AsWritten(m)) && |Wire(AsWritten(m))| <= MAX_SIZE
    ensures Deserialize(Wire(AsWritten(m)) + rest) == Complete(AsWritten(m), |Wire(AsWritten(m))|)
  {
    WrittenIsWellFormed(m);
    WireReadsBack(AsWritten(m), rest);
  }

  /**
   Everything the device writes arrives, in order and once, however the socket splits it: no text
   is too long for the receiver.
   */
  lemma EverythingWrittenArrives(msgs: seq<Msg>, arrived: seq<Msg>, pieces: seq<seq<byte>>, tail: seq<byte>)
    requires |msgs| == |arrived| == |pieces| && forall i :: 0 <= i < |msgs| ==> Writable(msgs[i])
    requires forall i :: 0 <= i < |msgs| ==>
               arrived[i] == AsWritten(msgs[i]) && WellFormed(arrived[i]) && pieces[i] == Wire(arrived[i])
    requires Deserialize(tail).Incomplete? && |tail| < MAX_SIZE
    ensures Lawful(Deserialize) && Receive(Deserialize, Concat(pieces) + tail) == Reception(arrived, Ended)
  {
    forall i | 0 <= i < |msgs|
      ensures |pieces[i]| <= MAX_SIZE
    {
      WrittenIsWellFormed(msgs[i]);
    }
    EveryMessageArrives(arrived, pieces, tail);
  }
}
