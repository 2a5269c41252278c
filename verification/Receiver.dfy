/**
 The receiver thread (app/src/receiver.c): messages are parsed incrementally in a fixed
 buffer, whatever pieces the socket delivers them in.

 The loops do not depend on the message format, only on laws of the parse attempt; `Parser`
 stands for any attempt with these laws, and `DeserializeIsLawful` shows that the one of
 the device messages has them.
 */
module Receiver {
  import opened Common
  import opened Bytes
  import opened DeviceMsg

  type Parser = seq<byte> -> Result

  /** A malformed message is noticed within this many bytes. */
  const MALFORMED_WITHIN := 21

  /** A parse attempt depends on the front of the buffer only, and decides as early as it can. */
  ghost predicate Coherent(parse: Parser, buf: seq<byte>, more: seq<byte>) {
    && (!parse(buf).Incomplete? ==> parse(buf + more) == parse(buf))
    && (parse(buf + more).Complete? && parse(buf + more).size <= |buf| ==> parse(buf) == parse(buf + more))
    && (parse(buf + more).Malformed? && |buf| >= MALFORMED_WITHIN ==> parse(buf).Malformed?)
  }

  ghost predicate Lawful(parse: Parser) {
    && parse([]).Incomplete?
    && (forall buf :: parse(buf).Complete? ==> 0 < parse(buf).size <= |buf|)
    && (forall buf, more :: Coherent(parse, buf, more))
  }

  lemma DeserializeIsLawful()
    ensures Lawful(Deserialize)
  {
    forall buf, more
      ensures Coherent(Deserialize, buf, more)
    {
      var all := buf + more;
      if !Deserialize(buf).Incomplete? {
        DecisionStable(buf, more);
      } else if Deserialize(all).Complete? && Deserialize(all).size <= |buf| {
        var n := Deserialize(all).size;
        assert all[..n] == buf[..n] && buf[..n] + buf[n..] == buf;
        CompleteEarly(all);
        DecisionStable(buf[..n], buf[n..]);
      } else if Deserialize(all).Malformed? && |buf| >= MALFORMED_WITHIN {
        assert all[..|buf|] == buf;
        MalformedEarly(all, |buf|);
      }
    }
  }

  // ----- Parsing a buffer as far as it goes

  /** The messages at the front of a buffer, what is left of it, and whether a malformed message follows. */
  datatype Parsed = Parsed(msgs: seq<Msg>, left: seq<byte>, bad: bool)

  function Parse(parse: Parser, buf: seq<byte>): Parsed
    requires Lawful(parse)
    decreases |buf|
  {
    match parse(buf)
    case Incomplete => Parsed([], buf, false)
    case Malformed => Parsed([], buf, true)
    case Complete(m, n) =>
      var rest := Parse(parse, buf[n..]);
      Parsed([m] + rest.msgs, rest.left, rest.bad)
  }

  // ----- The reference: the whole stream at once

  /** How a stream ends: with the connection, at a malformed message, or at one too long for the buffer. */
  datatype Verdict = Ended | Failed | TooLong

  datatype Reception = Reception(msgs: seq<Msg>, verdict: Verdict)

  function Receive(parse: Parser, stream: seq<byte>): Reception
    requires Lawful(parse)
    decreases |stream|
  {
    match parse(stream)
    case Incomplete => Reception([], if |stream| >= MAX_SIZE then TooLong else Ended)
    case Malformed => Reception([], Failed)
    case Complete(m, n) =>
      if n > MAX_SIZE then Reception([], TooLong)
      else
        var rest := Receive(parse, stream[n..]);
        Reception([m] + rest.msgs, rest.verdict)
  }

  function Prepend(msgs: seq<Msg>, r: Reception): Reception { Reception(msgs + r.msgs, r.verdict) }

  // ----- Where the two meet

  lemma PrependTwice(a: seq<Msg>, b: seq<Msg>, r: Reception)
    ensures Prepend(a, Prepend(b, r)) == Prepend(a + b, r)
  {
    assert a + (b + r.msgs) == (a + b) + r.msgs;
  }

  /** Parsing the beginning of a stream, then receiving what was left of it with the rest. */
  lemma {:induction false} ReceiveResumes(parse: Parser, buf: seq<byte>, rest: seq<byte>)
    requires Lawful(parse) && |buf| <= MAX_SIZE
    ensures var p := Parse(parse, buf);
            Receive(parse, buf + rest)
            == if p.bad then Reception(p.msgs, Failed) else Prepend(p.msgs, Receive(parse, p.left + rest))
    decreases |buf|
  {
    assert Coherent(parse, buf, rest);
    match parse(buf)
    case Incomplete =>
      assert [] + Receive(parse, buf + rest).msgs == Receive(parse, buf + rest).msgs;
    case Malformed =>
    case Complete(m, n) =>
      assert (buf + rest)[n..] == buf[n..] + rest;
      ReceiveResumes(parse, buf[n..], rest);
      var p := Parse(parse, buf[n..]);
      PrependTwice([m], p.msgs, Receive(parse, p.left + rest));
  }

  /** A full buffer without a decided message: the message is longer than the buffer. */
  lemma FullBufferTooLong(parse: Parser, buf: seq<byte>, rest: seq<byte>)
    requires Lawful(parse) && |buf| == MAX_SIZE && parse(buf).Incomplete?
    ensures Receive(parse, buf + rest) == Reception([], TooLong)
  {
    assert Coherent(parse, buf, rest);
  }

  /**
   One round, seen from the whole stream: with `pending` in the buffer and `got` received, the
   messages found are the next ones, and what is left takes the place of `pending`.
   */
  lemma RoundResumes(parse: Parser, whole: Reception, before: seq<Msg>, pending: seq<byte>, got: seq<byte>, rest: seq<byte>)
    requires Lawful(parse) && |pending + got| <= MAX_SIZE
    requires whole == Prepend(before, Receive(parse, pending + (got + rest)))
    ensures var p := Parse(parse, pending + got);
            whole == if p.bad then Reception(before + p.msgs, Failed)
                     else Prepend(before + p.msgs, Receive(parse, p.left + rest))
  {
    assert pending + (got + rest) == (pending + got) + rest;
    ReceiveResumes(parse, pending + got, rest);
    var p := Parse(parse, pending + got);
    PrependTwice(before, p.msgs, Receive(parse, p.left + rest));
  }

  lemma StreamSplits<T>(stream: seq<T>, pos: nat, n: nat)
    requires pos + n <= |stream|
    ensures stream[pos..] == stream[pos..pos + n] + stream[pos + n..]
  {
  }

  lemma StreamEnds(parse: Parser, whole: Reception, before: seq<Msg>, pending: seq<byte>)
    requires Lawful(parse) && parse(pending).Incomplete? && |pending| < MAX_SIZE
    requires whole == Prepend(before, Receive(parse, pending + []))
    ensures whole == Reception(before, Ended)
  {
    assert pending + [] == pending;
    assert before + [] == before;
  }

  lemma BufferFull(parse: Parser, whole: Reception, before: seq<Msg>, pending: seq<byte>, rest: seq<byte>)
    requires Lawful(parse) && parse(pending).Incomplete? && |pending| == MAX_SIZE
    requires whole == Prepend(before, Receive(parse, pending + rest))
    ensures whole == Reception(before, TooLong)
  {
    FullBufferTooLong(parse, pending, rest);
    assert before + [] == before;
  }

  // ----- The loops

  /** Parsing that begins with messages already dispatched. */
  function Continue(msgs: seq<Msg>, p: Parsed): Parsed { Parsed(msgs + p.msgs, p.left, p.bad) }

  lemma ContinueWithOne(msgs: seq<Msg>, m: Msg, p: Parsed)
    ensures Continue(msgs, Parsed([m] + p.msgs, p.left, p.bad)) == Continue(msgs + [m], p)
  {
    Assoc(msgs, [m], p.msgs);
  }

  lemma ParseStep(parse: Parser, msgs: seq<Msg>, buf: seq<byte>)
    requires Lawful(parse) && parse(buf).Complete?
    ensures var r := parse(buf);
            Continue(msgs, Parse(parse, buf)) == Continue(msgs + [r.msg], Parse(parse, buf[r.size..]))
  {
    var r := parse(buf);
    ContinueWithOne(msgs, r.msg, Parse(parse, buf[r.size..]));
  }

  /** Dispatches the messages of the first `len` bytes; -1 on a malformed one. */
  method ProcessMsgs(parse: Parser, buf: array<byte>, len: nat, ghost have: seq<byte>)
    returns (consumed: int, msgs: seq<Msg>)
    requires Lawful(parse) && len <= buf.Length && have == buf[..len]
    ensures var p := Parse(parse, have);
            msgs == p.msgs && (if p.bad then consumed == -1 else 0 <= consumed <= len && p.left == have[consumed..])
    ensures consumed >= 0 ==> parse(have[consumed..]).Incomplete?
  {
    ghost var all := Parse(parse, have);
    ghost var rest := have;
    var head: nat := 0;
    msgs := [];
    while true
      invariant head <= len && rest == have[head..] && have == buf[..len]
      invariant all == Continue(msgs, Parse(parse, rest))
      decreases len - head
    {
      assert buf[head..len] == rest;
      var r := parse(buf[head..len]);
      if r.Malformed? {
        return -1, msgs;
      }
      if r.Incomplete? {
        return head, msgs;
      }
      ParseStep(parse, msgs, rest);
      rest := rest[r.size..];
      msgs := msgs + [r.msg];
      head := head + r.size;
      if head == len {
        assert rest == [];
        return head, msgs;
      }
    }
  }

  /** How many bytes one receive call delivers: any number from one up to what there is room for. */
  function Delivered(wish: nat, room: nat, remaining: nat): (n: nat)
    requires room > 0 && remaining > 0
    ensures 0 < n <= room && n <= remaining
  {
    var n := if wish == 0 then 1 else wish;
    if n > room && room <= remaining then room else if n > remaining then remaining else n
  }

  /** The receive call: `n` bytes of the stream arrive behind the first `head`. */
  method ReceiveInto(buf: array<byte>, head: nat, stream: seq<byte>, pos: nat, n: nat)
    requires pos + n <= |stream| && head + n <= buf.Length
    modifies buf
    ensures buf[..head + n] == old(buf[..head]) + stream[pos..pos + n]
  {
    forall i | 0 <= i < n {
      buf[head + i] := stream[pos + i];
    }
  }

  /** Moves what is left to the front. */
  method ShiftLeft(buf: array<byte>, consumed: nat, head: nat)
    requires consumed <= head <= buf.Length
    modifies buf
    ensures buf[..head - consumed] == old(buf[consumed..head])
  {
    forall i | 0 <= i < head - consumed {
      buf[i] := buf[i + consumed];
    }
  }

  /** One round: the messages that `got`, now in the buffer behind `pending`, completes. */
  method ProcessRound(parse: Parser, buf: array<byte>, head: nat, ghost have: seq<byte>)
    returns (left: nat, msgs: seq<Msg>, bad: bool)
    requires Lawful(parse) && head <= buf.Length && have == buf[..head]
    modifies buf
    ensures bad == Parse(parse, have).bad && msgs == Parse(parse, have).msgs
    ensures !bad ==> left <= head && buf[..left] == Parse(parse, have).left && parse(buf[..left]).Incomplete?
  {
    var consumed;
    consumed, msgs := ProcessMsgs(parse, buf, head, have);
    bad, left := consumed == -1, 0;
    if !bad {
      assert buf[consumed..head] == have[consumed..];
      ShiftLeft(buf, consumed, head);
      left := head - consumed;
    }
  }

  /** A receive call with room in the buffer, and the round that follows it. */
  method ReceiveOnce(parse: Parser, buf: array<byte>, head: nat, stream: seq<byte>, pos: nat, wish: nat,
                     ghost whole: Reception, ghost before: seq<Msg>, ghost pending: seq<byte>)
    returns (next: nat, left: nat, msgs: seq<Msg>, bad: bool)
    requires Lawful(parse) && head < MAX_SIZE == buf.Length && pos < |stream| && pending == buf[..head]
    requires whole == Prepend(before, Receive(parse, pending + stream[pos..]))
    modifies buf
    ensures pos < next <= |stream| && left <= MAX_SIZE
    ensures bad ==> whole == Reception(before + msgs, Failed)
    ensures !bad ==> parse(buf[..left]).Incomplete?
    ensures !bad ==> whole == Prepend(before + msgs, Receive(parse, buf[..left] + stream[next..]))
  {
    var n := Delivered(wish, MAX_SIZE - head, |stream| - pos);
    ReceiveInto(buf, head, stream, pos, n);
    next := pos + n;
    ghost var got, rest := stream[pos..next], stream[next..];
    StreamSplits(stream, pos, n);
    RoundResumes(parse, whole, before, pending, got, rest);
    left, msgs, bad := ProcessRound(parse, buf, head + n, pending + got);
    assert |pending + got| == head + n <= MAX_SIZE;
    if bad {
      left := 0;
    }
  }

  method RunWith(parse: Parser, stream: seq<byte>, wishes: nat -> nat) returns (dispatched: seq<Msg>, verdict: Verdict)
    requires Lawful(parse)
    ensures Reception(dispatched, verdict) == Receive(parse, stream)
  {
    ghost var whole := Receive(parse, stream);
    var buf := new byte[MAX_SIZE];
    var head: nat, pos: nat, calls: nat := 0, 0, 0;
    dispatched := [];
    assert buf[..0] + stream[0..] == stream && dispatched + whole.msgs == whole.msgs;
    while true
      invariant head <= MAX_SIZE && pos <= |stream| && parse(buf[..head]).Incomplete?
      invariant whole == Prepend(dispatched, Receive(parse, buf[..head] + stream[pos..]))
      decreases |stream| - pos
    {
      if head == MAX_SIZE {
        // the assertion before the receive call fails here
        BufferFull(parse, whole, dispatched, buf[..head], stream[pos..]);
        return dispatched, TooLong;
      }
      if pos == |stream| {
        StreamEnds(parse, whole, dispatched, buf[..head]);
        return dispatched, Ended;
      }
      var next, left, msgs, bad := ReceiveOnce(parse, buf, head, stream, pos, wishes(calls), whole, dispatched, buf[..head]);
      dispatched := dispatched + msgs;
      if bad {
        return dispatched, Failed;
      }
      head, pos, calls := left, next, calls + 1;
    }
  }

  /**
   The receiver loop on a stream that the socket splits as it likes (`wishes`).  It dispatches
   the same messages and ends the same way for every split; the receive call is reached with
   a full buffer exactly when a message is longer than the buffer.
   */
  method RunReceiver(stream: seq<byte>, wishes: nat -> nat) returns (dispatched: seq<Msg>, verdict: Verdict)
    ensures Lawful(Deserialize) && Reception(dispatched, verdict) == Receive(Deserialize, stream)
  {
    DeserializeIsLawful();
    dispatched, verdict := RunWith(Deserialize, stream, wishes);
  }

  // ----- Streams of messages

  function Concat(pieces: seq<seq<byte>>): seq<byte> {
    if pieces == [] then [] else pieces[0] + Concat(pieces[1..])
  }

  lemma {:induction false} PiecesArrive(parse: Parser, msgs: seq<Msg>, pieces: seq<seq<byte>>, tail: seq<byte>)
    requires Lawful(parse) && |msgs| == |pieces|
    requires forall i :: 0 <= i < |msgs| ==> parse(pieces[i]) == Complete(msgs[i], |pieces[i]|) && |pieces[i]| <= MAX_SIZE
    requires parse(tail).Incomplete? && |tail| < MAX_SIZE
    ensures Receive(parse, Concat(pieces) + tail) == Reception(msgs, Ended)
    decreases |msgs|
  {
    if msgs == [] {
      assert Concat(pieces) + tail == tail;
    } else {
      var rest := Concat(pieces[1..]) + tail;
      assert Concat(pieces) + tail == pieces[0] + rest;
      assert Coherent(parse, pieces[0], rest);
      assert (pieces[0] + rest)[|pieces[0]|..] == rest;
      PiecesArrive(parse, msgs[1..], pieces[1..], tail);
      assert [msgs[0]] + msgs[1..] == msgs;
    }
  }

  /**
   Messages in the device's wire format are all delivered, in order and once, provided each
   fits the buffer, whatever incomplete message ends the stream.
   */
  lemma EveryMessageArrives(msgs: seq<Msg>, pieces: seq<seq<byte>>, tail: seq<byte>)
    requires |pieces| == |msgs|
    requires forall i :: 0 <= i < |msgs| ==> WellFormed(msgs[i]) && pieces[i] == Wire(msgs[i]) && |pieces[i]| <= MAX_SIZE
    requires Deserialize(tail).Incomplete? && |tail| < MAX_SIZE
    ensures Lawful(Deserialize) && Receive(Deserialize, Concat(pieces) + tail) == Reception(msgs, Ended)
  {
    DeserializeIsLawful();
    forall i | 0 <= i < |msgs|
      ensures Deserialize(pieces[i]) == Complete(msgs[i], |pieces[i]|)
    {
      WireReadsBack(msgs[i], []);
      assert Wire(msgs[i]) + [] == pieces[i];
    }
    PiecesArrive(Deserialize, msgs, pieces, tail);
  }

  /** Only a clipboard announcement can be too long: every other message is decided well within the buffer. */
  lemma OnlyClipboardsAreTooLong(stream: seq<byte>)
    requires |stream| >= MAX_SIZE && Deserialize(stream[..MAX_SIZE]).Incomplete?
    ensures stream[0] == 0 && 5 + Field(stream, 1, 4) > MAX_SIZE
  {
    var front := stream[..MAX_SIZE];
    assert front + stream[MAX_SIZE..] == stream;
    FieldStable(front, stream[MAX_SIZE..], 1, 4);
    BigEndianEncodes(front[3..5]);
    Pow256Values();
  }
}
