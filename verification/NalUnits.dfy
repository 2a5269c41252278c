/**
 H.264 NAL units in their three carriers: length-prefixed ("AVCC") packets, the avcC
 decoder configuration record, and the Annex B byte stream.  This module holds the
 carriers as functions on byte sequences and the laws between them; the converters
 that work on buffers are in `H264Convert`.
 */
module NalUnits {

  import opened Common
  import opened Bytes

  const START_CODE: seq<byte> := [0, 0, 0, 1]

  // ----- Length-prefixed units

  function Prefixed(u: seq<byte>, size: nat): seq<byte> { LengthField(|u|, size) + u }

  function Avcc(units: seq<seq<byte>>, size: nat): seq<byte> {
    if units == [] then [] else Prefixed(units[0], size) + Avcc(units[1..], size)
  }

  /** A unit that a length field of `size` bytes can announce. */
  predicate Fits(u: seq<byte>, size: nat) { 0 < |u| < Pow256(size) }

  predicate AllFit(units: seq<seq<byte>>, size: nat) {
    forall i :: 0 <= i < |units| ==> Fits(units[i], size)
  }

  /** Reads one unit: its bytes and what follows. */
  function TakeUnit(data: seq<byte>, size: nat): (r: Option<(seq<byte>, seq<byte>)>)
    ensures r.Some? ==> |r.value.1| < |data|
  {
    if |data| < size then None
    else
      var n := BigEndian(data[..size]);
      if n == 0 || n > |data| - size then None
      else Some((data[size..size + n], data[size + n..]))
  }

  /** Reads units to the end of the packet. */
  function ParseAvcc(data: seq<byte>, size: nat): Option<seq<seq<byte>>> {
    if data == [] then Some([])
    else
      var head := TakeUnit(data, size);
      if head.None? then None
      else
        var rest := ParseAvcc(head.value.1, size);
        if rest.None? then None else Some([head.value.0] + rest.value)
  }

  /** Reads exactly `count` units: the units and what follows. */
  function TakeUnits(data: seq<byte>, size: nat, count: nat): Option<(seq<seq<byte>>, seq<byte>)> {
    if count == 0 then Some(([], data))
    else
      var head := TakeUnit(data, size);
      if head.None? then None
      else
        var rest := TakeUnits(head.value.1, size, count - 1);
        if rest.None? then None else Some(([head.value.0] + rest.value.0, rest.value.1))
  }

  lemma TakeUnitReadsPrefixed(u: seq<byte>, size: nat, rest: seq<byte>)
    requires Fits(u, size)
    ensures TakeUnit(Prefixed(u, size) + rest, size) == Some((u, rest))
  {
    LengthFieldDecodes(|u|, size);
    var data := Prefixed(u, size) + rest;
    assert data[..size] == LengthField(|u|, size);
    assert data[size..size + |u|] == u;
    assert data[size + |u|..] == rest;
  }

  lemma TakeUnitReadsOnlyPrefixed(data: seq<byte>, size: nat)
    requires TakeUnit(data, size).Some?
    ensures var (u, rest) := TakeUnit(data, size).value;
            Fits(u, size) && data == Prefixed(u, size) + rest
  {
    BigEndianEncodes(data[..size]);
    var n := BigEndian(data[..size]);
    assert data == data[..size] + data[size..size + n] + data[size + n..];
  }

  lemma {:induction false} AvccAppend(a: seq<seq<byte>>, b: seq<seq<byte>>, size: nat)
    ensures Avcc(a + b, size) == Avcc(a, size) + Avcc(b, size)
  {
    if a == [] {
      assert a + b == b;
    } else {
      assert (a + b)[1..] == a[1..] + b;
      AvccAppend(a[1..], b, size);
    }
  }

  /** The first unit, and the others with what follows them. */
  lemma AvccFront(units: seq<seq<byte>>, size: nat, rest: seq<byte>)
    requires units != []
    ensures Avcc(units, size) + rest == Prefixed(units[0], size) + (Avcc(units[1..], size) + rest)
  {
    Assoc(Prefixed(units[0], size), Avcc(units[1..], size), rest);
  }

  lemma ConsOnto<T>(s: seq<T>, more: seq<T>)
    requires s != []
    ensures [s[0]] + (s[1..] + more) == s + more
  {
    assert [s[0]] + s[1..] == s;
  }

  lemma ParseStep(u: seq<byte>, rest: seq<byte>, size: nat)
    requires Fits(u, size)
    ensures var r := ParseAvcc(rest, size);
            ParseAvcc(Prefixed(u, size) + rest, size) == if r.None? then None else Some([u] + r.value)
  {
    TakeUnitReadsPrefixed(u, size, rest);
  }

  /** Reading past a well-formed beginning. */
  lemma {:induction false} ParseAfter(done: seq<seq<byte>>, rest: seq<byte>, size: nat)
    requires AllFit(done, size)
    ensures var r := ParseAvcc(rest, size);
            ParseAvcc(Avcc(done, size) + rest, size) == if r.None? then None else Some(done + r.value)
  {
    if done == [] {
      assert Avcc(done, size) + rest == rest;
      var r := ParseAvcc(rest, size);
      assert r.Some? ==> done + r.value == r.value;
    } else {
      AvccFront(done, size, rest);
      ParseStep(done[0], Avcc(done[1..], size) + rest, size);
      ParseAfter(done[1..], rest, size);
      var r := ParseAvcc(rest, size);
      if r.Some? {
        ConsOnto(done, r.value);
      }
    }
  }

  /** A packet parses to `units` exactly when it is their length-prefixed form. */
  lemma {:induction false} ParseInvertsAvcc(data: seq<byte>, size: nat, units: seq<seq<byte>>)
    ensures ParseAvcc(data, size) == Some(units) <==> AllFit(units, size) && data == Avcc(units, size)
  {
    if AllFit(units, size) && data == Avcc(units, size) {
      ParseAfter(units, [], size);
      assert Avcc(units, size) + [] == data;
      assert units + [] == units;
    }
    if ParseAvcc(data, size) == Some(units) {
      if data != [] {
        TakeUnitReadsOnlyPrefixed(data, size);
        var (u, rest) := TakeUnit(data, size).value;
        assert units[1..] == ParseAvcc(rest, size).value;
        ParseInvertsAvcc(rest, size, units[1..]);
      }
    }
  }

  /** Units in front of some rest are read back. */
  lemma {:induction false} TakeUnitsReadsAvcc(units: seq<seq<byte>>, size: nat, rest: seq<byte>)
    requires AllFit(units, size)
    ensures TakeUnits(Avcc(units, size) + rest, size, |units|) == Some((units, rest))
  {
    if units == [] {
      assert Avcc(units, size) + rest == rest;
    } else {
      var tail := Avcc(units[1..], size) + rest;
      AvccFront(units, size, rest);
      assert Fits(units[0], size);
      TakeUnitReadsPrefixed(units[0], size, tail);
      TakeUnitsReadsAvcc(units[1..], size, rest);
      assert [units[0]] + units[1..] == units;
    }
  }

  /** Only units in front of some rest are read. */
  lemma {:induction false} TakeUnitsReadsOnlyAvcc(data: seq<byte>, size: nat, count: nat)
    requires TakeUnits(data, size, count).Some?
    ensures var (units, rest) := TakeUnits(data, size, count).value;
            |units| == count && AllFit(units, size) && data == Avcc(units, size) + rest
  {
    var (units, rest) := TakeUnits(data, size, count).value;
    if count == 0 {
      assert Avcc(units, size) + rest == rest;
    } else {
      TakeUnitReadsOnlyPrefixed(data, size);
      var (u, tail) := TakeUnit(data, size).value;
      TakeUnitsReadsOnlyAvcc(tail, size, count - 1);
      assert units[1..] == TakeUnits(tail, size, count - 1).value.0;
      AvccFront(units, size, rest);
    }
  }

  /** `count` units are read exactly when the data begins with that many. */
  lemma TakeUnitsInvertsAvcc(data: seq<byte>, size: nat, units: seq<seq<byte>>, rest: seq<byte>)
    ensures TakeUnits(data, size, |units|) == Some((units, rest))
            <==> AllFit(units, size) && data == Avcc(units, size) + rest
  {
    if AllFit(units, size) && data == Avcc(units, size) + rest {
      TakeUnitsReadsAvcc(units, size, rest);
    }
    if TakeUnits(data, size, |units|) == Some((units, rest)) {
      TakeUnitsReadsOnlyAvcc(data, size, |units|);
    }
  }

  lemma TakeStep(u: seq<byte>, rest: seq<byte>, size: nat, count: nat)
    requires Fits(u, size) && count > 0
    ensures var r := TakeUnits(rest, size, count - 1);
            TakeUnits(Prefixed(u, size) + rest, size, count)
            == if r.None? then None else Some(([u] + r.value.0, r.value.1))
  {
    TakeUnitReadsPrefixed(u, size, rest);
  }

  /** Reading `count` units when the first ones are known. */
  lemma {:induction false} TakeUnitsAfter(done: seq<seq<byte>>, rest: seq<byte>, size: nat, count: nat)
    requires AllFit(done, size) && |done| <= count
    ensures var r := TakeUnits(rest, size, count - |done|);
            TakeUnits(Avcc(done, size) + rest, size, count)
            == if r.None? then None else Some((done + r.value.0, r.value.1))
  {
    var r := TakeUnits(rest, size, count - |done|);
    if done == [] {
      assert Avcc(done, size) + rest == rest;
      assert r.Some? ==> done + r.value.0 == r.value.0;
    } else {
      AvccFront(done, size, rest);
      assert Fits(done[0], size);
      TakeUnitsAfter(done[1..], rest, size, count - 1);
      TakeStep(done[0], Avcc(done[1..], size) + rest, size, count);
      if r.Some? {
        ConsOnto(done, r.value.0);
      }
    }
  }

  // ----- The configuration record (AVCDecoderConfigurationRecord)

  /** SPS and PPS of a record: each list behind its count, each unit behind two length bytes. */
  function ParseConfig(data: seq<byte>): Option<(seq<seq<byte>>, seq<seq<byte>>)> {
    if |data| < 7 || data[0] != 1 || data[5] % 32 == 0 then None
    else
      var sps := TakeUnits(data[6..], 2, data[5] % 32);
      if sps.None? || sps.value.1 == [] || sps.value.1[0] == 0 then None
      else
        var pps := TakeUnits(sps.value.1[1..], 2, sps.value.1[0]);
        if pps.None? then None else Some((sps.value.0, pps.value.0))
  }

  predicate ConfigUnits(sps: seq<seq<byte>>, pps: seq<seq<byte>>) {
    0 < |sps| < 32 && 0 < |pps| < 256 && AllFit(sps, 2) && AllFit(pps, 2)
  }

  /** A record: five bytes of profile and flags, the counted lists, and an extension. */
  function Record(head: seq<byte>, reserved: nat, sps: seq<seq<byte>>, pps: seq<seq<byte>>, ext: seq<byte>): seq<byte>
    requires |head| == 5 && head[0] == 1 && reserved < 8 && ConfigUnits(sps, pps)
  {
    head + [reserved * 32 + |sps|] + (Avcc(sps, 2) + ([|pps|] + (Avcc(pps, 2) + ext)))
  }

  /** Every record is read, whatever its reserved bits and its extension. */
  lemma RecordParses(head: seq<byte>, reserved: nat, sps: seq<seq<byte>>, pps: seq<seq<byte>>, ext: seq<byte>)
    requires |head| == 5 && head[0] == 1 && reserved < 8 && ConfigUnits(sps, pps)
    ensures ParseConfig(Record(head, reserved, sps, pps, ext)) == Some((sps, pps))
  {
    var data := Record(head, reserved, sps, pps, ext);
    var afterPps := Avcc(pps, 2) + ext;
    var afterSps := [|pps| as byte] + afterPps;
    assert data[5] % 32 == |sps|;
    assert data[6..] == Avcc(sps, 2) + afterSps;
    assert Avcc(sps, 2) != [] by { assert Avcc(sps, 2) == Prefixed(sps[0], 2) + Avcc(sps[1..], 2); }
    TakeUnitsInvertsAvcc(data[6..], 2, sps, afterSps);
    assert afterSps[1..] == afterPps;
    TakeUnitsInvertsAvcc(afterPps, 2, pps, ext);
  }

  /** The pieces of what is read, put together. */
  lemma RecordOfPieces(data: seq<byte>, sps: seq<seq<byte>>, pps: seq<seq<byte>>, afterSps: seq<byte>, ext: seq<byte>)
    requires |data| >= 7 && data[0] == 1 && ConfigUnits(sps, pps) && data[5] % 32 == |sps|
    requires data[6..] == Avcc(sps, 2) + afterSps
    requires afterSps == [|pps|] + (Avcc(pps, 2) + ext)
    ensures data == Record(data[..5], data[5] / 32, sps, pps, ext)
  {
    assert data == data[..5] + [data[5]] + data[6..];
  }

  /** Only records are read: no truncated list, no empty list, no empty unit. */
  lemma ParsedConfigIsRecord(data: seq<byte>) returns (head: seq<byte>, reserved: nat, ext: seq<byte>)
    requires ParseConfig(data).Some?
    ensures var (sps, pps) := ParseConfig(data).value;
            && |head| == 5 && head[0] == 1 && reserved < 8 && ConfigUnits(sps, pps)
            && data == Record(head, reserved, sps, pps, ext)
  {
    var (sps, pps) := ParseConfig(data).value;
    head, reserved := data[..5], data[5] / 32;
    var afterSps := TakeUnits(data[6..], 2, data[5] % 32).value.1;
    ext := TakeUnits(afterSps[1..], 2, afterSps[0]).value.1;
    TakeUnitsReadsOnlyAvcc(data[6..], 2, data[5] % 32);
    TakeUnitsReadsOnlyAvcc(afterSps[1..], 2, afterSps[0]);
    HeadAndTail(afterSps);
    RecordOfPieces(data, sps, pps, afterSps, ext);
  }

  // ----- The byte stream (Annex B)

  function Started(u: seq<byte>): seq<byte> { START_CODE + u }

  function AnnexB(units: seq<seq<byte>>): seq<byte> {
    if units == [] then [] else Started(units[0]) + AnnexB(units[1..])
  }

  lemma {:induction false} AnnexBAppend(a: seq<seq<byte>>, b: seq<seq<byte>>)
    ensures AnnexB(a + b) == AnnexB(a) + AnnexB(b)
  {
    if a == [] {
      assert a + b == b;
    } else {
      assert (a + b)[1..] == a[1..] + b;
      AnnexBAppend(a[1..], b);
    }
  }

  lemma {:induction false} CarrierSizes(units: seq<seq<byte>>, size: nat)
    ensures |AnnexB(units)| + size * |units| == |Avcc(units, size)| + 4 * |units|
  {
    if units != [] {
      CarrierSizes(units[1..], size);
      assert |AnnexB(units)| == 4 + |units[0]| + |AnnexB(units[1..])|;
      assert |Avcc(units, size)| == size + |units[0]| + |Avcc(units[1..], size)|;
      assert size * |units| == size + size * |units[1..]|;
    }
  }

  // A reader of the byte stream, as section B.1 of ITU-T H.264 describes it: a unit starts
  // after 00 00 01 and ends before the next 00 00 00 or 00 00 01, or with the stream.

  predicate Delimiter(s: seq<byte>) { |s| >= 3 && s[0] == 0 && s[1] == 0 && s[2] <= 1 }

  function UnitLength(s: seq<byte>): (n: nat)
    ensures n <= |s|
  {
    if s == [] || Delimiter(s) then 0 else 1 + UnitLength(s[1..])
  }

  function AfterStart(s: seq<byte>): (r: Option<seq<byte>>)
    ensures r.Some? ==> |r.value| < |s|
  {
    if |s| < 3 then None
    else if s[0] == 0 && s[1] == 0 && s[2] == 1 then Some(s[3..])
    else AfterStart(s[1..])
  }

  function Split(s: seq<byte>): seq<seq<byte>>
    decreases |s|
  {
    var r := AfterStart(s);
    if r.None? then [] else [r.value[..UnitLength(r.value)]] + Split(r.value[UnitLength(r.value)..])
  }

  /** No delimiter inside, and no trailing zero when another unit follows (section 7.4.1). */
  predicate Clean(u: seq<byte>, followed: bool) {
    && (forall k :: 0 <= k <= |u| - 3 ==> !(u[k] == 0 && u[k + 1] == 0 && u[k + 2] <= 1))
    && (followed && u != [] ==> u[|u| - 1] != 0)
  }

  predicate Recoverable(units: seq<seq<byte>>) {
    forall i :: 0 <= i < |units| ==> Clean(units[i], i < |units| - 1)
  }

  lemma CleanTail(u: seq<byte>, followed: bool)
    requires u != []
    ensures Clean(u, followed) <==>
            !Delimiter(u) && Clean(u[1..], followed) && (followed && |u| == 1 ==> u[0] != 0)
  {
    var t := u[1..];
    if Clean(t, followed) && !Delimiter(u) {
      forall k | 0 <= k <= |u| - 3
        ensures !(u[k] == 0 && u[k + 1] == 0 && u[k + 2] <= 1)
      {
        if k > 0 {
          assert !(t[k - 1] == 0 && t[k] == 0 && t[k + 1] <= 1);
        }
      }
    }
    if Clean(u, followed) {
      forall k | 0 <= k <= |t| - 3
        ensures !(t[k] == 0 && t[k + 1] == 0 && t[k + 2] <= 1)
      {
        assert !(u[k + 1] == 0 && u[k + 2] == 0 && u[k + 3] <= 1);
      }
    }
  }

  /** A reader finds the whole unit exactly when the unit is clean. */
  lemma {:induction false} UnitLengthExact(u: seq<byte>, rest: seq<byte>)
    requires rest == [] || (|rest| >= 3 && rest[0] == 0 && rest[1] == 0 && rest[2] == 0)
    ensures UnitLength(u + rest) <= |u|
    ensures UnitLength(u + rest) == |u| <==> Clean(u, rest != [])
  {
    var s := u + rest;
    if u == [] {
      assert s == rest;
    } else {
      assert s[1..] == u[1..] + rest;
      UnitLengthExact(u[1..], rest);
      CleanTail(u, rest != []);
      if Delimiter(s) && !Delimiter(u) && |u| == 2 {
        CleanTail(u[1..], true);
      }
    }
  }

  lemma SplitFirst(u: seq<byte>, rest: seq<byte>)
    ensures AfterStart(Started(u) + rest) == Some(u + rest)
    ensures var n := UnitLength(u + rest);
            Split(Started(u) + rest) == [(u + rest)[..n]] + Split((u + rest)[n..])
  {
    var s := Started(u) + rest;
    assert s[0] == 0 && s[1] == 0 && s[2] == 0 && s[3] == 1;
    assert s[1..][3..] == u + rest;
    assert AfterStart(s) == AfterStart(s[1..]);
  }

  lemma RecoverableFront(units: seq<seq<byte>>)
    requires units != []
    ensures Recoverable(units) <==> Clean(units[0], units[1..] != []) && Recoverable(units[1..])
  {
    var u, us := units[0], units[1..];
    if Clean(u, us != []) && Recoverable(us) {
      forall i | 0 <= i < |units|
        ensures Clean(units[i], i < |units| - 1)
      {
        if i > 0 {
          assert Clean(us[i - 1], i - 1 < |us| - 1);
        }
      }
    }
    if Recoverable(units) {
      forall i | 0 <= i < |us|
        ensures Clean(us[i], i < |us| - 1)
      {
        assert Clean(units[i + 1], i + 1 < |units| - 1);
      }
    }
  }

  /** Splitting the byte stream gives the units back exactly when they obey the byte rules. */
  lemma {:induction false} SplitRecovers(units: seq<seq<byte>>)
    ensures Split(AnnexB(units)) == units <==> Recoverable(units)
  {
    if units != [] {
      var u, us := units[0], units[1..];
      var rest := AnnexB(us);
      assert us != [] ==> rest == Started(us[0]) + AnnexB(us[1..]);
      UnitLengthExact(u, rest);
      SplitFirst(u, rest);
      SplitRecovers(us);
      RecoverableFront(units);
      HeadAndTail(units);
      var n := UnitLength(u + rest);
      if n == |u| {
        assert (u + rest)[..n] == u && (u + rest)[n..] == rest;
        assert Split(AnnexB(units)) == [u] + Split(rest);
        assert Split(AnnexB(units)) == units <==> Split(rest) == us;
      } else {
        assert Split(AnnexB(units))[0] != u;
      }
    } else {
      assert AfterStart([]).None?;
    }
  }
}
