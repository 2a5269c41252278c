/**
 The converters that turn encoder output into an Annex B byte stream: the macOS one
 (app/src/reverse_macos_helpers.c) and the two Windows ones (app/src/reverse_display.c).
 Each measures its input in a first pass, allocates, and fills the output in a second pass.
 */
module H264Convert {
  import opened Common
  import opened Bytes
  import opened NalUnits

  const MAX_PACKET := 16 * 1024 * 1024
  const SIZE_MAX := 0xFFFF_FFFF_FFFF_FFFF

  // ----- What the converters promise

  function LeadingZeros(s: seq<byte>): (n: nat)
    ensures n <= |s|
  {
    if s == [] || s[0] != 0 then 0 else 1 + LeadingZeros(s[1..])
  }

  /** The test that takes a buffer for a byte stream already: two zeros or more, then a one. */
  predicate LooksLikeAnnexB(s: seq<byte>) {
    var z := LeadingZeros(s);
    2 <= z < |s| && s[z] == 1
  }

  function MacResult(s: seq<byte>, size: int): Option<seq<byte>> {
    if s == [] || |s| > MAX_PACKET || size < 1 || size > 4 then None
    else
      var units := ParseAvcc(s, size);
      if units.None? || |AnnexB(units.value)| > MAX_PACKET then None else Some(AnnexB(units.value))
  }

  function WindowsResult(s: seq<byte>, size: nat): Option<seq<byte>> {
    if LooksLikeAnnexB(s) then Some(s)
    else
      var units := ParseAvcc(s, size);
      if units.None? || units.value == [] || |s| + 4 * |units.value| > SIZE_MAX then None
      else Some(AnnexB(units.value))
  }

  function ConfigResult(s: seq<byte>): Option<seq<byte>> {
    if LooksLikeAnnexB(s) then Some(s)
    else
      var lists := ParseConfig(s);
      if lists.None? then None else Some(AnnexB(lists.value.0 + lists.value.1))
  }

  /** The length size that the avcC record announces; 4 without a record. */
  function LengthSize(extradata: seq<byte>): (size: nat)
    ensures 1 <= size <= 4
  {
    if |extradata| >= 5 && extradata[0] == 1 then extradata[4] % 4 + 1 else 4
  }

  // ----- Buffer passes

  method ReadLength(data: array<byte>, pos: nat, size: nat) returns (n: nat)
    requires pos + size <= data.Length
    ensures n == BigEndian(data[pos..pos + size])
  {
    n := 0;
    for i := 0 to size
      invariant n == BigEndian(data[pos..pos + i])
    {
      assert data[pos..pos + i + 1][..i] == data[pos..pos + i];
      n := 256 * n + data[pos + i];
    }
  }

  /** Writes a start code and a unit at `target`. */
  method PutUnit(out: array<byte>, target: nat, data: array<byte>, pos: nat, n: nat)
    requires out != data && pos + n <= data.Length && target + 4 + n <= out.Length
    modifies out
    ensures out[..target + 4 + n] == old(out[..target]) + Started(data[pos..pos + n])
  {
    forall i | 0 <= i < 4 {
      out[target + i] := START_CODE[i];
    }
    forall i | 0 <= i < n {
      out[target + 4 + i] := data[pos + i];
    }
  }

  /** The first `i` units, the next one, and the others. */
  lemma UnitAt(units: seq<seq<byte>>, i: nat, size: nat)
    requires i < |units|
    ensures Avcc(units, size) == Avcc(units[..i], size) + (Prefixed(units[i], size) + Avcc(units[i + 1..], size))
    ensures AnnexB(units) == AnnexB(units[..i]) + (Started(units[i]) + AnnexB(units[i + 1..]))
    ensures Avcc(units[..i + 1], size) == Avcc(units[..i], size) + Prefixed(units[i], size)
    ensures AnnexB(units[..i + 1]) == AnnexB(units[..i]) + Started(units[i])
  {
    assert units == units[..i] + units[i..];
    AvccAppend(units[..i], units[i..], size);
    AnnexBAppend(units[..i], units[i..]);
    assert units[i..][1..] == units[i + 1..];
    assert units[..i + 1] == units[..i] + [units[i]];
    AvccAppend(units[..i], [units[i]], size);
    AnnexBAppend(units[..i], [units[i]]);
    assert Avcc([units[i]], size) == Prefixed(units[i], size) + Avcc([], size);
    assert AnnexB([units[i]]) == Started(units[i]) + AnnexB([]);
  }

  lemma SliceMiddle<T>(s: seq<T>, start: nat, a: seq<T>, b: seq<T>, c: seq<T>)
    requires start <= |s| && s[start..] == a + (b + c)
    ensures start + |a| + |b| <= |s| && s[start + |a|..start + |a| + |b|] == b
    ensures s[start + |a| + |b|..] == c
  {
    assert s == s[..start] + (a + (b + c));
  }

  lemma Regroup<T>(a: seq<T>, b: seq<T>, c: seq<T>, d: seq<T>, e: seq<T>)
    ensures (a + ((b + c) + d)) + e == a + (b + (c + (d + e)))
  {
  }

  lemma SliceTwo<T>(s: seq<T>, start: nat, a: seq<T>, b: seq<T>, c: seq<T>, d: seq<T>)
    requires start <= |s| && s[start..] == a + (b + (c + d))
    ensures start + |a| + |b| + |c| <= |s|
    ensures s[start + |a|..start + |a| + |b|] == b
    ensures s[start + |a| + |b|..start + |a| + |b| + |c|] == c
  {
    SliceMiddle(s, start, a, b, c + d);
    NothingAdded(c + d);
    SliceMiddle(s, start + |a| + |b|, [], c, d);
  }

  /** Where unit `i` is, with its length in front and everything else behind. */
  lemma UnitPlace(units: seq<seq<byte>>, i: nat, size: nat, rest: seq<byte>)
    requires i < |units|
    ensures Avcc(units, size) + rest
            == Avcc(units[..i], size) + (LengthField(|units[i]|, size) + (units[i] + (Avcc(units[i + 1..], size) + rest)))
  {
    UnitAt(units, i, size);
    Regroup(Avcc(units[..i], size), LengthField(|units[i]|, size), units[i], Avcc(units[i + 1..], size), rest);
  }

  lemma UnitSlices(s: seq<byte>, units: seq<seq<byte>>, i: nat, size: nat, pos: nat, start: nat, rest: seq<byte>)
    requires i < |units| && start <= |s| && s[start..] == Avcc(units, size) + rest
    requires pos == start + |Avcc(units[..i], size)|
    ensures pos + size + |units[i]| <= |s|
    ensures s[pos..pos + size] == LengthField(|units[i]|, size)
    ensures s[pos + size..pos + size + |units[i]|] == units[i]
  {
    UnitPlace(units, i, size, rest);
    SliceTwo(s, start, Avcc(units[..i], size), LengthField(|units[i]|, size), units[i], Avcc(units[i + 1..], size) + rest);
  }

  /** The fill pass reads back the unit that the measuring pass saw. */
  lemma UnitInBuffer(s: seq<byte>, units: seq<seq<byte>>, i: nat, size: nat, pos: nat, start: nat, rest: seq<byte>)
    requires i < |units| && AllFit(units, size) && start <= |s| && s[start..] == Avcc(units, size) + rest
    requires pos == start + |Avcc(units[..i], size)|
    ensures pos + size + |units[i]| <= |s|
    ensures BigEndian(s[pos..pos + size]) == |units[i]|
    ensures s[pos + size..pos + size + |units[i]|] == units[i]
  {
    UnitSlices(s, units, i, size, pos, start, rest);
    assert Fits(units[i], size);
    FieldIsLength(s[pos..pos + size], |units[i]|, size);
  }

  lemma FieldIsLength(field: seq<byte>, n: nat, size: nat)
    requires n < Pow256(size) && field == LengthField(n, size)
    ensures BigEndian(field) == n
  {
    LengthFieldDecodes(n, size);
  }

  /** One step of the fill pass. */
  method FillUnit(data: array<byte>, pos: nat, size: nat, out: array<byte>, target: nat, ghost u: seq<byte>)
    returns (n: nat)
    requires out != data && pos + size + |u| <= data.Length && target + 4 + |u| <= out.Length
    requires BigEndian(data[pos..pos + size]) == |u| && data[pos + size..pos + size + |u|] == u
    modifies out
    ensures n == |u| && out[..target + 4 + n] == old(out[..target]) + Started(u)
  {
    n := ReadLength(data, pos, size);
    PutUnit(out, target, data, pos + size, n);
  }

  /** How far one more unit takes the two passes. */
  lemma UnitLengths(units: seq<seq<byte>>, i: nat, size: nat)
    requires i < |units|
    ensures |Avcc(units[..i + 1], size)| == |Avcc(units[..i], size)| + size + |units[i]|
    ensures |AnnexB(units[..i + 1])| == |AnnexB(units[..i])| + 4 + |units[i]| <= |AnnexB(units)|
    ensures AnnexB(units[..i + 1]) == AnnexB(units[..i]) + Started(units[i])
  {
    UnitAt(units, i, size);
  }

  /** One step of the fill pass, as the measuring pass saw the units. */
  method FillNext(data: array<byte>, pos: nat, size: nat, out: array<byte>, end: nat,
                  ghost s: seq<byte>, ghost units: seq<seq<byte>>, ghost i: nat, ghost start: nat, ghost rest: seq<byte>,
                  ghost kept: seq<byte>)
    returns (n: nat)
    requires out != data && s == data[..] && i < |units| && AllFit(units, size)
    requires start <= |s| && s[start..] == Avcc(units, size) + rest
    requires pos == start + |Avcc(units[..i], size)|
    requires end == |kept| + |AnnexB(units[..i])| && |kept| + |AnnexB(units)| <= out.Length
    requires end <= out.Length && out[..end] == kept + AnnexB(units[..i])
    modifies out
    ensures pos + size + n == start + |Avcc(units[..i + 1], size)|
    ensures end + 4 + n == |kept| + |AnnexB(units[..i + 1])| <= out.Length
    ensures out[..end + 4 + n] == kept + AnnexB(units[..i + 1])
  {
    ghost var u := units[i];
    UnitLengths(units, i, size);
    UnitInBuffer(s, units, i, size, pos, start, rest);
    assert data[pos..pos + size] == s[pos..pos + size];
    assert data[pos + size..pos + size + |u|] == s[pos + size..pos + size + |u|];
    n := FillUnit(data, pos, size, out, end, u);
    Assoc(kept, AnnexB(units[..i]), Started(u));
  }

  /** The second pass over a list of `count` units that begins at `start`. */
  method FillUnits(data: array<byte>, start: nat, size: nat, count: nat, out: array<byte>, target: nat,
                   ghost s: seq<byte>, ghost units: seq<seq<byte>>, ghost rest: seq<byte>)
    returns (pos: nat, end: nat)
    requires out != data && data[..] == s && count == |units| && AllFit(units, size)
    requires start <= |s| && s[start..] == Avcc(units, size) + rest
    requires target + |AnnexB(units)| <= out.Length
    modifies out
    ensures data[..] == s
    ensures pos == start + |Avcc(units, size)| && pos <= |s| && s[pos..] == rest
    ensures end == target + |AnnexB(units)| && end <= out.Length
    ensures out[..end] == old(out[..target]) + AnnexB(units)
  {
    ghost var kept := out[..target];
    pos, end := start, target;
    for i := 0 to count
      invariant data[..] == s
      invariant pos == start + |Avcc(units[..i], size)|
      invariant end == target + |AnnexB(units[..i])| <= out.Length
      invariant out[..end] == kept + AnnexB(units[..i])
    {
      var n := FillNext(data, pos, size, out, end, s, units, i, start, rest, kept);
      end, pos := end + 4 + n, pos + size + n;
    }
    assert units[..count] == units;
    BehindSlice(s, start, Avcc(units, size), rest);
  }

  lemma BehindSlice<T>(s: seq<T>, start: nat, a: seq<T>, rest: seq<T>)
    requires start <= |s| && s[start..] == a + rest
    ensures start + |a| <= |s| && s[start + |a|..] == rest
  {
    assert s == s[..start] + (a + rest);
  }

  // ----- macOS

  /** Once a unit cannot be read, or makes the output too large, the whole packet is refused. */
  lemma MacRefuses(s: seq<byte>, size: nat, done: seq<seq<byte>>, offset: nat)
    requires 1 <= size <= 4 && offset < |s| && AllFit(done, size) && s[..offset] == Avcc(done, size)
    requires var next := TakeUnit(s[offset..], size);
             next.None? || |AnnexB(done)| + 4 + |next.value.0| > MAX_PACKET
    ensures MacResult(s, size).None?
  {
    var rest := s[offset..];
    assert s == Avcc(done, size) + rest;
    ParseAfter(done, rest, size);
    var r := ParseAvcc(rest, size);
    if r.Some? {
      AnnexBAppend(done, r.value);
      assert AnnexB(r.value) == Started(r.value[0]) + AnnexB(r.value[1..]);
    }
  }

  lemma PrefixGrows<T>(s: seq<T>, offset: nat, a: seq<T>, rest: seq<T>)
    requires offset <= |s| && s[offset..] == a + rest
    ensures offset + |a| <= |s| && s[..offset + |a|] == s[..offset] + a
  {
    assert s == s[..offset] + (a + rest);
  }

  lemma OneMoreUnit(done: seq<seq<byte>>, u: seq<byte>, size: nat)
    ensures Avcc(done + [u], size) == Avcc(done, size) + Prefixed(u, size)
    ensures AnnexB(done + [u]) == AnnexB(done) + Started(u)
  {
    AvccAppend(done, [u], size);
    AnnexBAppend(done, [u]);
    NothingAdded(Prefixed(u, size));
    NothingAdded(Started(u));
    assert [u][1..] == [];
  }

  lemma ExtendDone(s: seq<byte>, size: nat, done: seq<seq<byte>>, offset: nat)
    requires offset <= |s| && AllFit(done, size) && s[..offset] == Avcc(done, size)
    requires TakeUnit(s[offset..], size).Some?
    ensures var u := TakeUnit(s[offset..], size).value.0;
            var next := offset + size + |u|;
            && next <= |s| && AllFit(done + [u], size) && s[..next] == Avcc(done + [u], size)
            && AnnexB(done + [u]) == AnnexB(done) + Started(u)
  {
    TakeUnitReadsOnlyPrefixed(s[offset..], size);
    var (u, rest) := TakeUnit(s[offset..], size).value;
    PrefixGrows(s, offset, Prefixed(u, size), rest);
    OneMoreUnit(done, u, size);
  }

  lemma FrontOfRest<T>(s: seq<T>, offset: nat, n: nat)
    requires offset + n <= |s|
    ensures s[offset..][..n] == s[offset..offset + n]
  {
  }

  /** One unit of the measuring pass: it is measured, or the packet is refused. */
  method MacMeasureUnit(data: array<byte>, size: nat, offset: nat, needed: nat, ghost s: seq<byte>, ghost units: seq<seq<byte>>)
    returns (ok: bool, length: nat, ghost unit: seq<byte>)
    requires data[..] == s && offset < |s| && needed <= MAX_PACKET && 1 <= size <= 4
    requires AllFit(units, size) && s[..offset] == Avcc(units, size) && needed == |AnnexB(units)|
    ensures !ok ==> MacResult(s, size).None?
    ensures ok ==>
              var next := offset + size + length;
              && |unit| == length && next <= |s| && needed + 4 + length <= MAX_PACKET
              && AllFit(units + [unit], size) && s[..next] == Avcc(units + [unit], size)
              && |AnnexB(units + [unit])| == needed + 4 + length
  {
    length, unit := 0, [];
    ok := data.Length - offset >= size;
    if ok {
      length := ReadLength(data, offset, size);
      FrontOfRest(s, offset, size);
      ok := length != 0 && length <= data.Length - offset - size && needed <= MAX_PACKET - 4
            && length <= MAX_PACKET - needed - 4;
    }
    if !ok {
      MacRefuses(s, size, units, offset);
      return;
    }
    ExtendDone(s, size, units, offset);
    unit := TakeUnit(s[offset..], size).value.0;
  }

  /** The measuring pass, which gives up when the output would be too large. */
  method MacMeasure(data: array<byte>, size: nat) returns (ok: bool, needed: nat, ghost units: seq<seq<byte>>)
    requires 0 < data.Length <= MAX_PACKET && 1 <= size <= 4
    ensures ok <==> MacResult(data[..], size).Some?
    ensures ok ==> ParseAvcc(data[..], size) == Some(units) && needed == |AnnexB(units)| <= MAX_PACKET
  {
    ghost var s := data[..];
    var offset := 0;
    needed, units := 0, [];
    while offset < data.Length
      invariant offset <= data.Length && needed <= MAX_PACKET
      invariant AllFit(units, size) && s[..offset] == Avcc(units, size) && needed == |AnnexB(units)|
    {
      var measured, length, unit := MacMeasureUnit(data, size, offset, needed, s, units);
      if !measured {
        return false, 0, [];
      }
      units := units + [unit];
      needed, offset := needed + 4 + length, offset + size + length;
    }
    assert s[..offset] == s;
    ParseInvertsAvcc(s, size, units);
    ok := true;
  }

  /** The fill pass, which again runs to the end of the data. */
  method MacFill(data: array<byte>, size: nat, buffer: array<byte>, ghost s: seq<byte>, ghost units: seq<seq<byte>>)
    requires buffer != data && 1 <= size <= 4 && AllFit(units, size) && data[..] == s == Avcc(units, size)
    requires buffer.Length == |AnnexB(units)|
    modifies buffer
    ensures buffer[..] == AnnexB(units)
  {
    ghost var kept := buffer[..0];
    var offset, target := 0, 0;
    ghost var i := 0;
    assert s[0..] == s;
    NothingAdded(s);
    assert units[..0] == [];
    while offset < data.Length
      invariant data[..] == s && i <= |units|
      invariant offset == |Avcc(units[..i], size)| <= |s|
      invariant target == |AnnexB(units[..i])| <= buffer.Length
      invariant buffer[..target] == kept + AnnexB(units[..i])
    {
      NotAllDone(units, i, size);
      var length := FillNext(data, offset, size, buffer, target, s, units, i, 0, [], kept);
      AvccFrontLength(units, i + 1, size);
      target, offset, i := target + 4 + length, offset + size + length, i + 1;
    }
    AllDone(units, i, size);
    assert buffer[..target] == buffer[..];
  }

  lemma AvccFrontLength(units: seq<seq<byte>>, i: nat, size: nat)
    requires i <= |units|
    ensures |Avcc(units[..i], size)| <= |Avcc(units, size)|
  {
    assert units == units[..i] + units[i..];
    AvccAppend(units[..i], units[i..], size);
  }

  lemma NotAllDone(units: seq<seq<byte>>, i: nat, size: nat)
    requires i <= |units| && |Avcc(units[..i], size)| < |Avcc(units, size)|
    ensures i < |units|
  {
    var done := units[..i];
    assert i == |units| ==> done == units;
  }

  /** Fields have a length, so only all units fill the data. */
  lemma AllDone(units: seq<seq<byte>>, i: nat, size: nat)
    requires i <= |units| && 1 <= size && |Avcc(units[..i], size)| == |Avcc(units, size)|
    ensures units[..i] == units
  {
    if i < |units| {
      UnitLengths(units, i, size);
      AvccFrontLength(units, i + 1, size);
    }
  }

  method MacAnnexB(data: array<byte>, size: int, mallocOk: bool) returns (output: array?<byte>)
    ensures output != null <==> MacResult(data[..], size).Some? && mallocOk
    ensures output != null ==> fresh(output) && output[..] == MacResult(data[..], size).value
  {
    if data.Length == 0 || data.Length > MAX_PACKET || size < 1 || size > 4 {
      return null;
    }
    var ok, needed, units := MacMeasure(data, size);
    if !ok || !mallocOk {
      return null;
    }
    ParseInvertsAvcc(data[..], size, units);
    var buffer := new byte[needed];
    MacFill(data, size, buffer, data[..], units);
    return buffer;
  }

  // ----- Windows

  /** A packet left as it is, or a new buffer whose first `size` bytes are the result. */
  datatype Buffer = Rejected | Borrowed | Owned(bytes: array<byte>, size: nat)

  ghost predicate Holds(b: Buffer, data: seq<byte>, expected: seq<byte>)
    reads if b.Owned? then {b.bytes} else {}
  {
    match b
    case Rejected => false
    case Borrowed => data == expected
    case Owned(bytes, size) => size <= bytes.Length && bytes[..size] == expected
  }

  lemma {:induction false} LeadingZerosAt(s: seq<byte>, k: nat)
    requires k <= |s| && forall i :: 0 <= i < k ==> s[i] == 0
    ensures LeadingZeros(s) == k + LeadingZeros(s[k..])
  {
    if k > 0 {
      LeadingZerosAt(s[1..], k - 1);
      assert s[1..][k - 1..] == s[k..];
    }
  }

  method HasStartCode(data: array<byte>) returns (found: bool)
    ensures found == LooksLikeAnnexB(data[..])
  {
    if data.Length < 3 {
      return false;
    }
    var pos := 0;
    while pos < data.Length && data[pos] == 0
      invariant pos <= data.Length && forall i :: 0 <= i < pos ==> data[i] == 0
    {
      pos := pos + 1;
    }
    LeadingZerosAt(data[..], pos);
    return pos >= 2 && pos < data.Length && data[pos] == 1;
  }

  lemma ParseStops(s: seq<byte>, size: nat, done: seq<seq<byte>>, offset: nat)
    requires offset < |s| && AllFit(done, size) && s[..offset] == Avcc(done, size)
    requires TakeUnit(s[offset..], size).None?
    ensures ParseAvcc(s, size).None?
  {
    assert s == Avcc(done, size) + s[offset..];
    ParseAfter(done, s[offset..], size);
  }

  /** The measuring pass: the number of units, when the packet is made of units. */
  method MeasurePacket(data: array<byte>, size: nat) returns (ok: bool, count: nat, ghost units: seq<seq<byte>>)
    requires 1 <= size <= 4
    ensures ok <==> ParseAvcc(data[..], size).Some?
    ensures ok ==> ParseAvcc(data[..], size) == Some(units) && count == |units|
  {
    ghost var s := data[..];
    var pos := 0;
    count, units := 0, [];
    while pos <= data.Length && data.Length - pos >= size
      invariant pos <= data.Length && count == |units|
      invariant AllFit(units, size) && s[..pos] == Avcc(units, size)
      decreases data.Length - pos
    {
      ghost var rest := s[pos..];
      var n := ReadLength(data, pos, size);
      assert data[pos..pos + size] == rest[..size];
      if n == 0 || n > data.Length - pos - size {
        ParseStops(s, size, units, pos);
        return false, 0, [];
      }
      ExtendDone(s, size, units, pos);
      units := units + [TakeUnit(rest, size).value.0];
      pos, count := pos + size + n, count + 1;
    }
    if pos != data.Length {
      ParseStops(s, size, units, pos);
      return false, 0, [];
    }
    assert s[..pos] == s;
    ParseInvertsAvcc(s, size, units);
    ok := true;
  }

  method NormalizePacket(extradata: seq<byte>, data: array<byte>, mallocOk: bool) returns (result: Buffer)
    requires data.Length <= SIZE_MAX
    ensures result.Rejected? <==> WindowsResult(data[..], LengthSize(extradata)).None?
                                  || (!mallocOk && !LooksLikeAnnexB(data[..]))
    ensures result.Owned? ==> fresh(result.bytes)
    ensures !result.Rejected? ==> Holds(result, data[..], WindowsResult(data[..], LengthSize(extradata)).value)
  {
    var already := HasStartCode(data);
    if already {
      return Borrowed;
    }
    ghost var s := data[..];
    var size := LengthSize(extradata);
    var ok, count, units := MeasurePacket(data, size);
    if !ok || count == 0 || count > SIZE_MAX / 4 || count > (SIZE_MAX - data.Length) / 4 || !mallocOk {
      return Rejected;
    }
    ParseInvertsAvcc(s, size, units);
    CarrierSizes(units, size);
    LargerThanNeeded(units, size);
    var output := new byte[data.Length + count * 4];
    assert s[0..] == Avcc(units, size) + [];
    var _, end := FillUnits(data, 0, size, count, output, 0, s, units, []);
    assert output[..end] == AnnexB(units);
    return Owned(output, end);
  }

  lemma LargerThanNeeded(units: seq<seq<byte>>, size: nat)
    ensures |AnnexB(units)| <= |Avcc(units, size)| + 4 * |units|
  {
    CarrierSizes(units, size);
    assert size * |units| >= 0;
  }

  lemma ListStops(s: seq<byte>, count: nat, done: seq<seq<byte>>, offset: nat)
    requires offset <= |s| && AllFit(done, 2) && s[..offset] == Avcc(done, 2) && |done| < count
    requires TakeUnit(s[offset..], 2).None?
    ensures TakeUnits(s, 2, count).None?
  {
    assert s == Avcc(done, 2) + s[offset..];
    TakeUnitsAfter(done, s[offset..], 2, count);
  }

  /** Reads one length of a counted list; the length must be a possible one. */
  method MeasureUnit(data: array<byte>, pos: nat, outputSize: nat, ghost whole: seq<byte>) returns (ok: bool, n: nat)
    requires whole == data[..] && pos <= |whole| && outputSize + 4 + 65535 <= SIZE_MAX
    ensures ok <==> TakeUnit(whole[pos..], 2).Some?
    ensures ok ==> n == |TakeUnit(whole[pos..], 2).value.0| < 65536
  {
    ok, n := false, 0;
    if pos > data.Length || data.Length - pos < 2 {
      return;
    }
    n := ReadLength(data, pos, 2);
    ghost var rest := whole[pos..];
    assert data[pos..pos + 2] == rest[..2];
    TwoByteLength(rest[..2]);
    ok := !(n == 0 || n > data.Length - pos - 2 || outputSize > SIZE_MAX - 4 - n);
  }

  /** The measuring pass over one counted list of the configuration record. */
  method MeasureList(data: array<byte>, start: nat, count: nat, sizeSoFar: nat, ghost whole: seq<byte>)
    returns (ok: bool, pos: nat, outputSize: nat, ghost units: seq<seq<byte>>)
    requires whole == data[..] && start <= |whole| <= SIZE_MAX && count < 256 && sizeSoFar <= 31 * 65539
    ensures ok <==> TakeUnits(whole[start..], 2, count).Some?
    ensures ok ==> start <= pos <= |whole| && |units| == count
    ensures ok ==> TakeUnits(whole[start..], 2, count) == Some((units, whole[pos..]))
    ensures ok ==> outputSize == sizeSoFar + |AnnexB(units)| <= sizeSoFar + count * 65539
  {
    ghost var s := whole[start..];
    ok, pos, outputSize, units := true, start, sizeSoFar, [];
    for i := 0 to count
      invariant ok && start <= pos <= |whole| && |units| == i
      invariant AllFit(units, 2) && s[..pos - start] == Avcc(units, 2)
      invariant outputSize == sizeSoFar + |AnnexB(units)| <= sizeSoFar + i * 65539
    {
      var fits, n := MeasureUnit(data, pos, outputSize, whole);
      ghost var rest := s[pos - start..];
      assert rest == whole[pos..];
      if !fits {
        ListStops(s, count, units, pos - start);
        return false, 0, 0, [];
      }
      ExtendDone(s, 2, units, pos - start);
      units := units + [TakeUnit(rest, 2).value.0];
      outputSize, pos := outputSize + 4 + n, pos + 2 + n;
    }
    ListDone(whole, start, units, pos);
  }

  lemma Parts<T>(whole: seq<T>, start: nat, pos: nat)
    requires start <= pos <= |whole|
    ensures whole[start..] == whole[start..][..pos - start] + whole[pos..]
  {
  }

  lemma ListDone(whole: seq<byte>, start: nat, units: seq<seq<byte>>, pos: nat)
    requires start <= pos <= |whole| && AllFit(units, 2) && whole[start..][..pos - start] == Avcc(units, 2)
    ensures TakeUnits(whole[start..], 2, |units|) == Some((units, whole[pos..]))
  {
    Parts(whole, start, pos);
    TakeUnitsInvertsAvcc(whole[start..], 2, units, whole[pos..]);
  }

  lemma TwoByteLength(field: seq<byte>)
    requires |field| == 2
    ensures BigEndian(field) < 65536
  {
    BigEndianEncodes(field);
    assert Pow256(1) == 256 && Pow256(2) == 65536;
  }

  /** The record as the passes see it: two counted lists, the second behind `ppsAt`, and an extension. */
  ghost predicate Lists(s: seq<byte>, ppsAt: nat, sps: seq<seq<byte>>, pps: seq<seq<byte>>, ext: seq<byte>) {
    && 6 <= ppsAt < |s| && s[ppsAt] == |pps|
    && AllFit(sps, 2) && s[6..] == Avcc(sps, 2) + s[ppsAt..]
    && AllFit(pps, 2) && s[ppsAt + 1..] == Avcc(pps, 2) + ext
  }

  lemma TakenLists(s: seq<byte>, ppsAt: nat, sps: seq<seq<byte>>, pps: seq<seq<byte>>, ext: seq<byte>)
    requires 6 <= ppsAt < |s| && s[ppsAt] == |pps|
    requires TakeUnits(s[6..], 2, |sps|) == Some((sps, s[ppsAt..]))
    requires TakeUnits(s[ppsAt + 1..], 2, |pps|) == Some((pps, ext))
    ensures Lists(s, ppsAt, sps, pps, ext)
  {
    TakeUnitsInvertsAvcc(s[6..], 2, sps, s[ppsAt..]);
    TakeUnitsInvertsAvcc(s[ppsAt + 1..], 2, pps, ext);
  }

  /** What the record parses to, read list by list from the positions the passes use. */
  lemma ConfigByLists(s: seq<byte>, ppsAt: nat)
    requires |s| >= 7 && s[0] == 1 && s[5] % 32 != 0
    requires var sps := TakeUnits(s[6..], 2, s[5] % 32);
             sps.Some? && ppsAt <= |s| && sps.value.1 == s[ppsAt..]
    ensures ppsAt == |s| || s[ppsAt] == 0 ==> ParseConfig(s).None?
    ensures ppsAt < |s| && s[ppsAt] != 0 ==>
              var pps := TakeUnits(s[ppsAt + 1..], 2, s[ppsAt]);
              ParseConfig(s) == if pps.None? then None else Some((TakeUnits(s[6..], 2, s[5] % 32).value.0, pps.value.0))
  {
    var rest := s[ppsAt..];
    if ppsAt < |s| {
      assert rest[0] == s[ppsAt] && rest[1..] == s[ppsAt + 1..];
    }
  }

  /** The measuring pass over both lists. */
  method MeasureConfig(data: array<byte>)
    returns (ok: bool, spsCount: nat, ppsAt: nat, outputSize: nat,
             ghost sps: seq<seq<byte>>, ghost pps: seq<seq<byte>>, ghost ext: seq<byte>)
    requires data.Length <= SIZE_MAX
    ensures ok <==> ParseConfig(data[..]).Some?
    ensures ok ==> ParseConfig(data[..]) == Some((sps, pps)) && Lists(data[..], ppsAt, sps, pps, ext)
    ensures ok ==> spsCount == |sps| && outputSize == |AnnexB(sps)| + |AnnexB(pps)|
  {
    ok, spsCount, ppsAt, outputSize, sps, pps, ext := false, 0, 0, 0, [], [], [];
    if data.Length < 7 || data[0] != 1 {
      return;
    }
    spsCount := data[5] % 32;
    if spsCount == 0 {
      return;
    }
    ghost var s := data[..];
    var spsOk;
    spsOk, ppsAt, outputSize, sps := MeasureList(data, 6, spsCount, 0, s);
    if !spsOk {
      return;
    }
    ConfigByLists(s, ppsAt);
    if ppsAt >= data.Length {
      return;
    }
    var ppsCount := data[ppsAt];
    if ppsCount == 0 {
      return;
    }
    var last;
    ok, last, outputSize, pps := MeasureList(data, ppsAt + 1, ppsCount, outputSize, s);
    if ok {
      ext := s[last..];
      TakenLists(s, ppsAt, sps, pps, ext);
    }
  }

  method NormalizeConfig(data: array<byte>, mallocOk: bool) returns (result: Buffer)
    requires data.Length <= SIZE_MAX
    ensures result.Rejected? <==> ConfigResult(data[..]).None? || (!mallocOk && !LooksLikeAnnexB(data[..]))
    ensures result.Owned? ==> fresh(result.bytes) && result.size == result.bytes.Length
    ensures !result.Rejected? ==> Holds(result, data[..], ConfigResult(data[..]).value)
  {
    var already := HasStartCode(data);
    if already {
      return Borrowed;
    }
    var ok, spsCount, ppsAt, outputSize, sps, pps, ext := MeasureConfig(data);
    if !ok || !mallocOk {
      return Rejected;
    }
    result := FillConfig(data, spsCount, ppsAt, outputSize, data[..], sps, pps, ext);
    assert result.bytes[..result.size] == result.bytes[..];
  }

  /** The fill pass over both lists, which reads the PPS count again. */
  method FillConfig(data: array<byte>, spsCount: nat, ppsAt: nat, outputSize: nat,
                    ghost s: seq<byte>, ghost sps: seq<seq<byte>>, ghost pps: seq<seq<byte>>, ghost ext: seq<byte>)
    returns (result: Buffer)
    requires s == data[..] && Lists(s, ppsAt, sps, pps, ext) && spsCount == |sps|
    requires outputSize == |AnnexB(sps)| + |AnnexB(pps)|
    ensures result.Owned? && fresh(result.bytes) && result.size == result.bytes.Length
    ensures result.bytes[..] == AnnexB(sps + pps)
  {
    AnnexBAppend(sps, pps);
    var output := new byte[outputSize];
    var pos, end := FillUnits(data, 6, 2, spsCount, output, 0, s, sps, s[ppsAt..]);
    assert output[..end] == AnnexB(sps);
    SameRest(s, pos, ppsAt);
    FillSecond(data, pos, output, end, s, sps, pps, ext);
    return Owned(output, outputSize);
  }

  method FillSecond(data: array<byte>, ppsAt: nat, output: array<byte>, end: nat,
                    ghost s: seq<byte>, ghost sps: seq<seq<byte>>, ghost pps: seq<seq<byte>>, ghost ext: seq<byte>)
    requires output != data && s == data[..] && Lists(s, ppsAt, sps, pps, ext)
    requires end + |AnnexB(pps)| == output.Length && output[..end] == AnnexB(sps)
    modifies output
    ensures output[..] == AnnexB(sps) + AnnexB(pps)
  {
    var ppsCount := data[ppsAt];
    var _, end2 := FillUnits(data, ppsAt + 1, 2, ppsCount, output, end, s, pps, ext);
    assert end2 == output.Length && output[..end2] == output[..];
  }

  lemma SameRest<T>(s: seq<T>, i: nat, j: nat)
    requires i <= |s| && j <= |s| && s[i..] == s[j..]
    ensures i == j
  {
    assert |s[i..]| == |s| - i && |s[j..]| == |s| - j;
  }

  // ----- What the start-code test gets wrong

  /** The first unit whose length field passes for a start code. */
  predicate FirstLengthMisleads(units: seq<seq<byte>>, size: nat) {
    && units != []
    && ((size == 4 && (|units[0]| == 1 || 256 <= |units[0]| <= 511)) || (size == 3 && |units[0]| == 1))
  }

  lemma {:induction false} LengthFieldBytes(n: nat, size: nat)
    requires 1 <= size <= 4 && n < Pow256(size)
    ensures size == 1 ==> LengthField(n, size) == [n]
    ensures size == 2 ==> LengthField(n, size) == [n / 256, n % 256]
    ensures size == 3 ==> LengthField(n, size) == [n / 65536, n / 256 % 256, n % 256]
    ensures size == 4 ==> LengthField(n, size) == [n / 16777216, n / 65536 % 256, n / 256 % 256, n % 256]
  {
    assert Pow256(0) == 1 && Pow256(1) == 256 && Pow256(2) == 65536;
    assert Pow256(3) == 16777216 && Pow256(4) == 4294967296;
    if size > 1 {
      LengthFieldBytes(n / 256, size - 1);
    }
  }

  /** A length-prefixed packet is taken for a byte stream exactly when its first length misleads. */
  lemma MistakenExactly(units: seq<seq<byte>>, size: nat)
    requires 1 <= size <= 4 && AllFit(units, size)
    ensures LooksLikeAnnexB(Avcc(units, size)) <==> FirstLengthMisleads(units, size)
  {
    if units != [] {
      var u := units[0];
      assert Fits(u, size);
      LengthFieldBytes(|u|, size);
      var s, field := Avcc(units, size), LengthField(|u|, size);
      assert s == field + (u + Avcc(units[1..], size));
      FieldDecides(s, field, |u|);
    }
  }

  lemma FieldDecides(s: seq<byte>, field: seq<byte>, n: nat)
    requires 1 <= |field| <= 4 && |field| < |s| && field == s[..|field|] && n > 0
    requires |field| == 1 ==> field == [n]
    requires |field| == 2 ==> n < 65536 && field == [n / 256, n % 256]
    requires |field| == 3 ==> n < 16777216 && field == [n / 65536, n / 256 % 256, n % 256]
    requires |field| == 4 ==> n < 4294967296
    requires |field| == 4 ==> field == [n / 16777216, n / 65536 % 256, n / 256 % 256, n % 256]
    ensures LooksLikeAnnexB(s)
            <==> (|field| == 4 && (n == 1 || 256 <= n <= 511)) || (|field| == 3 && n == 1)
  {
    var z := if field[0] != 0 then 0 else if field[1] != 0 then 1
             else if field[2] != 0 then 2 else 3;
    assert forall i :: 0 <= i < z ==> s[i] == field[i] == 0;
    assert s[z] == field[z] && field[z] != 0;
    LeadingZerosAt(s, z);
  }

  predicate AllSingle(units: seq<seq<byte>>) { forall i :: 0 <= i < |units| ==> |units[i]| == 1 }

  lemma LengthIsStartCode(n: nat)
    requires 0 < n < Pow256(4)
    ensures LengthField(n, 4) == START_CODE <==> n == 1
  {
    LengthFieldBytes(n, 4);
  }

  lemma SameParts<T>(a: seq<T>, b: seq<T>, u: seq<T>, c: seq<T>, d: seq<T>)
    requires |a| == |b|
    ensures a + (u + c) == b + (u + d) <==> a == b && c == d
  {
    var l, r := a + (u + c), b + (u + d);
    assert l[..|a|] == a && r[..|b|] == b;
    assert l[|a| + |u|..] == c && r[|b| + |u|..] == d;
  }

  lemma AllSingleFront(units: seq<seq<byte>>)
    requires units != []
    ensures AllSingle(units) <==> |units[0]| == 1 && AllSingle(units[1..])
  {
    assert units == [units[0]] + units[1..];
  }

  /** With four length bytes the two carriers coincide only on units of one byte. */
  lemma {:induction false} CarriersCoincide(units: seq<seq<byte>>)
    requires AllFit(units, 4)
    ensures Avcc(units, 4) == AnnexB(units) <==> AllSingle(units)
  {
    if units != [] {
      var u, us := units[0], units[1..];
      assert Fits(u, 4);
      LengthIsStartCode(|u|);
      CarriersCoincide(us);
      SameParts(LengthField(|u|, 4), START_CODE, u, Avcc(us, 4), AnnexB(us));
      Assoc(LengthField(|u|, 4), u, Avcc(us, 4));
      Assoc(START_CODE, u, AnnexB(us));
      AllSingleFront(units);
    }
  }

  /** With three length bytes a misleading packet is never the byte stream of its units. */
  lemma ShortFieldDiffers(units: seq<seq<byte>>)
    requires units != [] && |units[0]| == 1
    ensures Avcc(units, 3) != AnnexB(units)
  {
    LengthFieldBytes(1, 3);
    assert Pow256(3) == 16777216 by { assert Pow256(0) == 1 && Pow256(1) == 256 && Pow256(2) == 65536; }
    var field, u := LengthField(1, 3), units[0];
    Assoc(field, u, Avcc(units[1..], 3));
    Assoc(START_CODE, u, AnnexB(units[1..]));
    assert field == [0, 0, 1];
    assert Avcc(units, 3)[2] == field[2] && AnnexB(units)[2] == START_CODE[2];
  }

  /**
   The Windows converter yields the byte stream of a well-formed packet unless the start-code
   test is misled; with four length bytes a packet of one-byte units survives even that.
   */
  lemma WindowsCorrectExactly(units: seq<seq<byte>>, size: nat)
    requires 1 <= size <= 4 && units != [] && AllFit(units, size)
    requires |Avcc(units, size)| + 4 * |units| <= SIZE_MAX
    ensures WindowsResult(Avcc(units, size), size) == Some(AnnexB(units))
            <==> (FirstLengthMisleads(units, size) ==> size == 4 && AllSingle(units))
  {
    MistakenExactly(units, size);
    if !FirstLengthMisleads(units, size) {
      ParseInvertsAvcc(Avcc(units, size), size, units);
    } else if size == 4 {
      CarriersCoincide(units);
    } else {
      ShortFieldDiffers(units);
    }
  }

  /** The packets that the macOS converter accepts, and what it makes of them. */
  lemma MacAcceptsExactly(s: seq<byte>, size: int, output: seq<byte>)
    ensures MacResult(s, size) == Some(output) <==>
            && s != [] && |s| <= MAX_PACKET && 1 <= size <= 4 && |output| <= MAX_PACKET
            && exists units :: AllFit(units, size) && s == Avcc(units, size) && output == AnnexB(units)
  {
    if 1 <= size <= 4 {
      if exists units :: AllFit(units, size) && s == Avcc(units, size) && output == AnnexB(units) {
        var units :| AllFit(units, size) && s == Avcc(units, size) && output == AnnexB(units);
        ParseInvertsAvcc(s, size, units);
      }
      if MacResult(s, size) == Some(output) {
        ParseInvertsAvcc(s, size, ParseAvcc(s, size).value);
      }
    }
  }

  predicate IsCarried(s: seq<byte>, size: nat, output: seq<byte>, units: seq<seq<byte>>) {
    && units != [] && AllFit(units, size) && s == Avcc(units, size) && output == AnnexB(units)
    && |s| + 4 * |units| <= SIZE_MAX
  }

  /** The packets that the Windows converter accepts, and what it makes of them. */
  lemma WindowsAcceptsExactly(s: seq<byte>, size: nat, output: seq<byte>)
    requires 1 <= size <= 4
    ensures WindowsResult(s, size) == Some(output) <==>
            if LooksLikeAnnexB(s) then output == s else exists units :: IsCarried(s, size, output, units)
  {
    if !LooksLikeAnnexB(s) {
      if exists units :: IsCarried(s, size, output, units) {
        var units :| IsCarried(s, size, output, units);
        ParseInvertsAvcc(s, size, units);
      }
      if WindowsResult(s, size) == Some(output) {
        var units := ParseAvcc(s, size).value;
        ParseInvertsAvcc(s, size, units);
        assert IsCarried(s, size, output, units);
      }
    }
  }

  lemma TwoUnits(u: seq<byte>, v: seq<byte>, size: nat)
    ensures Avcc([u, v], size) == Prefixed(u, size) + Prefixed(v, size)
    ensures AnnexB([u, v]) == Started(u) + Started(v)
  {
    assert [u, v] == [u] + [v];
    OneMoreUnit([], u, size);
    OneMoreUnit([u], v, size);
    NothingAdded(Prefixed(u, size));
    NothingAdded(Started(u));
  }

  /** Units of one and two bytes: the Windows converter passes the packet on as it is, the macOS one converts it. */
  lemma ShortUnitPassesUnconverted(x: byte, y: byte, z: byte)
    ensures var s, stream := [0, 0, 0, 1, x, 0, 0, 0, 2, y, z], [0, 0, 0, 1, x, 0, 0, 0, 1, y, z];
            && WindowsResult(s, 4) == Some(s) && MacResult(s, 4) == Some(stream)
            && AnnexB([[x], [y, z]]) == stream != s == Avcc([[x], [y, z]], 4)
  {
    var units := [[x], [y, z]];
    assert Pow256(4) == 4294967296 by { Pow256Four(); }
    LengthFieldBytes(1, 4);
    LengthFieldBytes(2, 4);
    TwoUnits([x], [y, z], 4);
    assert Prefixed([x], 4) == [0, 0, 0, 1, x] && Prefixed([y, z], 4) == [0, 0, 0, 2, y, z];
    var s, stream := [0, 0, 0, 1, x, 0, 0, 0, 2, y, z], [0, 0, 0, 1, x, 0, 0, 0, 1, y, z];
    assert Avcc(units, 4) == s && AnnexB(units) == stream;
    assert Fits([x], 4) && Fits([y, z], 4);
    assert AllFit(units, 4);
    MistakenExactly(units, 4);
    assert |units[0]| == 1 && FirstLengthMisleads(units, 4);
    ParseInvertsAvcc(s, 4, units);
    assert s[8] != stream[8];
  }

  lemma Pow256Four()
    ensures Pow256(4) == 4294967296
  {
    assert Pow256(1) == 256 && Pow256(2) == 65536 && Pow256(3) == 16777216;
  }

  /** On packets with four length bytes the two platforms agree unless the test is misled. */
  lemma PlatformsAgreeExactly(units: seq<seq<byte>>)
    requires units != [] && AllFit(units, 4) && |Avcc(units, 4)| <= MAX_PACKET
    ensures MacResult(Avcc(units, 4), 4) == Some(AnnexB(units))
    ensures WindowsResult(Avcc(units, 4), 4) == MacResult(Avcc(units, 4), 4)
            <==> (FirstLengthMisleads(units, 4) ==> AllSingle(units))
  {
    var s := Avcc(units, 4);
    ParseInvertsAvcc(s, 4, units);
    CarrierSizes(units, 4);
    assert s == Prefixed(units[0], 4) + Avcc(units[1..], 4);
    CountBelowSize(units, 4);
    WindowsCorrectExactly(units, 4);
  }

  lemma {:induction false} CountBelowSize(units: seq<seq<byte>>, size: nat)
    requires AllFit(units, size)
    ensures |units| <= |Avcc(units, size)|
  {
    if units != [] {
      assert Fits(units[0], size);
      CountBelowSize(units[1..], size);
    }
  }

  /** What either converter makes of units that obey the byte rules, a reader takes apart again. */
  lemma ConvertedPacketSplits(s: seq<byte>, size: nat)
    requires MacResult(s, size).Some?
    ensures Split(MacResult(s, size).value) == ParseAvcc(s, size).value
            <==> Recoverable(ParseAvcc(s, size).value)
  {
    SplitRecovers(ParseAvcc(s, size).value);
  }

  /** A configuration record always reaches the receiver as its SPS and PPS units. */
  lemma ConvertedConfigSplits(head: seq<byte>, reserved: nat, sps: seq<seq<byte>>, pps: seq<seq<byte>>, ext: seq<byte>)
    requires |head| == 5 && head[0] == 1 && reserved < 8 && ConfigUnits(sps, pps)
    ensures var r := ConfigResult(Record(head, reserved, sps, pps, ext));
            r == Some(AnnexB(sps + pps)) && (Split(r.value) == sps + pps <==> Recoverable(sps + pps))
  {
    RecordParses(head, reserved, sps, pps, ext);
    var data := Record(head, reserved, sps, pps, ext);
    assert data[0] == 1;
    SplitRecovers(sps + pps);
  }
}
