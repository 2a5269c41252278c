/** Bytes, and unsigned big-endian numbers of any width (app/src/util/binary.h). */
module Bytes {
  import opened Common

  type byte = x: int | 0 <= x < 256

  function BigEndian(s: seq<byte>): nat {
    if s == [] then 0 else 256 * BigEndian(s[..|s| - 1]) + s[|s| - 1]
  }

  function Pow256(n: nat): nat { if n == 0 then 1 else 256 * Pow256(n - 1) }

  function LengthField(n: nat, size: nat): (s: seq<byte>)
    ensures |s| == size
  {
    if size == 0 then [] else LengthField(n / 256, size - 1) + [n % 256]
  }

  lemma {:induction false} LengthFieldDecodes(n: nat, size: nat)
    requires n < Pow256(size)
    ensures BigEndian(LengthField(n, size)) == n
  {
    if size > 0 {
      LengthFieldDecodes(n / 256, size - 1);
      var s := LengthField(n, size);
      assert s[..|s| - 1] == LengthField(n / 256, size - 1);
    }
  }

  lemma {:induction false} BigEndianEncodes(s: seq<byte>)
    ensures BigEndian(s) < Pow256(|s|)
    ensures LengthField(BigEndian(s), |s|) == s
  {
    if s != [] {
      BigEndianEncodes(s[..|s| - 1]);
      var front, n := BigEndian(s[..|s| - 1]), BigEndian(s);
      assert n / 256 == front && n % 256 == s[|s| - 1];
    }
  }

  // ----- Signed numbers in two's complement

  function Signed(n: nat, size: nat): int {
    if 2 * n >= Pow256(size) then n - Pow256(size) else n
  }

  /** The range of a signed number of `size` bytes. */
  predicate InRange(x: int, size: nat) { 0 <= 2 * x + Pow256(size) && 2 * x < Pow256(size) }

  function Twos(x: int, size: nat): (n: nat)
    requires InRange(x, size)
    ensures n < Pow256(size)
  {
    if x < 0 then x + Pow256(size) else x
  }

  lemma TwosDecodes(x: int, size: nat)
    requires InRange(x, size)
    ensures Signed(Twos(x, size), size) == x
  {
  }

  function Field(buf: seq<byte>, at: nat, size: nat): nat
    requires at + size <= |buf|
  {
    BigEndian(buf[at..at + size])
  }

  /** A field reads the same in any extension of the buffer. */
  lemma FieldStable(buf: seq<byte>, more: seq<byte>, at: nat, size: nat)
    requires at + size <= |buf|
    ensures Field(buf + more, at, size) == Field(buf, at, size)
  {
    assert (buf + more)[at..at + size] == buf[at..at + size];
  }

  /** A field that was written reads back. */
  lemma FieldReads(buf: seq<byte>, before: seq<byte>, n: nat, size: nat, after: seq<byte>)
    requires n < Pow256(size) && buf == before + (LengthField(n, size) + after)
    ensures Field(buf, |before|, size) == n
  {
    MiddleSlice(buf, before, LengthField(n, size), after);
    LengthFieldDecodes(n, size);
  }
}
