/**
 Drawing the mouse cursor into a captured desktop image (app/src/reverse_display.c): the shape
 is clipped to the screen and combined with the pixels under it, in place.

 The three loops of the program differ in what they do to a pixel; here that is an operation
 that the shape gives for each of its pixels.
 */
module Cursor {
  import opened Common
  import opened Bytes

  // ----- Combining one pixel

  datatype Pixel = Pixel(blue: byte, green: byte, red: byte, alpha: byte)

  datatype Op = Keep | Put(src: Pixel) | Blend(src: Pixel) | Xor(src: Pixel) | Invert

  /** Weighs two channel values by an alpha, rounding to nearest. */
  function BlendByte(s: byte, d: byte, alpha: byte): byte {
    BlendStays(s, d, alpha);
    (s * alpha + d * (255 - alpha) + 127) / 255
  }

  lemma BlendStays(s: int, d: int, alpha: int)
    requires 0 <= s < 256 && 0 <= d < 256 && 0 <= alpha < 256
    ensures var r := (s * alpha + d * (255 - alpha) + 127) / 255;
            (if s < d then s else d) <= r <= (if s < d then d else s)
  {
    var low, high := if s < d then s else d, if s < d then d else s;
    ProductGrows(low, s, alpha);
    ProductGrows(s, high, alpha);
    ProductGrows(low, d, 255 - alpha);
    ProductGrows(d, high, 255 - alpha);
  }

  function Power(n: nat): (r: nat)
    ensures r > 0
  {
    if n == 0 then 1 else 2 * Power(n - 1)
  }

  /** Exclusive or of the `n` lowest bits. */
  function XorBits(a: nat, b: nat, n: nat): (r: nat)
    ensures r < Power(n)
  {
    if n == 0 then 0 else Join(XorBits(a / 2, b / 2, n - 1), a % 2 != b % 2)
  }

  function Join(high: nat, low: bool): (r: nat)
    ensures r / 2 == high && (r % 2 == 1 <==> low)
  {
    2 * high + if low then 1 else 0
  }

  function XorByte(a: byte, b: byte): byte {
    assert Power(8) == 256;
    XorBits(a, b, 8)
  }

  /** Drawing an exclusive or twice restores the image. */
  lemma {:induction false} XorUndoes(a: nat, b: nat, n: nat)
    requires a < Power(n)
    ensures XorBits(XorBits(a, b, n), b, n) == a
  {
    if n > 0 {
      XorUndoes(a / 2, b / 2, n - 1);
    }
  }

  /** Inverting is an exclusive or with ones. */
  lemma {:induction false} InvertIsXor(a: nat, n: nat)
    requires a < Power(n)
    ensures XorBits(a, Power(n) - 1, n) == Power(n) - 1 - a
  {
    if n > 0 {
      InvertIsXor(a / 2, n - 1);
      assert (Power(n) - 1) / 2 == Power(n - 1) - 1;
    }
  }

  /** Bit `k` of a number, from the lowest. */
  predicate Bit(v: nat, k: nat) {
    if k == 0 then v % 2 == 1 else Bit(v / 2, k - 1)
  }

  function Apply(op: Op, d: Pixel): Pixel {
    match op
    case Keep => d
    case Put(s) => Pixel(s.blue, s.green, s.red, 255)
    case Blend(s) => Pixel(BlendByte(s.blue, d.blue, s.alpha), BlendByte(s.green, d.green, s.alpha), BlendByte(s.red, d.red, s.alpha), 255)
    case Xor(s) => Pixel(XorByte(d.blue, s.blue), XorByte(d.green, s.green), XorByte(d.red, s.red), 255)
    case Invert => Pixel(255 - d.blue, 255 - d.green, 255 - d.red, 255)
  }

  lemma {:induction false} XorWithNone(a: nat, n: nat)
    requires a < Power(n)
    ensures XorBits(a, 0, n) == a
  {
    if n > 0 {
      XorWithNone(a / 2, n - 1);
    }
  }

  lemma XorByteFacts(a: byte, b: byte)
    ensures XorByte(XorByte(a, b), b) == a && XorByte(a, 0) == a && XorByte(a, 255) == 255 - a
  {
    assert Power(8) == 256;
    XorUndoes(a, b, 8);
    XorWithNone(a, 8);
    InvertIsXor(a, 8);
  }

  /** Drawing an exclusive or a second time brings the colours back. */
  lemma XorTwice(s: Pixel, d: Pixel)
    ensures Apply(Xor(s), Apply(Xor(s), d)) == d.(alpha := 255)
  {
    XorByteFacts(d.blue, s.blue);
    XorByteFacts(d.green, s.green);
    XorByteFacts(d.red, s.red);
  }

  predicate Between(v: byte, a: byte, b: byte) { a <= v <= b || b <= v <= a }

  /** A blend never leaves the range between the shape's colour and the desktop's, whatever the alpha. */
  lemma BlendBetween(s: Pixel, d: Pixel)
    ensures var r := Apply(Blend(s), d);
            Between(r.blue, s.blue, d.blue) && Between(r.green, s.green, d.green) && Between(r.red, s.red, d.red)
  {
    BlendStays(s.blue, d.blue, s.alpha);
    BlendStays(s.green, d.green, s.alpha);
    BlendStays(s.red, d.red, s.alpha);
  }

  /** A fully opaque blend is a copy and a fully transparent one changes no colour, so the special cases only save time. */
  lemma BlendEnds(s: byte, d: byte)
    ensures BlendByte(s, d, 255) == s && BlendByte(s, d, 0) == d
  {
  }

  // ----- Rows of bytes

  function Address(pitch: nat, x: nat, y: nat): nat { y * pitch + 4 * x }

  lemma RowsApart(pitch: nat, y: nat, z: nat)
    requires y < z
    ensures y * pitch + pitch <= z * pitch
  {
    assert (y + 1) * pitch == y * pitch + pitch;
    ProductGrows(y + 1, z, pitch);
  }

  /** A byte at column `c` of row `y` is within `height` rows. */
  lemma InRows(pitch: nat, height: nat, y: nat, c: nat)
    requires y < height && c < pitch
    ensures y * pitch + c < height * pitch
  {
    RowsApart(pitch, y, height);
  }

  // ----- The shape

  datatype Kind = Color | MaskedColor | Monochrome | Unknown

  datatype Shape = Shape(kind: Kind, width: nat, height: nat, pitch: nat, data: seq<byte>) {

    /** What is checked before drawing. */
    predicate Drawable() {
      && data != [] && width > 0 && height > 0 && pitch > 0
      && match kind
         case Unknown => false
         case Monochrome => height % 2 == 0 && pitch >= (width + 7) / 8 && |data| >= pitch * height
         case _ => pitch >= width * 4 && |data| >= pitch * height
    }

    /** A monochrome shape holds two masks, one above the other. */
    function Rows(): nat { if kind.Monochrome? then height / 2 else height }

    function ByteAt(column: nat, row: nat): byte
      requires Drawable() && column < pitch && row < height
    {
      InRows(pitch, height, row, column);
      data[row * pitch + column]
    }

    function ColorAt(x: nat, y: nat): Pixel
      requires Drawable() && !kind.Monochrome? && x < width && y < height
    {
      Pixel(ByteAt(4 * x, y), ByteAt(4 * x + 1, y), ByteAt(4 * x + 2, y), ByteAt(4 * x + 3, y))
    }

    function BitAt(x: nat, row: nat): bool
      requires Drawable() && kind.Monochrome? && x < width && row < height
    {
      Bit(ByteAt(x / 8, row), 7 - x % 8)
    }

    /** What the shape does to the pixel under its pixel x, y. */
    function OpAt(x: nat, y: nat): Op
      requires Drawable() && x < width && y < Rows()
    {
      if kind.Monochrome? then
        var keeps, flips := BitAt(x, y), BitAt(x, Rows() + y);
        var value := if flips then 255 else 0;
        if !keeps then Put(Pixel(value, value, value, 255))
        else if flips then Invert
        else Keep
      else
        var src := ColorAt(x, y);
        if kind.Color? then
          if src.alpha == 0 then Keep else if src.alpha == 255 then Put(src) else Blend(src)
        else
          if src.alpha == 0 then Put(src) else if src.alpha == 255 then Xor(src) else Blend(src)
    }
  }

  /** The rule of two masks: the image and the first mask, exclusive or the second. */
  function MaskRule(d: byte, keeps: bool, flips: bool): byte {
    XorByte(if keeps then d else 0, if flips then 255 else 0)
  }

  /** A monochrome shape follows the rule of two masks in every colour. */
  lemma MonochromeFollowsMasks(shape: Shape, x: nat, y: nat, d: Pixel)
    requires shape.Drawable() && shape.kind.Monochrome? && x < shape.width && y < shape.Rows()
    ensures var keeps, flips := shape.BitAt(x, y), shape.BitAt(x, shape.Rows() + y);
            var r := Apply(shape.OpAt(x, y), d);
            r.blue == MaskRule(d.blue, keeps, flips) && r.green == MaskRule(d.green, keeps, flips) && r.red == MaskRule(d.red, keeps, flips)
  {
    XorByteFacts(d.blue, 0);
    XorByteFacts(d.green, 0);
    XorByteFacts(d.red, 0);
    XorByteFacts(0, 0);
  }

  // ----- The image

  /** The part of the image that is the screen. */
  datatype Screen = Screen(width: nat, height: nat, pitch: nat) {
    predicate Fits(size: nat) { 4 * width <= pitch && height * pitch <= size }

    predicate Has(x: int, y: int) { 0 <= x < width && 0 <= y < height }
  }

  /** Where the shape's top left pixel is on the screen; it may lie outside. */
  datatype Cursor = Cursor(shape: Shape, left: int, top: int) {

    predicate Covers(x: int, y: int) {
      left <= x < left + shape.width && top <= y < top + shape.Rows()
    }

    function OpOver(x: int, y: int): Op
      requires shape.Drawable() && Covers(x, y)
    {
      shape.OpAt(x - left, y - top)
    }
  }

  lemma PixelInImage(s: Screen, size: nat, x: nat, y: nat)
    requires s.Fits(size) && s.Has(x, y)
    ensures Address(s.pitch, x, y) + 4 <= size
  {
    InRows(s.pitch, s.height, y, 4 * x + 3);
  }

  lemma PixelsApart(s: Screen, x: nat, y: nat, u: nat, v: nat)
    requires 4 * s.width <= s.pitch && s.Has(x, y) && s.Has(u, v) && (x != u || y != v)
    ensures Address(s.pitch, x, y) + 4 <= Address(s.pitch, u, v) || Address(s.pitch, u, v) + 4 <= Address(s.pitch, x, y)
  {
    if y < v {
      RowsApart(s.pitch, y, v);
    } else if v < y {
      RowsApart(s.pitch, v, y);
    }
  }

  function PixelAt(image: seq<byte>, s: Screen, x: nat, y: nat): Pixel
    requires s.Fits(|image|) && s.Has(x, y)
  {
    PixelInImage(s, |image|, x, y);
    var a := Address(s.pitch, x, y);
    Pixel(image[a], image[a + 1], image[a + 2], image[a + 3])
  }

  function PutPixel(image: seq<byte>, s: Screen, x: nat, y: nat, p: Pixel): (r: seq<byte>)
    requires s.Fits(|image|) && s.Has(x, y)
    ensures |r| == |image|
  {
    PixelInImage(s, |image|, x, y);
    var a := Address(s.pitch, x, y);
    image[a := p.blue][a + 1 := p.green][a + 2 := p.red][a + 3 := p.alpha]
  }

  lemma PutPixelAt(image: seq<byte>, s: Screen, x: nat, y: nat, p: Pixel, u: nat, v: nat)
    requires s.Fits(|image|) && s.Has(x, y) && s.Has(u, v)
    ensures PixelAt(PutPixel(image, s, x, y, p), s, u, v) == if x == u && y == v then p else PixelAt(image, s, u, v)
  {
    PixelInImage(s, |image|, x, y);
    PixelInImage(s, |image|, u, v);
    if x != u || y != v {
      PixelsApart(s, x, y, u, v);
    }
  }

  // ----- The definition of a drawn image, pixel by pixel

  /** Pixels before x1, y1 in reading order are drawn, the others are as they were. */
  ghost predicate DrawnUpTo(c: Cursor, s: Screen, was: seq<byte>, now: seq<byte>, x1: int, y1: int)
    requires c.shape.Drawable() && s.Fits(|was|) && |now| == |was|
  {
    forall x, y :: s.Has(x, y) ==>
      PixelAt(now, s, x, y) ==
        if c.Covers(x, y) && (y < y1 || (y == y1 && x < x1)) then Apply(c.OpOver(x, y), PixelAt(was, s, x, y))
        else PixelAt(was, s, x, y)
  }

  ghost predicate InSomePixel(s: Screen, i: nat) {
    exists x, y :: s.Has(x, y) && Address(s.pitch, x, y) <= i < Address(s.pitch, x, y) + 4
  }

  /** The bytes behind the end of each row are as they were. */
  ghost predicate PaddingKept(s: Screen, was: seq<byte>, now: seq<byte>) {
    |was| == |now| && forall i :: 0 <= i < |was| && was[i] != now[i] ==> InSomePixel(s, i)
  }

  /** A drawn image: what is under the shape is combined with it, all else is as it was. */
  ghost predicate Drawn(c: Cursor, s: Screen, was: seq<byte>, now: seq<byte>)
    requires c.shape.Drawable() && s.Fits(|was|) && |now| == |was|
  {
    && PaddingKept(s, was, now)
    && forall x, y :: s.Has(x, y) ==>
         PixelAt(now, s, x, y) ==
           if c.Covers(x, y) then Apply(c.OpOver(x, y), PixelAt(was, s, x, y)) else PixelAt(was, s, x, y)
  }

  lemma DrawnStep(c: Cursor, s: Screen, was: seq<byte>, now: seq<byte>, x: nat, y: nat)
    requires c.shape.Drawable() && s.Fits(|was|) && |now| == |was| && DrawnUpTo(c, s, was, now, x, y)
    requires s.Has(x, y) && c.Covers(x, y)
    ensures DrawnUpTo(c, s, was, PutPixel(now, s, x, y, Apply(c.OpOver(x, y), PixelAt(now, s, x, y))), x + 1, y)
  {
    var p := Apply(c.OpOver(x, y), PixelAt(now, s, x, y));
    forall u, v | s.Has(u, v)
      ensures PixelAt(PutPixel(now, s, x, y, p), s, u, v) ==
        if c.Covers(u, v) && (v < y || (v == y && u < x + 1)) then Apply(c.OpOver(u, v), PixelAt(was, s, u, v))
        else PixelAt(was, s, u, v)
    {
      PutPixelAt(now, s, x, y, p, u, v);
    }
  }

  lemma PaddingStep(s: Screen, was: seq<byte>, now: seq<byte>, x: nat, y: nat, p: Pixel)
    requires s.Fits(|was|) && PaddingKept(s, was, now) && s.Has(x, y)
    ensures PaddingKept(s, was, PutPixel(now, s, x, y, p))
  {
    PixelInImage(s, |was|, x, y);
    var a := Address(s.pitch, x, y);
    var next := PutPixel(now, s, x, y, p);
    forall i | 0 <= i < |was| && was[i] != next[i]
      ensures InSomePixel(s, i)
    {
      if a <= i < a + 4 {
        assert s.Has(x, y);
      } else {
        assert next[i] == now[i];
      }
    }
  }

  /** Past the last covered pixel of a row is before the first of the next. */
  lemma DrawnRow(c: Cursor, s: Screen, was: seq<byte>, now: seq<byte>, left: nat, right: int, y: nat)
    requires c.shape.Drawable() && s.Fits(|was|) && |now| == |was| && DrawnUpTo(c, s, was, now, right, y)
    requires left <= Max0(c.left) && (right >= s.width || right >= c.left + c.shape.width)
    ensures DrawnUpTo(c, s, was, now, left, y + 1)
  {
    forall x, v | s.Has(x, v)
      ensures PixelAt(now, s, x, v) ==
        if c.Covers(x, v) && (v < y + 1 || (v == y + 1 && x < left)) then Apply(c.OpOver(x, v), PixelAt(was, s, x, v))
        else PixelAt(was, s, x, v)
    {
      assert c.Covers(x, v) ==> left <= x < right;
    }
  }

  function Max0(v: int): nat { if v > 0 then v else 0 }

  lemma ByteOfPixel(s: Screen, a: seq<byte>, b: seq<byte>, x: nat, y: nat, i: nat)
    requires s.Fits(|a|) && |a| == |b| && s.Has(x, y)
    requires Address(s.pitch, x, y) <= i < Address(s.pitch, x, y) + 4
    requires PixelAt(a, s, x, y) == PixelAt(b, s, x, y)
    ensures i < |a| && a[i] == b[i]
  {
    PixelInImage(s, |a|, x, y);
  }

  /** The definition leaves no choice: there is one drawn image. */
  lemma DrawnIsUnique(c: Cursor, s: Screen, was: seq<byte>, a: seq<byte>, b: seq<byte>)
    requires c.shape.Drawable() && s.Fits(|was|) && |a| == |was| == |b|
    requires Drawn(c, s, was, a) && Drawn(c, s, was, b)
    ensures a == b
  {
    forall i | 0 <= i < |was|
      ensures a[i] == b[i]
    {
      if InSomePixel(s, i) {
        var x, y :| s.Has(x, y) && Address(s.pitch, x, y) <= i < Address(s.pitch, x, y) + 4;
        ByteOfPixel(s, a, b, x, y, i);
      }
    }
  }

  // ----- Drawing in place

  method StorePixel(desktop: array<byte>, s: Screen, x: nat, y: nat, p: Pixel)
    requires s.Fits(desktop.Length) && s.Has(x, y)
    modifies desktop
    ensures desktop[..] == PutPixel(old(desktop[..]), s, x, y, p)
  {
    PixelInImage(s, desktop.Length, x, y);
    var a := Address(s.pitch, x, y);
    desktop[a] := p.blue;
    desktop[a + 1] := p.green;
    desktop[a + 2] := p.red;
    desktop[a + 3] := p.alpha;
  }

  method LoadPixel(desktop: array<byte>, s: Screen, x: nat, y: nat) returns (p: Pixel)
    requires s.Fits(desktop.Length) && s.Has(x, y)
    ensures p == PixelAt(desktop[..], s, x, y)
  {
    PixelInImage(s, desktop.Length, x, y);
    var a := Address(s.pitch, x, y);
    p := Pixel(desktop[a], desktop[a + 1], desktop[a + 2], desktop[a + 3]);
  }

  /** One pixel under the shape. */
  method DrawPixel(desktop: array<byte>, s: Screen, c: Cursor, x: nat, y: nat, ghost was: seq<byte>)
    requires c.shape.Drawable() && s.Fits(desktop.Length) && |was| == desktop.Length
    requires s.Has(x, y) && c.Covers(x, y)
    requires DrawnUpTo(c, s, was, desktop[..], x, y) && PaddingKept(s, was, desktop[..])
    modifies desktop
    ensures DrawnUpTo(c, s, was, desktop[..], x + 1, y) && PaddingKept(s, was, desktop[..])
  {
    var p := LoadPixel(desktop, s, x, y);
    var q := Apply(c.OpOver(x, y), p);
    DrawnStep(c, s, was, desktop[..], x, y);
    PaddingStep(s, was, desktop[..], x, y, q);
    StorePixel(desktop, s, x, y, q);
  }

  /** One row of the clipped shape. */
  method DrawRow(desktop: array<byte>, s: Screen, c: Cursor, left: nat, count: nat, y: nat, ghost was: seq<byte>)
    requires c.shape.Drawable() && s.Fits(desktop.Length) && |was| == desktop.Length
    requires y < s.height && c.top <= y < c.top + c.shape.Rows()
    requires left + count <= s.width && c.left <= left && left + count <= c.left + c.shape.width
    requires DrawnUpTo(c, s, was, desktop[..], left, y) && PaddingKept(s, was, desktop[..])
    modifies desktop
    ensures DrawnUpTo(c, s, was, desktop[..], left + count, y) && PaddingKept(s, was, desktop[..])
  {
    var x := 0;
    while x < count
      invariant 0 <= x <= count
      invariant DrawnUpTo(c, s, was, desktop[..], left + x, y) && PaddingKept(s, was, desktop[..])
    {
      DrawPixel(desktop, s, c, left + x, y, was);
      x := x + 1;
    }
  }

  /** Draws the shape, clipped to the screen. */
  method DrawCursor(desktop: array<byte>, s: Screen, c: Cursor)
    requires c.shape.Drawable() && s.Fits(desktop.Length)
    modifies desktop
    ensures Drawn(c, s, old(desktop[..]), desktop[..])
  {
    ghost var was := desktop[..];
    var sourceLeft, sourceTop := Max0(-c.left), Max0(-c.top);
    var left, top := Max0(c.left), Max0(c.top);
    var copyWidth, copyHeight := c.shape.width - sourceLeft, c.shape.Rows() - sourceTop;
    if left + copyWidth > s.width {
      copyWidth := s.width - left;
    }
    if top + copyHeight > s.height {
      copyHeight := s.height - top;
    }
    if copyWidth <= 0 || copyHeight <= 0 {
      return;
    }
    var y := 0;
    while y < copyHeight
      invariant 0 <= y <= copyHeight
      invariant DrawnUpTo(c, s, was, desktop[..], left, top + y) && PaddingKept(s, was, desktop[..])
    {
      DrawRow(desktop, s, c, left, copyWidth, top + y, was);
      DrawnRow(c, s, was, desktop[..], left, left + copyWidth, top + y);
      y := y + 1;
    }
  }
}
