/** Region geometry: the `Bound2` rectangle of the capture overlay.

    Coordinates are 32-bit signed integers. `rect`, `get_width` and
    `get_height` subtract two i32 values and cast the difference to u32;
    the subtraction wraps (two's complement) and the cast reinterprets the
    bits, so both are written out here. */
module Geometry {

  const TwoTo32: int := 0x1_0000_0000
  const MinI32: int := -0x8000_0000
  const MaxI32: int := 0x7fff_ffff

  type I32 = x: int | -0x8000_0000 <= x <= 0x7fff_ffff
  type U32 = x: int | 0 <= x < 0x1_0000_0000

  /** A point `(x, y)` in screen pixels. */
  type Point = (I32, I32)

  /** Two's-complement wrap-around of an integer into the i32 range. */
  function WrapI32(x: int): (r: I32)
    ensures (x - r) % TwoTo32 == 0
    ensures MinI32 <= x <= MaxI32 ==> r == x
  {
    var m := x % TwoTo32;
    if m <= MaxI32 then m else m - TwoTo32
  }

  /** `as u32` applied to an i32: the same 32 bits read as unsigned. */
  function AsU32(x: I32): (r: U32)
    ensures (r - x) % TwoTo32 == 0
    ensures 0 <= x ==> r == x
  {
    if x >= 0 then x else x + TwoTo32
  }

  /** `(a - b) as u32` with a wrapping i32 subtraction: the difference
      taken modulo 2^32. */
  function DiffAsU32(a: I32, b: I32): (r: U32)
    ensures r == (a - b) % TwoTo32
    ensures a >= b ==> r == a - b
  {
    AsU32(WrapI32(a - b))
  }

  datatype Bound2 = Bound2(min: Point, max: Point)

  /** Both corners ordered: `min <= max` on each axis. */
  predicate Normalised(b: Bound2)
  {
    b.min.0 <= b.max.0 && b.min.1 <= b.max.1
  }

  function Min(a: I32, b: I32): I32 { if a <= b then a else b }
  function Max(a: I32, b: I32): I32 { if a <= b then b else a }

  /** `Bound2::new`: the rectangle spanned by two corners in any order. */
  function New(p1: Point, p2: Point): (b: Bound2)
    ensures Normalised(b)
    ensures b.min.0 <= p1.0 && b.min.0 <= p2.0 && (b.min.0 == p1.0 || b.min.0 == p2.0)
    ensures b.min.1 <= p1.1 && b.min.1 <= p2.1 && (b.min.1 == p1.1 || b.min.1 == p2.1)
    ensures b.max.0 >= p1.0 && b.max.0 >= p2.0 && (b.max.0 == p1.0 || b.max.0 == p2.0)
    ensures b.max.1 >= p1.1 && b.max.1 >= p2.1 && (b.max.1 == p1.1 || b.max.1 == p2.1)
  {
    Bound2((Min(p1.0, p2.0), Min(p1.1, p2.1)), (Max(p1.0, p2.0), Max(p1.1, p2.1)))
  }

  /** `Bound2::default()`: min (0, 0), max (-1, -1). */
  function Default(): (b: Bound2)
    ensures !Normalised(b)
  {
    Bound2((0, 0), (-1, -1))
  }

  /** `get_width`: `(max.x - min.x) as u32`. */
  function Width(b: Bound2): (w: U32)
    ensures w == (b.max.0 - b.min.0) % TwoTo32
  {
    DiffAsU32(b.max.0, b.min.0)
  }

  /** `get_height`: `(max.y - min.y) as u32`. */
  function Height(b: Bound2): (h: U32)
    ensures h == (b.max.1 - b.min.1) % TwoTo32
  {
    DiffAsU32(b.max.1, b.min.1)
  }

  /** `rect`: origin at `min`, then the u32 width and height. */
  function Rect(b: Bound2): (r: (I32, I32, U32, U32))
    ensures r.0 == b.min.0 && r.1 == b.min.1
    ensures r.2 == Width(b) && r.3 == Height(b)
    ensures Normalised(b) ==> r.2 == b.max.0 - b.min.0 && r.3 == b.max.1 - b.min.1
  {
    (b.min.0, b.min.1, DiffAsU32(b.max.0, b.min.0), DiffAsU32(b.max.1, b.min.1))
  }

  /** `empty`: `get_width() <= 0 || get_height() <= 0` on unsigned values. */
  function Empty(b: Bound2): (e: bool)
    ensures e <==> (b.max.0 - b.min.0) % TwoTo32 == 0 || (b.max.1 - b.min.1) % TwoTo32 == 0
  {
    Width(b) <= 0 || Height(b) <= 0
  }

  /** Normalisation does not depend on the order of the corners. */
  lemma NewSymmetric(p1: Point, p2: Point)
    ensures New(p1, p2) == New(p2, p1)
  {
  }

  /** A bound spanned by a single point is that point, with zero area. */
  lemma NewSinglePoint(p: Point)
    ensures New(p, p) == Bound2(p, p)
    ensures Width(New(p, p)) == 0 && Height(New(p, p)) == 0
    ensures Empty(New(p, p))
  {
  }

  /** For a normalised bound the u32 cast never changes the difference:
      width and height are exactly `max - min`, even where the i32
      subtraction itself overflows and wraps. */
  lemma NormalisedExtent(b: Bound2)
    requires Normalised(b)
    ensures Width(b) == b.max.0 - b.min.0
    ensures Height(b) == b.max.1 - b.min.1
    ensures Rect(b) == (b.min.0, b.min.1, b.max.0 - b.min.0, b.max.1 - b.min.1)
  {
  }

  /** A bound built from two corners is empty exactly when the corners
      share a column or a row. */
  lemma {:induction false} NewEmptyIff(p1: Point, p2: Point)
    ensures Empty(New(p1, p2)) <==> p1.0 == p2.0 || p1.1 == p2.1
  {
    var b := New(p1, p2);
    NormalisedExtent(b);
  }

  /** The default bound has max = min - 1; the wrapped difference -1 is
      read as 4294967295, so the default bound is not empty. */
  lemma DefaultNotEmpty()
    ensures Width(Default()) == 0xffff_ffff && Height(Default()) == 0xffff_ffff
    ensures !Empty(Default())
  {
  }
}
