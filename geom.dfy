/** Integer plane geometry shared by the models: wxPoint, wxSize and the
    C integer operators the sources rely on. */
module Geom {

  /** A point (wxPoint / VECTOR2I) in integer internal units. */
  datatype Point = Point(x: int, y: int)

  /** A size (wxSize): width and height, either may be negative. */
  datatype Size = Size(x: int, y: int)

  function Add(a: Point, b: Point): Point { Point(a.x + b.x, a.y + b.y) }

  function Sub(a: Point, b: Point): Point { Point(a.x - b.x, a.y - b.y) }

  function Neg(a: Point): Point { Point(-a.x, -a.y) }

  function Min(a: int, b: int): int { if a <= b then a else b }

  function Max(a: int, b: int): int { if a >= b then a else b }

  function Abs(a: int): nat { if a >= 0 then a else -a }

  /** C and C++ integer division by two, which truncates toward zero
      (Dafny's `/` rounds toward negative infinity for negative operands). */
  function Half(a: int): (r: int)
    ensures Abs(a - 2 * r) <= 1
    ensures a >= 0 ==> 0 <= r <= a
    ensures a < 0 ==> a <= r <= 0
  {
    if a >= 0 then a / 2 else -((-a) / 2)
  }

  const INT32_MIN: int := -0x8000_0000
  const INT32_MAX: int := 0x7FFF_FFFF

  predicate IsInt32(v: int) { INT32_MIN <= v <= INT32_MAX }

  /** Two's complement wrap-around of a C `int` (32 bits). */
  function Wrap32(v: int): (r: int)
    ensures IsInt32(r)
    ensures IsInt32(v) ==> r == v
  {
    var m := (v - INT32_MIN) % 0x1_0000_0000;
    m + INT32_MIN
  }
}
