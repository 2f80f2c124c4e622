/** The aperture description shared by the plotters (include/plotter.h):
    APERTURE_TYPE codes, the regular-polygon vertex-count encoding and the
    diameter accessors. */
module Plotter {
  import opened Geom

  // APERTURE::APERTURE_TYPE
  const AtCircle: int := 1
  const AtRect: int := 2
  const AtPlotting: int := 3
  const AtOval: int := 4
  const AtRegularPoly: int := 5
  const AtRegularPoly3: int := 6
  const AtRegularPoly12: int := 15

  /** FIRST_DCODE_VALUE: D-codes below it are commands, from it on tools. */
  const FirstDCodeValue: int := 10

  /** PLOTTER::DO_NOT_SET_LINE_WIDTH and USE_DEFAULT_LINE_WIDTH. */
  const DoNotSetLineWidth: int := -2
  const UseDefaultLineWidth: int := -1

  /** One entry of an aperture table. For regular polygons size.x is the
      diameter and size.y the rotation in thousandths of a degree. */
  datatype ApertureDef = ApertureDef(apertureType: int, size: Size, dcode: int, attribute: int)

  function Clamp(n: int, lo: int, hi: int): int
    requires lo <= hi
  {
    if n < lo then lo else if n > hi then hi else n
  }

  /** The type that encodes a regular polygon with n vertices (n clamped to 3..12). */
  function PolyTypeFor(n: int): (t: int)
    ensures AtRegularPoly3 <= t <= AtRegularPoly12
  {
    AtRegularPoly3 - 3 + Clamp(n, 3, 12)
  }

  /** The vertex count a regular-polygon type encodes. */
  function VerticeCountOf(apertureType: int): int {
    apertureType - AtRegularPoly3 + 3
  }

  /** Encoding then decoding a vertex count gives the count clamped to 3..12,
      and every regular-polygon type is the encoding of its own count. */
  lemma VerticeCountRoundTrip(n: int, t: int)
    ensures VerticeCountOf(PolyTypeFor(n)) == Clamp(n, 3, 12)
    ensures AtRegularPoly3 <= t <= AtRegularPoly12 ==> PolyTypeFor(VerticeCountOf(t)) == t
  {
  }

  /** An APERTURE object with its setters. */
  class Aperture {
    var apertureType: int
    var size: Size
    var dcode: int
    var attribute: int

    function Def(): ApertureDef
      reads this
    {
      ApertureDef(apertureType, size, dcode, attribute)
    }

    constructor (d: ApertureDef)
      ensures Def() == d
    {
      apertureType, size, dcode, attribute := d.apertureType, d.size, d.dcode, d.attribute;
    }

    /** Store a regular polygon of aCount vertices, aCount clamped to 3..12. */
    method SetVerticeCount(aCount: int)
      modifies this
      ensures AtRegularPoly3 <= apertureType <= AtRegularPoly12
      ensures GetVerticeCount() == Clamp(aCount, 3, 12)
      ensures Def() == old(Def()).(apertureType := apertureType)
    {
      var count := aCount;
      if count < 3 {
        count := 3;
      } else if count > 12 {
        count := 12;
      }
      apertureType := AtRegularPoly3 - 3 + count;
    }

    function GetVerticeCount(): int
      reads this
    {
      VerticeCountOf(apertureType)
    }

    /** The diameter is the width; nothing else changes. */
    method SetDiameter(aDiameter: int)
      modifies this
      ensures GetDiameter() == aDiameter
      ensures Def() == old(Def()).(size := old(size).(x := aDiameter))
    {
      size := size.(x := aDiameter);
    }

    function GetDiameter(): int
      reads this
    {
      size.x
    }
  }
}
