/** The aperture bookkeeping of GERBER_PLOTTER (common/plotters/GERBER_plotter.cpp):
    the aperture table, the current aperture, line widths and the pen helpers
    of PLOTTER as this plotter implements them. The output file is modelled
    as the sequence of D-code commands written to it. */
module GerberPlotter {
  import opened Geom
  import opened Wrappers
  import opened Plotter

  /** What the plotter writes: a tool selection "Dnn*" or an operation
      (D01 draw, D02 move, D03 flash) at a point. */
  datatype Command = SelectTool(dcode: int) | Operation(pos: Point, code: int)

  /** What identifies an aperture in the table. */
  predicate SameKey(a: ApertureDef, apertureType: int, size: Size, attribute: int) {
    a.apertureType == apertureType && a.size == size && a.attribute == attribute
  }

  /** The first table index whose aperture has the key. */
  function FindAperture(table: seq<ApertureDef>, apertureType: int, size: Size, attribute: int): (r: Option<nat>)
    ensures r.Some? ==> r.value < |table| && SameKey(table[r.value], apertureType, size, attribute)
    ensures r.Some? ==> forall j :: 0 <= j < r.value ==> !SameKey(table[j], apertureType, size, attribute)
    ensures r.None? ==> forall j :: 0 <= j < |table| ==> !SameKey(table[j], apertureType, size, attribute)
  {
    if |table| == 0 then None
    else
      var r := FindAperture(table[..|table| - 1], apertureType, size, attribute);
      if r.Some? then Some(r.value)
      else if SameKey(table[|table| - 1], apertureType, size, attribute) then Some(|table| - 1)
      else None
  }

  /** The D-code a new aperture gets: one more than the last one, 10 for an empty table. */
  function NextDCode(table: seq<ApertureDef>): int {
    if |table| == 0 then FirstDCodeValue else table[|table| - 1].dcode + 1
  }

  /** The table invariant: D-codes are 10, 11, 12, ... in order and no two
      entries share (type, size, attribute). */
  predicate WellFormedTable(table: seq<ApertureDef>) {
    (forall i :: 0 <= i < |table| ==> table[i].dcode == FirstDCodeValue + i) &&
    (forall i, j :: 0 <= i < j < |table| ==>
       !SameKey(table[j], table[i].apertureType, table[i].size, table[i].attribute))
  }

  /** The table after a lookup of (type, size, attribute). */
  function TableAfterLookup(table: seq<ApertureDef>, apertureType: int, size: Size, attribute: int): seq<ApertureDef> {
    if FindAperture(table, apertureType, size, attribute).Some? then table
    else table + [ApertureDef(apertureType, size, NextDCode(table), attribute)]
  }

  /** A lookup keeps the table well formed: a new entry gets D-code 10 + its index
      and, being absent before, cannot duplicate a key. */
  lemma LookupKeepsWellFormed(table: seq<ApertureDef>, apertureType: int, size: Size, attribute: int)
    requires WellFormedTable(table)
    ensures WellFormedTable(TableAfterLookup(table, apertureType, size, attribute))
    ensures NextDCode(table) == FirstDCodeValue + |table|
  {
  }

  /** The attribute an aperture is selected with: forced to 0 without net attributes. */
  function EffectiveAttribute(useNetAttributes: bool, attribute: int): int {
    if useNetAttributes then attribute else 0
  }

  /** (int)(x) for a double: truncation toward zero. */
  function TruncToInt(x: real): int {
    if x >= 0.0 then x.Floor else -((-x).Floor)
  }

  /** The aperture type FlashRegularPolygon asks for. */
  function FlashPolyType(cornerCount: int): int {
    AtRegularPoly3 + cornerCount - 3
  }

  /** What selectAperture(size, type, attribute) does to a well-formed
      table and current aperture: the new table, the new current aperture
      and the commands it writes. The current aperture is kept, and nothing
      written, when it already has the type and the size and, with net
      attributes on, the attribute; otherwise the aperture is looked up
      (and added when absent) and its D-code written. */
  function Selection(table: seq<ApertureDef>, current: Option<nat>, useNetAttributes: bool,
                     apertureType: int, size: Size, attribute: int): (r: (seq<ApertureDef>, Option<nat>, seq<Command>))
    requires WellFormedTable(table) && (current.Some? ==> current.value < |table|)
    ensures WellFormedTable(r.0) && r.1.Some? && r.1.value < |r.0|
    ensures r.0[r.1.value].apertureType == apertureType && r.0[r.1.value].size == size
    ensures useNetAttributes ==> r.0[r.1.value].attribute == attribute
    ensures !useNetAttributes && r.2 != [] ==> r.0[r.1.value].attribute == 0
    ensures r.2 == [] ==> r.0 == table && r.1 == current
    ensures r.2 != [] ==>
              r.0 == TableAfterLookup(table, apertureType, size, EffectiveAttribute(useNetAttributes, attribute)) &&
              r.2 == [SelectTool(r.0[r.1.value].dcode)]
    ensures r.2 == [] <==> current.Some? && table[current.value].apertureType == apertureType &&
                           table[current.value].size == size &&
                           (useNetAttributes ==> table[current.value].attribute == attribute)
  {
    var attr := EffectiveAttribute(useNetAttributes, attribute);
    if current.Some? && table[current.value].apertureType == apertureType && table[current.value].size == size &&
       (useNetAttributes ==> table[current.value].attribute == attr)
    then (table, current, [])
    else
      var found := FindAperture(table, apertureType, size, attr);
      var t := TableAfterLookup(table, apertureType, size, attr);
      var i := if found.Some? then found.value else |table|;
      LookupKeepsWellFormed(table, apertureType, size, attr);
      (t, Some(i), [SelectTool(t[i].dcode)])
  }

  /** A new aperture gets D-code 10 plus its index, so a freshly added
      aperture is written with a D-code no earlier aperture has. */
  lemma {:induction false} SelectionDCode(table: seq<ApertureDef>, current: Option<nat>, useNetAttributes: bool,
                                          apertureType: int, size: Size, attribute: int)
    requires WellFormedTable(table) && (current.Some? ==> current.value < |table|)
    ensures var r := Selection(table, current, useNetAttributes, apertureType, size, attribute);
            r.0[r.1.value].dcode == FirstDCodeValue + r.1.value &&
            (|r.0| > |table| ==> forall j :: 0 <= j < |table| ==> table[j].dcode != r.0[r.1.value].dcode)
  {
    var r := Selection(table, current, useNetAttributes, apertureType, size, attribute);
    assert WellFormedTable(r.0);
    if |r.0| > |table| {
      assert r.0 == TableAfterLookup(table, apertureType, size, EffectiveAttribute(useNetAttributes, attribute));
      assert r.0[..|table|] == table;
      forall j | 0 <= j < |table|
        ensures table[j].dcode != r.0[r.1.value].dcode
      {
        assert table[j] == r.0[j];
      }
    }
  }

  /** For 3 to 12 corners the type is a regular-polygon type that encodes
      exactly that many vertices. */
  lemma FlashPolyTypeEncodesCorners(cornerCount: int)
    requires 3 <= cornerCount <= 12
    ensures AtRegularPoly3 <= FlashPolyType(cornerCount) <= AtRegularPoly12
    ensures VerticeCountOf(FlashPolyType(cornerCount)) == cornerCount
    ensures FlashPolyType(cornerCount) == PolyTypeFor(cornerCount)
  {
  }

  class GerberPlotter {
    var apertures: seq<ApertureDef>
    /** The current aperture: an index into the table, None for apertures.end(). */
    var currentAperture: Option<nat>
    var output: seq<Command>
    var defaultPenWidth: int
    var currentPenWidth: int
    var useNetAttributes: bool
    var penState: char

    ghost predicate Valid()
      reads this
    {
      WellFormedTable(apertures) &&
      (currentAperture.Some? ==> currentAperture.value < |apertures|)
    }

    constructor (useNetAttributes: bool)
      ensures Valid() && apertures == [] && currentAperture == None && output == []
      ensures this.useNetAttributes == useNetAttributes && penState == 'Z'
    {
      apertures := [];
      currentAperture := None;
      output := [];
      defaultPenWidth, currentPenWidth := 0, 0;
      this.useNetAttributes := useNetAttributes;
      penState := 'Z';
    }

    /** getAperture: the index of the first aperture with this key, appended
        with the next D-code when there is none. */
    method GetAperture(size: Size, apertureType: int, attribute: int) returns (index: nat)
      modifies this
      ensures apertures == TableAfterLookup(old(apertures), apertureType, size, attribute)
      ensures index < |apertures| && SameKey(apertures[index], apertureType, size, attribute)
      ensures FindAperture(old(apertures), apertureType, size, attribute).Some? ==>
                index == FindAperture(old(apertures), apertureType, size, attribute).value
      ensures FindAperture(old(apertures), apertureType, size, attribute).None? ==> index == |old(apertures)|
      ensures currentAperture == old(currentAperture) && output == old(output)
      ensures defaultPenWidth == old(defaultPenWidth) && currentPenWidth == old(currentPenWidth)
      ensures useNetAttributes == old(useNetAttributes) && penState == old(penState)
    {
      var lastDCode := FirstDCodeValue - 1;
      var tool := 0;
      while tool < |apertures|
        invariant 0 <= tool <= |apertures|
        invariant forall j :: 0 <= j < tool ==> !SameKey(apertures[j], apertureType, size, attribute)
        invariant lastDCode == if tool == 0 then FirstDCodeValue - 1 else apertures[tool - 1].dcode
      {
        lastDCode := apertures[tool].dcode;
        if SameKey(apertures[tool], apertureType, size, attribute) {
          FindFirstIs(apertures, apertureType, size, attribute, tool);
          return tool;
        }
        tool := tool + 1;
      }
      FindNoneIs(apertures, apertureType, size, attribute);
      apertures := apertures + [ApertureDef(apertureType, size, lastDCode + 1, attribute)];
      index := |apertures| - 1;
    }

    /** selectAperture(size, type, attribute): select (and write) a new aperture
        only when the current one differs in type or size, or in attribute
        with net attributes on. */
    method SelectAperture(size: Size, apertureType: int, attribute: int)
      requires Valid()
      modifies this
      ensures Valid()
      ensures var sel := Selection(old(apertures), old(currentAperture), useNetAttributes, apertureType, size, attribute);
              apertures == sel.0 && currentAperture == sel.1 && output == old(output) + sel.2
      ensures useNetAttributes == old(useNetAttributes) && penState == old(penState)
      ensures defaultPenWidth == old(defaultPenWidth) && currentPenWidth == old(currentPenWidth)
    {
      var change := currentAperture.None? ||
                     apertures[currentAperture.value].apertureType != apertureType ||
                     apertures[currentAperture.value].size != size;
      var attr := attribute;
      if !useNetAttributes {
        attr := 0;
      } else {
        change := change || apertures[currentAperture.value].attribute != attr;
      }
      if change {
        ghost var before := apertures;
        var index := GetAperture(size, apertureType, attr);
        LookupKeepsWellFormed(before, apertureType, size, attr);
        currentAperture := Some(index);
        output := output + [SelectTool(apertures[index].dcode)];
      }
    }

    /** selectAperture(diameter, rotation, type, attribute) for regular polygons:
        the size carries the diameter and the rotation in thousandths of a degree. */
    method SelectPolyAperture(diameter: int, rotation: real, apertureType: int, attribute: int)
      requires Valid()
      modifies this
      ensures Valid()
      ensures var sel := Selection(old(apertures), old(currentAperture), useNetAttributes, apertureType,
                                   Size(diameter, TruncToInt(rotation * 1000.0)), attribute);
              apertures == sel.0 && currentAperture == sel.1 && output == old(output) + sel.2
      ensures useNetAttributes == old(useNetAttributes) && penState == old(penState)
      ensures defaultPenWidth == old(defaultPenWidth) && currentPenWidth == old(currentPenWidth)
    {
      var size := Size(diameter, TruncToInt(rotation * 1000.0));
      SelectAperture(size, apertureType, attribute);
    }

    /** SetCurrentLineWidth: -2 does nothing; otherwise a round plotting
        aperture of the width (the default width if not positive) is selected
        and becomes the current pen width. `metadataAttribute` is the aperture
        attribute of the optional metadata (None when there is none). */
    method SetCurrentLineWidth(width: int, metadataAttribute: Option<int>)
      requires Valid()
      modifies this
      ensures Valid()
      ensures width == DoNotSetLineWidth ==>
                apertures == old(apertures) && currentAperture == old(currentAperture) &&
                output == old(output) && currentPenWidth == old(currentPenWidth)
      ensures width != DoNotSetLineWidth ==>
                var pen := if width > 0 then width else defaultPenWidth;
                var attr := if metadataAttribute.Some? then metadataAttribute.value else 0;
                var sel := Selection(old(apertures), old(currentAperture), useNetAttributes, AtPlotting, Size(pen, pen), attr);
                currentPenWidth == pen && apertures == sel.0 && currentAperture == sel.1 && output == old(output) + sel.2
      ensures defaultPenWidth == old(defaultPenWidth) && useNetAttributes == old(useNetAttributes)
      ensures penState == old(penState)
    {
      if width == DoNotSetLineWidth {
        return;
      }
      var penWidth := if width > 0 then width else defaultPenWidth;
      var attr := if metadataAttribute.Some? then metadataAttribute.value else 0;
      SelectAperture(Size(penWidth, penWidth), AtPlotting, attr);
      currentPenWidth := penWidth;
    }

    /** SetDefaultLineWidth: the current aperture is reset, so the next
        selection always writes a D-code. */
    method SetDefaultLineWidth(width: int)
      modifies this
      ensures defaultPenWidth == width && currentAperture == None
      ensures apertures == old(apertures) && output == old(output)
      ensures currentPenWidth == old(currentPenWidth) && useNetAttributes == old(useNetAttributes)
      ensures penState == old(penState)
    {
      defaultPenWidth := width;
      currentAperture := None;
    }

    /** PenTo: 'U' writes a D02 move, 'D' a D01 draw, 'Z' nothing; the pen
        state becomes the plume. */
    method PenTo(pos: Point, plume: char)
      modifies this
      ensures output == old(output) + (if plume == 'U' then [Operation(pos, 2)]
                                       else if plume == 'D' then [Operation(pos, 1)] else [])
      ensures penState == plume
      ensures apertures == old(apertures) && currentAperture == old(currentAperture)
      ensures defaultPenWidth == old(defaultPenWidth) && currentPenWidth == old(currentPenWidth)
      ensures useNetAttributes == old(useNetAttributes)
    {
      if plume == 'U' {
        output := output + [Operation(pos, 2)];
      } else if plume == 'D' {
        output := output + [Operation(pos, 1)];
      }
      penState := plume;
    }

    method MoveTo(pos: Point)
      modifies this
      ensures output == old(output) + [Operation(pos, 2)] && penState == 'U'
      ensures apertures == old(apertures) && currentAperture == old(currentAperture)
      ensures defaultPenWidth == old(defaultPenWidth) && currentPenWidth == old(currentPenWidth)
      ensures useNetAttributes == old(useNetAttributes)
    {
      PenTo(pos, 'U');
    }

    method LineTo(pos: Point)
      modifies this
      ensures output == old(output) + [Operation(pos, 1)] && penState == 'D'
      ensures apertures == old(apertures) && currentAperture == old(currentAperture)
      ensures defaultPenWidth == old(defaultPenWidth) && currentPenWidth == old(currentPenWidth)
      ensures useNetAttributes == old(useNetAttributes)
    {
      PenTo(pos, 'D');
    }

    /** FinishTo: a draw to the point, then the pen is lifted without output. */
    method FinishTo(pos: Point)
      modifies this
      ensures output == old(output) + [Operation(pos, 1)] && penState == 'Z'
      ensures apertures == old(apertures) && currentAperture == old(currentAperture)
      ensures defaultPenWidth == old(defaultPenWidth) && currentPenWidth == old(currentPenWidth)
      ensures useNetAttributes == old(useNetAttributes)
    {
      PenTo(pos, 'D');
      PenTo(pos, 'Z');
    }

    method PenFinish()
      modifies this
      ensures output == old(output) && penState == 'Z'
      ensures apertures == old(apertures) && currentAperture == old(currentAperture)
      ensures defaultPenWidth == old(defaultPenWidth) && currentPenWidth == old(currentPenWidth)
      ensures useNetAttributes == old(useNetAttributes)
    {
      PenTo(Point(0, 0), 'Z');
    }

    /** FlashRegularPolygon outside sketch mode: select the polygon aperture of
        that many corners and flash it (D03) at the position. */
    method FlashRegularPolygon(pos: Point, diameter: int, cornerCount: int, orient: real,
                               metadataAttribute: Option<int>)
      requires Valid()
      modifies this
      ensures Valid()
      ensures var attr := if metadataAttribute.Some? then metadataAttribute.value else 0;
              var sel := Selection(old(apertures), old(currentAperture), useNetAttributes, FlashPolyType(cornerCount),
                                   Size(diameter, TruncToInt(orient * 1000.0)), attr);
              apertures == sel.0 && currentAperture == sel.1 && output == old(output) + sel.2 + [Operation(pos, 3)]
      ensures useNetAttributes == old(useNetAttributes) && penState == old(penState)
      ensures defaultPenWidth == old(defaultPenWidth) && currentPenWidth == old(currentPenWidth)
    {
      var attr := if metadataAttribute.Some? then metadataAttribute.value else 0;
      var apertType := AtRegularPoly3 + cornerCount - 3;
      SelectPolyAperture(diameter, orient, apertType, attr);
      output := output + [Operation(pos, 3)];
    }
  }

  /** The closed outline Rect plots: p1, (p1.x, p2.y), p2, (p2.x, p1.y), p1.
      Each edge is horizontal or vertical and the outline ends where it starts. */
  method Rect(p1: Point, p2: Point) returns (corners: seq<Point>)
    ensures |corners| == 5 && corners[0] == p1 && corners[4] == p1 && corners[2] == p2
    ensures corners[1] == Point(p1.x, p2.y) && corners[3] == Point(p2.x, p1.y)
    ensures forall i :: 0 <= i < 4 ==> corners[i].x == corners[i + 1].x || corners[i].y == corners[i + 1].y
  {
    corners := [];
    corners := corners + [p1];
    var corner := Point(p1.x, p2.y);
    corners := corners + [corner];
    corners := corners + [p2];
    corner := Point(p2.x, p1.y);
    corners := corners + [corner];
    corners := corners + [p1];
  }

  lemma FindFirstIs(table: seq<ApertureDef>, apertureType: int, size: Size, attribute: int, i: nat)
    requires i < |table| && SameKey(table[i], apertureType, size, attribute)
    requires forall j :: 0 <= j < i ==> !SameKey(table[j], apertureType, size, attribute)
    ensures FindAperture(table, apertureType, size, attribute) == Some(i)
  {
    var r := FindAperture(table, apertureType, size, attribute);
    assert r.Some?;
  }

  lemma FindNoneIs(table: seq<ApertureDef>, apertureType: int, size: Size, attribute: int)
    requires forall j :: 0 <= j < |table| ==> !SameKey(table[j], apertureType, size, attribute)
    ensures FindAperture(table, apertureType, size, attribute) == None
  {
  }
}
