/** The integer rectangle algebra of EDA_RECT and the text substitution of
    EDA_ITEM::Replace (common/base_struct.cpp). A rectangle is an origin and
    a size whose components may be negative; it covers the closed box
    between its origin and its end whatever the signs. */
module BaseStruct {
  import opened Geom
  import opened Wrappers

  /** The value of an EDA_RECT: origin, size and the initialised flag. */
  datatype Box = Box(pos: Point, size: Size, init: bool)

  /** A default-constructed EDA_RECT. */
  function DefaultBox(): Box { Box(Point(0, 0), Size(0, 0), false) }

  function End(b: Box): Point { Point(b.pos.x + b.size.x, b.pos.y + b.size.y) }

  /** The lower-left and upper-right corners of the covered closed box. */
  function Lo(b: Box): Point { Point(Min(b.pos.x, End(b).x), Min(b.pos.y, End(b).y)) }
  function Hi(b: Box): Point { Point(Max(b.pos.x, End(b).x), Max(b.pos.y, End(b).y)) }

  /** The point set a rectangle covers: the closed box between Lo and Hi. */
  predicate InBox(b: Box, p: Point) {
    Lo(b).x <= p.x <= Hi(b).x && Lo(b).y <= p.y <= Hi(b).y
  }

  /** The closed extents of two rectangles overlap (a common area of size >= 0). */
  predicate Overlap(a: Box, b: Box) {
    Max(Lo(a).x, Lo(b).x) <= Min(Hi(a).x, Hi(b).x) &&
    Max(Lo(a).y, Lo(b).y) <= Min(Hi(a).y, Hi(b).y)
  }

  /** A rectangle with both sizes made non-negative (the value Normalize leaves). */
  function Normalized(b: Box): (r: Box)
    ensures r.size.x >= 0 && r.size.y >= 0 && r.init == b.init
    ensures Lo(r) == Lo(b) && Hi(r) == Hi(b)
  {
    var b1 := if b.size.y < 0 then b.(size := b.size.(y := -b.size.y), pos := b.pos.(y := b.pos.y + b.size.y)) else b;
    if b1.size.x < 0 then b1.(size := b1.size.(x := -b1.size.x), pos := b1.pos.(x := b1.pos.x + b1.size.x)) else b1
  }

  /** Normalising keeps the covered points and normalising twice changes nothing more. */
  lemma NormalizedCoversSame(b: Box, p: Point)
    ensures InBox(Normalized(b), p) <==> InBox(b, p)
    ensures Normalized(Normalized(b)) == Normalized(b)
    ensures Normalized(b).pos == Lo(b)
  {
  }

  /** EDA_RECT::Contains(point): inclusive on every edge, whatever the signs. */
  function Contains(b: Box, p: Point): (r: bool)
    ensures r <==> InBox(b, p)
  {
    var rel := Sub(p, b.pos);
    var sx := if b.size.x < 0 then -b.size.x else b.size.x;
    var rx := if b.size.x < 0 then rel.x + sx else rel.x;
    var sy := if b.size.y < 0 then -b.size.y else b.size.y;
    var ry := if b.size.y < 0 then rel.y + sy else rel.y;
    rx >= 0 && ry >= 0 && ry <= sy && rx <= sx
  }

  /** EDA_RECT::Contains(rect): both the origin and the end of the other are inside. */
  function ContainsRect(a: Box, b: Box): (r: bool)
    ensures r <==> InBox(a, b.pos) && InBox(a, End(b))
  {
    Contains(a, b.pos) && Contains(a, End(b))
  }

  /** Containing both corners means containing every point of the other. */
  lemma ContainsRectCoversAll(a: Box, b: Box, p: Point)
    requires ContainsRect(a, b) && InBox(b, p)
    ensures InBox(a, p)
  {
  }

  /** EDA_RECT::Intersects(rect). The top edge of the common area is taken
      from the other rectangle's origin before normalisation, as the source does. */
  function Intersects(me: Box, other: Box): (r: bool)
    ensures !me.init ==> !r
  {
    if !me.init then false
    else
      var m := Normalized(me);
      var o := Normalized(other);
      var left := Max(m.pos.x, o.pos.x);
      var right := Min(m.pos.x + m.size.x, o.pos.x + o.size.x);
      var top := Max(m.pos.y, other.pos.y);
      var bottom := Min(m.pos.y + m.size.y, o.pos.y + o.size.y);
      left <= right && top <= bottom
  }

  /** When the other rectangle's height is not negative, Intersects is exactly
      the overlap of the closed extents; in general it is never true without an
      overlap (the top-edge quirk can only lose intersections). */
  lemma IntersectsIsOverlap(me: Box, other: Box)
    ensures Intersects(me, other) ==> me.init && Overlap(me, other)
    ensures other.size.y >= 0 ==> (Intersects(me, other) <==> me.init && Overlap(me, other))
  {
  }

  /** The quirk at work: two overlapping rectangles, the other with a negative
      height, that Intersects reports as disjoint. */
  lemma IntersectsQuirkExample()
    ensures var me := Box(Point(0, 0), Size(10, 10), true);
            var other := Box(Point(0, 20), Size(10, -15), true);
            Overlap(me, other) && !Intersects(me, other)
  {
  }

  /** EDA_RECT::ClosestPointTo: the point clamped into the rectangle. */
  function ClosestPointTo(b: Box, p: Point): (r: Point)
    ensures InBox(b, r)
    ensures InBox(b, p) ==> r == p
    ensures forall q {:trigger InBox(b, q)} :: InBox(b, q) ==> Abs(r.x - p.x) <= Abs(q.x - p.x) && Abs(r.y - p.y) <= Abs(q.y - p.y)
  {
    var m := Normalized(b);
    Point(Max(m.pos.x, Min(p.x, m.pos.x + m.size.x)), Max(m.pos.y, Min(p.y, m.pos.y + m.size.y)))
  }

  /** EDA_RECT::Common: the intersection of two intersecting rectangles, a
      default rectangle otherwise. SetOrigin and SetEnd mark the result initialised. */
  function Common(a: Box, b: Box): (r: Box)
    ensures !Intersects(a, b) ==> r == DefaultBox()
  {
    if Intersects(a, b) then
      var origin := Point(Max(Lo(a).x, Lo(b).x), Max(Lo(a).y, Lo(b).y));
      var end := Point(Min(Hi(a).x, Hi(b).x), Min(Hi(a).y, Hi(b).y));
      Box(origin, Size(end.x - origin.x, end.y - origin.y), true)
    else DefaultBox()
  }

  /** The common area of intersecting rectangles lies in both. */
  lemma CommonInBoth(a: Box, b: Box)
    requires Intersects(a, b)
    ensures ContainsRect(a, Common(a, b)) && ContainsRect(b, Common(a, b))
  {
    var c := Common(a, b);
    IntersectsIsOverlap(a, b);
    assert InBox(c, c.pos) && InBox(c, End(c));
    CommonIsIntersection(a, b, c.pos);
    CommonIsIntersection(a, b, End(c));
  }

  /** The common area of intersecting rectangles is exactly the set of points
      both cover. */
  lemma CommonIsIntersection(a: Box, b: Box, p: Point)
    requires Intersects(a, b)
    ensures InBox(Common(a, b), p) <==> InBox(a, p) && InBox(b, p)
  {
    IntersectsIsOverlap(a, b);
    var c := Common(a, b);
    assert Lo(c) == c.pos && Hi(c) == End(c);
  }

  // ---------------------------------------------------------------------
  // Inflate

  /** One axis of Inflate as intended: the covered interval grows by d on both
      sides, or collapses to width 0 at its centre when a deflate would eat
      more than the width. Returns (new origin, new size). */
  function InflateAxis(pos: int, size: int, d: int): (int, int) {
    if size >= 0 then
      if size < -2 * d then (pos + Half(size), 0) else (pos - d, size + 2 * d)
    else
      if size > 2 * d then (pos + Half(size), 0) else (pos + d, size - 2 * d)
  }

  /** The x axis of Inflate as written: the negative-width guard compares
      with -2*dx, and the collapse moves the origin by -size/2. */
  function InflateXAsWritten(pos: int, size: int, d: int): (int, int) {
    if size >= 0 then
      if size < -2 * d then (pos + Half(size), 0) else (pos - d, size + 2 * d)
    else
      if size > -2 * d then (pos - Half(size), 0) else (pos + d, size - 2 * d)
  }

  /** The y axis of Inflate as written: the guard is right, the collapse of a
      negative height still moves the origin by -size/2. */
  function InflateYAsWritten(pos: int, size: int, d: int): (int, int) {
    if size >= 0 then
      if size < -2 * d then (pos + Half(size), 0) else (pos - d, size + 2 * d)
    else
      if size > 2 * d then (pos - Half(size), 0) else (pos + d, size - 2 * d)
  }

  /** The intended behaviour: the sign of the size is kept, a valid inflate moves
      both ends of the covered interval out by d, and an over-deflate collapses to
      a point of the old interval. */
  lemma InflateAxisExtent(pos: int, size: int, d: int)
    ensures var (p, s) := InflateAxis(pos, size, d);
            var lo, hi := Min(pos, pos + size), Max(pos, pos + size);
            (size >= 0 ==> s >= 0) && (size < 0 ==> s <= 0) &&
            (hi - lo + 2 * d >= 0 ==> Min(p, p + s) == lo - d && Max(p, p + s) == hi + d) &&
            (hi - lo + 2 * d < 0 ==> s == 0 && lo <= p <= hi)
  {
  }

  /** For a non-negative size the source agrees with the intended behaviour. */
  lemma InflateAsWrittenAgreesOnPositive(pos: int, size: int, d: int)
    requires size >= 0
    ensures InflateXAsWritten(pos, size, d) == InflateAxis(pos, size, d)
    ensures InflateYAsWritten(pos, size, d) == InflateAxis(pos, size, d)
  {
  }

  /** Width -10 inflated by 6 should become -22; the x guard as written
      collapses it to 0, and deflating it by 6 turns its sign instead. */
  lemma InflateXGuardCounterexample()
    ensures InflateAxis(0, -10, 6) == (6, -22)
    ensures InflateXAsWritten(0, -10, 6) == (5, 0)
    ensures InflateAxis(0, -10, -6) == (-5, 0)
    ensures InflateXAsWritten(0, -10, -6) == (-6, 2)
  {
  }

  /** Height -10 (covering [-10, 0]) deflated by 6 collapses; as written the
      collapsed origin is 5, outside the old rectangle, instead of its centre -5. */
  lemma InflateCollapseCounterexample()
    ensures InflateYAsWritten(0, -10, -6) == (5, 0)
    ensures InflateAxis(0, -10, -6) == (-5, 0)
  {
  }

  // ---------------------------------------------------------------------
  // The mutable rectangle

  class EdaRect {
    var pos: Point
    var size: Size
    var init: bool

    function Value(): Box
      reads this
    {
      Box(pos, size, init)
    }

    constructor ()
      ensures Value() == DefaultBox()
    {
      pos, size, init := Point(0, 0), Size(0, 0), false;
    }

    /** Make both sizes non-negative without changing the covered points. */
    method Normalize()
      modifies this
      ensures size.x >= 0 && size.y >= 0 && init == old(init)
      ensures Lo(Value()) == Lo(old(Value())) && Hi(Value()) == Hi(old(Value()))
    {
      if size.y < 0 {
        size := size.(y := -size.y);
        pos := pos.(y := pos.y - size.y);
      }
      if size.x < 0 {
        size := size.(x := -size.x);
        pos := pos.(x := pos.x - size.x);
      }
    }

    /** Grow (or shrink, for negative deltas) by dx on the left and right and
        by dy at the top and bottom. */
    method Inflate(dx: int, dy: int)
      modifies this
      ensures (pos.x, size.x) == InflateAxis(old(pos.x), old(size.x), dx)
      ensures (pos.y, size.y) == InflateAxis(old(pos.y), old(size.y), dy)
      ensures init == old(init)
    {
      if size.x >= 0 {
        if size.x < -2 * dx {
          pos := pos.(x := pos.x + Half(size.x));
          size := size.(x := 0);
        } else {
          pos := pos.(x := pos.x - dx);
          size := size.(x := size.x + 2 * dx);
        }
      } else {
        if size.x > 2 * dx {
          pos := pos.(x := pos.x + Half(size.x));
          size := size.(x := 0);
        } else {
          pos := pos.(x := pos.x + dx);
          size := size.(x := size.x - 2 * dx);
        }
      }
      if size.y >= 0 {
        if size.y < -2 * dy {
          pos := pos.(y := pos.y + Half(size.y));
          size := size.(y := 0);
        } else {
          pos := pos.(y := pos.y - dy);
          size := size.(y := size.y + 2 * dy);
        }
      } else {
        if size.y > 2 * dy {
          pos := pos.(y := pos.y + Half(size.y));
          size := size.(y := 0);
        } else {
          pos := pos.(y := pos.y + dy);
          size := size.(y := size.y - 2 * dy);
        }
      }
    }

    /** Merge(rect): an uninitialised rectangle takes an initialised other as
        is; otherwise the result is the bounding box of both. */
    method MergeRect(other: Box)
      modifies this
      ensures !old(init) && other.init ==> Value() == other
      ensures !old(init) && !other.init ==> Value() == old(Value())
      ensures old(init) ==> init && size.x >= 0 && size.y >= 0
      ensures old(init) ==> Lo(Value()) == Point(Min(Lo(old(Value())).x, Lo(other).x), Min(Lo(old(Value())).y, Lo(other).y))
      ensures old(init) ==> Hi(Value()) == Point(Max(Hi(old(Value())).x, Hi(other).x), Max(Hi(old(Value())).y, Hi(other).y))
    {
      if !init {
        if other.init {
          pos := other.pos;
          size := other.size;
          init := true;
        }
        return;
      }
      Normalize();
      var rect := Normalized(other);
      var end := End(Value());
      var rectEnd := End(rect);
      pos := Point(Min(pos.x, rect.pos.x), Min(pos.y, rect.pos.y));
      end := Point(Max(end.x, rectEnd.x), Max(end.y, rectEnd.y));
      SetEnd(end);
    }

    /** Merge(point): an uninitialised rectangle moves to the point with size 0
        (and stays uninitialised); otherwise it grows to cover the point. */
    method MergePoint(p: Point)
      modifies this
      ensures !old(init) ==> Value() == Box(p, Size(0, 0), false)
      ensures old(init) ==> init && size.x >= 0 && size.y >= 0
      ensures old(init) ==> Lo(Value()) == Point(Min(Lo(old(Value())).x, p.x), Min(Lo(old(Value())).y, p.y))
      ensures old(init) ==> Hi(Value()) == Point(Max(Hi(old(Value())).x, p.x), Max(Hi(old(Value())).y, p.y))
    {
      if !init {
        pos := p;
        size := Size(0, 0);
        return;
      }
      Normalize();
      var end := End(Value());
      pos := Point(Min(pos.x, p.x), Min(pos.y, p.y));
      end := Point(Max(end.x, p.x), Max(end.y, p.y));
      SetEnd(end);
    }

    method SetEnd(end: Point)
      modifies this
      ensures pos == old(pos) && End(Value()) == end && init
    {
      size := Size(end.x - pos.x, end.y - pos.y);
      init := true;
    }
  }

  /** A merged rectangle covers every point of both: the bounding box of
      the two, given as its corners. */
  lemma MergeCoversBoth(a: Box, b: Box, m: Box, p: Point)
    requires m.size.x >= 0 && m.size.y >= 0
    requires Lo(m) == Point(Min(Lo(a).x, Lo(b).x), Min(Lo(a).y, Lo(b).y))
    requires Hi(m) == Point(Max(Hi(a).x, Hi(b).x), Max(Hi(a).y, Hi(b).y))
    requires InBox(a, p) || InBox(b, p)
    ensures InBox(m, p) && ContainsRect(m, a) && ContainsRect(m, b)
  {
  }

  // ---------------------------------------------------------------------
  // EDA_ITEM::Replace (case-sensitive path)

  predicate MatchAt(text: string, pat: string, i: nat) {
    i + |pat| <= |text| && text[i..i + |pat|] == pat
  }

  /** wxString::Find: the first index where pat occurs, None when it does not. */
  function FindFirst(text: string, pat: string): (r: Option<nat>)
    ensures r.Some? ==> MatchAt(text, pat, r.value) && forall j :: 0 <= j < r.value ==> !MatchAt(text, pat, j)
    ensures r.None? ==> forall j :: 0 <= j <= |text| ==> !MatchAt(text, pat, j)
    decreases |text|
  {
    if |pat| <= |text| && text[..|pat|] == pat then Some(0)
    else if |text| == 0 then None
    else
      var r := FindFirst(text[1..], pat);
      if r.None? then
        assert forall j :: 1 <= j <= |text| ==> MatchAt(text, pat, j) == MatchAt(text[1..], pat, j - 1);
        None
      else
        assert forall j :: 1 <= j <= |text| ==> MatchAt(text, pat, j) == MatchAt(text[1..], pat, j - 1);
        Some(r.value + 1)
  }

  /** Replace the first occurrence of find in text by repl; false and the text
      unchanged when there is none. */
  method Replace(text: string, find: string, repl: string) returns (found: bool, newText: string)
    ensures found <==> exists j :: 0 <= j <= |text| && MatchAt(text, find, j)
    ensures !found ==> newText == text
    ensures found ==> var i := FindFirst(text, find).value;
                      newText == text[..i] + repl + text[i + |find|..]
  {
    var result := FindFirst(text, find);
    if result.None? {
      return false, text;
    }
    var prefix := text[..result.value];
    var suffix := "";
    if |find| + result.value < |text| {
      suffix := text[|find| + result.value..];
    }
    newText := prefix + repl + suffix;
    found := true;
  }
}
