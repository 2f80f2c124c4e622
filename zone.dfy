/** The outline, layer and override rules of a copper or keepout zone
    (ZONE_CONTAINER in pcbnew/class_zone.cpp). The outline m_Poly is one
    polygon: its main outline followed by its holes, each a list of
    corners; it is [] while the zone has no outline. The filled area
    m_FilledPolysList is a list of contours and m_FillSegmList a list of
    segments. */
module Zone {
  import opened Geom
  import opened Wrappers
  import opened Layers
  import opened BaseStruct

  // ---------------------------------------------------------------
  // Bounding box
  // ---------------------------------------------------------------

  /** PRELOAD of GetBoundingBox: the largest 32-bit int. */
  const Preload: int := 0x7FFF_FFFF

  /** The corners in the order IterateWithHoles and GetCornerPosition
      visit them: the main outline, then every hole in turn. */
  function Corners(chains: seq<seq<Point>>): (r: seq<Point>)
    ensures forall c, i :: 0 <= c < |chains| && 0 <= i < |chains[c]| ==> chains[c][i] in r
  {
    if chains == [] then []
    else
      var rest := Corners(chains[1..]);
      assert forall c :: 1 <= c < |chains| ==> chains[c] == chains[1..][c - 1];
      chains[0] + rest
  }

  function Xs(cs: seq<Point>): (r: seq<int>)
    ensures |r| == |cs| && forall i :: 0 <= i < |cs| ==> r[i] == cs[i].x
  {
    seq(|cs|, i requires 0 <= i < |cs| => cs[i].x)
  }

  function Ys(cs: seq<Point>): (r: seq<int>)
    ensures |r| == |cs| && forall i :: 0 <= i < |cs| ==> r[i] == cs[i].y
  {
    seq(|cs|, i requires 0 <= i < |cs| => cs[i].y)
  }

  /** The running minimum of the corner loop: std::min from PRELOAD over
      the values in order. It is the least value, one of the values, and
      PRELOAD when there are none. */
  function MinFold(vs: seq<int>): (r: int)
    ensures r <= Preload && (vs == [] ==> r == Preload)
    ensures forall k :: 0 <= k < |vs| ==> r <= vs[k]
    ensures vs != [] && (forall k :: 0 <= k < |vs| ==> vs[k] <= Preload) ==>
      exists k :: 0 <= k < |vs| && r == vs[k]
  {
    if vs == [] then Preload
    else
      var m := MinFold(vs[..|vs| - 1]);
      assert forall k :: 0 <= k < |vs| - 1 ==> vs[..|vs| - 1][k] == vs[k];
      Min(m, vs[|vs| - 1])
  }

  /** The running maximum of the corner loop, from -PRELOAD. */
  function MaxFold(vs: seq<int>): (r: int)
    ensures r >= -Preload && (vs == [] ==> r == -Preload)
    ensures forall k :: 0 <= k < |vs| ==> r >= vs[k]
    ensures vs != [] && (forall k :: 0 <= k < |vs| ==> vs[k] >= -Preload) ==>
      exists k :: 0 <= k < |vs| && r == vs[k]
  {
    if vs == [] then -Preload
    else
      var m := MaxFold(vs[..|vs| - 1]);
      assert forall k :: 0 <= k < |vs| - 1 ==> vs[..|vs| - 1][k] == vs[k];
      Max(m, vs[|vs| - 1])
  }

  /** The rectangle GetBoundingBox returns for a corner list: origin at
      the minima, size max - min + 1 on each axis in 32-bit int
      arithmetic. */
  function CornerBoxOf(cs: seq<Point>): Box {
    var xmin, xmax := MinFold(Xs(cs)), MaxFold(Xs(cs));
    var ymin, ymax := MinFold(Ys(cs)), MaxFold(Ys(cs));
    Box(Point(xmin, ymin), Size(Span(xmin, xmax), Span(ymin, ymax)), true)
  }

  /** max - min + 1 in 32-bit int arithmetic. */
  function Span(lo: int, hi: int): (r: int)
    ensures IsInt32(hi - lo + 1) ==> r == hi - lo + 1
  {
    Wrap32(hi - lo + 1)
  }

  /** A corner within the PRELOAD range on both axes. */
  predicate InPreload(p: Point) { -Preload <= p.x <= Preload && -Preload <= p.y <= Preload }

  lemma FoldStep(cs: seq<Point>, i: nat)
    requires i < |cs|
    ensures MinFold(Xs(cs[..i + 1])) == Min(MinFold(Xs(cs[..i])), cs[i].x)
    ensures MaxFold(Xs(cs[..i + 1])) == Max(MaxFold(Xs(cs[..i])), cs[i].x)
    ensures MinFold(Ys(cs[..i + 1])) == Min(MinFold(Ys(cs[..i])), cs[i].y)
    ensures MaxFold(Ys(cs[..i + 1])) == Max(MaxFold(Ys(cs[..i])), cs[i].y)
  {
    assert Xs(cs[..i + 1])[..i] == Xs(cs[..i]);
    assert Ys(cs[..i + 1])[..i] == Ys(cs[..i]);
  }

  /** The loop of GetBoundingBox over a corner list. */
  method CornerBox(cs: seq<Point>) returns (r: Box)
    ensures r == CornerBoxOf(cs)
  {
    var ymax, ymin, xmin, xmax := -Preload, Preload, Preload, -Preload;
    var i := 0;
    while i < |cs|
      invariant 0 <= i <= |cs|
      invariant xmin == MinFold(Xs(cs[..i])) && xmax == MaxFold(Xs(cs[..i]))
      invariant ymin == MinFold(Ys(cs[..i])) && ymax == MaxFold(Ys(cs[..i]))
    {
      var corner := cs[i];
      FoldStep(cs, i);
      ymax := Max(ymax, corner.y);
      xmax := Max(xmax, corner.x);
      ymin := Min(ymin, corner.y);
      xmin := Min(xmin, corner.x);
      i := i + 1;
    }
    assert cs[..i] == cs;
    assert xmin == MinFold(Xs(cs)) && xmax == MaxFold(Xs(cs));
    assert ymin == MinFold(Ys(cs)) && ymax == MaxFold(Ys(cs));
    r := Box(Point(xmin, ymin), Size(Span(xmin, xmax), Span(ymin, ymax)), true);
  }

  /** With corners in the PRELOAD range whose spans fit an int, the box
      holds every corner and has a positive size on both axes. */
  lemma CornerBoxContainsCorners(cs: seq<Point>)
    requires cs != [] && forall i :: 0 <= i < |cs| ==> InPreload(cs[i])
    requires IsInt32(MaxFold(Xs(cs)) - MinFold(Xs(cs)) + 1)
    requires IsInt32(MaxFold(Ys(cs)) - MinFold(Ys(cs)) + 1)
    ensures var b := CornerBoxOf(cs);
      (forall i :: 0 <= i < |cs| ==> InBox(b, cs[i])) && b.size.x >= 1 && b.size.y >= 1
  {
    var xs, ys := Xs(cs), Ys(cs);
    var b := CornerBoxOf(cs);
    assert b.pos == Point(MinFold(xs), MinFold(ys));
    assert b.size == Size(MaxFold(xs) - MinFold(xs) + 1, MaxFold(ys) - MinFold(ys) + 1);
    forall i | 0 <= i < |cs| ensures InBox(b, cs[i]) {
      assert xs[i] == cs[i].x && ys[i] == cs[i].y;
      InBoxWithin(b, cs[i]);
    }
  }

  /** Under the same conditions the box is tight: its origin is the least
      x and the least y of the corners, and its far edges are one unit
      beyond the greatest x and y. */
  lemma CornerBoxTight(cs: seq<Point>)
    requires cs != [] && forall i :: 0 <= i < |cs| ==> InPreload(cs[i])
    requires IsInt32(MaxFold(Xs(cs)) - MinFold(Xs(cs)) + 1)
    requires IsInt32(MaxFold(Ys(cs)) - MinFold(Ys(cs)) + 1)
    ensures var b := CornerBoxOf(cs);
      (exists i :: 0 <= i < |cs| && cs[i].x == b.pos.x) &&
      (exists i :: 0 <= i < |cs| && cs[i].y == b.pos.y) &&
      (exists i :: 0 <= i < |cs| && cs[i].x == End(b).x - 1) &&
      (exists i :: 0 <= i < |cs| && cs[i].y == End(b).y - 1)
  {
    var xs, ys := Xs(cs), Ys(cs);
    var b := CornerBoxOf(cs);
    assert b.pos == Point(MinFold(xs), MinFold(ys));
    assert b.size == Size(MaxFold(xs) - MinFold(xs) + 1, MaxFold(ys) - MinFold(ys) + 1);
    assert forall k :: 0 <= k < |xs| ==> -Preload <= xs[k] <= Preload;
    assert forall k :: 0 <= k < |ys| ==> -Preload <= ys[k] <= Preload;
    var x0 :| 0 <= x0 < |xs| && xs[x0] == MinFold(xs);
    var x1 :| 0 <= x1 < |xs| && xs[x1] == MaxFold(xs);
    var y0 :| 0 <= y0 < |ys| && ys[y0] == MinFold(ys);
    var y1 :| 0 <= y1 < |ys| && ys[y1] == MaxFold(ys);
    assert cs[x0].x == b.pos.x && cs[y0].y == b.pos.y;
    assert cs[x1].x == End(b).x - 1 && cs[y1].y == End(b).y - 1;
  }

  /** A point between the origin and the far edges of a box of positive
      size is in it. */
  lemma InBoxWithin(b: Box, p: Point)
    requires b.size.x >= 0 && b.size.y >= 0
    requires b.pos.x <= p.x <= b.pos.x + b.size.x && b.pos.y <= p.y <= b.pos.y + b.size.y
    ensures InBox(b, p)
  {
  }

  /** A zone without corners: the size computation overflows, and in
      32-bit arithmetic the box lies at (PRELOAD, PRELOAD) with size 3 x 3. */
  lemma CornerBoxEmpty()
    ensures CornerBoxOf([]) == Box(Point(Preload, Preload), Size(3, 3), true)
  {
    assert -Preload - Preload + 1 == -0xFFFF_FFFD;
  }

  // ---------------------------------------------------------------
  // Mirror
  // ---------------------------------------------------------------

  /** A segment of m_FillSegmList. */
  datatype Seg = Seg(a: Point, b: Point)

  /** One point mirrored by Mirror: x about aMirrorRef.x for a left-right
      mirror, otherwise y about aMirrorRef.y. */
  function MirrorPoint(p: Point, ref: Point, leftRight: bool): (r: Point)
    ensures leftRight ==> r.y == p.y && r.x - ref.x == ref.x - p.x
    ensures !leftRight ==> r.x == p.x && r.y - ref.y == ref.y - p.y
  {
    if leftRight then p.(x := (ref.x - p.x) + ref.x) else p.(y := (ref.y - p.y) + ref.y)
  }

  function MirrorChainOf(pts: seq<Point>, ref: Point, leftRight: bool): seq<Point> {
    seq(|pts|, i requires 0 <= i < |pts| => MirrorPoint(pts[i], ref, leftRight))
  }

  function MirrorChainsOf(cs: seq<seq<Point>>, ref: Point, leftRight: bool): seq<seq<Point>> {
    seq(|cs|, c requires 0 <= c < |cs| => MirrorChainOf(cs[c], ref, leftRight))
  }

  function MirrorSeg(s: Seg, ref: Point, leftRight: bool): Seg {
    Seg(MirrorPoint(s.a, ref, leftRight), MirrorPoint(s.b, ref, leftRight))
  }

  function MirrorSegsOf(ss: seq<Seg>, ref: Point, leftRight: bool): seq<Seg> {
    seq(|ss|, i requires 0 <= i < |ss| => MirrorSeg(ss[i], ref, leftRight))
  }

  /** Mirroring twice about the same reference gives back every outline,
      every filled contour and every fill segment. */
  lemma MirrorTwice(cs: seq<seq<Point>>, ss: seq<Seg>, ref: Point, leftRight: bool)
    ensures MirrorChainsOf(MirrorChainsOf(cs, ref, leftRight), ref, leftRight) == cs
    ensures MirrorSegsOf(MirrorSegsOf(ss, ref, leftRight), ref, leftRight) == ss
  {
    var m := MirrorChainsOf(MirrorChainsOf(cs, ref, leftRight), ref, leftRight);
    forall c | 0 <= c < |cs| ensures m[c] == cs[c] {
      assert MirrorChainOf(MirrorChainOf(cs[c], ref, leftRight), ref, leftRight) == cs[c];
    }
  }

  /** Mirroring moves every corner and keeps the shape of the outline:
      the corner list of the mirrored outline is the mirrored corner list. */
  lemma {:induction false} MirrorCorners(cs: seq<seq<Point>>, ref: Point, leftRight: bool)
    ensures Corners(MirrorChainsOf(cs, ref, leftRight)) == MirrorChainOf(Corners(cs), ref, leftRight)
  {
    if cs != [] {
      var m := MirrorChainsOf(cs, ref, leftRight);
      assert m[1..] == MirrorChainsOf(cs[1..], ref, leftRight);
      MirrorCorners(cs[1..], ref, leftRight);
      assert MirrorChainOf(cs[0] + Corners(cs[1..]), ref, leftRight) ==
        MirrorChainOf(cs[0], ref, leftRight) + MirrorChainOf(Corners(cs[1..]), ref, leftRight);
    }
  }

  /** The per-point loop of Mirror over one contour, in place. */
  method MirrorChain(pts: seq<Point>, ref: Point, leftRight: bool) returns (r: seq<Point>)
    ensures r == MirrorChainOf(pts, ref, leftRight)
  {
    r := pts;
    var i := 0;
    while i < |r|
      invariant 0 <= i <= |r| == |pts|
      invariant r[..i] == MirrorChainOf(pts, ref, leftRight)[..i] && r[i..] == pts[i..]
    {
      assert r[i] == pts[i..][0];
      r := r[i := MirrorPoint(r[i], ref, leftRight)];
      i := i + 1;
    }
  }

  /** Mirror over every contour of a polygon set. */
  method MirrorChains(cs: seq<seq<Point>>, ref: Point, leftRight: bool) returns (r: seq<seq<Point>>)
    ensures r == MirrorChainsOf(cs, ref, leftRight)
  {
    r := cs;
    var c := 0;
    while c < |r|
      invariant 0 <= c <= |r| == |cs|
      invariant r[..c] == MirrorChainsOf(cs, ref, leftRight)[..c] && r[c..] == cs[c..]
    {
      assert r[c] == cs[c..][0];
      var m := MirrorChain(r[c], ref, leftRight);
      r := r[c := m];
      c := c + 1;
    }
  }

  /** The MIRROR loop over the fill segments. */
  method MirrorSegs(ss: seq<Seg>, ref: Point, leftRight: bool) returns (r: seq<Seg>)
    ensures r == MirrorSegsOf(ss, ref, leftRight)
  {
    r := ss;
    var i := 0;
    while i < |r|
      invariant 0 <= i <= |r| == |ss|
      invariant r[..i] == MirrorSegsOf(ss, ref, leftRight)[..i] && r[i..] == ss[i..]
    {
      assert r[i] == ss[i..][0];
      r := r[i := MirrorSeg(r[i], ref, leftRight)];
      i := i + 1;
    }
  }

  // ---------------------------------------------------------------
  // AppendCorner
  // ---------------------------------------------------------------

  /** SHAPE_LINE_CHAIN::Append: the point is added unless duplication is
      refused and the point equals the last one. */
  function ChainAppend(chain: seq<Point>, p: Point, allowDup: bool): (r: seq<Point>)
    ensures r == chain || r == chain + [p]
    ensures r == chain <==> (!allowDup && chain != [] && chain[|chain| - 1] == p)
  {
    if chain == [] || allowDup || chain[|chain| - 1] != p then chain + [p] else chain
  }

  /** The result of AppendCorner on an outline: whether it succeeded and
      the new outline. The main outline is created first, even when the
      call then fails; a negative hole index means the main outline. */
  function AppendCornerOf(chains: seq<seq<Point>>, p: Point, holeIdx: int, allowDup: bool): (r: (bool, seq<seq<Point>>))
    ensures |r.1| >= 1
    ensures !r.0 <==> holeIdx >= |r.1| - 1
    ensures !r.0 ==> r.1 == (if chains == [] then [[]] else chains)
    ensures r.0 ==> var k := if holeIdx < 0 then 0 else holeIdx + 1;
      var c := if chains == [] then [[]] else chains;
      |r.1| == |c| && r.1[k] == ChainAppend(c[k], p, allowDup) &&
      forall j :: 0 <= j < |c| && j != k ==> r.1[j] == c[j]
  {
    var c := if chains == [] then [[]] else chains;
    if holeIdx >= |c| - 1 then (false, c)
    else
      var k := if holeIdx < 0 then 0 else holeIdx + 1;
      (true, c[k := ChainAppend(c[k], p, allowDup)])
  }

  lemma {:induction false} CornersUpdate(cs: seq<seq<Point>>, k: nat, x: seq<Point>)
    requires k < |cs|
    ensures |Corners(cs[k := x])| == |Corners(cs)| - |cs[k]| + |x|
  {
    if k > 0 {
      assert cs[k := x][1..] == cs[1..][k - 1 := x];
      CornersUpdate(cs[1..], k - 1, x);
    }
  }

  /** A successful AppendCorner adds exactly one corner when duplication
      is allowed, and the new corner is the given point; a failed one adds
      none. */
  lemma AppendCornerCount(chains: seq<seq<Point>>, p: Point, holeIdx: int, allowDup: bool)
    ensures var r := AppendCornerOf(chains, p, holeIdx, allowDup);
      (!r.0 ==> |Corners(r.1)| == |Corners(chains)|) &&
      (r.0 && allowDup ==> |Corners(r.1)| == |Corners(chains)| + 1 && p in Corners(r.1))
  {
    var r := AppendCornerOf(chains, p, holeIdx, allowDup);
    var c: seq<seq<Point>> := if chains == [] then [[]] else chains;
    assert Corners(c) == Corners(chains) by {
      if chains == [] {
        assert c[1..] == [];
      }
    }
    if r.0 {
      var k := if holeIdx < 0 then 0 else holeIdx + 1;
      CornersUpdate(c, k, r.1[k]);
      assert r.1 == c[k := r.1[k]];
      if allowDup {
        assert r.1[k][|r.1[k]| - 1] == p;
      }
    }
  }

  // ---------------------------------------------------------------
  // The zone
  // ---------------------------------------------------------------

  /** ZoneConnection, the pad-to-zone connection style. */
  datatype ZoneConnection = ConnInherited | ConnNone | ConnThermal | ConnFull | ConnThtThermal

  /** The pad settings the zone rules read (D_PAD::GetThermalGap,
      GetThermalWidth, GetZoneConnection). */
  datatype PadSettings = PadSettings(thermalGap: int, thermalWidth: int, zoneConnection: ZoneConnection)

  /** The settings a zone takes from the board's zone settings when it
      is created: the layer of a copper zone, the layer set of a keepout,
      the clearance, thermal and connection rules and the corner radius. */
  datatype ZoneSettings = ZoneSettings(
    isKeepout: bool, layer: int, layers: set<int>, zoneClearance: int, thermalReliefGap: int,
    thermalReliefCopperBridge: int, padConnection: ZoneConnection, cornerRadius: nat)

  /** The fields no outline or layer operation changes. */
  datatype ZoneRules = ZoneRules(
    isKeepout: bool, zoneClearance: int, netClassClearance: Option<int>,
    thermalReliefGap: int, thermalReliefCopperBridge: int,
    padConnection: ZoneConnection, cornerRadius: nat)

  /** A set of layer ids as an LSET holds them. */
  predicate LayerIds(s: set<int>) { forall l :: l in s ==> 0 <= l < LayerCount }

  function FirstLayerFrom(s: set<int>, from: int): (r: int)
    requires 0 <= from && exists l :: l in s && from <= l < LayerCount
    ensures r in s && from <= r < LayerCount
    ensures forall l :: l in s && from <= l ==> r <= l
    decreases LayerCount - from
  {
    if from in s then from else FirstLayerFrom(s, from + 1)
  }

  lemma SomeLayer(s: set<int>)
    requires s != {} && LayerIds(s)
    ensures exists l :: l in s && 0 <= l < LayerCount
  {
    assert (forall l :: l !in s) ==> s == {};
    var l :| l in s;
  }

  /** The id LSET::Seq()[0] gives: the lowest layer of a non-empty set. */
  function FirstLayer(s: set<int>): (r: int)
    requires s != {} && LayerIds(s)
    ensures r in s && forall l :: l in s ==> r <= l
  {
    SomeLayer(s);
    FirstLayerFrom(s, 0)
  }

  class ZoneContainer {
    var outline: seq<seq<Point>>
    var filledPolys: seq<seq<Point>>
    var fillSegs: seq<Seg>
    var isFilled: bool
    var needRefill: bool
    var isKeepout: bool
    var layer: int
    var layerSet: set<int>
    var cornerRadius: nat
    var zoneClearance: int
    /** The clearance of the zone's net class (GetNetClass()), None when it has none. */
    var netClassClearance: Option<int>
    var thermalReliefGap: int
    var thermalReliefCopperBridge: int
    var padConnection: ZoneConnection

    function Rules(): ZoneRules
      reads this
    {
      ZoneRules(isKeepout, zoneClearance, netClassClearance, thermalReliefGap,
        thermalReliefCopperBridge, padConnection, cornerRadius)
    }

    /** A new zone: no outline, not filled, no refill needed, and the
        board's zone settings exported into it. A copper zone takes the
        settings' layer; a keepout takes the copper layers of the settings'
        layer set as SetLayerSet does, and keeps the item's initial layer
        F_Cu and an empty set when there are none. */
    constructor (settings: ZoneSettings, netClass: Option<int>)
      requires LayerIds(settings.layers)
      ensures outline == [] && filledPolys == [] && fillSegs == []
      ensures !isFilled && !needRefill
      ensures var s := settings.layers * AllCuMask();
        if !settings.isKeepout then layer == settings.layer && layerSet == {}
        else if s == {} then layer == F_Cu && layerSet == {}
        else layer == FirstLayer(s) && layerSet == s
      ensures Rules() == ZoneRules(settings.isKeepout, settings.zoneClearance, netClass,
        settings.thermalReliefGap, settings.thermalReliefCopperBridge, settings.padConnection,
        settings.cornerRadius)
    {
      outline, filledPolys, fillSegs := [], [], [];
      isFilled := false;
      layer, layerSet := F_Cu, {};
      isKeepout := settings.isKeepout;
      zoneClearance, netClassClearance := settings.zoneClearance, netClass;
      thermalReliefGap, thermalReliefCopperBridge := settings.thermalReliefGap, settings.thermalReliefCopperBridge;
      padConnection := settings.padConnection;
      cornerRadius := settings.cornerRadius;
      if settings.isKeepout {
        var s := settings.layers * AllCuMask();
        if s != {} {
          layerSet := s;
          layer := FirstLayer(s);
        }
      } else {
        layer := settings.layer;
      }
      needRefill := false;
    }

    /** UnFill: empty the filled area and the fill segments; true iff
        either held something. */
    method UnFill() returns (change: bool)
      modifies this
      ensures change <==> old(filledPolys) != [] || old(fillSegs) != []
      ensures filledPolys == [] && fillSegs == [] && !isFilled
      ensures outline == old(outline) && needRefill == old(needRefill)
      ensures layer == old(layer) && layerSet == old(layerSet) && Rules() == old(Rules())
    {
      change := filledPolys != [] || |fillSegs| > 0;
      filledPolys := [];
      fillSegs := [];
      isFilled := false;
    }

    /** IsOnCopperLayer: a keepout is on copper when its layer set holds a
        copper layer, any other zone when its layer is a copper layer. */
    predicate IsOnCopperLayer()
      reads this
    {
      if isKeepout then layerSet * AllCuMask() != {} else IsCopperLayer(layer)
    }

    /** GetLayerSet: the set of a keepout, the single layer otherwise. */
    function GetLayerSet(): (r: set<int>)
      reads this
      ensures isKeepout ==> r == layerSet
      ensures !isKeepout ==> r == {layer}
    {
      if isKeepout then layerSet else {layer}
    }

    /** SetLayerSet: a keepout keeps only the copper layers of the set; an
        empty set changes nothing; otherwise the set is stored, a
        different set asks for a refill, and the single layer becomes the
        lowest layer of the set. */
    method SetLayerSet(aLayerSet: set<int>)
      requires LayerIds(aLayerSet)
      modifies this
      ensures var s := if old(isKeepout) then aLayerSet * AllCuMask() else aLayerSet;
        if s == {} then
          layerSet == old(layerSet) && layer == old(layer) && needRefill == old(needRefill)
        else
          layerSet == s && layer == FirstLayer(s) &&
          (needRefill <==> old(needRefill) || old(layerSet) != s)
      ensures outline == old(outline) && filledPolys == old(filledPolys) && fillSegs == old(fillSegs)
      ensures isFilled == old(isFilled) && Rules() == old(Rules())
    {
      var s := aLayerSet;
      if isKeepout {
        s := s * AllCuMask();
      }
      if s == {} {
        return;
      }
      if layerSet != s {
        needRefill := true;
      }
      layerSet := s;
      layer := FirstLayer(s);
    }

    /** SetCornerRadius: a different radius asks for a refill. */
    method SetCornerRadius(aRadius: nat)
      modifies this
      ensures cornerRadius == aRadius
      ensures needRefill <==> old(needRefill) || old(cornerRadius) != aRadius
      ensures outline == old(outline) && filledPolys == old(filledPolys) && fillSegs == old(fillSegs)
      ensures layer == old(layer) && layerSet == old(layerSet) && isFilled == old(isFilled)
      ensures Rules() == old(Rules()).(cornerRadius := aRadius)
    {
      if cornerRadius != aRadius {
        needRefill := true;
      }
      cornerRadius := aRadius;
    }

    /** GetThermalReliefGap: the pad's gap when there is a pad and its gap
        is not 0, the zone's otherwise. */
    function GetThermalReliefGap(pad: Option<PadSettings>): (r: int)
      reads this
      ensures pad.Some? && pad.value.thermalGap != 0 ==> r == pad.value.thermalGap
      ensures pad.None? || pad.value.thermalGap == 0 ==> r == thermalReliefGap
    {
      if pad.None? || pad.value.thermalGap == 0 then thermalReliefGap else pad.value.thermalGap
    }

    /** GetThermalReliefCopperBridge: the pad's spoke width when there is a
        pad and its width is not 0, the zone's otherwise. */
    function GetThermalReliefCopperBridge(pad: Option<PadSettings>): (r: int)
      reads this
      ensures pad.Some? && pad.value.thermalWidth != 0 ==> r == pad.value.thermalWidth
      ensures pad.None? || pad.value.thermalWidth == 0 ==> r == thermalReliefCopperBridge
    {
      if pad.None? || pad.value.thermalWidth == 0 then thermalReliefCopperBridge else pad.value.thermalWidth
    }

    /** GetPadConnection: the pad's style unless there is no pad or it
        inherits, then the zone's. */
    function GetPadConnection(pad: Option<PadSettings>): (r: ZoneConnection)
      reads this
      ensures pad.Some? && pad.value.zoneConnection != ConnInherited ==> r == pad.value.zoneConnection
      ensures pad.None? || pad.value.zoneConnection == ConnInherited ==> r == padConnection
      ensures padConnection != ConnInherited ==> r != ConnInherited
    {
      if pad.None? || pad.value.zoneConnection == ConnInherited then padConnection
      else pad.value.zoneConnection
    }

    /** GetClearance: the largest of the zone clearance, the net-class
        clearance when the zone has a class, and the other item's
        clearance when there is an item. */
    function GetClearance(item: Option<int>): (r: int)
      reads this
      ensures r >= zoneClearance
      ensures netClassClearance.Some? ==> r >= netClassClearance.value
      ensures item.Some? ==> r >= item.value
      ensures r == zoneClearance || (netClassClearance.Some? && r == netClassClearance.value) ||
        (item.Some? && r == item.value)
    {
      var mine := if netClassClearance.Some? then Max(zoneClearance, netClassClearance.value) else zoneClearance;
      if item.Some? then Max(item.value, mine) else mine
    }

    /** The clearance TransformOutlinesShapeWithClearanceToPolygon inflates
        the outline by: aMinClearanceValue, or at least the zone's own
        clearance when net clearances are asked for and the zone is on
        copper. */
    function OutlineClearance(aMinClearanceValue: int, aUseNetClearance: bool): (r: int)
      reads this
      ensures r >= aMinClearanceValue
      ensures !(aUseNetClearance && IsOnCopperLayer()) ==> r == aMinClearanceValue
      ensures aUseNetClearance && IsOnCopperLayer() ==>
        r >= GetClearance(None) && (r == aMinClearanceValue || r == GetClearance(None))
    {
      if aUseNetClearance && IsOnCopperLayer() then
        var c := GetClearance(None);
        if aMinClearanceValue > c then aMinClearanceValue else c
      else aMinClearanceValue
    }

    /** GetBoundingBox over the corners of the outline. */
    method GetBoundingBox() returns (r: Box)
      ensures r == CornerBoxOf(Corners(outline))
    {
      r := CornerBox(Corners(outline));
    }

    /** Mirror: every corner of the outline, every corner of the filled
        area and both ends of every fill segment are mirrored. */
    method Mirror(aMirrorRef: Point, aMirrorLeftRight: bool)
      modifies this
      ensures outline == MirrorChainsOf(old(outline), aMirrorRef, aMirrorLeftRight)
      ensures filledPolys == MirrorChainsOf(old(filledPolys), aMirrorRef, aMirrorLeftRight)
      ensures fillSegs == MirrorSegsOf(old(fillSegs), aMirrorRef, aMirrorLeftRight)
      ensures isFilled == old(isFilled) && needRefill == old(needRefill)
      ensures layer == old(layer) && layerSet == old(layerSet) && Rules() == old(Rules())
    {
      outline := MirrorChains(outline, aMirrorRef, aMirrorLeftRight);
      filledPolys := MirrorChains(filledPolys, aMirrorRef, aMirrorLeftRight);
      fillSegs := MirrorSegs(fillSegs, aMirrorRef, aMirrorLeftRight);
    }

    /** AppendCorner: create the main outline if there is none, fail when
        the hole index is not below the hole count, otherwise append the
        corner to the main outline (negative index) or to that hole and
        ask for a refill. */
    method AppendCorner(aPosition: Point, aHoleIdx: int, aAllowDuplication: bool) returns (ok: bool)
      modifies this
      ensures (ok, outline) == AppendCornerOf(old(outline), aPosition, aHoleIdx, aAllowDuplication)
      ensures needRefill <==> old(needRefill) || ok
      ensures filledPolys == old(filledPolys) && fillSegs == old(fillSegs) && isFilled == old(isFilled)
      ensures layer == old(layer) && layerSet == old(layerSet) && Rules() == old(Rules())
    {
      if outline == [] {
        outline := [[]];
      }
      if aHoleIdx >= |outline| - 1 {
        return false;
      }
      var k := if aHoleIdx < 0 then 0 else aHoleIdx + 1;
      outline := outline[k := ChainAppend(outline[k], aPosition, aAllowDuplication)];
      needRefill := true;
      ok := true;
    }
  }

  /** A pad that inherits (no pad, or a zero or INHERITED value) gets the
      same thermal gap, spoke width and connection as no pad at all. */
  lemma InheritingPadIsNoPad(z: ZoneContainer, pad: PadSettings)
    requires pad.thermalGap == 0 && pad.thermalWidth == 0 && pad.zoneConnection == ConnInherited
    ensures z.GetThermalReliefGap(Some(pad)) == z.GetThermalReliefGap(None)
    ensures z.GetThermalReliefCopperBridge(Some(pad)) == z.GetThermalReliefCopperBridge(None)
    ensures z.GetPadConnection(Some(pad)) == z.GetPadConnection(None)
  {
  }
}
