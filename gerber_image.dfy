/** The RS-274X command interpreter of GerbView (gerbview/rs274d.cpp): the
    plot-state G-codes, the D01/D02/D03 operations, tool selection, arc
    centre reconstruction and region (G36/G37) accumulation. */
module GerberImage {
  import opened Geom
  import opened Wrappers

  // G-code numbers handled by Execute_G_Command (enum Gerb_GCommand).
  const GMove: int := 0
  const GLinear: int := 1
  const GCircleNeg: int := 2
  const GCirclePos: int := 3
  const GComment: int := 4
  const GPolyFillOn: int := 36
  const GPolyFillOff: int := 37
  const GSelectTool: int := 54
  const GPhotoMode: int := 55
  const GInches: int := 70
  const GMillimeters: int := 71
  const GTurnOff360: int := 74
  const GTurnOn360: int := 75
  const GAbsolute: int := 90
  const GRelative: int := 91

  /** The codes that have a case of their own in Execute_G_Command
      (GMove has one too, but it shares the default's "not handled" path). */
  predicate HandledGCode(g: int) {
    g == GPhotoMode || g == GLinear || g == GCircleNeg || g == GCirclePos ||
    g == GComment || g == GSelectTool || g == GInches || g == GMillimeters ||
    g == GTurnOff360 || g == GTurnOn360 || g == GAbsolute || g == GRelative ||
    g == GPolyFillOn || g == GPolyFillOff
  }

  /** m_Iterpolation (GERB_INTERPOL_*). */
  datatype Interpolation = Linear1X | Linear10X | Linear01X | Linear001X | ArcNeg | ArcPos

  /** The aperture shape of a D_CODE (APERTURE_T). */
  datatype ApertureKind = AptCircle | AptRect | AptOval | AptPolygon | AptMacro

  /** The shape of a draw item (GBR_*). */
  datatype ItemShape = Segment | Arc | Polygon | SpotCircle | SpotRect | SpotOval | SpotPoly | SpotMacro

  /** A tool of the aperture table (D_CODE): size, number, shape, in-use mark. */
  datatype DCode = DCode(size: Size, num: int, shape: ApertureKind, inUse: bool)

  /** One compiled graphic item (GERBER_DRAW_ITEM). `polygon` is the region
      outline, the only outline a region item of this interpreter ever gets. */
  datatype DrawItem = DrawItem(shape: ItemShape, start: Point, end: Point, arcCentre: Point,
                               size: Size, dcode: int, flashed: bool, negative: bool,
                               polygon: seq<Point>)

  /** The messages the interpreter adds to its message list. */
  datatype Message = GCommandNotHandled(code: int) | InterpolError(mode: Interpolation)

  /** The constants the interpreter is built with and the trigonometry it calls:
      `arcTangente(y, x)` is an angle in tenths of a degree, `rotatePoint(p, a)`
      rotates p around the origin by a tenths of a degree. */
  datatype Env = Env(firstDCode: int, toolsMaxCount: int,
                     arcTangente: (int, int) -> real, rotatePoint: (Point, int) -> Point)

  /** A snapshot of every field of the image that the interpreter reads or writes. */
  datatype ImageState = ImageState(
    interpolation: Interpolation, arc360: bool, relative: bool, metric: bool,
    polygonFillMode: bool, polygonFillModeState: int, exposure: bool,
    currentTool: int, lastPenCommand: int,
    previousPos: Point, currentPos: Point, ijPos: Point, lastCoordIsIJPos: bool,
    drawings: seq<DrawItem>, messages: seq<Message>,
    tools: map<int, DCode>, layerNegative: bool)

  /** While a region is open (region mode with exposure on), the last item is
      that region and its outline has at least one vertex. */
  predicate Consistent(s: ImageState) {
    s.polygonFillMode && s.exposure ==>
      |s.drawings| > 0 && |s.drawings[|s.drawings| - 1].polygon| > 0
  }

  function InitialState(tools: map<int, DCode>, layerNegative: bool): ImageState {
    ImageState(Linear1X, false, false, false, false, 0, false, 0, 0,
               Point(0, 0), Point(0, 0), Point(0, 0), false, [], [], tools, layerNegative)
  }

  // ---------------------------------------------------------------------
  // Numbers after a code letter (GCodeNumber, DCodeNumber)

  predicate IsDigit(c: char) { '0' <= c <= '9' }

  /** The number of leading decimal digits of s. */
  function LeadingDigits(s: seq<char>): (n: nat)
    ensures n <= |s|
    ensures forall k :: 0 <= k < n ==> IsDigit(s[k])
    ensures n < |s| ==> !IsDigit(s[n])
  {
    if s == [] || !IsDigit(s[0]) then 0 else 1 + LeadingDigits(s[1..])
  }

  /** The decimal value of a string of digits (what atoi returns for it). */
  function DigitValue(c: char): nat
    requires IsDigit(c)
  {
    c as int - '0' as int
  }

  function DigitsValue(s: seq<char>): nat
    requires forall k :: 0 <= k < |s| ==> IsDigit(s[k])
  {
    if s == [] then 0 else DigitsValue(s[..|s| - 1]) * 10 + DigitValue(s[|s| - 1])
  }

  /** Skip the code letter, read the following digits: (value, rest of the text). */
  function ParseCode(text: seq<char>): (seq<char>, nat)
    requires |text| > 0
  {
    var n := LeadingDigits(text[1..]);
    (text[1 + n..], DigitsValue(text[1..1 + n]))
  }

  method CodeNumber(text: seq<char>) returns (value: int, rest: seq<char>)
    requires |text| > 0
    ensures (rest, value) == ParseCode(text)
    ensures value >= 0
  {
    var i := 1;
    value := 0;
    while i < |text| && IsDigit(text[i])
      invariant 1 <= i <= |text|
      invariant forall k :: 1 <= k < i ==> IsDigit(text[k])
      invariant value == DigitsValue(text[1..i])
    {
      assert text[1..i + 1][..i - 1] == text[1..i];
      value := value * 10 + DigitValue(text[i]);
      i := i + 1;
    }
    LeadingDigitsIs(text[1..], i - 1);
    rest := text[i..];
  }

  lemma {:induction false} LeadingDigitsIs(s: seq<char>, n: nat)
    requires n <= |s|
    requires forall k :: 0 <= k < n ==> IsDigit(s[k])
    requires n < |s| ==> !IsDigit(s[n])
    ensures LeadingDigits(s) == n
  {
    if n > 0 {
      LeadingDigitsIs(s[1..], n - 1);
    }
  }

  // ---------------------------------------------------------------------
  // Comments (G04): the text is skipped up to the next '*'.

  /** The index of the first '*' of s, or |s| when there is none. */
  function StarIndex(s: seq<char>): (r: nat)
    ensures r <= |s|
    ensures r < |s| ==> s[r] == '*'
    ensures forall k :: 0 <= k < r ==> s[k] != '*'
  {
    if s == [] || s[0] == '*' then 0 else 1 + StarIndex(s[1..])
  }

  function SkipToStar(s: seq<char>): seq<char> { s[StarIndex(s)..] }

  lemma {:induction false} StarIndexIs(s: seq<char>, n: nat)
    requires n <= |s|
    requires n < |s| ==> s[n] == '*'
    requires forall k :: 0 <= k < n ==> s[k] != '*'
    ensures StarIndex(s) == n
  {
    if n > 0 {
      StarIndexIs(s[1..], n - 1);
    }
  }

  method SkipComment(text: seq<char>) returns (rest: seq<char>)
    ensures rest == SkipToStar(text)
  {
    var i := 0;
    while i < |text| && text[i] != '*'
      invariant 0 <= i <= |text|
      invariant forall k :: 0 <= k < i ==> text[k] != '*'
    {
      i := i + 1;
    }
    StarIndexIs(text, i);
    rest := text[i..];
  }

  /** Skipping twice skips no further, and a prefix without '*' changes nothing:
      the structured-comment path (" #@! ") ends where a plain comment ends. */
  lemma SkipStructuredComment(text: seq<char>, k: nat)
    requires k <= |text|
    requires forall j :: 0 <= j < k ==> text[j] != '*'
    ensures SkipToStar(SkipToStar(text[k..])) == SkipToStar(text)
  {
    var n := StarIndex(text);
    assert n >= k;
    StarIndexIs(text[k..], n - k);
    var rest := SkipToStar(text[k..]);
    assert rest == text[n..];
    StarIndexIs(rest, 0);
  }

  // ---------------------------------------------------------------------
  // Arc centre (fillArcGBRITEM)

  /** Single-quadrant mode: the signed offset from the start to the centre,
      derived from the unsigned I/J and the quadrant of end - start. */
  function SingleQuadrantOffset(start: Point, end: Point, rel: Point, clockwise: bool): Point {
    var delta := Sub(end, start);
    var signed :=
      if delta.x >= 0 && delta.y >= 0 then Point(-rel.x, rel.y)
      else if delta.x >= 0 && delta.y < 0 then rel
      else if delta.x < 0 && delta.y >= 0 then Point(-rel.x, -rel.y)
      else Point(rel.x, -rel.y);
    if clockwise then signed else Neg(signed)
  }

  /** The absolute arc centre. */
  function ArcCentre(start: Point, end: Point, rel: Point, clockwise: bool, multiquadrant: bool): (c: Point)
    ensures multiquadrant ==> c == Add(start, rel)
    ensures !multiquadrant ==> Abs(c.x - start.x) == Abs(rel.x) && Abs(c.y - start.y) == Abs(rel.y)
  {
    if multiquadrant then Add(start, rel)
    else Add(SingleQuadrantOffset(start, end, rel, clockwise), start)
  }

  /** The (start, end) pair stored in an arc item: the draw routine always walks
      counter-clockwise, so a counter-clockwise arc is stored reversed. */
  function CanonicalPair(start: Point, end: Point, clockwise: bool): (p: (Point, Point))
    ensures clockwise ==> p == (start, end)
    ensures !clockwise ==> p == (end, start)
  {
    if clockwise then (start, end) else (end, start)
  }

  // ---------------------------------------------------------------------
  // Item filling (fillLineGBRITEM, fillArcGBRITEM, fillFlashedGBRITEM)

  /** A default-constructed GERBER_DRAW_ITEM. */
  function NewItem(): DrawItem {
    DrawItem(Segment, Point(0, 0), Point(0, 0), Point(0, 0), Size(0, 0), 0, false, false, [])
  }

  function FillLineItem(item: DrawItem, dcode: int, start: Point, end: Point, penSize: Size,
                        negative: bool): (r: DrawItem)
    ensures r.shape == item.shape && !r.flashed && r.polygon == item.polygon
    ensures r.start == start && r.end == end && r.size == penSize
    ensures r.dcode == dcode && r.negative == negative
  {
    item.(flashed := false, size := penSize, start := start, end := end,
          dcode := dcode, negative := negative)
  }

  function FillArcItem(item: DrawItem, dcode: int, start: Point, end: Point, rel: Point,
                       penSize: Size, clockwise: bool, multiquadrant: bool,
                       negative: bool): (r: DrawItem)
    ensures r.shape == Arc && !r.flashed && r.size == penSize && r.polygon == item.polygon
    ensures r.arcCentre == ArcCentre(start, end, rel, clockwise, multiquadrant)
    ensures (r.start, r.end) == CanonicalPair(start, end, clockwise)
    ensures r.dcode == dcode && r.negative == negative
  {
    var (s, e) := CanonicalPair(start, end, clockwise);
    item.(shape := Arc, size := penSize, flashed := false, start := s, end := e,
          arcCentre := ArcCentre(start, end, rel, clockwise, multiquadrant),
          dcode := dcode, negative := negative)
  }

  /** The item shape a flash of each aperture kind gets. */
  function FlashShape(aperture: ApertureKind): ItemShape {
    match aperture
    case AptPolygon => SpotPoly
    case AptCircle => SpotCircle
    case AptOval => SpotOval
    case AptRect => SpotRect
    case AptMacro => SpotMacro
  }

  function FillFlashedItem(item: DrawItem, aperture: ApertureKind, dcode: int, pos: Point,
                           flashSize: Size, negative: bool): (r: DrawItem)
    ensures r.flashed && r.start == pos && r.end == pos && r.shape == FlashShape(aperture)
    ensures aperture == AptCircle ==> r.size == Size(flashSize.x, flashSize.x)
    ensures aperture != AptCircle ==> r.size == flashSize
    ensures r.dcode == dcode && r.negative == negative && r.polygon == item.polygon
  {
    var r := item.(size := flashSize, start := pos, end := pos, dcode := dcode,
                   negative := negative, flashed := true);
    if aperture == AptCircle then r.(shape := SpotCircle, size := Size(flashSize.x, flashSize.x))
    else r.(shape := FlashShape(aperture))
  }

  // ---------------------------------------------------------------------
  // Arc tessellation in regions (fillArcPOLY)

  /** The number of 10-degree chords: |start angle - end angle| / 100, truncated,
      after the end angle has been lifted by 3600 when it is below the start. */
  function ChordCount(env: Env, s: Point, e: Point): nat {
    var sa := env.arcTangente(s.y, s.x);
    var ea0 := env.arcTangente(e.y, e.x);
    var ea := if sa > ea0 then ea0 + 3600.0 else ea0;
    var q := (sa - ea) / 100.0;
    var aq := if q < 0.0 then -q else q;
    aq.Floor
  }

  /** The rotation of the ii-th vertex: the canonical pair may be reversed,
      so counter-clockwise arcs count down to walk from the original start. */
  function ChordRotation(clockwise: bool, count: nat, ii: nat): int
    requires ii <= count
  {
    if clockwise then ii * 100 else (count - ii) * 100
  }

  /** The ii-th appended vertex; the last one is an exact end point, not a rotation. */
  function ArcVertex(env: Env, s: Point, e: Point, centre: Point, clockwise: bool,
                     count: nat, ii: nat): Point
    requires ii <= count
  {
    if ii < count then Add(env.rotatePoint(s, -ChordRotation(clockwise, count, ii)), centre)
    else Add(if clockwise then e else s, centre)
  }

  /** The count + 1 vertices of a tessellation around `centre`, from the
      canonical start offset s to the canonical end offset e. */
  function ArcVertices(env: Env, s: Point, e: Point, centre: Point, clockwise: bool,
                       count: nat): (v: seq<Point>)
    ensures |v| == count + 1
  {
    seq(count + 1, ii requires 0 <= ii <= count => ArcVertex(env, s, e, centre, clockwise, count, ii))
  }

  /** Every vertex fillArcPOLY appends, in order. */
  function ArcPolyVertices(env: Env, start: Point, end: Point, rel: Point,
                           clockwise: bool, multiquadrant: bool): seq<Point>
  {
    var centre := ArcCentre(start, end, rel, clockwise, multiquadrant);
    var (cs, ce) := CanonicalPair(start, end, clockwise);
    var s := Sub(cs, centre);
    var e := Sub(ce, centre);
    ArcVertices(env, s, e, centre, clockwise, ChordCount(env, s, e))
  }

  /** A region item after fillArcPOLY: the tessellated arc appended to its outline. */
  function ArcPolyItem(env: Env, item: DrawItem, start: Point, end: Point, rel: Point,
                       clockwise: bool, multiquadrant: bool, negative: bool): (r: DrawItem)
    ensures |r.polygon| > |item.polygon|
  {
    item.(negative := negative,
          polygon := item.polygon + ArcPolyVertices(env, start, end, rel, clockwise, multiquadrant))
  }

  /** A region item after a linear D01: the segment's start opens an empty outline. */
  function RegionSegmentItem(item: DrawItem, from: Point, to: Point): (r: DrawItem)
    ensures |r.polygon| > |item.polygon|
  {
    item.(start := from, end := to,
          polygon := item.polygon + (if item.polygon == [] then [from] else []) + [to])
  }

  method FillArcPoly(env: Env, item: DrawItem, start: Point, end: Point, relCenter: Point,
                     clockwise: bool, multiquadrant: bool, negative: bool)
    returns (r: DrawItem)
    ensures r == ArcPolyItem(env, item, start, end, relCenter, clockwise, multiquadrant, negative)
  {
    r := item.(negative := negative);
    var dummy := FillArcItem(NewItem(), 0, start, end, relCenter, Size(0, 0),
                             clockwise, multiquadrant, negative);
    var center := dummy.arcCentre;
    var s := Sub(dummy.start, center);
    var e := Sub(dummy.end, center);
    var startAngle := env.arcTangente(s.y, s.x);
    var endAngle := env.arcTangente(e.y, e.x);
    if startAngle > endAngle {
      endAngle := endAngle + 3600.0;
    }
    var arcAngle := startAngle - endAngle;
    var q := arcAngle / 100.0;
    var count: nat := (if q < 0.0 then -q else q).Floor;
    assert count == ChordCount(env, s, e);
    var outline := AppendArcVertices(env, r.polygon, s, e, center, clockwise, count);
    r := r.(polygon := outline);
  }

  /** The loop of fillArcPOLY: one vertex per 10 degrees, then the exact end. */
  method AppendArcVertices(env: Env, polygon: seq<Point>, s: Point, e: Point, center: Point,
                           clockwise: bool, count: nat) returns (r: seq<Point>)
    ensures r == polygon + ArcVertices(env, s, e, center, clockwise, count)
  {
    ghost var verts := ArcVertices(env, s, e, center, clockwise, count);
    r := polygon;
    var ii := 0;
    while ii <= count
      invariant 0 <= ii <= count + 1
      invariant r == polygon + verts[..ii]
    {
      var rot := if clockwise then ii * 100 else (count - ii) * 100;
      var endArc := s;
      if ii < count {
        endArc := env.rotatePoint(endArc, -rot);
      } else {
        endArc := if clockwise then e else s;
      }
      assert Add(endArc, center) == verts[ii];
      assert verts[..ii + 1] == verts[..ii] + [verts[ii]];
      r := r + [Add(endArc, center)];
      ii := ii + 1;
    }
    assert verts[..count + 1] == verts;
  }

  /** The tessellation appends count + 1 vertices and the last one is exactly the
      original end point, whichever way the arc turns. */
  lemma ArcPolyEndsAtEnd(env: Env, start: Point, end: Point, rel: Point,
                         clockwise: bool, multiquadrant: bool)
    ensures var v := ArcPolyVertices(env, start, end, rel, clockwise, multiquadrant);
            var centre := ArcCentre(start, end, rel, clockwise, multiquadrant);
            var (cs, ce) := CanonicalPair(start, end, clockwise);
            |v| == ChordCount(env, Sub(cs, centre), Sub(ce, centre)) + 1 &&
            v[|v| - 1] == end
  {
  }

  // ---------------------------------------------------------------------
  // The transition functions (what one command does to the image)

  function ClampTool(env: Env, d: int): int {
    if d > env.toolsMaxCount - 1 then env.toolsMaxCount - 1 else d
  }

  function MarkInUse(tools: map<int, DCode>, t: int): map<int, DCode> {
    if t in tools then tools[t := tools[t].(inUse := true)] else tools
  }

  /** Select tool d (clamped to the table), marking it in use if it exists. */
  function SelectToolState(env: Env, s: ImageState, d: int): ImageState {
    var t := ClampTool(env, d);
    s.(currentTool := t, tools := MarkInUse(s.tools, t))
  }

  /** The tool a pen command draws with: the current tool, or a 15x15 circle
      with D-code 0 when the table has no tool at that index. */
  function CurrentTool(s: ImageState): DCode {
    if s.currentTool in s.tools then s.tools[s.currentTool]
    else DCode(Size(15, 15), 0, AptCircle, false)
  }

  /** Close the open region: the first vertex is appended again to the last item.
      The source's guard is only "exposure on and items exist"; this one also
      requires the outline to have a vertex to repeat (see CloseGuardAsWritten). */
  function CloseLastOutline(exposure: bool, items: seq<DrawItem>): seq<DrawItem> {
    if exposure && |items| > 0 && |items[|items| - 1].polygon| > 0 then
      var last := items[|items| - 1];
      items[..|items| - 1] + [last.(polygon := last.polygon + [last.polygon[0]])]
    else items
  }

  /** The guard of the close as written: exposure on and at least one item. */
  predicate CloseGuardAsWritten(exposure: bool, items: seq<DrawItem>) {
    exposure && |items| > 0
  }

  /** The close as written: it reads vertex 0 of the last item whatever that
      item is. None stands for reading a vertex of an item without an outline. */
  function CloseLastOutlineAsWritten(exposure: bool, items: seq<DrawItem>): Option<seq<DrawItem>> {
    if CloseGuardAsWritten(exposure, items) then
      var last := items[|items| - 1];
      if |last.polygon| == 0 then None
      else Some(items[..|items| - 1] + [last.(polygon := last.polygon + [last.polygon[0]])])
    else Some(items)
  }

  function NewRegionItem(): DrawItem {
    NewItem().(shape := Polygon, flashed := false, dcode := 0)
  }

  /** The codes that only set a plot mode. */
  predicate ModeCode(g: int) {
    g == GLinear || g == GCircleNeg || g == GCirclePos || g == GInches || g == GMillimeters ||
    g == GTurnOff360 || g == GTurnOn360 || g == GAbsolute || g == GRelative
  }

  function ModeStep(s: ImageState, g: int): ImageState
    requires ModeCode(g)
  {
    s.(interpolation := ModeInterpolation(s.interpolation, g),
       arc360 := if g == GTurnOff360 then false else if g == GTurnOn360 then true else s.arc360,
       relative := if g == GAbsolute then false else if g == GRelative then true else s.relative,
       metric := if g == GInches then false else if g == GMillimeters then true else s.metric)
  }

  /** G01 and G74 select linear interpolation, G02 and G03 the two arc
      directions; the other plot-mode codes keep it. */
  function ModeInterpolation(i: Interpolation, g: int): Interpolation {
    if g == GLinear || g == GTurnOff360 then Linear1X
    else if g == GCircleNeg then ArcNeg
    else if g == GCirclePos then ArcPos
    else i
  }

  /** G37: close the region and leave region mode. */
  function PolyFillOffStep(s: ImageState): ImageState {
    s.(drawings := CloseLastOutline(s.exposure, s.drawings), exposure := false,
       polygonFillMode := false, polygonFillModeState := 0, interpolation := Linear1X)
  }

  /** What Execute_G_Command does: (new state, result, rest of the text). */
  function GStep(env: Env, s: ImageState, text: seq<char>, g: int): (ImageState, bool, seq<char>)
    requires g == GSelectTool ==> |text| > 0
  {
    if g == GPhotoMode then (s, true, text)
    else if ModeCode(g) then (ModeStep(s, g), true, text)
    else if g == GComment then (s, true, SkipToStar(text))
    else if g == GSelectTool then
      var (rest, d) := ParseCode(text);
      if d < env.firstDCode then (s, false, rest) else (SelectToolState(env, s, d), true, rest)
    else if g == GPolyFillOn then (s.(polygonFillMode := true, exposure := false), true, text)
    else if g == GPolyFillOff then (PolyFillOffStep(s), true, text)
    else (s.(messages := s.messages + [GCommandNotHandled(g)]), false, text)
  }

  /** D01/D02 inside region mode; other pen codes are refused. */
  function RegionStep(env: Env, s: ImageState, d: int): (ImageState, bool)
    requires Consistent(s) && s.polygonFillMode
  {
    if d == 1 then (RegionDrawStep(env, s), true)
    else if d == 2 then
      (s.(drawings := CloseLastOutline(s.exposure, s.drawings), exposure := false,
          previousPos := s.currentPos, polygonFillModeState := 0), true)
    else (s, false)
  }

  /** D01 in region mode: open the region item if needed and add the segment or
      the tessellated arc to its outline. */
  function RegionDrawStep(env: Env, s: ImageState): ImageState
    requires Consistent(s) && s.polygonFillMode
  {
    s.(exposure := true, drawings := RegionDrawItems(env, s), previousPos := s.currentPos,
       polygonFillModeState := 1)
  }

  /** The draw list after a region D01: the region item, opened first when
      the exposure is off, with the move added to its outline. */
  function RegionDrawItems(env: Env, s: ImageState): seq<DrawItem>
    requires Consistent(s) && s.polygonFillMode
  {
    var items := if !s.exposure then s.drawings + [NewRegionItem()] else s.drawings;
    var last := items[|items| - 1];
    var last' :=
      if s.interpolation == ArcNeg || s.interpolation == ArcPos then
        ArcPolyItem(env, last, s.previousPos, s.currentPos, s.ijPos,
                    s.interpolation != ArcNeg, s.arc360, s.layerNegative)
      else RegionSegmentItem(last, s.previousPos, s.currentPos);
    items[..|items| - 1] + [last']
  }

  /** A region D01 leaves the open region's outline non-empty. */
  lemma RegionDrawKeepsConsistent(env: Env, s: ImageState)
    requires Consistent(s) && s.polygonFillMode
    ensures var s' := RegionDrawStep(env, s);
            Consistent(s') && s'.exposure && |s'.drawings| == |s.drawings| + (if s.exposure then 0 else 1)
  {
  }

  /** D01/D02/D03 outside region mode; other pen codes are refused. */
  function PlainStep(s: ImageState, d: int): (ImageState, bool) {
    if d == 1 then (PlainDrawStep(s), true)
    else if d == 2 then (s.(exposure := false, previousPos := s.currentPos), true)
    else if d == 3 then (FlashStep(s), true)
    else (s, false)
  }

  /** D03: a flash of the current tool at the current point. */
  function FlashStep(s: ImageState): ImageState {
    var t := CurrentTool(s);
    s.(drawings := s.drawings + [FillFlashedItem(NewItem(), t.shape, t.num, s.currentPos, t.size,
                                                 s.layerNegative)],
       previousPos := s.currentPos)
  }

  /** D01 outside region mode: a line or an arc with the current tool. */
  function PlainDrawStep(s: ImageState): (r: ImageState)
    ensures r == s.(exposure := true, previousPos := s.currentPos, drawings := r.drawings,
                    messages := r.messages, lastCoordIsIJPos := r.lastCoordIsIJPos)
  {
    var t := CurrentTool(s);
    var s1 := s.(exposure := true, previousPos := s.currentPos);
    if s.interpolation == Linear1X then
      s1.(drawings := s.drawings + [FillLineItem(NewItem(), t.num, s.previousPos, s.currentPos,
                                                 t.size, s.layerNegative)])
    else if s.interpolation == ArcNeg || s.interpolation == ArcPos then
      if s.lastCoordIsIJPos then
        s1.(drawings := s.drawings + [FillArcItem(NewItem(), t.num, s.previousPos, s.currentPos,
                                                  s.ijPos, t.size, s.interpolation != ArcNeg,
                                                  s.arc360, s.layerNegative)],
            lastCoordIsIJPos := false)
      else
        s1.(drawings := s.drawings + [FillLineItem(NewItem(), t.num, s.previousPos, s.currentPos,
                                                   t.size, s.layerNegative)])
    else s1.(messages := s.messages + [InterpolError(s.interpolation)])
  }

  /** What Execute_DCODE_Command does: (new state, result). */
  function DStep(env: Env, s: ImageState, d: int): (ImageState, bool)
    requires Consistent(s)
  {
    if d >= env.firstDCode then (SelectToolState(env, s, d), true)
    else
      var s1 := s.(lastPenCommand := d);
      if s.polygonFillMode then RegionStep(env, s1, d) else PlainStep(s1, d)
  }

  // ---------------------------------------------------------------------
  // The image (GERBER_FILE_IMAGE)

  class Image {
    const env: Env
    var interpolation: Interpolation
    var arc360: bool
    var relative: bool
    var metric: bool
    var polygonFillMode: bool
    var polygonFillModeState: int
    var exposure: bool
    var currentTool: int
    var lastPenCommand: int
    var previousPos: Point
    var currentPos: Point
    var ijPos: Point
    var lastCoordIsIJPos: bool
    var drawings: seq<DrawItem>
    var messages: seq<Message>
    var tools: map<int, DCode>
    var layerNegative: bool

    function State(): ImageState
      reads this
    {
      ImageState(interpolation, arc360, relative, metric, polygonFillMode, polygonFillModeState,
                 exposure, currentTool, lastPenCommand, previousPos, currentPos, ijPos,
                 lastCoordIsIJPos, drawings, messages, tools, layerNegative)
    }

    ghost predicate Valid()
      reads this
    {
      Consistent(State())
    }

    constructor (env: Env, tools: map<int, DCode>, layerNegative: bool)
      ensures this.env == env && State() == InitialState(tools, layerNegative) && Valid()
    {
      this.env := env;
      interpolation := Linear1X;
      arc360, relative, metric := false, false, false;
      polygonFillMode, polygonFillModeState, exposure := false, 0, false;
      currentTool, lastPenCommand := 0, 0;
      previousPos, currentPos, ijPos := Point(0, 0), Point(0, 0), Point(0, 0);
      lastCoordIsIJPos := false;
      drawings, messages := [], [];
      this.tools, this.layerNegative := tools, layerNegative;
    }

    method SelectTool(d: int)
      modifies this
      ensures State() == SelectToolState(env, old(State()), d)
    {
      var t := d;
      if t > env.toolsMaxCount - 1 {
        t := env.toolsMaxCount - 1;
      }
      currentTool := t;
      if t in tools {
        tools := tools[t := tools[t].(inUse := true)];
      }
    }

    method CloseRegion()
      modifies this
      ensures State() == old(State()).(drawings := CloseLastOutline(old(exposure), old(drawings)))
    {
      if exposure && |drawings| > 0 && |drawings[|drawings| - 1].polygon| > 0 {
        var last := drawings[|drawings| - 1];
        last := last.(polygon := last.polygon + [last.polygon[0]]);
        drawings := drawings[..|drawings| - 1] + [last];
      }
    }

    method SetMode(gCommand: int)
      requires ModeCode(gCommand)
      modifies this
      ensures State() == ModeStep(old(State()), gCommand)
    {
      var newInterpolation, newArc360, newRelative, newMetric := ModeFields(gCommand);
      interpolation, arc360, relative, metric := newInterpolation, newArc360, newRelative, newMetric;
    }

    /** The mode G-code chain: the one or two mode fields each code sets. */
    method ModeFields(gCommand: int)
      returns (newInterpolation: Interpolation, newArc360: bool, newRelative: bool, newMetric: bool)
      requires ModeCode(gCommand)
      ensures var s := ModeStep(State(), gCommand);
              newInterpolation == s.interpolation && newArc360 == s.arc360 &&
              newRelative == s.relative && newMetric == s.metric
    {
      newInterpolation, newArc360, newRelative, newMetric := interpolation, arc360, relative, metric;
      if gCommand == GLinear {
        newInterpolation := Linear1X;
      } else if gCommand == GCircleNeg {
        newInterpolation := ArcNeg;
      } else if gCommand == GCirclePos {
        newInterpolation := ArcPos;
      } else if gCommand == GInches {
        newMetric := false;
      } else if gCommand == GMillimeters {
        newMetric := true;
      } else if gCommand == GTurnOff360 {
        newArc360 := false;
        newInterpolation := Linear1X;
      } else if gCommand == GTurnOn360 {
        newArc360 := true;
      } else if gCommand == GAbsolute {
        newRelative := false;
      } else {
        newRelative := true;
      }
    }

    method ExecuteGCommand(text: seq<char>, gCommand: int) returns (ok: bool, rest: seq<char>)
      requires Valid()
      requires gCommand == GSelectTool ==> |text| > 0
      modifies this
      ensures (State(), ok, rest) == GStep(env, old(State()), text, gCommand)
      ensures Valid()
    {
      ok, rest := true, text;
      if gCommand == GPhotoMode {
      } else if ModeCode(gCommand) {
        SetMode(gCommand);
      } else if gCommand == GComment {
        rest := SkipGComment(text);
      } else if gCommand == GSelectTool {
        ok, rest := SelectToolFromText(text);
      } else if gCommand == GPolyFillOn {
        polygonFillMode := true;
        exposure := false;
      } else if gCommand == GPolyFillOff {
        PolyFillOff();
      } else {
        messages := messages + [GCommandNotHandled(gCommand)];
        ok := false;
      }
    }

    /** G04: a comment runs up to the next '*'; a structured comment
        (" #@! ") is an X2 command whose dispatch is not modelled. */
    static method SkipGComment(text: seq<char>) returns (rest: seq<char>)
      ensures rest == SkipToStar(text)
    {
      rest := text;
      if |rest| >= 5 && rest[..5] == " #@! " {
        SkipStructuredComment(rest, 5);
        rest := rest[5..];
        rest := SkipComment(rest);
      }
      rest := SkipComment(rest);
    }

    /** G54: read the D-code number that follows and select it. */
    method SelectToolFromText(text: seq<char>) returns (ok: bool, rest: seq<char>)
      requires |text| > 0
      modifies this
      ensures var (rest', d) := ParseCode(text);
              rest == rest' && ok == (d >= env.firstDCode) &&
              State() == (if ok then SelectToolState(env, old(State()), d) else old(State()))
    {
      var d;
      d, rest := CodeNumber(text);
      if d < env.firstDCode {
        return false, rest;
      }
      SelectTool(d);
      ok := true;
    }

    method PolyFillOff()
      modifies this
      ensures State() == PolyFillOffStep(old(State()))
    {
      CloseRegion();
      exposure := false;
      polygonFillMode := false;
      polygonFillModeState := 0;
      interpolation := Linear1X;
    }

    method ExecuteDCodeCommand(dCommand: int) returns (ok: bool)
      requires Valid()
      modifies this
      ensures (State(), ok) == DStep(env, old(State()), dCommand)
      ensures Valid()
    {
      if dCommand >= env.firstDCode {
        SelectTool(dCommand);
        return true;
      }
      lastPenCommand := dCommand;
      if polygonFillMode {
        ok := RegionCommand(dCommand);
      } else {
        ok := PlainCommand(dCommand);
      }
    }

    method RegionCommand(dCommand: int) returns (ok: bool)
      requires Valid() && polygonFillMode
      modifies this
      ensures (State(), ok) == RegionStep(env, old(State()), dCommand)
      ensures Valid()
    {
      ok := true;
      if dCommand == 1 {
        ghost var s0 := State();
        RegionDraw();
        RegionDrawKeepsConsistent(env, s0);
      } else if dCommand == 2 {
        CloseRegion();
        exposure := false;
        previousPos := currentPos;
        polygonFillModeState := 0;
      } else {
        ok := false;
      }
    }

    method RegionDraw()
      requires Valid() && polygonFillMode
      modifies this
      ensures State() == RegionDrawStep(env, old(State()))
    {
      var newDrawings := RegionDrawnItems();
      exposure, drawings, previousPos, polygonFillModeState := true, newDrawings, currentPos, 1;
    }

    /** The region item, opened when the exposure is off, with the move
        added to its outline. */
    method RegionDrawnItems() returns (newDrawings: seq<DrawItem>)
      requires Valid() && polygonFillMode
      ensures newDrawings == RegionDrawItems(env, State())
    {
      var items := drawings;
      if !exposure {
        items := items + [NewRegionItem()];
      }
      var last := ExtendRegion(items[|items| - 1]);
      newDrawings := items[..|items| - 1] + [last];
    }

    /** Add the current move to a region outline: tessellated when in an arc
        mode, one segment otherwise. */
    method ExtendRegion(item: DrawItem) returns (r: DrawItem)
      ensures r == if interpolation == ArcNeg || interpolation == ArcPos
                   then ArcPolyItem(env, item, previousPos, currentPos, ijPos,
                                    interpolation != ArcNeg, arc360, layerNegative)
                   else RegionSegmentItem(item, previousPos, currentPos)
    {
      if interpolation == ArcNeg || interpolation == ArcPos {
        r := FillArcPoly(env, item, previousPos, currentPos, ijPos,
                         interpolation != ArcNeg, arc360, layerNegative);
      } else {
        r := AddRegionSegment(item, previousPos, currentPos);
      }
    }

    /** The linear D01 of a region: the segment's start opens the outline. */
    static method AddRegionSegment(item: DrawItem, from: Point, to: Point) returns (r: DrawItem)
      ensures r == RegionSegmentItem(item, from, to)
    {
      r := item.(start := from);
      if r.polygon == [] {
        r := r.(polygon := [r.start]);
      }
      r := r.(end := to);
      r := r.(polygon := r.polygon + [r.end]);
    }

    method PlainCommand(dCommand: int) returns (ok: bool)
      requires Valid() && !polygonFillMode
      modifies this
      ensures (State(), ok) == PlainStep(old(State()), dCommand)
      ensures Valid()
    {
      ok := true;
      if dCommand == 1 {
        PlainDraw();
      } else if dCommand == 2 {
        exposure := false;
        previousPos := currentPos;
      } else if dCommand == 3 {
        Flash();
      } else {
        ok := false;
      }
    }

    /** The tool lookup of a pen command (GetDCODE on the current tool). */
    method LookUpTool() returns (size: Size, dcode: int, aperture: ApertureKind)
      ensures size == CurrentTool(State()).size && dcode == CurrentTool(State()).num
      ensures aperture == CurrentTool(State()).shape
    {
      size, aperture, dcode := Size(15, 15), AptCircle, 0;
      if currentTool in tools {
        var tool := tools[currentTool];
        size, dcode, aperture := tool.size, tool.num, tool.shape;
      }
    }

    method Flash()
      modifies this
      ensures State() == FlashStep(old(State()))
    {
      var size, dcode, aperture := LookUpTool();
      drawings := drawings + [FillFlashedItem(NewItem(), aperture, dcode, currentPos, size,
                                              layerNegative)];
      previousPos := currentPos;
    }

    method PlainDraw()
      requires !polygonFillMode
      modifies this
      ensures State() == PlainDrawStep(old(State()))
      ensures Valid()
    {
      var newDrawings, newMessages, ijFlag := PlainDrawItems();
      exposure := true;
      drawings, messages, lastCoordIsIJPos := newDrawings, newMessages, ijFlag;
      previousPos := currentPos;
    }

    /** The item a D01 outside region mode appends, or the message it adds
        for a mode that draws nothing. */
    method PlainDrawItems() returns (newDrawings: seq<DrawItem>, newMessages: seq<Message>, ijFlag: bool)
      ensures var s := PlainDrawStep(State());
              newDrawings == s.drawings && newMessages == s.messages && ijFlag == s.lastCoordIsIJPos
    {
      var size, dcode, aperture := LookUpTool();
      newDrawings, newMessages, ijFlag := drawings, messages, lastCoordIsIJPos;
      if interpolation == Linear1X {
        newDrawings := drawings + [FillLineItem(NewItem(), dcode, previousPos, currentPos,
                                                size, layerNegative)];
      } else if interpolation == ArcNeg || interpolation == ArcPos {
        if lastCoordIsIJPos {
          newDrawings := drawings + [FillArcItem(NewItem(), dcode, previousPos, currentPos, ijPos,
                                                 size, interpolation != ArcNeg, arc360,
                                                 layerNegative)];
          ijFlag := false;
        } else {
          newDrawings := drawings + [FillLineItem(NewItem(), dcode, previousPos, currentPos,
                                                  size, layerNegative)];
        }
      } else {
        newMessages := messages + [InterpolError(interpolation)];
      }
    }
  }
}
