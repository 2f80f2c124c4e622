/** Properties of the RS-274X interpreter model: what each G- and D-code does
    to the image, and what it leaves alone. */
module GerberImageProps {
  import opened Geom
  import opened Wrappers
  import opened GerberImage

  // ---------------------------------------------------------------------
  // Tool selection

  /** Dnn with nn >= FIRST_DCODE selects the tool (clamped to the table),
      marks it in use and changes nothing else, not even the last pen command. */
  lemma DCodeSelectsTool(env: Env, s: ImageState, d: int)
    requires Consistent(s) && d >= env.firstDCode
    ensures var (s', ok) := DStep(env, s, d);
            ok && s'.currentTool == Min(d, env.toolsMaxCount - 1) &&
            s'.tools.Keys == s.tools.Keys &&
            (s'.currentTool in s'.tools ==> s'.tools[s'.currentTool].inUse) &&
            (forall t :: t in s.tools && t != s'.currentTool ==> s'.tools[t] == s.tools[t]) &&
            s' == s.(currentTool := s'.currentTool, tools := s'.tools)
  {
  }

  /** G54 reads the D-code that follows; a code below FIRST_DCODE is refused
      and leaves the image unchanged, any other selects the tool like Dnn. */
  lemma G54SelectsTool(env: Env, s: ImageState, text: seq<char>)
    requires |text| > 0
    ensures var (rest, d) := ParseCode(text);
            var (s', ok, rest') := GStep(env, s, text, GSelectTool);
            rest' == rest && ok == (d >= env.firstDCode) &&
            (!ok ==> s' == s) &&
            (ok ==> s'.currentTool == Min(d, env.toolsMaxCount - 1) &&
                    s' == s.(currentTool := s'.currentTool, tools := s'.tools))
  {
  }

  /** The number after a code letter is the run of digits that follows it,
      and the rest of the text starts right after that run. */
  lemma {:induction false} ParseCodeReadsDigits(letter: char, digits: seq<char>, rest: seq<char>)
    requires forall k :: 0 <= k < |digits| ==> IsDigit(digits[k])
    requires rest == [] || !IsDigit(rest[0])
    ensures ParseCode([letter] + digits + rest) == (rest, DigitsValue(digits))
  {
    var text := [letter] + digits + rest;
    assert text[1..] == digits + rest;
    LeadingDigitsIs(text[1..], |digits|);
    assert text[1..1 + |digits|] == digits;
    assert text[1 + |digits|..] == rest;
  }

  // ---------------------------------------------------------------------
  // G-codes

  /** The plot-mode codes change only the interpolation, arc, unit and
      coordinate modes; G74 also returns to linear interpolation. */
  lemma ModeCodesChangeOnlyModes(env: Env, s: ImageState, text: seq<char>, g: int)
    requires ModeCode(g)
    ensures var (s', ok, rest) := GStep(env, s, text, g);
            ok && rest == text &&
            s' == s.(interpolation := s'.interpolation, arc360 := s'.arc360,
                     relative := s'.relative, metric := s'.metric) &&
            (g == GTurnOff360 ==> !s'.arc360 && s'.interpolation == Linear1X) &&
            (g == GTurnOn360 ==> s'.arc360) &&
            (g == GCircleNeg ==> s'.interpolation == ArcNeg) &&
            (g == GCirclePos ==> s'.interpolation == ArcPos) &&
            (g == GMillimeters ==> s'.metric) && (g == GInches ==> !s'.metric) &&
            (g == GRelative ==> s'.relative) && (g == GAbsolute ==> !s'.relative)
  {
    assert GStep(env, s, text, g) == (ModeStep(s, g), true, text);
  }

  /** G04 skips the comment: the rest starts at the next '*' (or is empty),
      and nothing skipped is a '*'. */
  lemma CommentSkipsToStar(env: Env, s: ImageState, text: seq<char>)
    ensures var (s', ok, rest) := GStep(env, s, text, GComment);
            s' == s && ok && |rest| <= |text| && text[|text| - |rest|..] == rest &&
            (rest == [] || rest[0] == '*') &&
            (forall k :: 0 <= k < |text| - |rest| ==> text[k] != '*')
  {
  }

  /** Every code without a case of its own (G00 included) is reported once
      and refused, and changes nothing else. */
  lemma UnhandledGCodeReported(env: Env, s: ImageState, text: seq<char>, g: int)
    requires !HandledGCode(g)
    ensures GStep(env, s, text, g) == (s.(messages := s.messages + [GCommandNotHandled(g)]), false, text)
  {
  }

  /** G36 enters region mode with the exposure off, so the next D01 opens a new region. */
  lemma G36EntersRegionMode(env: Env, s: ImageState, text: seq<char>)
    ensures var (s', ok, rest) := GStep(env, s, text, GPolyFillOn);
            ok && rest == text && s'.polygonFillMode && !s'.exposure &&
            s' == s.(polygonFillMode := true, exposure := false)
  {
  }

  /** G37 leaves region mode: exposure off, fill state 0, linear interpolation;
      an open region's outline is closed by repeating its first vertex. */
  lemma G37ClosesRegion(env: Env, s: ImageState, text: seq<char>)
    requires Consistent(s) && s.polygonFillMode && s.exposure
    ensures var (s', ok, rest) := GStep(env, s, text, GPolyFillOff);
            var n := |s.drawings|;
            var outline := s.drawings[n - 1].polygon;
            ok && rest == text && !s'.polygonFillMode && !s'.exposure &&
            s'.polygonFillModeState == 0 && s'.interpolation == Linear1X &&
            |s'.drawings| == n && s'.drawings[..n - 1] == s.drawings[..n - 1] &&
            s'.drawings[n - 1].polygon == outline + [outline[0]] &&
            s'.drawings[n - 1].polygon[0] == s'.drawings[n - 1].polygon[|outline|]
  {
  }

  /** G37 never changes the number of items, and outside an open region it
      changes no item. */
  lemma G37KeepsItems(env: Env, s: ImageState, text: seq<char>)
    requires Consistent(s)
    ensures var s' := GStep(env, s, text, GPolyFillOff).0;
            |s'.drawings| == |s.drawings| &&
            (!s.exposure ==> s'.drawings == s.drawings) &&
            !s'.polygonFillMode && !s'.exposure
  {
  }

  // ---------------------------------------------------------------------
  // D-codes outside region mode

  /** D01 outside region mode: exposure on, the pen moves to the current point,
      and with a linear or circular mode one item is appended whose kind and
      end points follow the mode; any other mode is reported instead. */
  lemma PlainD01Draws(env: Env, s: ImageState)
    requires Consistent(s) && !s.polygonFillMode && env.firstDCode > 1
    ensures var (s', ok) := DStep(env, s, 1);
            var n := |s.drawings|;
            var arcMode := s.interpolation == ArcNeg || s.interpolation == ArcPos;
            ok && s'.exposure && s'.previousPos == s.currentPos && s'.lastPenCommand == 1 &&
            s'.tools == s.tools && s'.currentTool == s.currentTool &&
            (s.interpolation == Linear1X || arcMode ==>
               |s'.drawings| == n + 1 && s'.drawings[..n] == s.drawings && s'.messages == s.messages &&
               var it := s'.drawings[n];
               !it.flashed && it.dcode == CurrentTool(s).num && it.size == CurrentTool(s).size &&
               it.negative == s.layerNegative &&
               (arcMode && s.lastCoordIsIJPos ==>
                  it.shape == Arc && !s'.lastCoordIsIJPos &&
                  it.arcCentre == ArcCentre(s.previousPos, s.currentPos, s.ijPos,
                                            s.interpolation == ArcPos, s.arc360) &&
                  (it.start, it.end) == CanonicalPair(s.previousPos, s.currentPos, s.interpolation == ArcPos)) &&
               (!(arcMode && s.lastCoordIsIJPos) ==>
                  it.shape == Segment && it.start == s.previousPos && it.end == s.currentPos)) &&
            (!(s.interpolation == Linear1X || arcMode) ==>
               s'.drawings == s.drawings && s'.messages == s.messages + [InterpolError(s.interpolation)])
  {
  }

  /** D02 outside region mode only moves: exposure off, no item. */
  lemma PlainD02Moves(env: Env, s: ImageState)
    requires Consistent(s) && !s.polygonFillMode && env.firstDCode > 2
    ensures var (s', ok) := DStep(env, s, 2);
            ok && s' == s.(lastPenCommand := 2, exposure := false, previousPos := s.currentPos)
  {
  }

  /** D03 flashes the current aperture at the current point; with no tool at
      the current index the flash is a 15x15 circle with D-code 0. */
  lemma PlainD03Flashes(env: Env, s: ImageState)
    requires Consistent(s) && !s.polygonFillMode && env.firstDCode > 3
    ensures var (s', ok) := DStep(env, s, 3);
            var n := |s.drawings|;
            var t := CurrentTool(s);
            ok && |s'.drawings| == n + 1 && s'.drawings[..n] == s.drawings &&
            s'.previousPos == s.currentPos && s'.exposure == s.exposure &&
            var it := s'.drawings[n];
            it.flashed && it.start == s.currentPos && it.end == s.currentPos &&
            it.dcode == t.num && it.shape == FlashShape(t.shape) &&
            it.size == (if t.shape == AptCircle then Size(t.size.x, t.size.x) else t.size) &&
            it.negative == s.layerNegative &&
            (s.currentTool !in s.tools ==>
               it.size == Size(15, 15) && it.dcode == 0 && it.shape == SpotCircle)
  {
  }

  /** A pen code other than D01, D02 (and D03 outside regions) is refused; it
      is still remembered as the last pen command. */
  lemma OtherPenCodesRefused(env: Env, s: ImageState, d: int)
    requires Consistent(s) && d < env.firstDCode && d != 1 && d != 2
    requires s.polygonFillMode || d != 3
    ensures DStep(env, s, d) == (s.(lastPenCommand := d), false)
  {
  }

  // ---------------------------------------------------------------------
  // Regions

  /** The first linear D01 of a region opens a polygon item whose outline is
      the segment from the previous to the current point. */
  lemma RegionFirstSegmentOpens(env: Env, s: ImageState)
    requires Consistent(s) && s.polygonFillMode && !s.exposure && env.firstDCode > 1
    requires s.interpolation != ArcNeg && s.interpolation != ArcPos
    ensures var (s', ok) := DStep(env, s, 1);
            var n := |s.drawings|;
            ok && s'.exposure && s'.polygonFillModeState == 1 && s'.previousPos == s.currentPos &&
            |s'.drawings| == n + 1 && s'.drawings[..n] == s.drawings &&
            s'.drawings[n].shape == Polygon && s'.drawings[n].dcode == 0 && !s'.drawings[n].flashed &&
            s'.drawings[n].polygon == [s.previousPos, s.currentPos]
  {
  }

  /** A later D01 of an open region extends the last item's outline and adds
      no item: by the current point for a segment, by the tessellated arc
      (which ends at the current point) in an arc mode. */
  lemma RegionExtends(env: Env, s: ImageState)
    requires Consistent(s) && s.polygonFillMode && s.exposure && env.firstDCode > 1
    ensures var (s', ok) := DStep(env, s, 1);
            var n := |s.drawings|;
            var outline := s.drawings[n - 1].polygon;
            var outline' := s'.drawings[n - 1].polygon;
            ok && s'.exposure && |s'.drawings| == n && s'.drawings[..n - 1] == s.drawings[..n - 1] &&
            |outline'| > |outline| && outline'[..|outline|] == outline &&
            outline'[|outline'| - 1] == s.currentPos &&
            (s.interpolation != ArcNeg && s.interpolation != ArcPos ==> outline' == outline + [s.currentPos])
  {
    var s1 := s.(lastPenCommand := 1);
    ArcPolyEndsAtEnd(env, s.previousPos, s.currentPos, s.ijPos, s.interpolation != ArcNeg, s.arc360);
    var next := RegionDrawStep(env, s1);
  }

  /** D02 in an open region closes it: the first vertex is repeated at the end
      of the outline and the exposure goes off. */
  lemma RegionD02Closes(env: Env, s: ImageState)
    requires Consistent(s) && s.polygonFillMode && s.exposure && env.firstDCode > 2
    ensures var (s', ok) := DStep(env, s, 2);
            var n := |s.drawings|;
            var outline := s.drawings[n - 1].polygon;
            ok && !s'.exposure && s'.polygonFillMode && s'.polygonFillModeState == 0 &&
            s'.previousPos == s.currentPos &&
            |s'.drawings| == n && s'.drawings[..n - 1] == s.drawings[..n - 1] &&
            s'.drawings[n - 1].polygon == outline + [outline[0]]
  {
  }

  /** Every D-code keeps the region invariant. */
  lemma DStepKeepsConsistent(env: Env, s: ImageState, d: int)
    requires Consistent(s)
    ensures Consistent(DStep(env, s, d).0)
  {
    var s1 := s.(lastPenCommand := d);
    if d >= env.firstDCode {
      assert DStep(env, s, d).0 == SelectToolState(env, s, d);
    } else if s.polygonFillMode {
      assert DStep(env, s, d) == RegionStep(env, s1, d);
      if d == 1 {
        RegionDrawKeepsConsistent(env, s1);
      }
    } else {
      assert DStep(env, s, d) == PlainStep(s1, d);
      PlainStepStaysOutOfRegions(s1, d);
    }
  }

  lemma PlainStepStaysOutOfRegions(s: ImageState, d: int)
    requires !s.polygonFillMode
    ensures !PlainStep(s, d).0.polygonFillMode
  {
    if d == 1 {
      assert PlainStep(s, d).0 == PlainDrawStep(s);
    } else if d == 2 {
      assert PlainStep(s, d).0 == s.(exposure := false, previousPos := s.currentPos);
    } else if d == 3 {
      assert PlainStep(s, d).0 == FlashStep(s);
    } else {
      assert PlainStep(s, d).0 == s;
    }
  }

  /** Every G-code keeps the region invariant. */
  lemma GStepKeepsConsistent(env: Env, s: ImageState, text: seq<char>, g: int)
    requires Consistent(s)
    requires g == GSelectTool ==> |text| > 0
    ensures Consistent(GStep(env, s, text, g).0)
  {
    if ModeCode(g) {
      ModeCodeKeepsConsistent(env, s, text, g);
    } else if g == GSelectTool {
      var (rest, d) := ParseCode(text);
      assert GStep(env, s, text, g).0 == if d < env.firstDCode then s else SelectToolState(env, s, d);
    } else if g == GPolyFillOff {
      assert !GStep(env, s, text, g).0.polygonFillMode;
    } else {
      OtherCodeKeepsConsistent(env, s, text, g);
    }
  }

  lemma ModeCodeKeepsConsistent(env: Env, s: ImageState, text: seq<char>, g: int)
    requires Consistent(s) && ModeCode(g)
    ensures Consistent(GStep(env, s, text, g).0)
  {
    assert GStep(env, s, text, g) == (ModeStep(s, g), true, text);
    var s' := ModeStep(s, g);
    assert s'.drawings == s.drawings && s'.exposure == s.exposure && s'.polygonFillMode == s.polygonFillMode;
  }

  lemma OtherCodeKeepsConsistent(env: Env, s: ImageState, text: seq<char>, g: int)
    requires Consistent(s) && !ModeCode(g) && g != GSelectTool && g != GPolyFillOff
    ensures Consistent(GStep(env, s, text, g).0)
  {
    var s' := GStep(env, s, text, g).0;
    if g == GPhotoMode || g == GComment {
      assert s' == s;
    } else if g == GPolyFillOn {
      assert s' == s.(polygonFillMode := true, exposure := false);
    } else {
      assert s' == s.(messages := s.messages + [GCommandNotHandled(g)]);
    }
  }

  // ---------------------------------------------------------------------
  // The close guard

  /** Inside region mode the invariant makes the guard as written safe: the
      close as written is then defined and agrees with the corrected close. */
  lemma RegionCloseAsWrittenIsSafe(s: ImageState)
    requires Consistent(s) && s.polygonFillMode
    ensures CloseLastOutlineAsWritten(s.exposure, s.drawings) == Some(CloseLastOutline(s.exposure, s.drawings))
  {
  }

  /** Wherever the close as written is defined, the corrected close agrees with it. */
  lemma CloseAgreesWhereDefined(exposure: bool, items: seq<DrawItem>)
    ensures CloseLastOutlineAsWritten(exposure, items).Some? ==>
            CloseLastOutlineAsWritten(exposure, items).value == CloseLastOutline(exposure, items)
  {
  }

  /** G37 with no G36 before it, after a stroke: D01 leaves the exposure on and a
      segment item without an outline as the last item, so the close as written
      reads vertex 0 of an empty outline; the corrected close leaves the items alone. */
  lemma G37AfterStrokeAsWritten(env: Env, tools: map<int, DCode>, negative: bool)
    requires env.firstDCode > 1
    ensures var s1 := DStep(env, InitialState(tools, negative), 1).0;
            CloseGuardAsWritten(s1.exposure, s1.drawings) &&
            CloseLastOutlineAsWritten(s1.exposure, s1.drawings) == None &&
            GStep(env, s1, [], GPolyFillOff).0.drawings == s1.drawings
  {
  }
}
