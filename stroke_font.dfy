/** The Hershey-style stroke font of the graphics layer (STROKE_FONT in
    common/gal/stroke_font.cpp): the decoding of a glyph string into
    strokes, in the raw integer offsets before the 1/21 scaling, the
    fallback for characters outside the glyph table, and the line and
    width accounting of ComputeStringBoundaryLimits over the glyph
    advances. */
module StrokeFont {
  import opened Geom

  // ---------------------------------------------------------------
  // Glyph strings
  // ---------------------------------------------------------------

  /** A coordinate character is its offset from 'R'. */
  function Off(c: char): int { (c as int) - ('R' as int) }

  /** FONT_OFFSET. */
  const FontOffset: int := -10

  /** A glyph string as the font table holds it: a C string of character
      pairs. */
  predicate WellFormed(s: string) { |s| % 2 == 0 && forall i :: 0 <= i < |s| ==> s[i] != '\0' }

  /** Pair k of the string is " R", the pen lift. */
  predicate IsLift(s: string, k: nat)
    requires 2 * k + 1 < |s|
  {
    s[2 * k] == ' ' && s[2 * k + 1] == 'R'
  }

  /** The point pair k stands for: x relative to the glyph start, y with
      FONT_OFFSET. */
  function PointAt(s: string, k: nat, startX: int): Point
    requires 2 * k + 1 < |s|
  {
    Point(Off(s[2 * k]) - startX, Off(s[2 * k + 1]) + FontOffset)
  }

  /** The points of pairs 1 .. n - 1 in order, pen lifts dropped; pair 0
      is the width and never a point. */
  function PointsUpTo(s: string, n: nat, startX: int): seq<Point>
    requires 2 * n <= |s|
  {
    if n <= 1 then []
    else PointsUpTo(s, n - 1, startX) + (if IsLift(s, n - 1) then [] else [PointAt(s, n - 1, startX)])
  }

  function LiftCount(s: string, n: nat): nat
    requires 2 * n <= |s|
  {
    if n <= 1 then 0 else LiftCount(s, n - 1) + (if IsLift(s, n - 1) then 1 else 0)
  }

  /** Pair k is a point that opens a stroke: the first pair after the
      width, or the first after a pen lift. */
  predicate StartsStroke(s: string, k: nat)
    requires 1 <= k && 2 * k + 1 < |s|
  {
    !IsLift(s, k) && (k == 1 || IsLift(s, k - 1))
  }

  function StrokeCount(s: string, n: nat): nat
    requires 2 * n <= |s|
  {
    if n <= 1 then 0 else StrokeCount(s, n - 1) + (if StartsStroke(s, n - 1) then 1 else 0)
  }

  function Flatten(strokes: seq<seq<Point>>): seq<Point> {
    if strokes == [] then [] else Flatten(strokes[..|strokes| - 1]) + strokes[|strokes| - 1]
  }

  /** The strokes of pairs 1 .. n - 1 as the loop builds them: a lift
      closes the current stroke, a point after the width pair or after a
      lift opens a new stroke, and any other point extends the last one. */
  function StrokesUpTo(s: string, n: nat, startX: int): (r: seq<seq<Point>>)
    requires 2 * n <= |s|
    ensures n >= 2 && !IsLift(s, n - 1) ==> r != []
  {
    if n <= 1 then []
    else
      var prev := StrokesUpTo(s, n - 1, startX);
      var p := PointAt(s, n - 1, startX);
      if IsLift(s, n - 1) then prev
      else if StartsStroke(s, n - 1) then prev + [[p]]
      else prev[..|prev| - 1] + [prev[|prev| - 1] + [p]]
  }

  /** A decoded glyph: its strokes, the start of its width (the first
      character of the string) and its width, end minus start. */
  datatype Glyph = Glyph(strokes: seq<seq<Point>>, startX: int, width: int)

  /** What the decoding of a glyph string yields: the width from pair 0
      and the strokes the other pairs build. */
  predicate IsDecoding(s: string, g: Glyph)
    requires WellFormed(s)
  {
    var n := |s| / 2;
    (n == 0 ==> g.startX == 0 && g.width == 0) &&
    (n > 0 ==> g.startX == Off(s[0]) && g.width == Off(s[1]) - Off(s[0])) &&
    g.strokes == StrokesUpTo(s, n, g.startX)
  }

  /** The strokes hold the points of the string in order, lifts dropped,
      one stroke per run of points between lifts, and no stroke is empty. */
  lemma {:induction false} StrokesShape(s: string, n: nat, startX: int)
    requires 2 * n <= |s|
    ensures Flatten(StrokesUpTo(s, n, startX)) == PointsUpTo(s, n, startX)
    ensures |StrokesUpTo(s, n, startX)| == StrokeCount(s, n)
    ensures forall st :: st in StrokesUpTo(s, n, startX) ==> st != []
  {
    if n > 1 {
      StrokesShape(s, n - 1, startX);
      var prev := StrokesUpTo(s, n - 1, startX);
      var p := PointAt(s, n - 1, startX);
      if IsLift(s, n - 1) {
      } else if StartsStroke(s, n - 1) {
        FlattenAppend(prev, [p]);
      } else {
        FlattenExtendLast(prev, p);
        var l := |prev| - 1;
        var r := prev[..l] + [prev[l] + [p]];
        forall st | st in r
          ensures st != []
        {
          var q :| 0 <= q < |r| && r[q] == st;
          if q < l {
            assert prev[q] in prev;
          }
        }
      }
    }
  }

  /** The decoding of "RR" followed by pairs that go down, lift, and go
      down again: a lift splits the points into two strokes. */
  lemma LiftSplitsStrokes()
    ensures var s := "RRAB RCD";
      StrokesUpTo(s, 4, 0) == [[PointAt(s, 1, 0)], [PointAt(s, 3, 0)]]
  {
    var s := "RRAB RCD";
    assert IsLift(s, 2);
    assert StrokesUpTo(s, 2, 0) == [[PointAt(s, 1, 0)]];
  }

  /** Every pair after the width is a point or a pen lift, and every
      stroke holds at least one point: there are no more strokes than
      points. */
  lemma {:induction false} PairsAccounted(s: string, n: nat, startX: int)
    requires 1 <= n && 2 * n <= |s|
    ensures |PointsUpTo(s, n, startX)| + LiftCount(s, n) == n - 1
    ensures StrokeCount(s, n) <= |PointsUpTo(s, n, startX)|
  {
    if n > 1 {
      PairsAccounted(s, n - 1, startX);
    }
  }

  lemma FlattenAppend(strokes: seq<seq<Point>>, st: seq<Point>)
    ensures Flatten(strokes + [st]) == Flatten(strokes) + st
  {
    assert (strokes + [st])[..|strokes|] == strokes;
  }

  lemma FlattenExtendLast(strokes: seq<seq<Point>>, p: Point)
    requires strokes != []
    ensures var l := |strokes| - 1;
      Flatten(strokes[..l] + [strokes[l] + [p]]) == Flatten(strokes) + [p]
  {
    var l := |strokes| - 1;
    var init, last := strokes[..l], strokes[l];
    FlattenAppend(init, last + [p]);
    assert Flatten(strokes) == Flatten(init) + last;
    assert Flatten(init) + (last + [p]) == (Flatten(init) + last) + [p];
  }

  /** The per-glyph loop of LoadNewStrokeFont: pair 0 gives the width, a
      " R" pair lifts the pen, any other pair is a point appended to the
      current stroke, a new stroke being opened when the pen is up. */
  method DecodeGlyph(s: string) returns (g: Glyph)
    requires WellFormed(s)
    ensures IsDecoding(s, g)
  {
    var startX := 0;
    var width := 0;
    var strokes: seq<seq<Point>> := [];
    var penDown := false;
    var k := 0;
    while 2 * k < |s|
      invariant 0 <= 2 * k <= |s|
      invariant k > 0 ==> startX == Off(s[0]) && width == Off(s[1]) - Off(s[0])
      invariant k == 0 ==> startX == 0 && width == 0
      invariant strokes == StrokesUpTo(s, k, startX)
      invariant penDown <==> k >= 2 && !IsLift(s, k - 1)
      invariant penDown ==> strokes != []
    {
      var c0, c1 := s[2 * k], s[2 * k + 1];
      if k == 0 {
        startX := Off(c0);
        width := Off(c1) - Off(c0);
      } else if c0 == ' ' && c1 == 'R' {
        penDown := false;
      } else {
        var point := Point(Off(c0) - startX, Off(c1) + FontOffset);
        assert point == PointAt(s, k, startX);
        if !penDown {
          strokes := strokes + [[point]];
          penDown := true;
        } else {
          var l := |strokes| - 1;
          strokes := strokes[..l] + [strokes[l] + [point]];
        }
      }
      k := k + 1;
    }
    g := Glyph(strokes, startX, width);
  }

  // ---------------------------------------------------------------
  // The glyph table
  // ---------------------------------------------------------------

  /** The index into the glyph tables of a character: its offset from
      ' ', or the index of '?' when that is outside the tables. */
  function GlyphIndex(c: char, tableSize: int): (dd: int)
    ensures 0 <= (c as int) - (' ' as int) < tableSize ==> dd == (c as int) - (' ' as int)
    ensures !(0 <= (c as int) - (' ' as int) < tableSize) ==> dd == ('?' as int) - (' ' as int)
    ensures tableSize > ('?' as int) - (' ' as int) ==> 0 <= dd < tableSize
  {
    var dd := (c as int) - (' ' as int);
    if dd >= tableSize || dd < 0 then ('?' as int) - (' ' as int) else dd
  }

  /** STROKE_FONT with its glyph table. */
  class Font {
    var glyphs: seq<Glyph>

    constructor ()
      ensures glyphs == []
    {
      glyphs := [];
    }

    /** LoadNewStrokeFont: one glyph per string of the table, in order. */
    method LoadNewStrokeFont(aNewStrokeFont: seq<string>) returns (ok: bool)
      requires forall j :: 0 <= j < |aNewStrokeFont| ==> WellFormed(aNewStrokeFont[j])
      modifies this
      ensures ok && |glyphs| == |aNewStrokeFont|
      ensures forall j :: 0 <= j < |glyphs| ==> IsDecoding(aNewStrokeFont[j], glyphs[j])
    {
      var table: seq<Glyph> := [];
      var j := 0;
      while j < |aNewStrokeFont|
        invariant 0 <= j <= |aNewStrokeFont| && |table| == j
        invariant forall q :: 0 <= q < j ==> IsDecoding(aNewStrokeFont[q], table[q])
      {
        var g := DecodeGlyph(aNewStrokeFont[j]);
        table := table + [g];
        j := j + 1;
      }
      glyphs := table;
      return true;
    }
  }

  // ---------------------------------------------------------------
  // ComputeStringBoundaryLimits
  // ---------------------------------------------------------------

  /** Add an advance to the first line of a list of line widths. */
  function AddFirst(a: int, ls: seq<int>): seq<int>
    requires ls != []
  {
    [a + ls[0]] + ls[1..]
  }

  /** The advance of a character: the end x of its glyph box, with the
      '?' fallback. */
  function Advance(c: char, adv: seq<int>): int
    requires |adv| > ('?' as int) - (' ' as int)
  {
    adv[GlyphIndex(c, |adv|)]
  }

  /** The widths of the lines of a text as the loop measures them: '\n'
      ends a line, '~' is skipped and the character after it is measured
      whatever it is, a '~' at the very end ends the text. */
  function Lines(text: string, adv: seq<int>): (ls: seq<int>)
    requires |adv| > ('?' as int) - (' ' as int)
    ensures ls != []
  {
    LinesFrom(text, adv, 0)
  }

  /** The widths of the lines of text[i..]. */
  function LinesFrom(text: string, adv: seq<int>, i: nat): (ls: seq<int>)
    requires |adv| > ('?' as int) - (' ' as int)
    ensures ls != []
    decreases |text| - i
  {
    if i >= |text| then [0]
    else if text[i] == '\n' then [0] + LinesFrom(text, adv, i + 1)
    else if text[i] == '~' then
      (if i + 1 == |text| then [0] else AddFirst(Advance(text[i + 1], adv), LinesFrom(text, adv, i + 2)))
    else AddFirst(Advance(text[i], adv), LinesFrom(text, adv, i + 1))
  }

  /** The largest of a list of widths and 0 (maxX starts at 0.0). */
  function MaxOf(ls: seq<int>): (m: int)
    ensures m >= 0 && forall k :: 0 <= k < |ls| ==> ls[k] <= m
    ensures m == 0 || exists k :: 0 <= k < |ls| && ls[k] == m
  {
    if ls == [] then 0
    else
      var r := MaxOf(ls[1..]);
      assert forall k :: 1 <= k < |ls| ==> ls[k] == ls[1..][k - 1];
      if ls[0] >= r then ls[0] else r
  }

  function CountChar(text: string, c: char): nat {
    if text == [] then 0 else (if text[0] == c then 1 else 0) + CountChar(text[1..], c)
  }

  /** Without tildes every newline starts a line: 1 + the number of
      newlines. */
  lemma LineCountWithoutTilde(text: string, adv: seq<int>)
    requires |adv| > ('?' as int) - (' ' as int)
    requires forall i :: 0 <= i < |text| ==> text[i] != '~'
    ensures |Lines(text, adv)| == 1 + CountChar(text, '\n')
  {
    LineCountFrom(text, adv, 0);
    assert text[0..] == text;
  }

  lemma {:induction false} LineCountFrom(text: string, adv: seq<int>, i: nat)
    requires |adv| > ('?' as int) - (' ' as int) && i <= |text|
    requires forall i :: 0 <= i < |text| ==> text[i] != '~'
    decreases |text| - i
    ensures |LinesFrom(text, adv, i)| == 1 + CountChar(text[i..], '\n')
  {
    if i < |text| {
      assert text[i..][0] == text[i] && text[i..][1..] == text[i + 1..];
      LineCountFrom(text, adv, i + 1);
    }
  }

  /** The width ComputeStringBoundaryLimits reports as written (before the
      glyph size, thickness and italic corrections): maxX is updated only
      after curX has been reset, so it stays 0 and the result is the width
      of the last line. */
  function WidthAsWritten(text: string, adv: seq<int>): int
    requires |adv| > ('?' as int) - (' ' as int)
  {
    var ls := Lines(text, adv);
    Max(0, ls[|ls| - 1])
  }

  /** The width as written never exceeds the widest line, and the two
      agree on a single line. */
  lemma WidthAsWrittenAtMost(text: string, adv: seq<int>)
    requires |adv| > ('?' as int) - (' ' as int)
    ensures WidthAsWritten(text, adv) <= MaxOf(Lines(text, adv))
    ensures |Lines(text, adv)| == 1 ==> WidthAsWritten(text, adv) == MaxOf(Lines(text, adv))
  {
  }

  /** A fixed-pitch table where every glyph advances by 10. */
  function EvenAdvances(): (adv: seq<int>)
    ensures |adv| == 96 && forall k :: 0 <= k < |adv| ==> adv[k] == 10
  {
    seq(96, k => 10)
  }

  /** "WW\nW": two lines of widths 20 and 10, reported as 10 as written;
      the widest line is 20. */
  lemma WidthAsWrittenLastLine()
    ensures Lines("WW\nW", EvenAdvances()) == [20, 10]
    ensures WidthAsWritten("WW\nW", EvenAdvances()) == 10
    ensures MaxOf(Lines("WW\nW", EvenAdvances())) == 20
  {
    var adv := EvenAdvances();
    var t := "WW\nW";
    assert Advance('W', adv) == 10;
    assert LinesFrom(t, adv, 3) == [10];
    assert LinesFrom(t, adv, 2) == [0, 10];
    assert LinesFrom(t, adv, 1) == [10, 10];
    assert MaxOf([10]) == 10;
  }

  /** The measuring loop from index i on, with the finished lines done
      and the current line at curX: the lines it ends with. */
  function Run(text: string, adv: seq<int>, i: nat, done: seq<int>, curX: int): seq<int>
    requires |adv| > ('?' as int) - (' ' as int)
    decreases |text| - i
  {
    if i >= |text| then done + [curX]
    else if text[i] == '\n' then Run(text, adv, i + 1, done + [curX], 0)
    else if text[i] == '~' then
      (if i + 1 >= |text| then done + [curX]
       else Run(text, adv, i + 2, done, curX + Advance(text[i + 1], adv)))
    else Run(text, adv, i + 1, done, curX + Advance(text[i], adv))
  }

  /** The loop from index i ends with the finished lines, then curX added
      to the first line of what the rest of the text measures. */
  lemma {:induction false} RunLines(text: string, adv: seq<int>, i: nat, done: seq<int>, curX: int)
    requires |adv| > ('?' as int) - (' ' as int)
    decreases |text| - i
    ensures Run(text, adv, i, done, curX) == done + AddFirst(curX, LinesFrom(text, adv, i))
  {
    if i >= |text| || (text[i] == '~' && i + 1 == |text|) {
      assert AddFirst(curX, [0]) == [curX];
    } else if text[i] == '\n' {
      RunLines(text, adv, i + 1, done + [curX], 0);
      NewlineCase(text, adv, i, done, curX);
    } else {
      var j := if text[i] == '~' then i + 1 else i;
      RunLines(text, adv, j + 1, done, curX + Advance(text[j], adv));
      GlyphCase(text, adv, i, done, curX);
    }
  }

  /** A newline closes the current line. */
  lemma NewlineCase(text: string, adv: seq<int>, i: nat, done: seq<int>, curX: int)
    requires |adv| > ('?' as int) - (' ' as int)
    requires i < |text| && text[i] == '\n'
    requires Run(text, adv, i + 1, done + [curX], 0) == (done + [curX]) + AddFirst(0, LinesFrom(text, adv, i + 1))
    ensures Run(text, adv, i, done, curX) == done + AddFirst(curX, LinesFrom(text, adv, i))
  {
    var rest := LinesFrom(text, adv, i + 1);
    assert Run(text, adv, i, done, curX) == Run(text, adv, i + 1, done + [curX], 0);
    assert LinesFrom(text, adv, i) == [0] + rest;
    AddFirstZero(rest);
    AddFirstNewline(curX, rest);
    assert (done + [curX]) + rest == done + ([curX] + rest);
  }

  /** A measured character, plain or after '~', widens the current line. */
  lemma GlyphCase(text: string, adv: seq<int>, i: nat, done: seq<int>, curX: int)
    requires |adv| > ('?' as int) - (' ' as int)
    requires i < |text| && text[i] != '\n' && (text[i] == '~' ==> i + 1 < |text|)
    requires var j := if text[i] == '~' then i + 1 else i;
      var a := Advance(text[j], adv);
      Run(text, adv, j + 1, done, curX + a) == done + AddFirst(curX + a, LinesFrom(text, adv, j + 1))
    ensures Run(text, adv, i, done, curX) == done + AddFirst(curX, LinesFrom(text, adv, i))
  {
    var j := if text[i] == '~' then i + 1 else i;
    var a := Advance(text[j], adv);
    var rest := LinesFrom(text, adv, j + 1);
    assert Run(text, adv, i, done, curX) == Run(text, adv, j + 1, done, curX + a);
    assert LinesFrom(text, adv, i) == AddFirst(a, rest);
    AddFirstTwice(curX, a, rest);
  }

  lemma AddFirstZero(ls: seq<int>)
    requires ls != []
    ensures AddFirst(0, ls) == ls
  {
    assert [0 + ls[0]] + ls[1..] == ls;
  }

  lemma AddFirstNewline(a: int, ls: seq<int>)
    ensures AddFirst(a, [0] + ls) == [a] + ls
  {
    assert ([0] + ls)[1..] == ls;
  }

  lemma AddFirstTwice(a: int, b: int, ls: seq<int>)
    requires ls != []
    ensures AddFirst(a, AddFirst(b, ls)) == AddFirst(a + b, ls)
  {
    assert AddFirst(b, ls)[1..] == ls[1..];
  }

  /** The measuring loop, with maxX updated before curX is reset: the
      width is the widest line (at least 0) and the line count the number
      of lines. */
  method ComputeStringBoundaryLimits(aText: string, adv: seq<int>) returns (width: int, lineCount: nat)
    requires |adv| > ('?' as int) - (' ' as int)
    ensures width == MaxOf(Lines(aText, adv))
    ensures lineCount == |Lines(aText, adv)|
  {
    lineCount := 1;
    var maxX, curX := 0, 0;
    ghost var done: seq<int> := [];
    ghost var lines := Run(aText, adv, 0, [], 0);
    var i := 0;
    while i < |aText|
      invariant 0 <= i <= |aText|
      invariant Run(aText, adv, i, done, curX) == lines
      invariant lineCount == |done| + 1 && maxX == MaxOf(done)
      decreases |aText| - i
    {
      var c := aText[i];
      if c == '\n' {
        maxX := Max(maxX, curX);
        MaxOfSnoc(done, curX);
        done := done + [curX];
        curX := 0;
        lineCount := lineCount + 1;
        i := i + 1;
        continue;
      }
      if c == '~' {
        i := i + 1;
        if i >= |aText| {
          break;
        }
        c := aText[i];
      }
      var dd := GlyphIndex(c, |adv|);
      curX := curX + adv[dd];
      i := i + 1;
    }
    assert lines == done + [curX];
    RunLines(aText, adv, 0, [], 0);
    var all := Lines(aText, adv);
    AddFirstZero(all);
    assert lines == all;
    MaxOfSnoc(done, curX);
    width := Max(maxX, curX);
  }

  lemma {:induction false} MaxOfSnoc(ls: seq<int>, x: int)
    ensures MaxOf(ls + [x]) == Max(MaxOf(ls), x)
  {
    if ls != [] {
      assert (ls + [x])[1..] == ls[1..] + [x];
      MaxOfSnoc(ls[1..], x);
    }
  }
}
