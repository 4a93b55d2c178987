/**
 * The stroke-font text layer: polylines scaled into place, glyphs with one
 * uniform advance, word and space measurement, single-line drawing and the
 * greedy word wrap. Every routine is modelled by the calls it issues.
 */
module TextLayout {
  import opened Wrappers
  import opened Seqs
  import opened PyStrings
  import opened Plotting
  import opened StrokeFont

  // ---------------------------------------------------------------- polylines

  /** A point of the unit glyph box scaled by (sx, sy) and moved to (ox, oy). */
  function Place(p: Point, ox: real, oy: real, sx: real, sy: real): Point
  {
    Point(ox + p.x * sx, oy + p.y * sy)
  }

  function PlaceAll(pts: seq<Point>, ox: real, oy: real, sx: real, sy: real): seq<Point>
    decreases |pts|
  {
    if |pts| == 0 then [] else [Place(pts[0], ox, oy, sx, sy)] + PlaceAll(pts[1..], ox, oy, sx, sy)
  }

  lemma {:induction false} PlaceAllIndex(pts: seq<Point>, ox: real, oy: real, sx: real, sy: real)
    ensures |PlaceAll(pts, ox, oy, sx, sy)| == |pts|
    ensures forall i :: 0 <= i < |pts| ==> PlaceAll(pts, ox, oy, sx, sy)[i] == Place(pts[i], ox, oy, sx, sy)
    decreases |pts|
  {
    if |pts| > 0 {
      PlaceAllIndex(pts[1..], ox, oy, sx, sy);
    }
  }

  lemma PlaceAllAppend(a: seq<Point>, b: seq<Point>, ox: real, oy: real, sx: real, sy: real)
    ensures PlaceAll(a + b, ox, oy, sx, sy) == PlaceAll(a, ox, oy, sx, sy) + PlaceAll(b, ox, oy, sx, sy)
  {
    PlaceAllIndex(a + b, ox, oy, sx, sy);
    PlaceAllIndex(a, ox, oy, sx, sy);
    PlaceAllIndex(b, ox, oy, sx, sy);
  }

  /** Pen-down lines to each of the points, placed. */
  function LinesTo(pts: seq<Point>, ox: real, oy: real, sx: real, sy: real): seq<Call>
    decreases |pts|
  {
    if |pts| == 0 then []
    else
      var p := Place(pts[0], ox, oy, sx, sy);
      [LineTo(p.x, p.y)] + LinesTo(pts[1..], ox, oy, sx, sy)
  }

  lemma {:induction false} LinesToIndex(pts: seq<Point>, ox: real, oy: real, sx: real, sy: real)
    ensures |LinesTo(pts, ox, oy, sx, sy)| == |pts|
    ensures forall i :: 0 <= i < |pts| ==>
              LinesTo(pts, ox, oy, sx, sy)[i] == LineTo(Place(pts[i], ox, oy, sx, sy).x, Place(pts[i], ox, oy, sx, sy).y)
    decreases |pts|
  {
    if |pts| > 0 {
      LinesToIndex(pts[1..], ox, oy, sx, sy);
    }
  }

  /**
   * `draw_polyline`: nothing for an empty polyline, otherwise a pen-up move to
   * the first placed point and one line to each later point, in order.
   */
  function DrawPolyline(poly: seq<Point>, ox: real, oy: real, sx: real, sy: real): seq<Call>
  {
    if |poly| == 0 then []
    else
      var p := Place(poly[0], ox, oy, sx, sy);
      [MoveTo(p.x, p.y)] + LinesTo(poly[1..], ox, oy, sx, sy)
  }

  /** One call per point: a move to the first placed point, then lines to the others, in order. */
  lemma PolylineShape(poly: seq<Point>, ox: real, oy: real, sx: real, sy: real)
    ensures |DrawPolyline(poly, ox, oy, sx, sy)| == |poly|
    ensures OnlyMotion(DrawPolyline(poly, ox, oy, sx, sy))
    ensures forall i :: 0 <= i < |poly| ==> (DrawPolyline(poly, ox, oy, sx, sy)[i].MoveTo? <==> i == 0)
    ensures forall i :: 0 <= i < |poly| ==> Target(DrawPolyline(poly, ox, oy, sx, sy)[i]) == Place(poly[i], ox, oy, sx, sy)
  {
    if |poly| > 0 {
      var rest := LinesTo(poly[1..], ox, oy, sx, sy);
      LinesToIndex(poly[1..], ox, oy, sx, sy);
      forall i | 1 <= i < |poly|
        ensures DrawPolyline(poly, ox, oy, sx, sy)[i] == rest[i - 1]
      {
      }
    }
  }

  /** The pen visits the placed points, and the ink is the length of the placed polyline. */
  lemma PolylineTrace(poly: seq<Point>, ox: real, oy: real, sx: real, sy: real, dist: DistFn)
    ensures Waypoints(DrawPolyline(poly, ox, oy, sx, sy)) == PlaceAll(poly, ox, oy, sx, sy)
    ensures DrawnLength(DrawPolyline(poly, ox, oy, sx, sy), dist) == PathLength(PlaceAll(poly, ox, oy, sx, sy), dist)
  {
    var calls := DrawPolyline(poly, ox, oy, sx, sy);
    PolylineShape(poly, ox, oy, sx, sy);
    PlaceAllIndex(poly, ox, oy, sx, sy);
    DrawnLengthOfTrace(calls, dist);
  }

  /** The strokes of one glyph, drawn one polyline after another. */
  function DrawStrokes(strokes: seq<seq<Point>>, x: real, y: real, sx: real, sy: real): seq<Call>
  {
    if |strokes| == 0 then []
    else
      var n := |strokes|;
      DrawStrokes(strokes[..n - 1], x, y, sx, sy) + DrawPolyline(strokes[n - 1], x, y, sx, sy)
  }

  lemma WaypointsAppend(a: seq<Call>, b: seq<Call>)
    ensures Waypoints(a + b) == Waypoints(a) + Waypoints(b)
  {
  }

  /** The pen visits every point of every stroke, placed, in drawing order. */
  lemma {:induction false} StrokesVisitPoints(strokes: seq<seq<Point>>, x: real, y: real, sx: real, sy: real)
    ensures Waypoints(DrawStrokes(strokes, x, y, sx, sy)) == PlaceAll(Flatten(strokes), x, y, sx, sy)
    ensures OnlyMotion(DrawStrokes(strokes, x, y, sx, sy))
    decreases |strokes|
  {
    if |strokes| > 0 {
      var n := |strokes|;
      var init := strokes[..n - 1];
      StrokesVisitPoints(init, x, y, sx, sy);
      PolylineShape(strokes[n - 1], x, y, sx, sy);
      OnlyMotionAppend(DrawStrokes(init, x, y, sx, sy), DrawPolyline(strokes[n - 1], x, y, sx, sy));
      PolylineTrace(strokes[n - 1], x, y, sx, sy, (p: Point, q: Point) => 0.0);
      WaypointsAppend(DrawStrokes(init, x, y, sx, sy), DrawPolyline(strokes[n - 1], x, y, sx, sy));
      PlaceAllAppend(Flatten(init), strokes[n - 1], x, y, sx, sy);
    }
  }

  // ---------------------------------------------------------------- glyphs and advances

  /** Glyph width in ems, shared by drawing and measuring. */
  const GlyphWidthEm: real := 0.6

  /** What a drawing routine issued and how far it moved the cursor. */
  datatype Drawn = Drawn(calls: seq<Call>, advance: real)

  /**
   * The glyph drawn for a lookup key. The layout is stated for any font; the
   * program's own is `GlyphFor`, the `FONT` table with its `'?'` fallback.
   */
  type Font = char -> Glyph

  /**
   * The second `draw_glyph`: the glyph's strokes with x scaled to 0.6 of the
   * height, and an advance of that width plus the tracking, whatever the glyph.
   */
  function DrawGlyph(font: Font, key: char, x: real, y: real, h: real, tracking: real): (d: Drawn)
    ensures d.advance == GlyphWidthEm * h + tracking
  {
    var g := font(key);
    var sx := GlyphWidthEm * h;
    Drawn(DrawStrokes(g.strokes, x, y, sx, h), sx + tracking)
  }

  /** The pen visits the glyph's points, each scaled to the glyph box at (x, y), in stroke order. */
  lemma GlyphVisitsPoints(font: Font, key: char, x: real, y: real, h: real, tracking: real)
    ensures Waypoints(DrawGlyph(font, key, x, y, h, tracking).calls)
              == PlaceAll(Flatten(font(key).strokes), x, y, GlyphWidthEm * h, h)
    ensures OnlyMotion(DrawGlyph(font, key, x, y, h, tracking).calls)
  {
    StrokesVisitPoints(font(key).strokes, x, y, GlyphWidthEm * h, h);
  }

  /** In the program's font, a character outside the table is drawn exactly as `'?'` is. */
  lemma UnknownDrawnAsQuestionMark(key: char, x: real, y: real, h: real, tracking: real)
    requires FontEntry(key).None?
    ensures DrawGlyph(GlyphFor, key, x, y, h, tracking) == DrawGlyph(GlyphFor, '?', x, y, h, tracking)
  {
    assert FontEntry('?').Some?;
  }

  /**
   * Draws the glyph for a key with its baseline origin at (x, y) and drawn
   * height h. The calls of `draw_glyph` do not depend on the tracking, which
   * only enters the advance.
   */
  type GlyphPen = (char, real, real, real) -> seq<Call>

  /** The pen that draws with `draw_glyph` in the given font. */
  function PenOf(font: Font): GlyphPen
  {
    (key: char, x: real, y: real, h: real) => DrawGlyph(font, key, x, y, h, 0.0).calls
  }

  /** The tracking changes the advance of `draw_glyph`, never its calls. */
  lemma PenIgnoresTracking(font: Font, key: char, x: real, y: real, h: real, tracking: real)
    ensures PenOf(font)(key, x, y, h) == DrawGlyph(font, key, x, y, h, tracking).calls
    ensures DrawGlyph(font, key, x, y, h, tracking).advance == GlyphWidthEm * h + tracking
  {
  }

  ghost predicate PenMovesOnly(pen: GlyphPen)
  {
    forall key: char, x: real, y: real, h: real :: OnlyMotion(pen(key, x, y, h))
  }

  lemma PenOfMovesOnly(font: Font)
    ensures PenMovesOnly(PenOf(font))
  {
    forall key: char, x: real, y: real, h: real ensures OnlyMotion(PenOf(font)(key, x, y, h)) {
      GlyphVisitsPoints(font, key, x, y, h, 0.0);
    }
  }

  /** `glyph_advance_inches`: width plus tracking of one non-space glyph. */
  function GlyphAdvance(h: real, ls: real): real
  {
    (GlyphWidthEm + ls) * h
  }

  /** `space_advance_inches`: the word-spacing override alone, else an ordinary glyph advance. */
  function SpaceAdvance(h: real, ls: real, ws: Option<real>): real
  {
    if ws.Some? then ws.value * h else GlyphAdvance(h, ls)
  }

  /** `measure_word_width_inches`. */
  function MeasureWord(w: string, h: real, ls: real): real
  {
    if |w| == 0 then 0.0 else |w| as real * GlyphAdvance(h, ls)
  }

  // ---------------------------------------------------------------- one line

  /** How far one character moves the cursor of `draw_text_line` at drawn height `hs`. */
  function CharAdvance(c: char, hs: real, ls: real, ws: Option<real>): real
  {
    if GlyphKey(c) == ' ' && ws.Some? then ws.value * hs else GlyphWidthEm * hs + ls * hs
  }

  /** How far the cursor of `draw_text_line` has moved after `text`. */
  function TextAdvance(text: string, hs: real, ls: real, ws: Option<real>): real
    decreases |text|
  {
    if |text| == 0 then 0.0
    else TextAdvance(text[..|text| - 1], hs, ls, ws) + CharAdvance(text[|text| - 1], hs, ls, ws)
  }

  /**
   * `draw_text_line` at drawn height `h * scale`: each character is lower-cased;
   * a space under a word-spacing override only moves the cursor, anything else
   * is drawn as a glyph at the cursor with tracking `ls` times the drawn height,
   * and the cursor moves on by the advance the glyph reports.
   */
  function DrawTextLine(pen: GlyphPen, text: string, ox: real, baseY: real, h: real, ls: real, ws: Option<real>, scale: real): seq<Call>
    decreases |text|
  {
    if |text| == 0 then []
    else
      var init := text[..|text| - 1];
      var hs := h * scale;
      DrawTextLine(pen, init, ox, baseY, h, ls, ws, scale)
        + CharCalls(pen, text[|text| - 1], ox + TextAdvance(init, hs, ls, ws), baseY, hs, ls, ws)
  }

  /** The calls for one character of a line with the cursor at `x`. */
  function CharCalls(pen: GlyphPen, c: char, x: real, baseY: real, hs: real, ls: real, ws: Option<real>): seq<Call>
  {
    var key := GlyphKey(c);
    if key == ' ' && ws.Some? then [] else pen(key, x, baseY, hs)
  }

  lemma {:induction false} TextLineOnlyMotion(pen: GlyphPen, text: string, ox: real, baseY: real, h: real, ls: real, ws: Option<real>, scale: real)
    requires PenMovesOnly(pen)
    ensures OnlyMotion(DrawTextLine(pen, text, ox, baseY, h, ls, ws, scale))
    decreases |text|
  {
    if |text| > 0 {
      var init := text[..|text| - 1];
      var hs := h * scale;
      var x := ox + TextAdvance(init, hs, ls, ws);
      TextLineOnlyMotion(pen, init, ox, baseY, h, ls, ws, scale);
      OnlyMotionAppend(DrawTextLine(pen, init, ox, baseY, h, ls, ws, scale), CharCalls(pen, text[|text| - 1], x, baseY, hs, ls, ws));
    }
  }

  /** The cursor moves by exactly the advance each drawn glyph reports. */
  lemma GlyphAdvanceIsReported(font: Font, c: char, x: real, baseY: real, hs: real, ls: real, ws: Option<real>)
    requires !(GlyphKey(c) == ' ' && ws.Some?)
    ensures CharAdvance(c, hs, ls, ws) == DrawGlyph(font, GlyphKey(c), x, baseY, hs, ls * hs).advance
  {
  }

  lemma {:induction false} TextAdvanceAppend(a: string, b: string, hs: real, ls: real, ws: Option<real>)
    ensures TextAdvance(a + b, hs, ls, ws) == TextAdvance(a, hs, ls, ws) + TextAdvance(b, hs, ls, ws)
    decreases |b|
  {
    if |b| == 0 {
      assert a + b == a;
    } else {
      var b' := b[..|b| - 1];
      assert (a + b)[..|a + b| - 1] == a + b';
      assert (a + b)[|a + b| - 1] == b[|b| - 1];
      TextAdvanceAppend(a, b', hs, ls, ws);
    }
  }

  lemma AppendAssoc<T>(a: seq<T>, b: seq<T>, c: seq<T>)
    ensures a + b + c == a + (b + c)
  {
  }

  /** Drawing `a + b` draws `a`, then draws `b` from where the cursor stopped. */
  lemma {:induction false} DrawTextLineAppend(pen: GlyphPen, a: string, b: string, ox: real, baseY: real, h: real, ls: real, ws: Option<real>, scale: real)
    ensures DrawTextLine(pen, a + b, ox, baseY, h, ls, ws, scale)
              == DrawTextLine(pen, a, ox, baseY, h, ls, ws, scale)
                 + DrawTextLine(pen, b, ox + TextAdvance(a, h * scale, ls, ws), baseY, h, ls, ws, scale)
    decreases |b|
  {
    var hs := h * scale;
    var da := DrawTextLine(pen, a, ox, baseY, h, ls, ws, scale);
    var x := ox + TextAdvance(a, hs, ls, ws);
    if |b| == 0 {
      assert a + b == a;
      assert da + [] == da;
    } else {
      var b' := b[..|b| - 1];
      var c := b[|b| - 1];
      assert (a + b)[..|a + b| - 1] == a + b';
      assert (a + b)[|a + b| - 1] == c;
      DrawTextLineAppend(pen, a, b', ox, baseY, h, ls, ws, scale);
      var db' := DrawTextLine(pen, b', x, baseY, h, ls, ws, scale);
      TextAdvanceAppend(a, b', hs, ls, ws);
      assert ox + TextAdvance(a + b', hs, ls, ws) == x + TextAdvance(b', hs, ls, ws);
      var g := CharCalls(pen, c, x + TextAdvance(b', hs, ls, ws), baseY, hs, ls, ws);
      AppendAssoc(da, db', g);
    }
  }

  /** A space under a word-spacing override draws nothing. */
  lemma SpaceUnderOverride(pen: GlyphPen, ox: real, baseY: real, h: real, ls: real, ws: Option<real>, scale: real)
    requires ws.Some?
    ensures DrawTextLine(pen, " ", ox, baseY, h, ls, ws, scale) == []
  {
    assert " "[..0] == [];
  }

  /** One space moves the cursor by `space_advance_inches` at the drawn height, override or not. */
  lemma SpaceDrawnAsMeasured(hs: real, ls: real, ws: Option<real>)
    ensures TextAdvance(" ", hs, ls, ws) == SpaceAdvance(hs, ls, ws)
  {
    assert " "[..0] == [];
    assert GlyphWidthEm * hs + ls * hs == (GlyphWidthEm + ls) * hs;
  }

  /** A word with no space moves the cursor by exactly `measure_word_width_inches`. */
  lemma {:induction false} WordDrawnAsMeasured(w: string, hs: real, ls: real, ws: Option<real>)
    requires forall i :: 0 <= i < |w| ==> w[i] != ' '
    ensures TextAdvance(w, hs, ls, ws) == MeasureWord(w, hs, ls)
    decreases |w|
  {
    if |w| > 0 {
      var w' := w[..|w| - 1];
      WordDrawnAsMeasured(w', hs, ls, ws);
      var n := |w'| as real;
      assert GlyphKey(w[|w| - 1]) != ' ';
      assert GlyphWidthEm * hs + ls * hs == GlyphAdvance(hs, ls);
      assert n * GlyphAdvance(hs, ls) + GlyphAdvance(hs, ls) == (n + 1.0) * GlyphAdvance(hs, ls);
    }
  }

  // ---------------------------------------------------------------- measured lines

  /** Width of words joined by single spaces, measured the way the wrap measures them. */
  function LineMeasure(words: seq<string>, h: real, ls: real, ws: Option<real>): real
  {
    if |words| == 0 then 0.0
    else if |words| == 1 then MeasureWord(words[0], h, ls)
    else MeasureWord(words[0], h, ls) + SpaceAdvance(h, ls, ws) + LineMeasure(words[1..], h, ls, ws)
  }

  /** Appending a word adds a space (unless the line was empty) and the word's width. */
  lemma {:induction false} LineMeasureSnoc(words: seq<string>, w: string, h: real, ls: real, ws: Option<real>)
    ensures LineMeasure(words + [w], h, ls, ws)
              == LineMeasure(words, h, ls, ws)
                 + (if |words| > 0 then SpaceAdvance(h, ls, ws) else 0.0)
                 + MeasureWord(w, h, ls)
    decreases |words|
  {
    if |words| > 1 {
      assert (words + [w])[1..] == words[1..] + [w];
      LineMeasureSnoc(words[1..], w, h, ls, ws);
    } else if |words| == 1 {
      assert (words + [w])[1..] == [w];
    }
  }

  lemma MeasureWordScales(w: string, h: real, ls: real, scale: real)
    ensures MeasureWord(w, h * scale, ls) == scale * MeasureWord(w, h, ls)
  {
    var n := |w| as real;
    assert n * ((GlyphWidthEm + ls) * (h * scale)) == scale * (n * ((GlyphWidthEm + ls) * h));
  }

  lemma SpaceAdvanceScales(h: real, ls: real, ws: Option<real>, scale: real)
    ensures SpaceAdvance(h * scale, ls, ws) == scale * SpaceAdvance(h, ls, ws)
  {
    if ws.Some? {
      assert ws.value * (h * scale) == scale * (ws.value * h);
    } else {
      assert (GlyphWidthEm + ls) * (h * scale) == scale * ((GlyphWidthEm + ls) * h);
    }
  }

  lemma ScaleSum(scale: real, a: real, b: real, c: real, t: real)
    requires t == a + b + c
    ensures scale * a + scale * b + scale * c == scale * t
  {
  }

  lemma ScaleSame(scale: real, a: real, t: real)
    requires t == a
    ensures scale * a == scale * t
  {
  }

  /** Measurements scale linearly with the height. */
  lemma {:induction false} LineMeasureScales(words: seq<string>, h: real, ls: real, ws: Option<real>, scale: real)
    ensures LineMeasure(words, h * scale, ls, ws) == scale * LineMeasure(words, h, ls, ws)
    decreases |words|
  {
    if |words| == 1 {
      MeasureWordScales(words[0], h, ls, scale);
      ScaleSame(scale, MeasureWord(words[0], h, ls), LineMeasure(words, h, ls, ws));
    } else if |words| > 1 {
      MeasureWordScales(words[0], h, ls, scale);
      LineMeasureScales(words[1..], h, ls, ws, scale);
      SpaceAdvanceScales(h, ls, ws, scale);
      ScaleSum(scale, MeasureWord(words[0], h, ls), SpaceAdvance(h, ls, ws), LineMeasure(words[1..], h, ls, ws),
               LineMeasure(words, h, ls, ws));
    }
  }

  predicate NoSpaceChar(w: string)
  {
    forall i :: 0 <= i < |w| ==> w[i] != ' '
  }

  /**
   * The cursor moves over words joined by spaces exactly by their measured
   * width: drawing and measuring agree.
   */
  lemma {:induction false} LineDrawnAsMeasured(words: seq<string>, hs: real, ls: real, ws: Option<real>)
    requires forall i :: 0 <= i < |words| ==> NoSpaceChar(words[i])
    ensures TextAdvance(JoinSpace(words), hs, ls, ws) == LineMeasure(words, hs, ls, ws)
    decreases |words|
  {
    if |words| == 1 {
      WordDrawnAsMeasured(words[0], hs, ls, ws);
    } else if |words| > 1 {
      var w := words[0];
      var rest := JoinSpace(words[1..]);
      assert JoinSpace(words) == w + (" " + rest);
      TextAdvanceAppend(w, " " + rest, hs, ls, ws);
      TextAdvanceAppend(" ", rest, hs, ls, ws);
      WordDrawnAsMeasured(w, hs, ls, ws);
      SpaceDrawnAsMeasured(hs, ls, ws);
      LineDrawnAsMeasured(words[1..], hs, ls, ws);
    }
  }

  // ---------------------------------------------------------------- greedy wrap

  /** The layout parameters of `draw_wrapped_text` that decide the line breaks. */
  datatype Layout = Layout(height: real, letterSpacing: real, wordSpacing: Option<real>, maxWidth: real)

  /** The width a line may take: 0.6 of the maximum width. */
  function Budget(m: Layout): real
  {
    m.maxWidth * 0.6
  }

  /** A line's width at the unscaled height. */
  function Measure(line: seq<string>, m: Layout): real
  {
    LineMeasure(line, m.height, m.letterSpacing, m.wordSpacing)
  }

  /** Within the budget, or a single word that could not be broken anyway. */
  predicate Fits(line: seq<string>, m: Layout)
  {
    |line| == 1 || Measure(line, m) <= Budget(m)
  }

  /** Taking the next word onto the line would overflow the budget. */
  predicate Full(line: seq<string>, next: string, m: Layout)
  {
    Measure(line + [next], m) > Budget(m)
  }

  /** The wrap loop's state: finished lines, the words of the line being filled, and its width. */
  datatype Pending = Pending(lines: seq<seq<string>>, current: seq<string>, width: real)

  /** One iteration of the wrap loop. */
  function WrapStep(st: Pending, w: string, m: Layout): Pending
  {
    var ww := MeasureWord(w, m.height, m.letterSpacing);
    var extra := if |st.current| > 0 then SpaceAdvance(m.height, m.letterSpacing, m.wordSpacing) else 0.0;
    if |st.current| > 0 && st.width + extra + ww > Budget(m) then Pending(st.lines + [st.current], [w], ww)
    else Pending(st.lines, st.current + [w], st.width + extra + ww)
  }

  function WrapFrom(words: seq<string>, st: Pending, m: Layout): Pending
    decreases |words|
  {
    if |words| == 0 then st else WrapFrom(words[1..], WrapStep(st, words[0], m), m)
  }

  /** After the loop: the line being filled is kept when it holds any word. */
  function Close(st: Pending): seq<seq<string>>
  {
    if |st.current| > 0 then st.lines + [st.current] else st.lines
  }

  /** The lines `draw_wrapped_text` forms from the words, each as its list of words. */
  function Wrap(words: seq<string>, m: Layout): seq<seq<string>>
  {
    Close(WrapFrom(words, Pending([], [], 0.0), m))
  }

  /** What the wrap loop keeps true between words. */
  predicate WrapInv(st: Pending, m: Layout)
  {
    && st.width == Measure(st.current, m)
    && (|st.lines| > 0 ==> |st.current| > 0)
    && (|st.current| > 0 ==> Fits(st.current, m))
    && (forall i :: 0 <= i < |st.lines| ==> |st.lines[i]| > 0 && Fits(st.lines[i], m))
    && (forall i :: 0 <= i < |st.lines| - 1 ==> Full(st.lines[i], st.lines[i + 1][0], m))
    && (|st.lines| > 0 ==> Full(st.lines[|st.lines| - 1], st.current[0], m))
  }

  lemma WrapStepKeepsInv(st: Pending, w: string, m: Layout)
    requires WrapInv(st, m)
    ensures WrapInv(WrapStep(st, w, m), m)
  {
    LineMeasureSnoc(st.current, w, m.height, m.letterSpacing, m.wordSpacing);
    var next := WrapStep(st, w, m);
    if |st.current| > 0 && next.current == [w] {
      assert next.lines[|next.lines| - 1] == st.current;
      assert Full(st.current, w, m);
      assert forall i :: 0 <= i < |st.lines| ==> next.lines[i] == st.lines[i];
      if |st.lines| > 0 {
        assert next.lines[|st.lines|] == st.current;
      }
      assert Measure([w], m) == MeasureWord(w, m.height, m.letterSpacing);
    } else {
      assert |st.current| > 0 ==> (st.current + [w])[0] == st.current[0];
    }
  }

  lemma {:induction false} WrapFromKeepsInv(words: seq<string>, st: Pending, m: Layout)
    requires WrapInv(st, m)
    ensures WrapInv(WrapFrom(words, st, m), m)
    ensures |st.current| > 0 || |words| > 0 ==> |WrapFrom(words, st, m).current| > 0
    decreases |words|
  {
    if |words| > 0 {
      WrapStepKeepsInv(st, words[0], m);
      WrapFromKeepsInv(words[1..], WrapStep(st, words[0], m), m);
    }
  }

  /** The words the loop has placed so far, in order. */
  function Placed(st: Pending): seq<string>
  {
    Flatten(st.lines) + st.current
  }

  /** One step places the word after all the others. */
  lemma WrapStepContent(st: Pending, w: string, m: Layout)
    ensures Placed(WrapStep(st, w, m)) == Placed(st) + [w]
  {
    var next := WrapStep(st, w, m);
    if |st.current| > 0 && next.current == [w] {
      FlattenAppend(st.lines, [st.current]);
      assert Flatten([st.current]) == st.current by {
        assert [st.current][..0] == [];
      }
    }
  }

  /** No word is lost, added or reordered by the loop. */
  lemma {:induction false} WrapFromContent(words: seq<string>, st: Pending, m: Layout)
    ensures Placed(WrapFrom(words, st, m)) == Placed(st) + words
    decreases |words|
  {
    if |words| == 0 {
      assert Placed(st) + words == Placed(st);
    } else {
      var w := words[0];
      WrapFromContent(words[1..], WrapStep(st, w, m), m);
      WrapStepContent(st, w, m);
      assert Placed(st) + [w] + words[1..] == Placed(st) + words by {
        assert words == [w] + words[1..];
      }
    }
  }

  /** Closing keeps every word, in order. */
  lemma CloseContent(st: Pending)
    ensures Flatten(Close(st)) == Placed(st)
  {
    if |st.current| > 0 {
      FlattenAppend(st.lines, [st.current]);
      assert Flatten([st.current]) == st.current by {
        assert [st.current][..0] == [];
      }
    } else {
      assert Flatten(st.lines) + [] == Flatten(st.lines);
    }
  }

  /** Closing a state the loop left keeps the line properties. */
  lemma CloseShape(st: Pending, m: Layout)
    requires WrapInv(st, m)
    ensures forall i :: 0 <= i < |Close(st)| ==> |Close(st)[i]| > 0 && Fits(Close(st)[i], m)
    ensures forall i :: 0 <= i < |Close(st)| - 1 ==> Full(Close(st)[i], Close(st)[i + 1][0], m)
  {
    var lines := Close(st);
    if |st.current| > 0 {
      assert forall i :: 0 <= i < |st.lines| ==> lines[i] == st.lines[i];
    }
  }

  /**
   * The greedy wrap: its lines, read in order, are exactly the words; no line
   * is empty; every line fits the budget or is a single word; and every line
   * would overflow the budget had it taken the first word of the next one.
   */
  lemma WrapSpec(words: seq<string>, m: Layout)
    ensures Flatten(Wrap(words, m)) == words
    ensures |Wrap(words, m)| == 0 <==> |words| == 0
    ensures forall i :: 0 <= i < |Wrap(words, m)| ==> |Wrap(words, m)[i]| > 0 && Fits(Wrap(words, m)[i], m)
    ensures forall i :: 0 <= i < |Wrap(words, m)| - 1 ==> Full(Wrap(words, m)[i], Wrap(words, m)[i + 1][0], m)
  {
    var init := Pending([], [], 0.0);
    assert WrapInv(init, m);
    WrapFromKeepsInv(words, init, m);
    WrapFromContent(words, init, m);
    var st := WrapFrom(words, init, m);
    assert Placed(init) + words == words;
    CloseContent(st);
    CloseShape(st, m);
  }

  // ---------------------------------------------------------------- wrapped text

  /** Each line drawn at the block's origin, one scaled line spacing below the previous one. */
  function DrawLines(pen: GlyphPen, lines: seq<seq<string>>, ox: real, y: real, spacing: real, m: Layout, scale: real): seq<Call>
    decreases |lines|
  {
    if |lines| == 0 then []
    else
      DrawTextLine(pen, JoinSpace(lines[0]), ox, y, m.height, m.letterSpacing, m.wordSpacing, scale)
        + DrawLines(pen, lines[1..], ox, y + spacing, spacing, m, scale)
  }

  /** The calls for line `i` alone, drawn on baseline `y + i * spacing`. */
  function LineCalls(pen: GlyphPen, lines: seq<seq<string>>, i: nat, ox: real, y: real, spacing: real, m: Layout, scale: real): seq<Call>
    requires i < |lines|
  {
    DrawTextLine(pen, JoinSpace(lines[i]), ox, y + i as real * spacing, m.height, m.letterSpacing, m.wordSpacing, scale)
  }

  /** The calls of every line on its own, each line one spacing below the previous one. */
  function LineCallsFrom(pen: GlyphPen, lines: seq<seq<string>>, ox: real, y: real, spacing: real, m: Layout, scale: real): seq<seq<Call>>
    decreases |lines|
  {
    if |lines| == 0 then []
    else
      [DrawTextLine(pen, JoinSpace(lines[0]), ox, y, m.height, m.letterSpacing, m.wordSpacing, scale)]
        + LineCallsFrom(pen, lines[1..], ox, y + spacing, spacing, m, scale)
  }

  /** Line `i` of the block is drawn on its own on baseline `y + i * spacing`. */
  lemma {:induction false} LineCallsAt(pen: GlyphPen, lines: seq<seq<string>>, ox: real, y: real, spacing: real, m: Layout, scale: real)
    ensures |LineCallsFrom(pen, lines, ox, y, spacing, m, scale)| == |lines|
    ensures forall i :: 0 <= i < |lines| ==>
              LineCallsFrom(pen, lines, ox, y, spacing, m, scale)[i] == LineCalls(pen, lines, i, ox, y, spacing, m, scale)
    decreases |lines|
  {
    if |lines| > 0 {
      var all := LineCallsFrom(pen, lines, ox, y, spacing, m, scale);
      var rest := LineCallsFrom(pen, lines[1..], ox, y + spacing, spacing, m, scale);
      LineCallsAt(pen, lines[1..], ox, y + spacing, spacing, m, scale);
      forall i | 0 <= i < |lines| ensures all[i] == LineCalls(pen, lines, i, ox, y, spacing, m, scale) {
        if i == 0 {
          assert y + 0 as real * spacing == y;
        } else {
          assert all[i] == rest[i - 1];
          LineCallsStep(pen, lines, ox, y, spacing, m, scale, i);
        }
      }
    }
  }

  lemma LineCallsStep(pen: GlyphPen, lines: seq<seq<string>>, ox: real, y: real, spacing: real, m: Layout, scale: real, i: nat)
    requires 1 <= i < |lines|
    ensures LineCalls(pen, lines, i, ox, y, spacing, m, scale) == LineCalls(pen, lines[1..], i - 1, ox, y + spacing, spacing, m, scale)
  {
    BaselineStep(y, spacing, i);
    assert lines[1..][i - 1] == lines[i];
  }

  lemma BaselineStep(y: real, spacing: real, i: nat)
    requires i >= 1
    ensures y + i as real * spacing == (y + spacing) + (i - 1) as real * spacing
  {
  }

  /** The block is its lines drawn one after another, in order. */
  lemma {:induction false} DrawLinesBaselines(pen: GlyphPen, lines: seq<seq<string>>, ox: real, y: real, spacing: real, m: Layout, scale: real)
    ensures DrawLines(pen, lines, ox, y, spacing, m, scale) == Flatten(LineCallsFrom(pen, lines, ox, y, spacing, m, scale))
    decreases |lines|
  {
    if |lines| > 0 {
      DrawLinesBaselines(pen, lines[1..], ox, y + spacing, spacing, m, scale);
      FlattenCons(DrawTextLine(pen, JoinSpace(lines[0]), ox, y, m.height, m.letterSpacing, m.wordSpacing, scale),
                  LineCallsFrom(pen, lines[1..], ox, y + spacing, spacing, m, scale));
    }
  }

  lemma {:induction false} DrawLinesOnlyMotion(pen: GlyphPen, lines: seq<seq<string>>, ox: real, y: real, spacing: real, m: Layout, scale: real)
    requires PenMovesOnly(pen)
    ensures OnlyMotion(DrawLines(pen, lines, ox, y, spacing, m, scale))
    decreases |lines|
  {
    if |lines| > 0 {
      var first := DrawTextLine(pen, JoinSpace(lines[0]), ox, y, m.height, m.letterSpacing, m.wordSpacing, scale);
      TextLineOnlyMotion(pen, JoinSpace(lines[0]), ox, y, m.height, m.letterSpacing, m.wordSpacing, scale);
      DrawLinesOnlyMotion(pen, lines[1..], ox, y + spacing, spacing, m, scale);
      OnlyMotionAppend(first, DrawLines(pen, lines[1..], ox, y + spacing, spacing, m, scale));
    }
  }

  /** The drawn distance between baselines: the given spacing or 1.5 times the height, scaled. */
  function LineSpacing(m: Layout, lineSpacing: Option<real>, scale: real): real
  {
    (if lineSpacing.Some? then lineSpacing.value else 1.5 * m.height) * scale
  }

  /**
   * `draw_wrapped_text`: the calls issued and the value returned. Blank text
   * issues nothing and returns None; otherwise the words are wrapped at the
   * unscaled height, the lines are drawn at the scaled height and spacing, and
   * the line count is returned.
   */
  function DrawWrappedText(pen: GlyphPen, text: string, ox: real, baseY: real, m: Layout, lineSpacing: Option<real>, scale: real): (r: (seq<Call>, Option<nat>))
    ensures r.1.None? <==> AllSpace(text)
    ensures r.1.None? ==> r.0 == []
    ensures r.1.Some? ==> r.1.value >= 1
  {
    var words := Split(text);
    if |words| == 0 then ([], None)
    else
      var lines := Wrap(words, m);
      WrapSpec(words, m);
      (DrawLines(pen, lines, ox, baseY, LineSpacing(m, lineSpacing, scale), m, scale), Some(|lines|))
  }

  /**
   * For text with words: the lines are the greedy wrap of the text's words,
   * whatever the drawing scale; line `i` is drawn on baseline `baseY + i * spacing`;
   * and the value returned is the number of lines.
   */
  lemma WrappedTextLayout(pen: GlyphPen, text: string, ox: real, baseY: real, m: Layout, lineSpacing: Option<real>, scale: real)
    requires !AllSpace(text)
    ensures var lines := Wrap(Split(text), m);
            && Flatten(lines) == Split(text)
            && var perLine := LineCallsFrom(pen, lines, ox, baseY, LineSpacing(m, lineSpacing, scale), m, scale);
            && DrawWrappedText(pen, text, ox, baseY, m, lineSpacing, scale) == (Flatten(perLine), Some(|lines|))
            && |perLine| == |lines|
            && forall i :: 0 <= i < |lines| ==>
                 perLine[i] == LineCalls(pen, lines, i, ox, baseY, LineSpacing(m, lineSpacing, scale), m, scale)
  {
    var lines := Wrap(Split(text), m);
    WrapSpec(Split(text), m);
    DrawLinesBaselines(pen, lines, ox, baseY, LineSpacing(m, lineSpacing, scale), m, scale);
    LineCallsAt(pen, lines, ox, baseY, LineSpacing(m, lineSpacing, scale), m, scale);
  }

  /** Wrapped text issues only pen moves and lines. */
  lemma WrappedTextOnlyMotion(pen: GlyphPen, text: string, ox: real, baseY: real, m: Layout, lineSpacing: Option<real>, scale: real)
    requires PenMovesOnly(pen)
    ensures OnlyMotion(DrawWrappedText(pen, text, ox, baseY, m, lineSpacing, scale).0)
  {
    if !AllSpace(text) {
      DrawLinesOnlyMotion(pen, Wrap(Split(text), m), ox, baseY, LineSpacing(m, lineSpacing, scale), m, scale);
    }
  }

  lemma WordsHaveNoSpaceChar(line: seq<string>, words: seq<string>, i: nat)
    requires forall k :: 0 <= k < |words| ==> IsWord(words[k])
    requires i < |line| && line[i] in words
    ensures NoSpaceChar(line[i])
  {
    assert IsSpace(' ');
  }

  /**
   * The cursor crosses each wrapped line by the scale times the width the wrap
   * measured for it: drawing at a scale stretches the lines but never rewraps them.
   * The words are those of `split()`, which never hold whitespace.
   */
  lemma WrappedLineWidth(words: seq<string>, m: Layout, scale: real, i: nat)
    requires forall k :: 0 <= k < |words| ==> IsWord(words[k])
    requires i < |Wrap(words, m)|
    ensures TextAdvance(JoinSpace(Wrap(words, m)[i]), m.height * scale, m.letterSpacing, m.wordSpacing)
              == scale * Measure(Wrap(words, m)[i], m)
  {
    WrappedWordsHaveNoSpace(words, m, i);
    ScaledLineWidth(Wrap(words, m)[i], m, scale);
  }

  lemma WrappedWordsHaveNoSpace(words: seq<string>, m: Layout, i: nat)
    requires forall k :: 0 <= k < |words| ==> IsWord(words[k])
    requires i < |Wrap(words, m)|
    ensures forall k :: 0 <= k < |Wrap(words, m)[i]| ==> NoSpaceChar(Wrap(words, m)[i][k])
  {
    var lines := Wrap(words, m);
    WrapSpec(words, m);
    var line := lines[i];
    forall k | 0 <= k < |line| ensures NoSpaceChar(line[k]) {
      FlattenMember(lines, i, k);
      WordsHaveNoSpaceChar(line, words, k);
    }
  }

  /** A line of words without spaces is crossed at drawn scale by the scale times its measured width. */
  lemma ScaledLineWidth(line: seq<string>, m: Layout, scale: real)
    requires forall k :: 0 <= k < |line| ==> NoSpaceChar(line[k])
    ensures TextAdvance(JoinSpace(line), m.height * scale, m.letterSpacing, m.wordSpacing) == scale * Measure(line, m)
  {
    MeasureScales(line, m, scale);
    LineDrawnAsMeasured(line, m.height * scale, m.letterSpacing, m.wordSpacing);
  }

  lemma MeasureScales(line: seq<string>, m: Layout, scale: real)
    ensures LineMeasure(line, m.height * scale, m.letterSpacing, m.wordSpacing) == scale * Measure(line, m)
  {
    LineMeasureScales(line, m.height, m.letterSpacing, m.wordSpacing, scale);
  }

  lemma {:induction false} FlattenMember<T>(xss: seq<seq<T>>, i: nat, k: nat)
    requires i < |xss| && k < |xss[i]|
    ensures xss[i][k] in Flatten(xss)
    decreases |xss|
  {
    var n := |xss|;
    FlattenAppend(xss[..n - 1], [xss[n - 1]]);
    assert xss[..n - 1] + [xss[n - 1]] == xss;
    if i < n - 1 {
      FlattenMember(xss[..n - 1], i, k);
    } else {
      assert Flatten([xss[n - 1]]) == xss[n - 1] by {
        assert [xss[n - 1]][..0] == [];
      }
    }
  }

  // ---------------------------------------------------------------- default arguments

  /** `draw_glyph`'s `tracking_in=0.0`. */
  const DefaultTracking: real := 0.0

  /** `draw_text_line`'s `height_in=0.5`. */
  const LineDefaultHeight: real := 0.5

  /** The `letter_spacing_em=0.12` of both `draw_text_line` and `draw_wrapped_text`. */
  const DefaultLetterSpacing: real := 0.12

  /** The `font_scale=1.0` of both `draw_text_line` and `draw_wrapped_text`. */
  const DefaultScale: real := 1.0

  /** `draw_wrapped_text`'s `height_in=0.6`, `letter_spacing_em=0.12`, `word_spacing_em=None` and `max_width_in=5.0`. */
  const WrappedDefaults: Layout := Layout(0.6, DefaultLetterSpacing, None, 5.0)

  /** Without tracking a glyph advances exactly its width, 0.6 of its height. */
  lemma UntrackedGlyphAdvance(font: Font, key: char, x: real, y: real, h: real)
    ensures DrawGlyph(font, key, x, y, h, DefaultTracking).advance == 0.6 * h
  {
  }

  /**
   * `draw_text_line` with its default letter spacing, word spacing and scale, as
   * the envelope writer calls it: every character, the space included, moves the
   * cursor by 0.72 of the height, so 0.36 inches at the default height.
   */
  lemma {:induction false} DefaultLineAdvance(text: string, h: real)
    ensures TextAdvance(text, h * DefaultScale, DefaultLetterSpacing, None) == |text| as real * 0.72 * h
    ensures TextAdvance(text, LineDefaultHeight * DefaultScale, DefaultLetterSpacing, None) == |text| as real * 0.36
    decreases |text|
  {
    if |text| > 0 {
      DefaultLineAdvance(text[..|text| - 1], h);
      assert CharAdvance(text[|text| - 1], h, DefaultLetterSpacing, None) == 0.72 * h;
      assert CharAdvance(text[|text| - 1], LineDefaultHeight, DefaultLetterSpacing, None) == 0.36;
    }
  }

  /** With no word-spacing override a line's measure is its joined length times the glyph advance. */
  lemma {:induction false} LineMeasureJoined(words: seq<string>, h: real, ls: real)
    ensures LineMeasure(words, h, ls, None) == |JoinSpace(words)| as real * GlyphAdvance(h, ls)
    decreases |words|
  {
    if |words| > 1 {
      LineMeasureJoined(words[1..], h, ls);
      assert |JoinSpace(words)| == |words[0]| + 1 + |JoinSpace(words[1..])|;
    }
  }

  /**
   * `draw_wrapped_text` with its defaults: baselines 0.9 inches apart, and every
   * line that holds more than one word is at most six characters long once
   * joined, since each character advances 0.432 inches against a 3-inch budget.
   */
  lemma DefaultWrap(words: seq<string>)
    ensures LineSpacing(WrappedDefaults, None, DefaultScale) == 0.9
    ensures forall i :: 0 <= i < |Wrap(words, WrappedDefaults)| && |Wrap(words, WrappedDefaults)[i]| > 1 ==>
              |JoinSpace(Wrap(words, WrappedDefaults)[i])| <= 6
  {
    var lines := Wrap(words, WrappedDefaults);
    WrapSpec(words, WrappedDefaults);
    forall i | 0 <= i < |lines| && |lines[i]| > 1 ensures |JoinSpace(lines[i])| <= 6 {
      assert Fits(lines[i], WrappedDefaults);
      LineMeasureJoined(lines[i], 0.6, DefaultLetterSpacing);
      assert GlyphAdvance(0.6, DefaultLetterSpacing) == 0.432;
    }
  }
}
