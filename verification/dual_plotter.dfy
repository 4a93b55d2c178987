/**
 * The simulated ("image mode") branch of the dual-mode plotter: a recorder that
 * tracks the pen position, the pen-up + pen-down travel and the pen-down drawn
 * length, appends every call to a command log, keeps the current stroke colour,
 * and snapshots the pen/speed options at the first `connect`.
 */
module DualPlotter {
  import opened Wrappers
  import opened PyStrings
  import opened Plotting

  // ---------------------------------------------------------------- colours

  datatype Rgb = Rgb(r: int, g: int, b: int)

  function ColorTable(): map<string, Rgb>
  {
    map[
      "BLACK"   := Rgb(0, 0, 0),
      "RED"     := Rgb(220, 20, 60),
      "ORANGE"  := Rgb(255, 165, 0),
      "YELLOW"  := Rgb(255, 215, 0),
      "GREEN"   := Rgb(34, 139, 34),
      "CYAN"    := Rgb(0, 180, 180),
      "BLUE"    := Rgb(30, 144, 255),
      "PURPLE"  := Rgb(128, 0, 128),
      "MAGENTA" := Rgb(255, 0, 255),
      "GREY"    := Rgb(200, 200, 200)
    ]
  }

  const Black: Rgb := Rgb(0, 0, 0)

  /** An argument of dynamic type: a Python `str`, or any other object. */
  datatype PyValue = Str(s: string) | NotStr

  /** `_rgb_for_name`: normalise with `strip().upper()`, look up, fall back to black. */
  function RgbForName(v: PyValue): (c: Rgb)
    ensures c in ColorTable().Values
    ensures v.Str? && Upper(Strip(v.s)) in ColorTable() ==> c == ColorTable()[Upper(Strip(v.s))]
    ensures v.NotStr? || Upper(Strip(v.s)) !in ColorTable() ==> c == Black
  {
    assert ColorTable()["BLACK"] == Black;
    if v.NotStr? then Black
    else
      var name := Upper(Strip(v.s));
      if name in ColorTable() then ColorTable()[name] else Black
  }

  /** Case and surrounding whitespace never change the resolved colour. */
  lemma RgbIgnoresCaseAndPadding(s: string, t: string, w1: string, w2: string)
    requires Upper(s) == Upper(t)
    requires AllSpace(w1) && AllSpace(w2)
    ensures RgbForName(Str(w1 + s + w2)) == RgbForName(Str(t))
  {
    StripIgnoresPadding(w1, s, w2);
    StripUpperIgnoresCase(s, t);
  }

  /** A name already in canonical form is its own normalisation. */
  lemma CanonicalIsFixed(s: string)
    requires IsStripped(s) && Upper(s) == s
    ensures Upper(Strip(s)) == s
  {
    StripOfStripped(s);
  }

  lemma TealIsCanonical()
    ensures Upper(Strip("TEAL")) == "TEAL"
  {
    assert Upper("TEAL") == "TEAL";
    CanonicalIsFixed("TEAL");
  }

  lemma BlackIsCanonical()
    ensures Upper(Strip("BLACK")) == "BLACK"
  {
    assert Upper("BLACK") == "BLACK";
    CanonicalIsFixed("BLACK");
  }

  /** An unknown name such as "TEAL" resolves like "BLACK". */
  lemma UnknownColorIsBlack()
    ensures RgbForName(Str("TEAL")) == RgbForName(Str("BLACK")) == Black
  {
    TealIsCanonical();
    BlackIsCanonical();
    assert "TEAL" !in ColorTable();
  }

  /** A non-string argument resolves like "BLACK". */
  lemma NonStringIsBlack()
    ensures RgbForName(NotStr) == RgbForName(Str("BLACK")) == Black
  {
    BlackIsCanonical();
  }

  lemma PurpleResolves()
    ensures RgbForName(Str("PURPLE")) == Rgb(128, 0, 128)
  {
    assert Upper("PURPLE") == "PURPLE";
    CanonicalIsFixed("PURPLE");
  }

  /** A padded lower-case name resolves to its table entry. */
  lemma PaddedLowerCaseResolves()
    ensures RgbForName(Str(" purple\n")) == Rgb(128, 0, 128)
  {
    assert " purple\n" == " " + "purple" + "\n";
    assert Upper("purple") == Upper("PURPLE") by {
      assert Upper("purple") == "PURPLE";
      assert Upper("PURPLE") == "PURPLE";
    }
    assert AllSpace(" ") && AllSpace("\n");
    RgbIgnoresCaseAndPadding("purple", "PURPLE", " ", "\n");
    PurpleResolves();
  }

  // ---------------------------------------------------------------- page geometry

  /** Python's `round(r)` to an int: nearest integer, ties to the even one. */
  function RoundHalfEven(r: real): (n: int)
    ensures -0.5 <= r - n as real <= 0.5
    ensures r - n as real == 0.5 || r - n as real == -0.5 ==> n % 2 == 0
  {
    var f := r.Floor;
    var d := r - f as real;
    if d < 0.5 then f
    else if d > 0.5 then f + 1
    else if f % 2 == 0 then f
    else f + 1
  }

  lemma RoundMonotone(a: real, b: real)
    requires a <= b
    ensures RoundHalfEven(a) <= RoundHalfEven(b)
  {
  }

  /** A length in inches times the resolution. */
  function Scale(v: real, dpi: int): real
  {
    v * dpi as real
  }

  lemma ScaleMonotone(a: real, b: real, dpi: int)
    requires a <= b && 0 <= dpi
    ensures Scale(a, dpi) <= Scale(b, dpi)
  {
    assert b * dpi as real - a * dpi as real == (b - a) * dpi as real;
  }

  lemma RoundOfInt(k: int)
    ensures RoundHalfEven(k as real) == k
  {
  }

  /** `_Options`: the pen and speed settings a caller may change before `connect`. */
  datatype Options = Options(
    penPosDown: real, penPosUp: real, speedPendown: real, speedPenup: real, accel: real)

  const DefaultOptions: Options := Options(70.0, 20.0, 25.0, 60.0, 30.0)

  /** The constructor's page box (inches), resolution and line width (pixels). */
  datatype Page = Page(xmin: real, ymin: real, xmax: real, ymax: real, dpi: int, linePx: int)

  const DefaultPage: Page := Page(0.0, 0.0, 11.69, 8.27, 100, 1)

  /** Python's `int(r)` on a number: the integer part, truncated toward zero. */
  function TruncInt(r: real): (n: int)
    ensures 0.0 <= r ==> n as real <= r < n as real + 1.0
    ensures r < 0.0 ==> n as real - 1.0 < r <= n as real
  {
    if r >= 0.0 then r.Floor else -((-r).Floor)
  }

  /**
   * The page the constructor sets up: `self.dpi = int(dpi)` and
   * `self.line_px = int(line_px)` truncate a fractional argument.
   */
  function MakePage(bbox: (real, real, real, real), dpi: real, linePx: real): (page: Page)
    ensures (page.xmin, page.ymin, page.xmax, page.ymax) == bbox
    ensures page.dpi == TruncInt(dpi) && page.linePx == TruncInt(linePx)
  {
    Page(bbox.0, bbox.1, bbox.2, bbox.3, TruncInt(dpi), TruncInt(linePx))
  }

  /** A resolution of 150.7 sizes the canvas at 150 dots per inch, and -2.5 truncates to -2. */
  lemma DpiTruncates()
    ensures MakePage((0.0, 0.0, 1.0, 1.0), 150.7, 1.0).dpi == 150
    ensures MakePage((0.0, 0.0, 1.0, 1.0), -2.5, 1.0).dpi == -2
    ensures Width(MakePage((0.0, 0.0, 1.0, 1.0), 150.7, 1.0)) == 150
  {
    assert TruncInt(150.7) == 150;
    assert TruncInt(-2.5) == -2;
  }

  /** The constructor's default arguments give the default page: the A4 landscape box at 100 dpi with one-pixel lines. */
  lemma DefaultPageIsMade()
    ensures MakePage((0.0, 0.0, 11.69, 8.27), 100.0, 1.0) == DefaultPage
  {
    assert TruncInt(100.0) == 100;
    assert TruncInt(1.0) == 1;
  }

  /** One canvas dimension: `max(1, int(round(max(0.0, hi - lo) * dpi)))`. */
  function CanvasExtent(lo: real, hi: real, dpi: int): (n: int)
    ensures n >= 1
    ensures hi <= lo ==> n == 1
    ensures hi > lo && Scale(hi - lo, dpi) >= 0.5 ==> -0.5 <= n as real - Scale(hi - lo, dpi) <= 0.5
    ensures hi > lo && Scale(hi - lo, dpi) < 0.5 ==> n == 1
  {
    var extent := if hi - lo > 0.0 then hi - lo else 0.0;
    var k := RoundHalfEven(Scale(extent, dpi));
    if k > 1 then k else 1
  }

  function Width(page: Page): (w: int)
    ensures w >= 1
  {
    CanvasExtent(page.xmin, page.xmax, page.dpi)
  }

  function Height(page: Page): (h: int)
    ensures h >= 1
  {
    CanvasExtent(page.ymin, page.ymax, page.dpi)
  }

  /** `_to_px`: inches to pixels, with Y flipped so that +Y is up on the page. */
  function ToPx(page: Page, x: real, y: real): (p: (int, int))
    ensures x == page.xmin && y == page.ymax ==> p == (0, 0)
    ensures page.xmax - page.xmin > 0.0 && page.ymax - page.ymin > 0.0
            && Scale(page.xmax - page.xmin, page.dpi) >= 1.0
            && Scale(page.ymax - page.ymin, page.dpi) >= 1.0
            && x == page.xmax && y == page.ymin
            ==> p == (Width(page), Height(page))
  {
    PixelCorners(page, x, y);
    (RoundHalfEven(Scale(x - page.xmin, page.dpi)),
     RoundHalfEven(Scale(page.ymax - y, page.dpi)))
  }

  lemma PixelCorners(page: Page, x: real, y: real)
    ensures var px := RoundHalfEven(Scale(x - page.xmin, page.dpi));
            var py := RoundHalfEven(Scale(page.ymax - y, page.dpi));
            && (x == page.xmin ==> px == 0)
            && (y == page.ymax ==> py == 0)
            && ((page.xmax - page.xmin > 0.0 && Scale(page.xmax - page.xmin, page.dpi) >= 1.0
                 && x == page.xmax) ==> px == Width(page))
            && ((page.ymax - page.ymin > 0.0 && Scale(page.ymax - page.ymin, page.dpi) >= 1.0
                 && y == page.ymin) ==> py == Height(page))
  {
    assert Scale(0.0, page.dpi) == 0.0;
    RoundOfInt(0);
  }

  /** With a non-negative resolution, a point higher on the page lands on a smaller pixel row. */
  lemma ToPxFlipsY(page: Page, x: real, y1: real, y2: real)
    requires page.dpi >= 0 && y1 <= y2
    ensures ToPx(page, x, y2).1 <= ToPx(page, x, y1).1
    ensures ToPx(page, x, y2).0 == ToPx(page, x, y1).0
  {
    ScaleMonotone(page.ymax - y2, page.ymax - y1, page.dpi);
    RoundMonotone(Scale(page.ymax - y2, page.dpi), Scale(page.ymax - y1, page.dpi));
  }

  lemma ToPxMonotoneX(page: Page, x1: real, x2: real, y: real)
    requires page.dpi >= 0 && x1 <= x2
    ensures ToPx(page, x1, y).0 <= ToPx(page, x2, y).0
  {
    ScaleMonotone(x1 - page.xmin, x2 - page.xmin, page.dpi);
    RoundMonotone(Scale(x1 - page.xmin, page.dpi), Scale(x2 - page.xmin, page.dpi));
  }

  // ---------------------------------------------------------------- session

  /** The recorder's whole state in image mode. */
  datatype Session = Session(
    page: Page,
    pos: Option<Point>,
    travel: real,
    drawn: real,
    log: seq<Call>,
    strokeName: string,
    strokeRgb: Rgb,
    options: Options,
    snapshot: Option<Options>,
    calledInteractive: bool)

  /** Where the log says the pen is: the target of its last entry. */
  function LogPosition(log: seq<Call>): Option<Point>
  {
    if |log| == 0 then None else Some(Target(log[|log| - 1]))
  }

  /** Every colour entry directly follows the park move to the origin. */
  predicate ColorsParked(log: seq<Call>)
  {
    forall i :: 0 <= i < |log| && log[i].ColorChange? ==> 0 < i && log[i - 1] == MoveTo(0.0, 0.0)
  }

  /** What every reachable session satisfies. */
  predicate Valid(s: Session)
  {
    && 0.0 <= s.drawn <= s.travel
    && s.pos == LogPosition(s.log)
    && (s.pos.None? ==> s.travel == 0.0)
    && ColorsParked(s.log)
    && s.strokeRgb == RgbForName(Str(s.strokeName))
  }

  /** The fields no pen motion touches. */
  predicate SameSettings(s: Session, t: Session)
  {
    && t.page == s.page
    && t.strokeName == s.strokeName
    && t.strokeRgb == s.strokeRgb
    && t.options == s.options
    && t.snapshot == s.snapshot
    && t.calledInteractive == s.calledInteractive
  }

  /** `DualPlotter(use_device=False, ...)`. */
  function NewSession(page: Page): (s: Session)
    ensures s.pos.None? && s.log == [] && s.travel == 0.0 && s.drawn == 0.0 && s.snapshot.None?
    ensures s.strokeRgb == Black && s.options == DefaultOptions
  {
    Session(page, None, 0.0, 0.0, [], "BLACK", Black, DefaultOptions, None, false)
  }

  /** A fresh session satisfies the invariant. */
  lemma NewSessionValid(page: Page)
    ensures Valid(NewSession(page))
  {
    NonStringIsBlack();
    assert ColorsParked([]);
  }

  /** `interactive()` in image mode only records that it was called. */
  function Interactive(s: Session): (t: Session)
    ensures t.calledInteractive
    ensures t.pos == s.pos && t.log == s.log && t.snapshot == s.snapshot && t.options == s.options
    ensures t.page == s.page && t.travel == s.travel && t.drawn == s.drawn
    ensures t.strokeName == s.strokeName && t.strokeRgb == s.strokeRgb
  {
    s.(calledInteractive := true)
  }

  /** The caller assigning new values to `ad.options.*`. */
  function WithOptions(s: Session, o: Options): (t: Session)
    ensures t.options == o && t.snapshot == s.snapshot && t.log == s.log
    ensures t.page == s.page && t.pos == s.pos && t.travel == s.travel && t.drawn == s.drawn
    ensures t.strokeName == s.strokeName && t.strokeRgb == s.strokeRgb && t.calledInteractive == s.calledInteractive
  {
    s.(options := o)
  }

  /** `connect()`: snapshot the options the first time only; always succeeds. */
  function Connect(s: Session): (r: (Session, bool))
    ensures r.1
    ensures r.0.snapshot.Some?
    ensures s.snapshot.Some? ==> r.0.snapshot == s.snapshot
    ensures s.snapshot.None? ==> r.0.snapshot == Some(s.options)
    ensures r.0.pos == s.pos && r.0.log == s.log && r.0.options == s.options
    ensures r.0.page == s.page && r.0.travel == s.travel && r.0.drawn == s.drawn
    ensures r.0.strokeName == s.strokeName && r.0.strokeRgb == s.strokeRgb && r.0.calledInteractive == s.calledInteractive
  {
    var snap := if s.snapshot.None? then Some(s.options) else s.snapshot;
    (s.(snapshot := snap), true)
  }

  /** Options changed after the first `connect` never reach the snapshot. */
  lemma {:induction false} SnapshotTakenOnce(s: Session, changes: seq<Options>)
    ensures ReconnectAfter(Connect(s).0, changes).snapshot == Connect(s).0.snapshot
    decreases |changes|
  {
    if |changes| > 0 {
      SnapshotTakenOnce(s, changes[..|changes| - 1]);
    }
  }

  /** A caller that changes the options and reconnects, once per element of `changes`. */
  function ReconnectAfter(s: Session, changes: seq<Options>): Session
  {
    if |changes| == 0 then s
    else Connect(WithOptions(ReconnectAfter(s, changes[..|changes| - 1]), changes[|changes| - 1])).0
  }

  /** `moveto(x, y)`: pen-up travel; only the travel accumulator grows. */
  function PenMoveTo(s: Session, x: real, y: real, dist: DistFn): (t: Session)
    ensures t.pos == Some(Point(x, y))
    ensures t.log == s.log + [MoveTo(x, y)]
    ensures s.pos.None? ==> t.travel == s.travel
    ensures s.pos.Some? ==> t.travel == s.travel + dist(s.pos.value, Point(x, y))
    ensures t.drawn == s.drawn
    ensures SameSettings(s, t)
  {
    var p := Point(x, y);
    var travel := if s.pos.Some? then s.travel + dist(s.pos.value, p) else s.travel;
    s.(pos := Some(p), travel := travel, log := s.log + [MoveTo(x, y)])
  }

  /**
   * `lineto(x, y)`: pen-down travel. Without a prior position it only jumps there
   * (and is still logged); otherwise both accumulators grow by the segment length.
   */
  function PenLineTo(s: Session, x: real, y: real, dist: DistFn): (t: Session)
    ensures t.pos == Some(Point(x, y))
    ensures t.log == s.log + [LineTo(x, y)]
    ensures s.pos.None? ==> t.travel == s.travel && t.drawn == s.drawn
    ensures s.pos.Some? ==> var d := dist(s.pos.value, Point(x, y));
                            t.travel == s.travel + d && t.drawn == s.drawn + d
    ensures t.travel - t.drawn == s.travel - s.drawn
    ensures SameSettings(s, t)
  {
    var p := Point(x, y);
    if s.pos.None? then
      s.(pos := Some(p), log := s.log + [LineTo(x, y)])
    else
      var d := dist(s.pos.value, p);
      s.(pos := Some(p), travel := s.travel + d, drawn := s.drawn + d,
         log := s.log + [LineTo(x, y)])
  }

  /**
   * `confirmColorChange(name)` in image mode: park at the origin, then switch the
   * stroke colour (unknown names draw black) and log the name verbatim.
   */
  function ConfirmColorChange(s: Session, name: string, dist: DistFn): (t: Session)
    ensures t.log == s.log + [MoveTo(0.0, 0.0), ColorChange(name)]
    ensures t.pos == Some(Point(0.0, 0.0))
    ensures t.strokeName == name && t.strokeRgb == RgbForName(Str(name))
    ensures t.travel == PenMoveTo(s, 0.0, 0.0, dist).travel && t.drawn == s.drawn
    ensures t.page == s.page && t.options == s.options && t.snapshot == s.snapshot
  {
    var m := PenMoveTo(s, 0.0, 0.0, dist);
    m.(strokeName := name, strokeRgb := RgbForName(Str(name)),
       log := m.log + [ColorChange(name)])
  }

  /** The log entries one call produces. */
  function LogOf(c: Call): seq<Call>
  {
    if c.ColorChange? then [MoveTo(0.0, 0.0), c] else [c]
  }

  function Apply(s: Session, c: Call, dist: DistFn): (t: Session)
    ensures t.log == s.log + LogOf(c)
    ensures t.pos == Some(Target(c))
  {
    match c
    case MoveTo(x, y) => PenMoveTo(s, x, y, dist)
    case LineTo(x, y) => PenLineTo(s, x, y, dist)
    case ColorChange(n) => ConfirmColorChange(s, n, dist)
  }

  /** Issue the calls in order. */
  function Run(s: Session, calls: seq<Call>, dist: DistFn): Session
    decreases |calls|
  {
    if |calls| == 0 then s else Run(Apply(s, calls[0], dist), calls[1..], dist)
  }

  lemma {:induction false} RunAppend(s: Session, a: seq<Call>, b: seq<Call>, dist: DistFn)
    ensures Run(s, a + b, dist) == Run(Run(s, a, dist), b, dist)
    decreases |a|
  {
    if |a| == 0 {
      assert a + b == b;
    } else {
      assert (a + b)[0] == a[0];
      assert (a + b)[1..] == a[1..] + b;
      RunAppend(Apply(s, a[0], dist), a[1..], b, dist);
    }
  }

  lemma RunSnoc(s: Session, calls: seq<Call>, c: Call, dist: DistFn)
    ensures Run(s, calls + [c], dist) == Apply(Run(s, calls, dist), c, dist)
  {
    RunAppend(s, calls, [c], dist);
  }

  /** Pen motions are logged verbatim, in order. */
  lemma {:induction false} RunLogsMotion(s: Session, calls: seq<Call>, dist: DistFn)
    requires OnlyMotion(calls)
    ensures Run(s, calls, dist).log == s.log + calls
    ensures |calls| > 0 ==> Run(s, calls, dist).pos == Some(Target(calls[|calls| - 1]))
    ensures SameSettings(s, Run(s, calls, dist))
    decreases |calls|
  {
    if |calls| > 0 {
      var t := Apply(s, calls[0], dist);
      assert OnlyMotion(calls[1..]);
      RunLogsMotion(t, calls[1..], dist);
      assert [calls[0]] + calls[1..] == calls;
    }
  }

  // ---------------------------------------------------------------- invariant

  lemma ApplyPreservesValid(s: Session, c: Call, dist: DistFn)
    requires Valid(s) && NonNegative(dist)
    ensures Valid(Apply(s, c, dist))
  {
    var t := Apply(s, c, dist);
    assert LogPosition(t.log) == Some(Target(c)) by {
      assert t.log[|t.log| - 1] == LogOf(c)[|LogOf(c)| - 1];
    }
    if s.pos.Some? {
      assert dist(s.pos.value, Target(c)) >= 0.0;
    }
    forall i | 0 <= i < |t.log| && t.log[i].ColorChange?
      ensures 0 < i && t.log[i - 1] == MoveTo(0.0, 0.0)
    {
      if i < |s.log| {
        assert t.log[i] == s.log[i] && t.log[i - 1] == s.log[i - 1];
      } else {
        assert c.ColorChange? && i == |s.log| + 1;
      }
    }
  }

  lemma {:induction false} RunPreservesValid(s: Session, calls: seq<Call>, dist: DistFn)
    requires Valid(s) && NonNegative(dist)
    ensures Valid(Run(s, calls, dist))
    decreases |calls|
  {
    if |calls| > 0 {
      ApplyPreservesValid(s, calls[0], dist);
      RunPreservesValid(Apply(s, calls[0], dist), calls[1..], dist);
    }
  }

  /** Every session that pen calls reach from a fresh one satisfies the invariant; in particular drawn <= travel. */
  lemma ReachableValid(page: Page, calls: seq<Call>, dist: DistFn)
    requires NonNegative(dist)
    ensures Valid(Run(NewSession(page), calls, dist))
    ensures Run(NewSession(page), calls, dist).drawn <= Run(NewSession(page), calls, dist).travel
  {
    NewSessionValid(page);
    RunPreservesValid(NewSession(page), calls, dist);
  }

  /** What a caller does to the plotter: a pen call, an assignment to the options, `interactive()` or `connect()`. */
  datatype Op = Pen(call: Call) | SetOptions(o: Options) | CallInteractive | CallConnect

  function Perform(s: Session, op: Op, dist: DistFn): Session
  {
    match op
    case Pen(c) => Apply(s, c, dist)
    case SetOptions(o) => WithOptions(s, o)
    case CallInteractive => Interactive(s)
    case CallConnect => Connect(s).0
  }

  /** The session after a caller's operations, in order. */
  function Drive(s: Session, ops: seq<Op>, dist: DistFn): Session
    decreases |ops|
  {
    if |ops| == 0 then s else Drive(Perform(s, ops[0], dist), ops[1..], dist)
  }

  /** Setting up the plotter keeps the invariant: none of the three touches the pen, the log or the colour. */
  lemma SetupKeepsValid(s: Session, o: Options)
    requires Valid(s)
    ensures Valid(Interactive(s)) && Valid(WithOptions(s, o)) && Valid(Connect(s).0)
  {
  }

  lemma {:induction false} DriveKeepsValid(s: Session, ops: seq<Op>, dist: DistFn)
    requires Valid(s) && NonNegative(dist)
    ensures Valid(Drive(s, ops, dist))
    decreases |ops|
  {
    if |ops| > 0 {
      match ops[0] {
        case Pen(c) => ApplyPreservesValid(s, c, dist);
        case SetOptions(o) => SetupKeepsValid(s, o);
        case CallInteractive => SetupKeepsValid(s, s.options);
        case CallConnect => SetupKeepsValid(s, s.options);
      }
      DriveKeepsValid(Perform(s, ops[0], dist), ops[1..], dist);
    }
  }

  /**
   * Every session a caller reaches from a fresh one, through any interleaving of
   * `interactive()`, `connect()`, option changes and pen calls, satisfies the
   * invariant; in particular drawn <= travel.
   */
  lemma DrivenValid(page: Page, ops: seq<Op>, dist: DistFn)
    requires NonNegative(dist)
    ensures Valid(Drive(NewSession(page), ops, dist))
    ensures Drive(NewSession(page), ops, dist).drawn <= Drive(NewSession(page), ops, dist).travel
  {
    NewSessionValid(page);
    DriveKeepsValid(NewSession(page), ops, dist);
  }

  /**
   * The envelope writer's opening `interactive()` then `connect()`: the pen is
   * still unplaced with nothing logged or measured, and the snapshot holds the
   * default options, so a replay script written later prints 70/20/25/60/30.
   */
  lemma OpeningSnapshotsDefaults(page: Page, dist: DistFn)
    ensures var s := Drive(NewSession(page), [CallInteractive, CallConnect], dist);
            && s.calledInteractive && s.snapshot == Some(DefaultOptions)
            && s.pos.None? && s.log == [] && s.travel == 0.0 && s.drawn == 0.0
  {
    var s1 := Perform(NewSession(page), CallInteractive, dist);
    assert Drive(NewSession(page), [CallInteractive, CallConnect], dist) == Drive(s1, [CallConnect], dist);
    assert Drive(s1, [CallConnect], dist) == Drive(Connect(s1).0, [], dist);
  }

  // ---------------------------------------------------------------- path lengths

  /** One call adds the distance to its target to the travel, and to the drawn length if it draws. */
  lemma ApplyAccumulates(s: Session, c: Call, dist: DistFn)
    ensures var d := if s.pos.Some? then dist(s.pos.value, Target(c)) else 0.0;
            && Apply(s, c, dist).travel == s.travel + d
            && Apply(s, c, dist).drawn == s.drawn + (if c.LineTo? then d else 0.0)
  {
  }

  /** Extending the calls by one keeps the accumulators equal to the path measures. */
  lemma MeasureStep(s: Session, init: seq<Call>, c: Call, dist: DistFn)
    requires s.pos == LogPosition(init)
    requires s.travel == PathLength(Waypoints(init), dist) && s.drawn == DrawnLength(init, dist)
    ensures Apply(s, c, dist).travel == PathLength(Waypoints(init + [c]), dist)
    ensures Apply(s, c, dist).drawn == DrawnLength(init + [c], dist)
  {
    ApplyAccumulates(s, c, dist);
    MeasuresSnoc(init, c, dist);
  }

  /** One more call lengthens the path by the step from the last stop, and the ink by it when it draws. */
  lemma MeasuresSnoc(init: seq<Call>, c: Call, dist: DistFn)
    ensures var d := if LogPosition(init).Some? then dist(LogPosition(init).value, Target(c)) else 0.0;
            && PathLength(Waypoints(init + [c]), dist) == PathLength(Waypoints(init), dist) + d
            && DrawnLength(init + [c], dist) == DrawnLength(init, dist) + (if c.LineTo? then d else 0.0)
  {
    assert Waypoints(init + [c]) == Waypoints(init) + [Target(c)];
    if |init| > 0 {
      PathLengthSnoc(Waypoints(init), Target(c), dist);
      DrawnLengthSnoc(init, c, dist);
    }
  }

  /**
   * From a fresh session, the travel is the length of the path through all the
   * pen stops, the drawn length is the part of it drawn by `lineto`, and the pen
   * ends at the last stop.
   */
  lemma {:induction false} RunMeasuresPath(page: Page, calls: seq<Call>, dist: DistFn)
    ensures Run(NewSession(page), calls, dist).travel == PathLength(Waypoints(calls), dist)
    ensures Run(NewSession(page), calls, dist).drawn == DrawnLength(calls, dist)
    ensures Run(NewSession(page), calls, dist).pos == LogPosition(calls)
  {
    RunMeasuresFrom(NewSession(page), calls, dist);
  }

  lemma {:induction false} RunMeasuresFrom(s: Session, calls: seq<Call>, dist: DistFn)
    requires s.pos.None? && s.travel == 0.0 && s.drawn == 0.0
    ensures Run(s, calls, dist).travel == PathLength(Waypoints(calls), dist)
    ensures Run(s, calls, dist).drawn == DrawnLength(calls, dist)
    ensures Run(s, calls, dist).pos == LogPosition(calls)
    decreases |calls|
  {
    if |calls| > 0 {
      var init, c := calls[..|calls| - 1], calls[|calls| - 1];
      assert calls == init + [c];
      RunMeasuresFrom(s, init, dist);
      RunSnoc(s, init, c, dist);
      MeasureStep(Run(s, init, dist), init, c, dist);
    }
  }

  // ---------------------------------------------------------------- outline

  /** The five stops of the page outline: the four corners and back to the first. */
  function Corners(page: Page): seq<Point>
  {
    [Point(page.xmin, page.ymin), Point(page.xmin, page.ymax),
     Point(page.xmax, page.ymax), Point(page.xmax, page.ymin),
     Point(page.xmin, page.ymin)]
  }

  /** One corner visit of `outlinePage`: a move there, then a dot on the spot if asked. */
  function Stop(p: Point, dot: bool): seq<Call>
  {
    if dot then [MoveTo(p.x, p.y), LineTo(p.x, p.y)] else [MoveTo(p.x, p.y)]
  }

  /** The calls `outlinePage(do_dots)` issues. */
  function OutlineCalls(page: Page, doDots: bool): (calls: seq<Call>)
    ensures OnlyMotion(calls)
    ensures |calls| == if doDots then 9 else 5
    ensures forall i :: 0 <= i < 5 ==>
              var p := Corners(page)[i]; calls[if doDots then 2 * i else i] == MoveTo(p.x, p.y)
    ensures doDots ==> forall i :: 0 <= i < 4 ==>
              var p := Corners(page)[i]; calls[2 * i + 1] == LineTo(p.x, p.y)
    ensures calls[|calls| - 1] == MoveTo(page.xmin, page.ymin)
  {
    var c := Corners(page);
    Stop(c[0], doDots) + Stop(c[1], doDots) + Stop(c[2], doDots) + Stop(c[3], doDots)
      + [MoveTo(c[4].x, c[4].y)]
  }

  function OutlinePage(s: Session, doDots: bool, dist: DistFn): (t: Session)
    ensures t.log == s.log + OutlineCalls(s.page, doDots)
    ensures t.pos == Some(Point(s.page.xmin, s.page.ymin))
    ensures SameSettings(s, t)
  {
    RunLogsMotion(s, OutlineCalls(s.page, doDots), dist);
    Run(s, OutlineCalls(s.page, doDots), dist)
  }

  /** The part of a session the calls measure: pen position, travel and drawn length. */
  function Tally(s: Session): (Option<Point>, real, real)
  {
    (s.pos, s.travel, s.drawn)
  }

  /** What the calls add to the tally depends only on the tally they start from. */
  lemma {:induction false} RunRespectsTally(s: Session, t: Session, calls: seq<Call>, dist: DistFn)
    requires Tally(s) == Tally(t)
    ensures Tally(Run(s, calls, dist)) == Tally(Run(t, calls, dist))
    decreases |calls|
  {
    if |calls| > 0 {
      ApplyAccumulates(s, calls[0], dist);
      ApplyAccumulates(t, calls[0], dist);
      RunRespectsTally(Apply(s, calls[0], dist), Apply(t, calls[0], dist), calls[1..], dist);
    }
  }

  /** Pen-up moves never add to the drawn length. */
  lemma {:induction false} MovesDrawNothing(s: Session, calls: seq<Call>, dist: DistFn)
    requires forall i :: 0 <= i < |calls| ==> calls[i].MoveTo?
    ensures Run(s, calls, dist).drawn == s.drawn
    decreases |calls|
  {
    if |calls| > 0 {
      MovesDrawNothing(Apply(s, calls[0], dist), calls[1..], dist);
    }
  }

  /** The log entries a sequence of calls produces, in order. */
  function Expand(calls: seq<Call>): seq<Call>
  {
    if |calls| == 0 then [] else Expand(calls[..|calls| - 1]) + LogOf(calls[|calls| - 1])
  }

  /** Every call is logged, a colour change together with its park move, in call order. */
  lemma {:induction false} RunLogs(s: Session, calls: seq<Call>, dist: DistFn)
    ensures Run(s, calls, dist).log == s.log + Expand(calls)
    decreases |calls|
  {
    if |calls| > 0 {
      var init, c := calls[..|calls| - 1], calls[|calls| - 1];
      assert calls == init + [c];
      RunLogs(s, init, dist);
      RunSnoc(s, init, c, dist);
      assert s.log + Expand(init) + LogOf(c) == s.log + (Expand(init) + LogOf(c));
    }
  }

  lemma RunOne(s: Session, c: Call, dist: DistFn)
    ensures Run(s, [c], dist) == Apply(s, c, dist)
  {
    assert [c][1..] == [];
  }

  lemma RunTwo(s: Session, c: Call, d: Call, dist: DistFn)
    ensures Run(s, [c, d], dist) == Apply(Apply(s, c, dist), d, dist)
  {
    assert [c, d][1..] == [d];
    RunOne(Apply(s, c, dist), d, dist);
  }

  /** Replaying one call's log entries measures what the call did: the second park move is zero length. */
  lemma ReplayLogOf(s: Session, t: Session, c: Call, dist: DistFn)
    requires ZeroOnSame(dist) && Tally(s) == Tally(t)
    ensures Tally(Run(t, LogOf(c), dist)) == Tally(Apply(s, c, dist))
  {
    ApplyAccumulates(s, c, dist);
    if c.ColorChange? {
      var m := MoveTo(0.0, 0.0);
      RunTwo(t, m, c, dist);
      ApplyAccumulates(t, m, dist);
      ApplyAccumulates(Apply(t, m, dist), c, dist);
      assert dist(Point(0.0, 0.0), Point(0.0, 0.0)) == 0.0;
    } else {
      RunOne(t, c, dist);
      ApplyAccumulates(t, c, dist);
    }
  }

  /** Running a session's log again measures the same path as the calls that wrote it. */
  lemma {:induction false} RerunLog(s: Session, t: Session, calls: seq<Call>, dist: DistFn)
    requires ZeroOnSame(dist) && Tally(s) == Tally(t)
    ensures Tally(Run(t, Expand(calls), dist)) == Tally(Run(s, calls, dist))
    decreases |calls|
  {
    if |calls| > 0 {
      var init, c := calls[..|calls| - 1], calls[|calls| - 1];
      assert calls == init + [c];
      RerunLog(s, t, init, dist);
      RunSnoc(s, init, c, dist);
      RunAppend(t, Expand(init), LogOf(c), dist);
      ReplayLogOf(Run(s, init, dist), Run(t, Expand(init), dist), c, dist);
    }
  }

  /** A dot is a zero-length line: a stop with a dot tallies like one without. */
  lemma DotIsFree(s: Session, t: Session, p: Point, dist: DistFn)
    requires ZeroOnSame(dist) && Tally(s) == Tally(t)
    ensures Tally(Run(s, Stop(p, true), dist)) == Tally(Run(t, Stop(p, false), dist))
  {
    assert dist(p, p) == 0.0;
    RunAppend(s, [MoveTo(p.x, p.y)], [LineTo(p.x, p.y)], dist);
  }

  /** The dots are zero-length lines: they change neither accumulator. */
  lemma OutlineDotsAreFree(s: Session, dist: DistFn)
    requires ZeroOnSame(dist)
    ensures OutlinePage(s, true, dist).travel == OutlinePage(s, false, dist).travel
    ensures OutlinePage(s, true, dist).drawn == OutlinePage(s, false, dist).drawn == s.drawn
  {
    var c := Corners(s.page);
    var d1, p1 := Stop(c[0], true), Stop(c[0], false);
    var d2, p2 := d1 + Stop(c[1], true), p1 + Stop(c[1], false);
    var d3, p3 := d2 + Stop(c[2], true), p2 + Stop(c[2], false);
    var d4, p4 := d3 + Stop(c[3], true), p3 + Stop(c[3], false);
    var last := [MoveTo(c[4].x, c[4].y)];
    DotIsFree(s, s, c[0], dist);
    RunAppend(s, d1, Stop(c[1], true), dist);
    RunAppend(s, p1, Stop(c[1], false), dist);
    DotIsFree(Run(s, d1, dist), Run(s, p1, dist), c[1], dist);
    RunAppend(s, d2, Stop(c[2], true), dist);
    RunAppend(s, p2, Stop(c[2], false), dist);
    DotIsFree(Run(s, d2, dist), Run(s, p2, dist), c[2], dist);
    RunAppend(s, d3, Stop(c[3], true), dist);
    RunAppend(s, p3, Stop(c[3], false), dist);
    DotIsFree(Run(s, d3, dist), Run(s, p3, dist), c[3], dist);
    RunAppend(s, d4, last, dist);
    RunAppend(s, p4, last, dist);
    RunRespectsTally(Run(s, d4, dist), Run(s, p4, dist), last, dist);
    MovesDrawNothing(s, p4 + last, dist);
  }
}
