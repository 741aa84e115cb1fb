/** What one plot shows, as a document that the reader of SvgDocument renders: where the data points, the
    grid lines and the axes lie, in terms of the values that the arithmetic of the C code yields. */
module SvgPlot {
  import opened SvgDocument

  const PLOT_WIDTH: int := 1000
  const PLOT_HEIGHT: int := 300
  const PADDING: int := 50

  /** Conversion of a float to int. */
  function Truncate(r: real): int {
    if r >= 0.0 then r.Floor else -((-r).Floor)
  }

  /** Conversion to int rounds toward zero. */
  lemma TruncateRoundsToZero(r: real)
    ensures r >= 0.0 ==> Truncate(r) as real <= r < Truncate(r) as real + 1.0
    ensures r <= 0.0 ==> Truncate(r) as real - 1.0 < r <= Truncate(r) as real
    ensures Truncate(-r) == -Truncate(r)
  {
  }

  /** cordx and cordy: an offset and a factor. */
  function Cord(v: real, offset: real, factor: real): real {
    (v - offset) * factor
  }

  /** The points that svg_path_data renders inside the elements es, with the offsets and factors of cordx
      and cordy. */
  function Curve(es: seq<Element>, ofx: real, mx: real, ofy: real, my: real, x: seq<real>, y: seq<real>): (ps: seq<Pt>)
    requires |x| == |y|
    ensures |ps| == |x|
  {
    seq(|x|, k requires 0 <= k < |x| => PlaceIn(es, Pt(Cord(x[k], ofx, mx), Cord(y[k], ofy, my))))
  }

  /** One more point. */
  lemma CurveSnoc(es: seq<Element>, ofx: real, mx: real, ofy: real, my: real, x: seq<real>, y: seq<real>, i: nat)
    requires |x| == |y| && i < |x|
    ensures Curve(es, ofx, mx, ofy, my, x[..i + 1], y[..i + 1])
            == Curve(es, ofx, mx, ofy, my, x[..i], y[..i])
               + [PlaceIn(es, Pt(Cord(x[i], ofx, mx), Cord(y[i], ofy, my)))]
  {
  }

  /** The elements around everything but the curve, and the group around the curve. */
  const ROOT: seq<Element> := [Element(Svg, [])]
  const CURVE_TRANSFORM: seq<Transform> :=
    [Translate(PADDING as real, PADDING as real), Scale(1.0, -1.0),
     Translate(0.0, (-PLOT_HEIGHT + 2 * PADDING) as real)]

  lemma RootPlacesNothing(p: Pt)
    ensures PlaceIn(ROOT, p) == p
  {
    assert ROOT[..0] == [];
    assert Place([], p) == p;
  }

  lemma CurvePlace(p: Pt)
    ensures PlaceIn(ROOT + [Element(Group, CURVE_TRANSFORM)], p) == Pt(p.x + 50.0, 250.0 - p.y)
  {
    var es := ROOT + [Element(Group, CURVE_TRANSFORM)];
    assert es[..1] == ROOT;
    var ts := CURVE_TRANSFORM;
    assert ts[1..][1..] == [ts[2]] && [ts[2]][1..] == [];
    assert Place([ts[2]], p) == Pt(p.x, p.y - 200.0) by {
      assert Place([], p) == p;
    }
    assert Place(ts[1..], p) == Pt(p.x, 200.0 - p.y);
    assert Place(ts, p) == Pt(p.x + 50.0, 250.0 - p.y);
    RootPlacesNothing(Place(ts, p));
  }

  // ---------------------------------------------------------------- axes

  /** The loop over the grid lines: its first value, min + span / 10, and its step, t + span / 10, as the
      arithmetic at hand rounds them. */
  datatype Stepping = Stepping(start: (real, real) -> real, next: (real, real) -> real)

  /** The operations that decide how often the grid loops turn and what a division by zero yields: the
      quotient for the two factors, and the two loops. */
  datatype Floats = Floats(quotient: (real, real) -> real, vertical: Stepping, horizontal: Stepping)

  ghost predicate ExactStepping(st: Stepping) {
    && (forall a: real, b: real :: st.start(a, b) == a + b / 10.0)
    && (forall a: real, b: real :: st.next(a, b) == a + b / 10.0)
  }

  /** Exact arithmetic; what a division by zero yields is left open. */
  ghost predicate Exact(fl: Floats) {
    && (forall a: real, b: real :: b != 0.0 ==> fl.quotient(a, b) == a / b)
    && ExactStepping(fl.vertical) && ExactStepping(fl.horizontal)
  }

  function LoopValue(st: Stepping, min: real, span: real, k: nat): real {
    if k == 0 then st.start(min, span) else st.next(LoopValue(st, min, span, k - 1), span)
  }

  /** The grid loop from min to max ends, having visited the values ts. */
  ghost predicate IsGrid(st: Stepping, min: real, max: real, ts: seq<real>) {
    && (forall k | 0 <= k < |ts| :: ts[k] == LoopValue(st, min, max - min, k) < max)
    && LoopValue(st, min, max - min, |ts|) >= max
  }

  ghost predicate LoopEnds(st: Stepping, min: real, max: real) {
    exists ts: seq<real> :: IsGrid(st, min, max, ts)
  }

  /** One direction of the plot: the extreme values and the factor from values to pixels. */
  datatype Axis = Axis(min: real, max: real, factor: real)

  /** Both directions of the plot, and the values that have grid lines. */
  datatype Layout = Layout(ax: Axis, ay: Axis, gx: seq<real>, gy: seq<real>)

  function Tenth(min: real, span: real, k: nat): real {
    min + (k as real + 1.0) * (span / 10.0)
  }

  lemma {:induction false} LoopValueIsTenth(st: Stepping, min: real, span: real, k: nat)
    requires ExactStepping(st)
    ensures LoopValue(st, min, span, k) == Tenth(min, span, k)
  {
    if k > 0 {
      LoopValueIsTenth(st, min, span, k - 1);
    }
  }

  /** The values with grid lines in exact arithmetic: nine, or none if the span is not positive. */
  function NineTenths(min: real, max: real): (ts: seq<real>)
    ensures |ts| == if max > min then 9 else 0
    ensures forall k | 0 <= k < |ts| :: ts[k] == Tenth(min, max - min, k)
  {
    seq(if max > min then 9 else 0, k requires 0 <= k => Tenth(min, max - min, k))
  }

  lemma Product(a: real, b: real)
    requires a >= 0.0 && b > 0.0
    ensures a * b >= 0.0
  {
  }

  lemma TenthBelow(min: real, span: real, k: nat)
    requires span > 0.0
    ensures Tenth(min, span, k) < min + span <==> k < 9
  {
    var step := span / 10.0;
    var a := k as real + 1.0;
    assert span == 10.0 * step;
    if k < 9 {
      Product(9.0 - a, step);
    } else {
      Product(a - 10.0, step);
    }
  }

  lemma ExactLoopTest(st: Stepping, min: real, max: real, k: nat)
    requires ExactStepping(st) && k <= |NineTenths(min, max)|
    ensures LoopValue(st, min, max - min, k) == Tenth(min, max - min, k)
    ensures LoopValue(st, min, max - min, k) < max <==> k < |NineTenths(min, max)|
  {
    LoopValueIsTenth(st, min, max - min, k);
    if max > min {
      TenthBelow(min, max - min, k);
    }
  }

  /** In exact arithmetic each grid loop ends after nine lines, or at once if the span is not positive. */
  lemma ExactGrid(st: Stepping, min: real, max: real, ts: seq<real>)
    requires ExactStepping(st)
    ensures IsGrid(st, min, max, ts) <==> ts == NineTenths(min, max)
  {
    var ns := NineTenths(min, max);
    forall k | 0 <= k < |ns|
      ensures ns[k] == LoopValue(st, min, max - min, k) < max
    {
      ExactLoopTest(st, min, max, k);
    }
    ExactLoopTest(st, min, max, |ns|);
    if IsGrid(st, min, max, ts) {
      GridIsUnique(st, min, max, ts, ns);
    }
  }

  lemma LoopTurn(st: Stepping, min: real, max: real, ts: seq<real>, k: nat)
    requires IsGrid(st, min, max, ts) && k <= |ts|
    ensures if LoopValue(st, min, max - min, k) < max then k < |ts| && ts[k] == LoopValue(st, min, max - min, k)
            else k == |ts|
  {
    GoesOn(st, min, max, ts, k);
  }

  lemma GoesOn(st: Stepping, min: real, max: real, ts: seq<real>, k: nat)
    requires IsGrid(st, min, max, ts)
    ensures k < |ts| ==> LoopValue(st, min, max - min, k) < max
  {
    if k < |ts| {
      assert ts[k] < max;
    }
  }

  /** The loop ends once only. */
  lemma GridIsUnique(st: Stepping, min: real, max: real, ts: seq<real>, us: seq<real>)
    requires IsGrid(st, min, max, ts) && IsGrid(st, min, max, us)
    ensures ts == us
  {
    GoesOn(st, min, max, ts, |us|);
    GoesOn(st, min, max, us, |ts|);
  }

  lemma ExactLoopEnds(st: Stepping, min: real, max: real)
    requires ExactStepping(st)
    ensures LoopEnds(st, min, max)
  {
    ExactGrid(st, min, max, NineTenths(min, max));
  }

  // ---------------------------------------------------------------- the picture

  /** Where a value belongs in the plot: the direct formulas that the grid lines use. */
  function FrameX(t: real, ax: Axis): real {
    Cord(t, ax.min, ax.factor) + 50.0
  }

  function FrameY(t: real, ay: Axis): real {
    300.0 - Cord(t, ay.min, ay.factor) - 50.0
  }

  function VerticalGrid(ax: Axis, ts: seq<real>): (ls: seq<Segment>)
    ensures |ls| == |ts|
  {
    seq(|ts|, k requires 0 <= k < |ts| => Segment(Pt(FrameX(ts[k], ax), 250.0), Pt(FrameX(ts[k], ax), 50.0)))
  }

  function HorizontalGrid(ay: Axis, ts: seq<real>): (ls: seq<Segment>)
    ensures |ls| == |ts|
  {
    seq(|ts|, k requires 0 <= k < |ts| => Segment(Pt(50.0, FrameY(ts[k], ay)), Pt(950.0, FrameY(ts[k], ay))))
  }

  /** The numbers at the grid lines, truncated to int. */
  function GridLabels(ts: seq<real>): (ls: seq<Token>)
    ensures |ls| == |ts|
  {
    seq(|ts|, k requires 0 <= k < |ts| => Number(Truncate(ts[k])))
  }

  function WithVerticals(d: Doc, ax: Axis, ts: seq<real>): Doc {
    d.(lines := d.lines + VerticalGrid(ax, ts), texts := d.texts + GridLabels(ts))
  }

  function WithHorizontals(d: Doc, ay: Axis, ts: seq<real>): Doc {
    d.(lines := d.lines + HorizontalGrid(ay, ts), texts := d.texts + GridLabels(ts))
  }

  lemma NoGridLine(d: Doc, a: Axis, ts: seq<real>)
    ensures WithVerticals(d, a, ts[..0]) == d && WithHorizontals(d, a, ts[..0]) == d
    ensures ts[..|ts|] == ts
  {
    assert VerticalGrid(a, []) == [] && HorizontalGrid(a, []) == [] && GridLabels([]) == [];
  }

  /** One more line and number. */
  lemma OneMoreGridLine(d: Doc, a: Axis, ts: seq<real>, k: nat)
    requires k < |ts|
    ensures var v, w := WithVerticals(d, a, ts[..k]), WithVerticals(d, a, ts[..k + 1]);
            var p := FrameX(ts[k], a);
            w == v.(lines := v.lines + [Segment(Pt(p, 250.0), Pt(p, 50.0))],
                    texts := v.texts + [Number(Truncate(ts[k]))])
    ensures var v, w := WithHorizontals(d, a, ts[..k]), WithHorizontals(d, a, ts[..k + 1]);
            var p := FrameY(ts[k], a);
            w == v.(lines := v.lines + [Segment(Pt(50.0, p), Pt(950.0, p))],
                    texts := v.texts + [Number(Truncate(ts[k]))])
  {
    assert GridLabels(ts[..k + 1]) == GridLabels(ts[..k]) + [Number(Truncate(ts[k]))];
    assert VerticalGrid(a, ts[..k + 1])
           == VerticalGrid(a, ts[..k]) + [Segment(Pt(FrameX(ts[k], a), 250.0), Pt(FrameX(ts[k], a), 50.0))];
    assert HorizontalGrid(a, ts[..k + 1])
           == HorizontalGrid(a, ts[..k]) + [Segment(Pt(50.0, FrameY(ts[k], a)), Pt(950.0, FrameY(ts[k], a)))];
  }

  const Y_AXIS := Segment(Pt(50.0, 275.0), Pt(50.0, 25.0))
  const X_AXIS := Segment(Pt(25.0, 250.0), Pt(975.0, 250.0))

  /** All points of the data, each where it belongs. */
  function Plotted(x: seq<real>, y: seq<real>, ax: Axis, ay: Axis): (ps: seq<Pt>)
    requires |x| == |y|
    ensures |ps| == |x|
  {
    seq(|x|, k requires 0 <= k < |x| => Pt(FrameX(x[k], ax), FrameY(y[k], ay)))
  }

  /** One subpath through the points, or none. */
  function AsCurve(ps: seq<Pt>): seq<seq<Pt>> {
    if ps == [] then [] else [ps]
  }

  /** The document d, in path data, after the points ps. */
  function WithCurve(d: Doc, ps: seq<Pt>): Doc
    requires d.scan.InValue?
  {
    d.(scan := d.scan.(begun := ps != []), curves := d.curves + AsCurve(ps))
  }

  lemma NoCurve(d: Doc)
    requires d.scan.InValue? && !d.scan.begun
    ensures WithCurve(d, []) == d
  {
    assert d.curves + [] == d.curves;
  }

  lemma CurveGrows(d: Doc, ps: seq<Pt>, p: Pt)
    requires d.scan.InValue?
    ensures WithPoint(WithCurve(d, ps), WithCurve(d, ps).scan, ps == [], p) == WithCurve(d, ps + [p])
  {
    if ps == [] {
      assert d.curves + [] == d.curves && [] + [p] == [p];
    } else {
      assert (d.curves + [ps])[..|d.curves|] == d.curves;
    }
  }

  const BACKGROUND := Box(Pt(0.0, 0.0), 1000.0, 300.0)

  /** What the plot of the data adds to a document. */
  function Picture(d: Doc, color: string, x: seq<real>, y: seq<real>, p: Layout, xLabel: string, yLabel: string): Doc
    requires |x| == |y|
  {
    d.(plain := d.plain && PlainValue(color) && PlainText(yLabel) && PlainText(xLabel),
       boxes := d.boxes + [BACKGROUND],
       curves := d.curves + AsCurve(Plotted(x, y, p.ax, p.ay)),
       lines := d.lines + VerticalGrid(p.ax, p.gx) + HorizontalGrid(p.ay, p.gy) + [Y_AXIS] + [X_AXIS],
       texts := d.texts + GridLabels(p.gx) + GridLabels(p.gy)
                + [Number(Truncate(p.ay.max))] + [Number(Truncate(p.ax.max))] + [Chars(yLabel)]
                + [Number(Truncate(p.ax.min))] + [Chars(xLabel)] + [Number(Truncate(p.ay.min))])
  }

  /** Nothing of the picture is missing: its one curve joins all data points in their order, there is one line
      and one number for each grid value, and the axes, the captions and the four extremes are there. */
  lemma PictureIsComplete(d: Doc, color: string, x: seq<real>, y: seq<real>, p: Layout, xLabel: string, yLabel: string)
    requires |x| == |y| > 0
    ensures var e := Picture(d, color, x, y, p, xLabel, yLabel);
            var l, g, h := |d.lines|, |p.gx|, |p.gy|;
            && |e.curves| == |d.curves| + 1 && e.curves[|d.curves|] == Plotted(x, y, p.ax, p.ay)
            && |e.lines| == l + g + h + 2 && e.lines[l + g + h..] == [Y_AXIS, X_AXIS]
            && (forall k | 0 <= k < g ::
                  var c := FrameX(p.gx[k], p.ax); e.lines[l + k] == Segment(Pt(c, 250.0), Pt(c, 50.0)))
            && (forall k | 0 <= k < h ::
                  var c := FrameY(p.gy[k], p.ay); e.lines[l + g + k] == Segment(Pt(50.0, c), Pt(950.0, c)))
  {
  }

  /** The numbers and captions of the picture, in the order in which they are printed. */
  lemma PictureIsLabelled(d: Doc, color: string, x: seq<real>, y: seq<real>, p: Layout, xLabel: string, yLabel: string)
    requires |x| == |y| > 0
    ensures var e := Picture(d, color, x, y, p, xLabel, yLabel);
            var l, g, h := |d.texts|, |p.gx|, |p.gy|;
            && |e.texts| == l + g + h + 6
            && (forall k | 0 <= k < g :: e.texts[l + k] == Number(Truncate(p.gx[k])))
            && (forall k | 0 <= k < h :: e.texts[l + g + k] == Number(Truncate(p.gy[k])))
            && e.texts[l + g + h..] == [Number(Truncate(p.ay.max)), Number(Truncate(p.ax.max)), Chars(yLabel),
                                        Number(Truncate(p.ax.min)), Chars(xLabel), Number(Truncate(p.ay.min))]
  {
  }

  /** The axes cross where both values are least, and reach beyond the frame. */
  lemma AxesCross(p: Layout)
    ensures Y_AXIS.a.x == Y_AXIS.b.x == FrameX(p.ax.min, p.ax) && X_AXIS.a.y == X_AXIS.b.y == FrameY(p.ay.min, p.ay)
    ensures Y_AXIS.b.y < 50.0 && 250.0 < Y_AXIS.a.y && X_AXIS.a.x < 50.0 && 950.0 < X_AXIS.b.x
  {
  }

  /** The curve's way through cordx, cordy and the transforms of its group ends where the formulas of the
      grid lines say, whatever the factors. */
  lemma CurveIsPlotted(x: seq<real>, y: seq<real>, ax: Axis, ay: Axis)
    requires |x| == |y|
    ensures Curve(ROOT + [Element(Group, CURVE_TRANSFORM)], ax.min, ax.factor, ay.min, ay.factor, x, y)
            == Plotted(x, y, ax, ay)
  {
    forall k | 0 <= k < |x|
      ensures Curve(ROOT + [Element(Group, CURVE_TRANSFORM)], ax.min, ax.factor, ay.min, ay.factor, x, y)[k]
              == Plotted(x, y, ax, ay)[k]
    {
      CurvePlace(Pt(Cord(x[k], ax.min, ax.factor), Cord(y[k], ay.min, ay.factor)));
    }
  }

  ghost predicate IsMinMax(data: seq<real>, min: real, max: real) {
    && (forall k | 0 <= k < |data| :: min <= data[k] <= max)
    && (exists k :: 0 <= k < |data| && data[k] == min)
    && (exists k :: 0 <= k < |data| && data[k] == max)
  }

  /** The layout that the arithmetic makes of the data. */
  ghost predicate IsLayout(fl: Floats, x: seq<real>, y: seq<real>, p: Layout) {
    && |x| == |y| > 0
    && p.ax.min == x[0] && p.ax.max == x[|x| - 1] && IsMinMax(y, p.ay.min, p.ay.max)
    && p.ax.factor == fl.quotient(900.0, p.ax.max - p.ax.min)
    && IsGrid(fl.vertical, p.ax.min, p.ax.max, p.gx)
    && p.ay.factor == fl.quotient(200.0, p.ay.max - p.ay.min)
    && IsGrid(fl.horizontal, p.ay.min, p.ay.max, p.gy)
  }

  // ---------------------------------------------------------------- exact arithmetic, non-zero spans

  /** The axes fill the frame, with nine grid lines each at the tenths. */
  ghost predicate IsProper(p: Layout) {
    && p.ax.max > p.ax.min && p.ax.factor == 900.0 / (p.ax.max - p.ax.min) && p.gx == NineTenths(p.ax.min, p.ax.max)
    && p.ay.max > p.ay.min && p.ay.factor == 200.0 / (p.ay.max - p.ay.min) && p.gy == NineTenths(p.ay.min, p.ay.max)
  }

  /** The y values are not all the same. */
  predicate Varies(y: seq<real>) {
    exists k :: 0 <= k < |y| && y[k] != y[0]
  }

  lemma ExactLayoutIsProper(fl: Floats, x: seq<real>, y: seq<real>, p: Layout)
    requires Exact(fl) && IsLayout(fl, x, y, p) && x[|x| - 1] > x[0] && Varies(y)
    ensures IsProper(p)
  {
    var k :| 0 <= k < |y| && y[k] != y[0];
    ExactGrid(fl.vertical, p.ax.min, p.ax.max, p.gx);
    ExactGrid(fl.horizontal, p.ay.min, p.ay.max, p.gy);
    assert fl.quotient(900.0, p.ax.max - p.ax.min) == 900.0 / (p.ax.max - p.ax.min);
    assert fl.quotient(200.0, p.ay.max - p.ay.min) == 200.0 / (p.ay.max - p.ay.min);
  }

  /** Pixels are proportional to values: equal differences take equal lengths everywhere in the frame. */
  lemma PlotIsLinear(p: Layout, t: real, u: real)
    requires IsProper(p)
    ensures FrameX(u, p.ax) - FrameX(t, p.ax) == (u - t) * (900.0 / (p.ax.max - p.ax.min))
    ensures FrameY(t, p.ay) - FrameY(u, p.ay) == (u - t) * (200.0 / (p.ay.max - p.ay.min))
  {
  }

  /** With ordered x every data point lands in the frame; the first and last x on its sides, and the
      extreme y on its bottom and top. */
  lemma PlotStaysInFrame(x: seq<real>, y: seq<real>, p: Layout, k: nat)
    requires |x| == |y| && k < |x| && IsProper(p)
    requires p.ax.min == x[0] && p.ax.max == x[|x| - 1] && IsMinMax(y, p.ay.min, p.ay.max)
    requires forall i, j | 0 <= i <= j < |x| :: x[i] <= x[j]
    ensures var q := Plotted(x, y, p.ax, p.ay)[k];
            && 50.0 <= q.x <= 950.0 && 50.0 <= q.y <= 250.0
            && (x[k] == p.ax.min <==> q.x == 50.0) && (x[k] == p.ax.max <==> q.x == 950.0)
            && (y[k] == p.ay.min <==> q.y == 250.0) && (y[k] == p.ay.max <==> q.y == 50.0)
  {
    Scaled(x[k], p.ax.min, p.ax.max - p.ax.min, 900.0);
    Scaled(y[k], p.ay.min, p.ay.max - p.ay.min, 200.0);
  }

  lemma Scaled(v: real, min: real, span: real, size: real)
    requires min <= v <= min + span && span > 0.0 && size > 0.0
    ensures 0.0 <= Cord(v, min, size / span) <= size
    ensures v == min <==> Cord(v, min, size / span) == 0.0
    ensures v == min + span <==> Cord(v, min, size / span) == size
  {
    var d, f := v - min, size / span;
    assert f > 0.0 && span * f == size;
    assert d * f >= 0.0;
    assert (span - d) * f >= 0.0;
    assert (span - d) * f == size - d * f;
    if d > 0.0 {
      assert d * f > 0.0;
    }
    if d < span {
      assert (span - d) * f > 0.0;
    }
  }

  /** A data point whose value is that of a grid line lies on the line, whatever the factors. */
  lemma PointsMeetGrid(x: seq<real>, y: seq<real>, p: Layout, i: nat, k: nat)
    requires |x| == |y| && i < |x|
    ensures k < |p.gx| && x[i] == p.gx[k] ==>
              var l := VerticalGrid(p.ax, p.gx)[k]; l.a.x == l.b.x == Plotted(x, y, p.ax, p.ay)[i].x
    ensures k < |p.gy| && y[i] == p.gy[k] ==>
              var l := HorizontalGrid(p.ay, p.gy)[k]; l.a.y == l.b.y == Plotted(x, y, p.ax, p.ay)[i].y
  {
  }

  /** The k-th of the nine lines is (k + 1) tenths of the frame from its left or bottom side. */
  lemma GridIsTrue(p: Layout, k: nat)
    requires k < 9 && IsProper(p)
    ensures |p.gx| == |p.gy| == 9
    ensures VerticalGrid(p.ax, p.gx)[k].a.x == 50.0 + 90.0 * (k as real + 1.0)
    ensures HorizontalGrid(p.ay, p.gy)[k].a.y == 250.0 - 20.0 * (k as real + 1.0)
  {
    Tenths(p.ax.min, p.ax.max - p.ax.min, 900.0, k);
    Tenths(p.ay.min, p.ay.max - p.ay.min, 200.0, k);
  }

  lemma Tenths(min: real, span: real, size: real, k: nat)
    requires span > 0.0
    ensures Cord(Tenth(min, span, k), min, size / span) == (k as real + 1.0) * (size / 10.0)
  {
    var a, f := k as real + 1.0, size / span;
    assert span * f == size;
    assert Cord(Tenth(min, span, k), min, f) == a * (span / 10.0) * f;
    assert a * (span / 10.0) * f == a * (span * f) / 10.0;
  }
}
