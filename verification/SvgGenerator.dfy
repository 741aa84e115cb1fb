/** The plot generator: svg_context with its drawing functions, and the plot of one data series. */
module SvgGenerator {
  import opened SvgDocument
  import opened SvgPlot

  /** max_min */
  method MaxMin(data: seq<real>) returns (min: real, max: real)
    requires |data| > 0
    ensures IsMinMax(data, min, max)
  {
    min, max := 0.0, 0.0;
    var lo, hi := 0, 0;
    for i := 0 to |data|
      invariant i > 0 ==> 0 <= lo < i && 0 <= hi < i && min == data[lo] && max == data[hi]
      invariant forall k | 0 <= k < i :: min <= data[k] <= max
    {
      if i == 0 {
        min, max, lo, hi := data[i], data[i], i, i;
      } else if data[i] < min {
        min, lo := data[i], i;
      } else if data[i] > max {
        max, hi := data[i], i;
      }
    }
  }

  class Context {
    var out: seq<Token>
    var strokeColor: Value
    var fillColor: Value
    var dashArray: Value
    var textFamily: Value
    var textSize: int
    var strokeWidth: int
    var mx: real
    var my: real
    var ofx: real
    var ofy: real

    constructor (out: seq<Token>)
      ensures this.out == out && Plain() && Styled()
    {
      this.out := out;
      strokeColor, fillColor, dashArray, textFamily := Fixed(Black), Fixed(White), Fixed(Solid), Fixed(Monospace);
      textSize, strokeWidth := 14, 1;
      mx, my, ofx, ofy := 1.0, 1.0, 0.0, 0.0;
    }

    /** What has been printed so far, as the reader sees it. */
    ghost function View(): Doc
      reads this`out
    {
      Render(out)
    }

    function CordX(v: real): real
      reads this`ofx, this`mx
    {
      Cord(v, ofx, mx)
    }

    function CordY(v: real): real
      reads this`ofy, this`my
    {
      Cord(v, ofy, my)
    }

    method Emit(t: Token)
      modifies this`out
      ensures out == old(out) + [t] && View() == Advance(old(View()), t)
    {
      RenderSnoc(out, t);
      out := out + [t];
    }

    /** svg_tag_start, always with use_opt set */
    method TagStartOf(name: Name)
      requires View().scan.Content?
      modifies this`out
      ensures View() == Scanned(old(View()), InTag(Tag(name, {}, map[], []), old(View()).scan.elements))
    {
      Emit(TagStart(name));
    }

    /** svg_optf */
    method Optf(key: Key, v: real)
      requires View().scan.InTag? && key !in View().scan.tag.keys
      modifies this`out
      ensures View() == Scanned(old(View()), WithReal(old(View()).scan, key, v))
      ensures View().scan.InTag?
    {
      Emit(OptReal(key, v));
    }

    /** svg_opti */
    method Opti(key: Key, v: int)
      requires View().scan.InTag? && key !in View().scan.tag.keys
      modifies this`out
      ensures View() == Scanned(old(View()), WithKey(old(View()).scan, key)) && View().scan.InTag?
    {
      Emit(OptInt(key, v));
    }

    /** svg_opta, svg_opt_fill and svg_opt_fill_none */
    method Opta(key: Key, v: Value)
      requires View().scan.InTag? && key !in View().scan.tag.keys
      modifies this`out
      ensures View() == old(View()).(scan := WithKey(old(View()).scan, key),
                                     plain := old(View()).plain && PlainIfGiven(v))
      ensures View().scan.InTag?
    {
      Emit(OptText(key, v));
    }

    /** svg_opt_stroke */
    method OptStroke()
      requires View().scan.InTag? && {Stroke, StrokeWidth, StrokeDash} !! View().scan.tag.keys
      modifies this`out
      ensures var t := old(View()).scan.tag;
              View() == old(View()).(
                scan := InTag(t.(keys := t.keys + {Stroke} + {StrokeWidth} + {StrokeDash}), old(View()).scan.elements),
                plain := old(View()).plain && PlainIfGiven(strokeColor) && PlainIfGiven(dashArray))
    {
      Opta(Stroke, strokeColor);
      Opti(StrokeWidth, strokeWidth);
      Opta(StrokeDash, dashArray);
    }

    /** svg_opt_long_beg */
    method LongBeg(key: Key)
      requires View().scan.InTag? && key !in View().scan.tag.keys
      modifies this`out
      ensures var t := old(View()).scan.tag;
              View() == Scanned(old(View()),
                                InValue(key, t.(keys := t.keys + {key}), old(View()).scan.elements, false))
    {
      Emit(LongBegin(key));
    }

    /** svg_opt_long_end */
    method LongFinish()
      requires View().scan.InValue?
      modifies this`out
      ensures View() == Scanned(old(View()), InTag(old(View()).scan.tag, old(View()).scan.elements))
    {
      Emit(LongEnd);
    }

    /** One function of a transform list. */
    method OneTransform(t: Transform)
      requires View().scan.InValue? && View().scan.key.TransformList?
      modifies this`out
      ensures var g := old(View()).scan.tag;
              View() == Scanned(old(View()), InValue(TransformList, g.(transform := g.transform + [t]),
                                                     old(View()).scan.elements, old(View()).scan.begun))
    {
      Emit(Transforms(t));
    }

    /** svg_opt_end */
    method OptEndOf(selfClose: bool)
      requires View().scan.InTag?
      modifies this`out
      ensures var s := old(View()).scan;
              View() == old(View()).(
                scan := Content(if selfClose then s.elements else s.elements + [Element(s.tag.name, s.tag.transform)]),
                lines := old(View()).lines + Drawn(s.tag, s.elements),
                boxes := old(View()).boxes + Boxed(s.tag, s.elements))
    {
      Emit(OptEnd(selfClose));
    }

    /** svg_tag_end and svg_finish, for the innermost open element */
    method TagEndOf(name: Name, ghost outer: seq<Element>, ghost element: Element)
      requires View().scan == Content(outer + [element]) || View().scan == TextRead(outer + [element])
      requires element.name == name
      modifies this`out
      ensures View() == Scanned(old(View()), Content(outer))
    {
      assert (outer + [element])[..|outer|] == outer;
      Emit(TagEnd(name));
    }

    /** The four coordinates of svg_line and svg_arrow. */
    method LineEnds(x1: real, y1: real, x2: real, y2: real)
      requires View().scan.Content?
      modifies this`out
      ensures View() == Scanned(old(View()), InTag(
                Tag(Line, {} + {X1} + {Y1} + {X2} + {Y2},
                    map[][X1 := CordX(x1)][Y1 := CordY(y1)][X2 := CordX(x2)][Y2 := CordY(y2)], []),
                old(View()).scan.elements))
    {
      TagStartOf(Line);
      Optf(X1, CordX(x1));
      Optf(Y1, CordY(y1));
      Optf(X2, CordX(x2));
      Optf(Y2, CordY(y2));
    }

    /** The segment from (x1, y1) to (x2, y2), placed by the open elements. */
    ghost function Placed(x1: real, y1: real, x2: real, y2: real): Segment
      requires View().scan.Content?
      reads this
    {
      var es := View().scan.elements;
      Segment(PlaceIn(es, Pt(CordX(x1), CordY(y1))), PlaceIn(es, Pt(CordX(x2), CordY(y2))))
    }

    /** All attribute values that svg_context provides are literals. */
    predicate Styled()
      reads this`strokeColor, this`fillColor, this`dashArray, this`textFamily
    {
      strokeColor.Fixed? && fillColor.Fixed? && dashArray.Fixed? && textFamily.Fixed?
    }

    /** svg_line */
    method SvgLine(x1: real, y1: real, x2: real, y2: real)
      requires View().scan.Content? && Styled()
      modifies this`out
      ensures View() == old(View()).(lines := old(View()).lines + [old(Placed(x1, y1, x2, y2))])
    {
      LineEnds(x1, y1, x2, y2);
      OptStroke();
      OptEndOf(true);
    }

    /** The other attributes of svg_arrow. */
    method MarkerAndStroke()
      requires View().scan.InTag? && Styled() && {MarkerEnd, Stroke, StrokeWidth, StrokeDash} !! View().scan.tag.keys
      modifies this`out
      ensures var t := old(View()).scan.tag;
              View() == Scanned(old(View()), InTag(
                t.(keys := t.keys + {MarkerEnd} + {Stroke} + {StrokeWidth} + {StrokeDash}), old(View()).scan.elements))
    {
      Opta(MarkerEnd, Fixed(MarkerUrl));
      OptStroke();
    }

    /** svg_arrow */
    method SvgArrow(x1: real, y1: real, x2: real, y2: real)
      requires View().scan.Content? && Styled()
      modifies this`out
      ensures View() == old(View()).(lines := old(View()).lines + [old(Placed(x1, y1, x2, y2))])
    {
      LineEnds(x1, y1, x2, y2);
      MarkerAndStroke();
      OptEndOf(true);
    }

    /** svg_opt_fill and svg_opt_stroke, as of svg_rect and svg_text. */
    method FillAndStroke()
      requires View().scan.InTag? && Styled() && {Fill, Stroke, StrokeWidth, StrokeDash} !! View().scan.tag.keys
      modifies this`out
      ensures var t := old(View()).scan.tag;
              View() == Scanned(old(View()), InTag(
                t.(keys := t.keys + {Fill} + {Stroke} + {StrokeWidth} + {StrokeDash}), old(View()).scan.elements))
    {
      Opta(Fill, fillColor);
      OptStroke();
    }

    /** A start tag with the position (x, y), as of svg_rect and svg_text. */
    method TagAt(name: Name, x: real, y: real)
      requires View().scan.Content?
      modifies this`out
      ensures View() == Scanned(old(View()), InTag(Tag(name, {} + {X} + {Y}, map[][X := CordX(x)][Y := CordY(y)], []),
                                                   old(View()).scan.elements))
    {
      TagStartOf(name);
      Optf(X, CordX(x));
      Optf(Y, CordY(y));
    }

    /** The four numbers of svg_rect. */
    method RectStart(x: real, y: real, w: real, h: real)
      requires View().scan.Content?
      modifies this`out
      ensures View() == Scanned(old(View()), InTag(
                Tag(Rect, {} + {X} + {Y} + {Width} + {Height},
                    map[][X := CordX(x)][Y := CordY(y)][Width := w][Height := h], []),
                old(View()).scan.elements))
    {
      TagAt(Rect, x, y);
      Optf(Width, w);
      Optf(Height, h);
    }

    /** svg_rect */
    method SvgRect(x: real, y: real, w: real, h: real)
      requires View().scan.Content? && Styled()
      modifies this`out
      ensures View() == old(View()).(
                boxes := old(View()).boxes + [Box(PlaceIn(old(View()).scan.elements, Pt(CordX(x), CordY(y))), w, h)])
    {
      RectStart(x, y, w, h);
      FillAndStroke();
      OptEndOf(true);
    }

    /** The start tag of svg_text. */
    method TextStart(x: real, y: real)
      requires View().scan.Content? && Styled()
      modifies this`out
      ensures View() == Scanned(old(View()), Content(old(View()).scan.elements + [Element(Text, [])]))
    {
      TagAt(Text, x, y);
      Opti(FontSize, textSize);
      Opta(FontFamily, textFamily);
      FillAndStroke();
      OptEndOf(false);
    }

    /** svg_text, with a label or a number printed by sprintf. */
    method SvgText(t: Token, x: real, y: real)
      requires View().scan.Content? && Styled() && (t.Chars? || t.Number?)
      modifies this`out
      ensures View() == old(View()).(texts := old(View()).texts + [t],
                                     plain := old(View()).plain && (t.Chars? ==> PlainText(t.text)))
    {
      ghost var es := View().scan.elements;
      TextStart(x, y);
      Emit(t);
      TagEndOf(Text, es, Element(Text, []));
    }

    /** svg_tag_start(g) with a transform attribute of svg_rotate(-90, cx, cy) and svg_translate(tx, ty). */
    method RotatedGroup(cx: int, cy: int, tx: int, ty: int) returns (ghost ts: seq<Transform>)
      requires View().scan.Content?
      modifies this`out
      ensures View() == Scanned(old(View()), Content(old(View()).scan.elements + [Element(Group, ts)]))
    {
      TagStartOf(Group);
      LongBeg(TransformList);
      OneTransform(Translate(cx as real, cy as real));
      OneTransform(RotateBack);
      OneTransform(Translate(-cx as real, -cy as real));
      OneTransform(Translate(tx as real, ty as real));
      ts := View().scan.tag.transform;
      LongFinish();
      OptEndOf(false);
    }

    /** A number in a rotated group. */
    method RotatedNumber(v: int, cx: int, cy: int, tx: int, ty: int)
      requires View().scan.Content? && Styled()
      modifies this`out
      ensures View() == old(View()).(texts := old(View()).texts + [Number(v)])
    {
      ghost var es := View().scan.elements;
      ghost var ts := RotatedGroup(cx, cy, tx, ty);
      SvgText(Number(v), 0.0, 0.0);
      TagEndOf(Group, es, Element(Group, ts));
    }

    /** One point of path data. */
    method PathPoint(first: bool, x: real, y: real)
      requires View().scan.InValue? && View().scan.key.D? && View().scan.tag.transform == []
      modifies this`out
      ensures var s := old(View()).scan;
              View() == WithPoint(old(View()), s, first, PlaceIn(s.elements, Pt(CordX(x), CordY(y))))
    {
      NotMoved(Pt(CordX(x), CordY(y)));
      Emit(Point(first, CordX(x), CordY(y)));
    }

    /** One turn of the loop of svg_path_data, after the points ps. */
    method PathTurn(first: bool, x: real, y: real, ghost before: Doc, ghost ps: seq<Pt>)
      requires before.scan.InValue? && before.scan.key.D? && before.scan.tag.transform == []
      requires View() == WithCurve(before, ps) && first == (ps == [])
      modifies this`out
      ensures View() == WithCurve(before, ps + [PlaceIn(before.scan.elements, Pt(CordX(x), CordY(y)))])
    {
      PathPoint(first, x, y);
      CurveGrows(before, ps, PlaceIn(before.scan.elements, Pt(CordX(x), CordY(y))));
    }

    /** The loop of svg_path_data. */
    method PathPoints(x: seq<real>, y: seq<real>)
      requires |x| == |y| && View().scan.InValue? && View().scan.key.D? && View().scan.tag.transform == []
      requires !View().scan.begun
      modifies this`out
      ensures View() == WithCurve(old(View()), Curve(old(View()).scan.elements, ofx, mx, ofy, my, x, y))
    {
      ghost var before := View();
      ghost var es := before.scan.elements;
      NoCurve(before);
      for i := 0 to |x|
        invariant View() == WithCurve(before, Curve(es, ofx, mx, ofy, my, x[..i], y[..i]))
      {
        PathTurn(i == 0, x[i], y[i], before, Curve(es, ofx, mx, ofy, my, x[..i], y[..i]));
        CurveSnoc(es, ofx, mx, ofy, my, x, y, i);
      }
      assert x[..|x|] == x && y[..|y|] == y;
    }

    /** svg_path_data */
    method SvgPathData(x: seq<real>, y: seq<real>)
      requires View().scan.Content? && |x| == |y| && dashArray.Fixed?
      modifies this`out
      ensures View() == old(View()).(
                plain := old(View()).plain && PlainIfGiven(strokeColor),
                curves := old(View()).curves + AsCurve(Curve(old(View()).scan.elements, ofx, mx, ofy, my, x, y)))
    {
      TagStartOf(Path);
      LongBeg(D);
      PathPoints(x, y);
      LongFinish();
      Opta(Fill, Fixed(NoFill));
      OptStroke();
      OptEndOf(true);
    }

    predicate Plain()
      reads this
    {
      mx == my == 1.0 && ofx == ofy == 0.0
    }

    lemma PlacedInRoot(x1: real, y1: real, x2: real, y2: real)
      requires Plain() && View().scan == Content(ROOT)
      ensures Placed(x1, y1, x2, y2) == Segment(Pt(x1, y1), Pt(x2, y2))
    {
      RootPlacesNothing(Pt(x1, y1));
      RootPlacesNothing(Pt(x2, y2));
    }

    /** One vertical grid line with its number. */
    method VerticalLine(tx: real, number: int)
      requires Plain() && Styled() && View().scan == Content(ROOT)
      modifies this`out, this`dashArray
      ensures Styled()
      ensures View() == old(View()).(lines := old(View()).lines + [Segment(Pt(tx, 250.0), Pt(tx, 50.0))],
                                     texts := old(View()).texts + [Number(number)])
    {
      dashArray := Fixed(Dashes);
      PlacedInRoot(tx, (PLOT_HEIGHT - PADDING) as real, tx, PADDING as real);
      SvgLine(tx, (PLOT_HEIGHT - PADDING) as real, tx, PADDING as real);
      dashArray := Fixed(Solid);
      RotatedNumber(number, Truncate(tx) - 3, PLOT_HEIGHT - PADDING - 10,
                    Truncate(tx) - 3, PLOT_HEIGHT - PADDING - 10);
    }

    /** One turn of the loop over the vertical grid lines, after the first k. */
    method VerticalTurn(t: real, ax: Axis, ghost before: Doc, ghost ts: seq<real>, ghost k: nat)
      requires Plain() && Styled() && before.scan == Content(ROOT) && k < |ts| && t == ts[k]
      requires View() == WithVerticals(before, ax, ts[..k])
      modifies this`out, this`dashArray
      ensures Styled() && View() == WithVerticals(before, ax, ts[..k + 1])
    {
      var tx := Cord(t, ax.min, ax.factor) + PADDING as real;
      VerticalLine(tx, Truncate(t));
      OneMoreGridLine(before, ax, ts, k);
    }

    /** The loop over the vertical grid lines. */
    method VerticalLines(st: Stepping, ax: Axis, ghost ts: seq<real>)
      requires Plain() && Styled() && View().scan == Content(ROOT) && IsGrid(st, ax.min, ax.max, ts)
      modifies this`out, this`dashArray
      ensures Styled() && View() == WithVerticals(old(View()), ax, ts)
    {
      ghost var before := View();
      var t := st.start(ax.min, ax.max - ax.min);
      ghost var k := 0;
      NoGridLine(before, ax, ts);
      LoopTurn(st, ax.min, ax.max, ts, 0);
      while t < ax.max
        invariant 0 <= k <= |ts| && t == LoopValue(st, ax.min, ax.max - ax.min, k) && Plain() && Styled()
        invariant if t < ax.max then k < |ts| && t == ts[k] else k == |ts|
        invariant View() == WithVerticals(before, ax, ts[..k])
        decreases |ts| - k
      {
        VerticalTurn(t, ax, before, ts, k);
        t := st.next(t, ax.max - ax.min);
        k := k + 1;
        LoopTurn(st, ax.min, ax.max, ts, k);
      }
    }

    /** One horizontal grid line with its number. */
    method HorizontalLine(ty: real, number: int)
      requires Plain() && Styled() && View().scan == Content(ROOT)
      modifies this`out, this`dashArray
      ensures Styled()
      ensures View() == old(View()).(lines := old(View()).lines + [Segment(Pt(50.0, ty), Pt(950.0, ty))],
                                     texts := old(View()).texts + [Number(number)])
    {
      dashArray := Fixed(Dashes);
      PlacedInRoot(PADDING as real, ty, (PLOT_WIDTH - PADDING) as real, ty);
      SvgLine(PADDING as real, ty, (PLOT_WIDTH - PADDING) as real, ty);
      dashArray := Fixed(Solid);
      SvgText(Number(number), PADDING as real + 3.0, ty - 3.0);
    }

    /** One turn of the loop over the horizontal grid lines, after the first k. */
    method HorizontalTurn(t: real, ay: Axis, ghost before: Doc, ghost ts: seq<real>, ghost k: nat)
      requires Plain() && Styled() && before.scan == Content(ROOT) && k < |ts| && t == ts[k]
      requires View() == WithHorizontals(before, ay, ts[..k])
      modifies this`out, this`dashArray
      ensures Styled() && View() == WithHorizontals(before, ay, ts[..k + 1])
    {
      var ty := PLOT_HEIGHT as real - Cord(t, ay.min, ay.factor) - PADDING as real;
      HorizontalLine(ty, Truncate(t));
      OneMoreGridLine(before, ay, ts, k);
    }

    /** The loop over the horizontal grid lines. */
    method HorizontalLines(st: Stepping, ay: Axis, ghost ts: seq<real>)
      requires Plain() && Styled() && View().scan == Content(ROOT) && IsGrid(st, ay.min, ay.max, ts)
      modifies this`out, this`dashArray
      ensures Styled() && View() == WithHorizontals(old(View()), ay, ts)
    {
      ghost var before := View();
      var t := st.start(ay.min, ay.max - ay.min);
      ghost var k := 0;
      NoGridLine(before, ay, ts);
      LoopTurn(st, ay.min, ay.max, ts, 0);
      while t < ay.max
        invariant 0 <= k <= |ts| && t == LoopValue(st, ay.min, ay.max - ay.min, k) && Plain() && Styled()
        invariant if t < ay.max then k < |ts| && t == ts[k] else k == |ts|
        invariant View() == WithHorizontals(before, ay, ts[..k])
        decreases |ts| - k
      {
        HorizontalTurn(t, ay, before, ts, k);
        t := st.next(t, ay.max - ay.min);
        k := k + 1;
        LoopTurn(st, ay.min, ay.max, ts, k);
      }
    }

    /** The start tag of the document. */
    method SvgStart()
      requires View().scan == Content([])
      modifies this`out
      ensures View() == Scanned(old(View()), Content(ROOT))
    {
      TagStartOf(Svg);
      Opta(Version, Fixed(SvgVersion));
      Opti(Width, PLOT_WIDTH);
      Opti(Height, PLOT_HEIGHT);
      Opta(Xmlns, Fixed(SvgNamespace));
      OptEndOf(false);
      assert [] + [Element(Svg, [])] == ROOT;
    }

    /** The start of the document, with the marker for the arrow heads. */
    method Begin()
      requires View().scan == Content([])
      modifies this`out
      ensures View() == Scanned(old(View()), Content(ROOT))
    {
      SvgStart();
      TagStartOf(Defs);
      OptEndOf(false);
      ArrowMarker();
      TagEndOf(Defs, ROOT, Element(Defs, []));
    }

    method MarkerStart()
      requires View().scan.Content?
      modifies this`out
      ensures View() == Scanned(old(View()), Content(old(View()).scan.elements + [Element(Marker, [])]))
    {
      TagStartOf(Marker);
      Opta(Id, Fixed(MarkerName));
      Opta(MarkerWidth, Fixed(MarkerSize));
      Opta(MarkerHeight, Fixed(MarkerSize));
      Opta(RefX, Fixed(MarkerX));
      Opta(RefY, Fixed(MarkerY));
      Opta(Orient, Fixed(Auto));
      OptEndOf(false);
    }

    /** MARKER_ARROW */
    method ArrowMarker()
      requires View().scan.Content?
      modifies this`out
      ensures View() == old(View())
    {
      ghost var es := View().scan.elements;
      MarkerStart();
      TagStartOf(Path);
      Opta(D, Fixed(ArrowShape));
      Opta(Style, Fixed(ArrowStyle));
      OptEndOf(true);
      TagEndOf(Marker, es, Element(Marker, []));
    }

    /** The start tag of the group around the curve. */
    method CurveGroup()
      requires View().scan == Content(ROOT)
      modifies this`out
      ensures View() == Scanned(old(View()), Content(ROOT + [Element(Group, CURVE_TRANSFORM)]))
    {
      TagStartOf(Group);
      LongBeg(TransformList);
      OneTransform(Translate(PADDING as real, PADDING as real));
      OneTransform(Scale(1.0, -1.0));
      OneTransform(Translate(0.0, (-PLOT_HEIGHT + 2 * PADDING) as real));
      assert View().scan.tag.transform == CURVE_TRANSFORM;
      LongFinish();
      OptEndOf(false);
    }

    /** The path in the given color. */
    method ColoredPath(color: string, x: seq<real>, y: seq<real>)
      requires View().scan.Content? && |x| == |y|
      modifies this`out, this`strokeColor, this`dashArray
      ensures strokeColor.Fixed? && dashArray.Fixed?
      ensures View() == old(View()).(
                plain := old(View()).plain && PlainValue(color),
                curves := old(View()).curves + AsCurve(Curve(old(View()).scan.elements, ofx, mx, ofy, my, x, y)))
    {
      strokeColor, dashArray := Given(color), Fixed(Solid);
      SvgPathData(x, y);
      strokeColor := Fixed(Black);
    }

    /** The group around the curve. */
    method DrawCurve(color: string, x: seq<real>, y: seq<real>, ax: Axis, ay: Axis)
      requires Plain() && Styled() && View().scan == Content(ROOT) && |x| == |y|
      modifies this
      ensures Plain() && Styled()
      ensures View() == old(View()).(plain := old(View()).plain && PlainValue(color),
                                     curves := old(View()).curves + AsCurve(Plotted(x, y, ax, ay)))
    {
      mx, my, ofx, ofy := ax.factor, ay.factor, ax.min, ay.min;
      CurveGroup();
      CurveIsPlotted(x, y, ax, ay);
      ColoredPath(color, x, y);
      TagEndOf(Group, ROOT, Element(Group, CURVE_TRANSFORM));
      mx, my, ofx, ofy := 1.0, 1.0, 0.0, 0.0;
    }

    /** The body of svg_draw_to_file_xy from the background to the curve. */
    method DrawGrid(fl: Floats, ax: Axis, ay: Axis, ghost gx: seq<real>, ghost gy: seq<real>)
      requires Plain() && Styled() && View().scan == Content(ROOT)
      requires IsGrid(fl.vertical, ax.min, ax.max, gx) && IsGrid(fl.horizontal, ay.min, ay.max, gy)
      modifies this
      ensures Plain() && Styled()
      ensures View() == old(View()).(
                boxes := old(View()).boxes + [BACKGROUND],
                lines := old(View()).lines + VerticalGrid(ax, gx) + HorizontalGrid(ay, gy),
                texts := old(View()).texts + GridLabels(gx) + GridLabels(gy))
    {
      fillColor := Fixed(White);
      RootPlacesNothing(Pt(0.0, 0.0));
      SvgRect(0.0, 0.0, PLOT_WIDTH as real, PLOT_HEIGHT as real);
      strokeColor, strokeWidth := Fixed(Grey), 1;
      VerticalLines(fl.vertical, ax, gx);
      strokeColor, strokeWidth := Fixed(Grey), 1;
      HorizontalLines(fl.horizontal, ay, gy);
    }

    /** The labels of the extreme values and the axes. */
    method DrawAxes(ax: Axis, ay: Axis, xLabel: string, yLabel: string)
      requires Plain() && Styled() && View().scan == Content(ROOT)
      modifies this
      ensures Plain() && Styled()
      ensures View() == old(View()).(
                plain := old(View()).plain && PlainText(yLabel) && PlainText(xLabel),
                lines := old(View()).lines + [Y_AXIS] + [X_AXIS],
                texts := old(View()).texts + [Number(Truncate(ay.max))] + [Number(Truncate(ax.max))]
                         + [Chars(yLabel)] + [Number(Truncate(ax.min))] + [Chars(xLabel)] + [Number(Truncate(ay.min))])
    {
      SvgText(Number(Truncate(ay.max)), PADDING as real + 3.0, PADDING as real);
      RotatedNumber(Truncate(ax.max), PLOT_WIDTH - PADDING - textSize / 2, PLOT_HEIGHT - PADDING - textSize,
                    PLOT_WIDTH - PADDING - textSize, PLOT_HEIGHT - PADDING - textSize);
      fillColor := Fixed(Black);
      DrawYAxis(yLabel, ax.min);
      DrawXAxis(xLabel, ay.min);
    }

    /** Everything inside the svg element but the marker. */
    method DrawPicture(fl: Floats, color: string, x: seq<real>, y: seq<real>, ax: Axis, ay: Axis,
                       ghost gx: seq<real>, ghost gy: seq<real>, xLabel: string, yLabel: string)
      requires Plain() && Styled() && View().scan == Content(ROOT) && |x| == |y|
      requires IsGrid(fl.vertical, ax.min, ax.max, gx) && IsGrid(fl.horizontal, ay.min, ay.max, gy)
      modifies this
      ensures View() == Picture(old(View()), color, x, y, Layout(ax, ay, gx, gy), xLabel, yLabel)
    {
      DrawGrid(fl, ax, ay, gx, gy);
      DrawCurve(color, x, y, ax, ay);
      DrawAxes(ax, ay, xLabel, yLabel);
    }

    /** The Y arrow and its labels. */
    method DrawYAxis(yLabel: string, firstX: real)
      requires Plain() && Styled() && View().scan == Content(ROOT)
      modifies this
      ensures Plain() && Styled()
      ensures View() == old(View()).(
                plain := old(View()).plain && PlainText(yLabel),
                lines := old(View()).lines + [Y_AXIS],
                texts := old(View()).texts + [Chars(yLabel)] + [Number(Truncate(firstX))])
    {
      strokeWidth, textSize := 2, PADDING / 2;
      strokeColor, dashArray := Fixed(Black), Fixed(Solid);
      PlacedInRoot(50.0, 275.0, 50.0, 25.0);
      SvgArrow(50.0, 275.0, 50.0, 25.0);
      strokeWidth := 1;
      SvgText(Chars(yLabel), PADDING as real + textSize as real / 4.0, PADDING as real / 2.0 + textSize as real / 4.0);
      textSize := 14;
      RotatedNumber(Truncate(firstX), PADDING - textSize / 2, PLOT_HEIGHT - PADDING - textSize,
                    PADDING - textSize, PLOT_HEIGHT - PADDING - textSize);
    }

    /** The X arrow and its labels. */
    method DrawXAxis(xLabel: string, minY: real)
      requires Plain() && Styled() && View().scan == Content(ROOT)
      modifies this
      ensures Plain() && Styled()
      ensures View() == old(View()).(
                plain := old(View()).plain && PlainText(xLabel),
                lines := old(View()).lines + [X_AXIS],
                texts := old(View()).texts + [Chars(xLabel)] + [Number(Truncate(minY))])
    {
      textSize, strokeWidth := PADDING / 2, 2;
      PlacedInRoot(25.0, 250.0, 975.0, 250.0);
      SvgArrow(25.0, 250.0, 975.0, 250.0);
      strokeWidth := 1;
      SvgText(Chars(xLabel), (PLOT_WIDTH - |xLabel| * textSize) as real,
              (PLOT_HEIGHT - PADDING) as real - textSize as real / 2.0);
      textSize := 14;
      SvgText(Number(Truncate(minY)), PADDING as real + 3.0, (PLOT_HEIGHT - PADDING + textSize) as real);
    }
  }

  /** The svg element for data with the given axes. */
  method Draw(fl: Floats, file: seq<Token>, color: string, x: seq<real>, y: seq<real>, ax: Axis, ay: Axis,
              ghost gx: seq<real>, ghost gy: seq<real>, xLabel: string, yLabel: string)
    returns (out: seq<Token>)
    requires Render(file).scan == Content([]) && |x| == |y|
    requires IsGrid(fl.vertical, ax.min, ax.max, gx) && IsGrid(fl.horizontal, ay.min, ay.max, gy)
    ensures Render(out) == Picture(Render(file), color, x, y, Layout(ax, ay, gx, gy), xLabel, yLabel)
  {
    var ctx := new Context(file);
    ctx.Begin();
    ctx.DrawPicture(fl, color, x, y, ax, ay, gx, gy, xLabel, yLabel);
    ctx.TagEndOf(Svg, [], Element(Svg, []));
    out := ctx.out;
  }

  /** Both grid loops end, whatever the extremes of the data are. */
  ghost predicate LoopsEnd(fl: Floats, x: seq<real>, y: seq<real>) {
    |x| > 0 ==>
      && LoopEnds(fl.vertical, x[0], x[|x| - 1])
      && forall min: real, max: real | IsMinMax(y, min, max) :: LoopEnds(fl.horizontal, min, max)
  }

  lemma GridsExist(fl: Floats, x: seq<real>, y: seq<real>, minY: real, maxY: real)
    returns (gx: seq<real>, gy: seq<real>)
    requires |x| > 0 && LoopsEnd(fl, x, y) && IsMinMax(y, minY, maxY)
    ensures IsGrid(fl.vertical, x[0], x[|x| - 1], gx) && IsGrid(fl.horizontal, minY, maxY, gy)
  {
    gx :| IsGrid(fl.vertical, x[0], x[|x| - 1], gx);
    gy :| IsGrid(fl.horizontal, minY, maxY, gy);
  }

  lemma MakesLayout(fl: Floats, x: seq<real>, y: seq<real>, p: Layout)
    requires |x| == |y| > 0 && p.ax.min == x[0] && p.ax.max == x[|x| - 1] && IsMinMax(y, p.ay.min, p.ay.max)
    requires p.ax.factor == fl.quotient(900.0, p.ax.max - p.ax.min) && IsGrid(fl.vertical, p.ax.min, p.ax.max, p.gx)
    requires p.ay.factor == fl.quotient(200.0, p.ay.max - p.ay.min) && IsGrid(fl.horizontal, p.ay.min, p.ay.max, p.gy)
    ensures IsLayout(fl, x, y, p)
  {
  }

  /** svg_draw_to_file_xy after the test for no data. */
  method DrawData(fl: Floats, file: seq<Token>, color: string, x: seq<real>, y: seq<real>,
                  xLabel: string, yLabel: string)
    returns (out: seq<Token>, ghost p: Layout)
    requires Render(file).scan == Content([]) && |x| == |y| > 0 && LoopsEnd(fl, x, y)
    ensures IsLayout(fl, x, y, p) && Render(out) == Picture(Render(file), color, x, y, p, xLabel, yLabel)
  {
    var minX, maxX := x[0], x[|x| - 1];
    var minY, maxY := MaxMin(y);
    var ax := Axis(minX, maxX, fl.quotient((PLOT_WIDTH - 2 * PADDING) as real, maxX - minX));
    var ay := Axis(minY, maxY, fl.quotient((PLOT_HEIGHT - 2 * PADDING) as real, maxY - minY));
    ghost var gx, gy := GridsExist(fl, x, y, minY, maxY);
    p := Layout(ax, ay, gx, gy);
    MakesLayout(fl, x, y, p);
    out := Draw(fl, file, color, x, y, ax, ay, gx, gy, xLabel, yLabel);
  }

  /** svg_draw_to_file_xy: for any data, flat or disordered too, any color and labels, and any arithmetic in
      which the grid loops end, the elements that are printed are properly nested; if color and labels
      contain no markup, the document is well formed. It shows the grid, the two axes, every data point where
      the formulas of the grid put it, and the numbers of the grid lines and extremes. */
  method SvgDrawToFileXy(fl: Floats, file: seq<Token>, color: string, x: seq<real>, y: seq<real>,
                         xLabel: string, yLabel: string)
    returns (out: seq<Token>, ghost p: Layout)
    requires IsNested(file) && |x| == |y| && LoopsEnd(fl, x, y)
    ensures IsNested(out)
    ensures CertainlyWellFormed(file) && PlainValue(color) && PlainText(xLabel) && PlainText(yLabel) ==>
              CertainlyWellFormed(out)
    ensures |x| == 0 ==> out == file
    ensures |x| > 0 ==>
              IsLayout(fl, x, y, p) && Render(out) == Picture(Render(file), color, x, y, p, xLabel, yLabel)
    ensures |x| > 0 ==>
              var a, b := Render(file), Render(out);
              && b.curves == a.curves + [Plotted(x, y, p.ax, p.ay)]
              && b.lines == a.lines + VerticalGrid(p.ax, p.gx) + HorizontalGrid(p.ay, p.gy) + [Y_AXIS] + [X_AXIS]
  {
    out := file;
    if |x| == 0 {
      p := Layout(Axis(0.0, 0.0, 0.0), Axis(0.0, 0.0, 0.0), [], []);
      return;
    }
    out, p := DrawData(fl, file, color, x, y, xLabel, yLabel);
  }

  /** Labels are not escaped: with a bracket for a label, what a plot prints is not well formed. */
  lemma BracketLabelBreaks(file: seq<Token>, out: seq<Token>, color: string, x: seq<real>, y: seq<real>, p: Layout,
                           xLabel: string, yLabel: string, spell: Token -> string)
    requires IsNested(out) && |x| == |y| && IsSpelling(spell) && (xLabel == "<" || yLabel == "<")
    requires Render(out) == Picture(Render(file), color, x, y, p, xLabel, yLabel)
    ensures !BracketsOpenTags(Characters(out, spell))
  {
    var ts := Render(out).texts;
    assert ts[|ts| - 2] == Chars(xLabel) && ts[|ts| - 4] == Chars(yLabel);
    BracketBreaks(out, spell);
  }

  /** In exact arithmetic the grid loops end for all data. */
  lemma ExactLoopsEnd(fl: Floats, x: seq<real>, y: seq<real>)
    requires Exact(fl)
    ensures LoopsEnd(fl, x, y)
  {
    if |x| > 0 {
      ExactLoopEnds(fl.vertical, x[0], x[|x| - 1]);
    }
    forall min: real, max: real | IsMinMax(y, min, max)
      ensures LoopEnds(fl.horizontal, min, max)
    {
      ExactLoopEnds(fl.horizontal, min, max);
    }
  }
}
