/** generate_html_file as a whole: copy the window of the motor history and draw the three plots. */
module WebPage {
  import opened HistoryRing
  import opened MotorHistory
  import opened SvgDocument
  import opened SvgPlot
  import opened SvgGenerator

  const ACTUAL := "Actual position (abs units)"
  const DESIRED := "Desired position (abs units)"
  const DUTY := "PWM duty cicle, +-100%"
  const TIME := "t"
  const RED := "#ff0000"
  const GREEN := "#00ff00"
  const BLUE := "#0000ff"

  lemma CaptionsArePlain()
    ensures PlainText(ACTUAL) && PlainText(DESIRED)
  {
  }

  lemma LabelsArePlain()
    ensures PlainText(DUTY) && PlainText(TIME)
    ensures PlainValue(RED) && PlainValue(GREEN) && PlainValue(BLUE)
  {
  }

  ghost predicate InFrame(p: Pt) {
    50.0 <= p.x <= 950.0 && 50.0 <= p.y <= 250.0
  }

  ghost predicate LastCurveInFrame(d: Doc) {
    d.curves != [] && var c := d.curves[|d.curves| - 1]; forall k | 0 <= k < |c| :: InFrame(c[k])
  }

  /** In exact arithmetic, a column that varies over ordered stamps that vary too. */
  ghost predicate IsRegular(fl: Floats, w: seq<Record>, column: nat)
    requires column < COLUMNS
  {
    Exact(fl) && StampsSorted(w) && |w| > 0 && w[|w| - 1].stamp > w[0].stamp && Varies(Values(w, column))
  }

  /** What the reader finds after one more plot, of a column of the window over its stamps. */
  ghost predicate OneMorePlot(fl: Floats, before: Doc, after: Doc, color: string, w: seq<Record>, column: nat,
                              caption: string, p: Layout)
    requires column < COLUMNS
  {
    && IsLayout(fl, Values(w, 3), Values(w, column), p)
    && after == Picture(before, color, Values(w, 3), Values(w, column), p, TIME, caption)
    && (IsRegular(fl, w, column) ==>
          IsProper(p) && LastCurveInFrame(after))
  }

  lemma PlotIsInFrame(fl: Floats, before: Doc, after: Doc, color: string, w: seq<Record>, column: nat,
                      caption: string, p: Layout)
    requires column < COLUMNS && IsRegular(fl, w, column) && IsLayout(fl, Values(w, 3), Values(w, column), p)
    requires after == Picture(before, color, Values(w, 3), Values(w, column), p, TIME, caption)
    ensures IsProper(p) && LastCurveInFrame(after)
  {
    var x, y := Values(w, 3), Values(w, column);
    ExactLayoutIsProper(fl, x, y, p);
    forall i, j | 0 <= i <= j < |x|
      ensures x[i] <= x[j]
    {
      assert w[i].stamp <= w[j].stamp;
    }
    var ps := Plotted(x, y, p.ax, p.ay);
    forall k | 0 <= k < |x|
      ensures InFrame(ps[k])
    {
      PlotStaysInFrame(x, y, p, k);
    }
    assert after.curves == before.curves + [ps];
  }

  /** One of the three plots. */
  method DrawColumn(fl: Floats, file: seq<Token>, color: string, xs: array<real>, ys: array<real>,
                    ghost w: seq<Record>, ghost column: nat, caption: string)
    returns (out: seq<Token>)
    requires CertainlyWellFormed(file) && PlainValue(color) && PlainText(caption) && column < COLUMNS && |w| > 0
    requires xs[..] == Values(w, 3) && ys[..] == Values(w, column) && LoopsEnd(fl, xs[..], ys[..])
    ensures CertainlyWellFormed(out)
    ensures IsPlot(fl, Render(file), Render(out), color, w, column, caption)
  {
    LabelsArePlain();
    ghost var p;
    out, p := SvgDrawToFileXy(fl, file, color, xs[..], ys[..], TIME, caption);
    if IsRegular(fl, w, column) {
      PlotIsInFrame(fl, Render(file), Render(out), color, w, column, caption, p);
    }
    assert OneMorePlot(fl, Render(file), Render(out), color, w, column, caption, p);
  }

  /** The grid loops of all three plots end. */
  ghost predicate AllLoopsEnd(fl: Floats, w: seq<Record>) {
    forall column: nat | column < 3 :: LoopsEnd(fl, Values(w, 3), Values(w, column))
  }

  ghost predicate IsPlot(fl: Floats, before: Doc, after: Doc, color: string, w: seq<Record>, column: nat,
                         caption: string)
    requires column < COLUMNS
  {
    exists p: Layout :: OneMorePlot(fl, before, after, color, w, column, caption, p)
  }

  /** The actual position, the desired position and the duty over time, one after the other. */
  ghost predicate ThreePlots(fl: Floats, before: Doc, after: Doc, w: seq<Record>) {
    exists d1: Doc, d2: Doc ::
      && IsPlot(fl, before, d1, RED, w, 1, ACTUAL)
      && IsPlot(fl, d1, d2, GREEN, w, 0, DESIRED)
      && IsPlot(fl, d2, after, BLUE, w, 2, DUTY)
  }

  /** A curve over the stamps of the window, of the values that `value` takes from its records, and a caption. */
  ghost predicate ShowsValues(c: seq<Pt>, ts: seq<Token>, w: seq<Record>, value: Record -> int, caption: string) {
    Chars(caption) in ts && exists p: Layout :: IsCurve(c, w, value, p)
  }

  ghost predicate IsCurve(c: seq<Pt>, w: seq<Record>, value: Record -> int, p: Layout) {
    && |c| == |w|
    && forall k | 0 <= k < |w| ::
         c[k] == Pt(FrameX(w[k].stamp as real, p.ax), FrameY(value(w[k]) as real, p.ay))
  }

  lemma PlottedIsCurve(w: seq<Record>, column: nat, value: Record -> int, p: Layout)
    requires column < COLUMNS && forall r: Record :: value(r) == Field(r, column)
    ensures IsCurve(Plotted(Values(w, 3), Values(w, column), p.ax, p.ay), w, value, p)
  {
  }

  lemma PictureShowsValues(before: Doc, color: string, w: seq<Record>, column: nat, value: Record -> int,
                           caption: string, p: Layout) returns (c: seq<Pt>, ts: seq<Token>)
    requires |w| > 0 && column < COLUMNS && forall r: Record :: value(r) == Field(r, column)
    ensures var after := Picture(before, color, Values(w, 3), Values(w, column), p, TIME, caption);
            after.curves == before.curves + [c] && after.texts == before.texts + ts
    ensures ShowsValues(c, ts, w, value, caption)
  {
    var after := Picture(before, color, Values(w, 3), Values(w, column), p, TIME, caption);
    c, ts := Plotted(Values(w, 3), Values(w, column), p.ax, p.ay), after.texts[|before.texts|..];
    PictureIsLabelled(before, color, Values(w, 3), Values(w, column), p, TIME, caption);
    assert after.texts == before.texts + ts;
    assert ts[|p.gx| + |p.gy| + 2] == Chars(caption);
    PlottedIsCurve(w, column, value, p);
  }

  lemma PlotShowsValues(fl: Floats, before: Doc, after: Doc, color: string, w: seq<Record>, column: nat,
                        value: Record -> int, caption: string) returns (c: seq<Pt>, ts: seq<Token>)
    requires |w| > 0 && column < COLUMNS && IsPlot(fl, before, after, color, w, column, caption)
    requires forall r: Record :: value(r) == Field(r, column)
    ensures after.curves == before.curves + [c] && after.texts == before.texts + ts
    ensures ShowsValues(c, ts, w, value, caption)
  {
    var p: Layout :| OneMorePlot(fl, before, after, color, w, column, caption, p);
    c, ts := PictureShowsValues(before, color, w, column, value, caption, p);
  }

  function ActualOf(r: Record): int {
    r.position
  }

  function DesiredOf(r: Record): int {
    r.desired
  }

  function DutyOf(r: Record): int {
    r.duty
  }

  /** Three plots with any colors and captions. */
  lemma PlotsShowRecords(fl: Floats, d0: Doc, d1: Doc, d2: Doc, d3: Doc, w: seq<Record>,
                         colors: (string, string, string), captions: (string, string, string))
    returns (c1: seq<Pt>, c2: seq<Pt>, c3: seq<Pt>, t1: seq<Token>, t2: seq<Token>, t3: seq<Token>)
    requires |w| > 0 && IsPlot(fl, d0, d1, colors.0, w, 1, captions.0)
    requires IsPlot(fl, d1, d2, colors.1, w, 0, captions.1) && IsPlot(fl, d2, d3, colors.2, w, 2, captions.2)
    ensures d3.curves == d0.curves + [c1] + [c2] + [c3] && d3.texts == d0.texts + t1 + t2 + t3
    ensures ShowsValues(c1, t1, w, ActualOf, captions.0) && ShowsValues(c2, t2, w, DesiredOf, captions.1)
    ensures ShowsValues(c3, t3, w, DutyOf, captions.2)
  {
    c1, t1 := PlotShowsValues(fl, d0, d1, colors.0, w, 1, ActualOf, captions.0);
    c2, t2 := PlotShowsValues(fl, d1, d2, colors.1, w, 0, DesiredOf, captions.1);
    c3, t3 := PlotShowsValues(fl, d2, d3, colors.2, w, 2, DutyOf, captions.2);
  }

  /** The page in terms of the records: three curves over the stamps, of the actual position, the desired
      position and the duty, in this order, each with its caption. */
  lemma PageShowsRecords(fl: Floats, before: Doc, after: Doc, w: seq<Record>)
    returns (c1: seq<Pt>, c2: seq<Pt>, c3: seq<Pt>, t1: seq<Token>, t2: seq<Token>, t3: seq<Token>)
    requires |w| > 0 && ThreePlots(fl, before, after, w)
    ensures after.curves == before.curves + [c1] + [c2] + [c3] && after.texts == before.texts + t1 + t2 + t3
    ensures ShowsValues(c1, t1, w, ActualOf, ACTUAL) && ShowsValues(c2, t2, w, DesiredOf, DESIRED)
    ensures ShowsValues(c3, t3, w, DutyOf, DUTY)
  {
    var d1: Doc, d2: Doc :|
      && IsPlot(fl, before, d1, RED, w, 1, ACTUAL)
      && IsPlot(fl, d1, d2, GREEN, w, 0, DESIRED)
      && IsPlot(fl, d2, after, BLUE, w, 2, DUTY);
    c1, c2, c3, t1, t2, t3 :=
      PlotsShowRecords(fl, before, d1, d2, after, w, (RED, GREEN, BLUE), (ACTUAL, DESIRED, DUTY));
  }

  method DrawColumns(fl: Floats, file: seq<Token>, xActual: array<real>, yActual: array<real>,
                     yDesired: array<real>, yPwm: array<real>, ghost w: seq<Record>)
    returns (out: seq<Token>)
    requires CertainlyWellFormed(file) && |w| > 0 && AllLoopsEnd(fl, w)
    requires xActual[..] == Values(w, 3) && yActual[..] == Values(w, 1)
    requires yDesired[..] == Values(w, 0) && yPwm[..] == Values(w, 2)
    ensures CertainlyWellFormed(out) && ThreePlots(fl, Render(file), Render(out), w)
  {
    CaptionsArePlain();
    LabelsArePlain();
    var first := DrawColumn(fl, file, RED, xActual, yActual, w, 1, ACTUAL);
    var second := DrawColumn(fl, first, GREEN, xActual, yDesired, w, 0, DESIRED);
    out := DrawColumn(fl, second, BLUE, xActual, yPwm, w, 2, DUTY);
  }

  /** generate_html_file: for any window, flat or disordered too, and any arithmetic in which the grid loops
      end, the page stays well formed and shows the actual position, the desired position and the duty of
      the window over time, in this order. In exact arithmetic, every point of a column that varies lies in
      the frame of its plot if the stamps are in order and not all the same. */
  method GenerateHtmlFile(fl: Floats, h: History, file: seq<Token>) returns (out: seq<Token>)
    requires h.Valid() && CertainlyWellFormed(file) && AllLoopsEnd(fl, LastRecords(h.size, h.samples))
    ensures CertainlyWellFormed(out)
    ensures ThreePlots(fl, Render(file), Render(out), LastRecords(h.size, h.samples))
  {
    var n := h.size;
    ghost var w := LastRecords(n, h.samples);
    var xActual := new real[n](_ => 0.0);
    var yActual := new real[n](_ => 0.0);
    var yDesired := new real[n](_ => 0.0);
    var yPwm := new real[n](_ => 0.0);
    h.CopyWindow(xActual, yActual, yDesired, yPwm);
    out := DrawColumns(fl, file, xActual, yActual, yDesired, yPwm, w);
  }

  /** One of the local arrays after the copying loop. */
  method FillColumn(a: array<real>, copied: seq<Record>, column: nat)
    requires a.Length == |copied| && column < COLUMNS
    modifies a
    ensures a[..] == Values(copied, column)
  {
    for k := 0 to |copied|
      invariant a[..k] == Values(copied, column)[..k]
    {
      a[k] := Field(copied[k], column) as real;
    }
  }

  /** generate_html_file as one of the tasks of HistoryRing: reader id has left the copying loop in the run es,
      whatever the writer did meanwhile, and draws what it has copied. The page is well formed in any case;
      if no more than c - n samples were begun between its reading of the start index and the end of its
      loop, what it shows is the window of the moment at which it read the start index. */
  method ServeCopied(fl: Floats, n: nat, c: nat, ghost es: seq<Event>, ghost id: nat, copied: seq<Record>,
                     file: seq<Token>)
    returns (out: seq<Token>)
    requires 0 < n < c && CertainlyWellFormed(file) && AllLoopsEnd(fl, copied)
    requires var s := After(n, c, es);
             id in s.readers && s.readers[id].i == (s.readers[id].s + n) % c && copied == s.readers[id].copied
    ensures CertainlyWellFormed(out) && |copied| == n
    ensures ThreePlots(fl, Render(file), Render(out), copied)
    ensures var s := After(n, c, es);
            var r := s.readers[id];
            && |r.marks| == n && r.since <= |s.begun|
            && (r.marks[n - 1] - r.since <= c - n ==>
                  ThreePlots(fl, Render(file), Render(out), LastRecords(n, s.begun[..r.since])))
  {
    FinishedCopyIsWindow(n, c, es, id);
    var xActual := new real[n];
    var yActual := new real[n];
    var yDesired := new real[n];
    var yPwm := new real[n];
    FillColumn(xActual, copied, 3);
    FillColumn(yActual, copied, 1);
    FillColumn(yDesired, copied, 0);
    FillColumn(yPwm, copied, 2);
    out := DrawColumns(fl, file, xActual, yActual, yDesired, yPwm, copied);
  }

  lemma ExactLoopsAllEnd(fl: Floats, w: seq<Record>)
    requires Exact(fl)
    ensures AllLoopsEnd(fl, w)
  {
    forall column: nat | column < 3
      ensures LoopsEnd(fl, Values(w, 3), Values(w, column))
    {
      ExactLoopsEnd(fl, Values(w, 3), Values(w, column));
    }
  }

  /** The samples were taken often enough and not for too long. */
  ghost predicate InTime(t0: nat, ticks: seq<nat>, first: nat, freq: nat, inputs: seq<Input>)
    requires freq > 0
  {
    && Clocked(t0, ticks, first, inputs) && NonDecreasing(t0, ticks) && ShortGaps(t0, ticks)
    && Before(t0, ticks, |ticks|) - t0 < SUM_RANGE
    && freq <= TICK_RANGE && Milliseconds(t0, Before(t0, ticks, |ticks|), freq) < TICK_RANGE
  }

  /** From the power-up of a board on: its writer has run for some time, a browser asks for the page, and in
      exact arithmetic the page is well formed and shows the window w of what the last turns of the writer
      have read. If no gap between samples was as long as the range of the clock and the milliseconds fit 32
      bits, the stamps are in order, so that, unless they are all the same, the points of every column that
      varies lie in the frame of their plot. */
  method RecordAndServe(fl: Floats, size: nat, cyclicSize: nat, first: nat, freq: nat, inputs: seq<Input>,
                        file: seq<Token>, ghost t0: nat, ghost ticks: seq<nat>)
    returns (out: seq<Token>, ghost w: seq<Record>)
    requires 0 < size < cyclicSize && freq > 0 && Exact(fl) && CertainlyWellFormed(file)
    ensures CertainlyWellFormed(out)
    ensures |w| == size && IsWindow(w, first, freq, inputs) && ThreePlots(fl, Render(file), Render(out), w)
    ensures InTime(t0, ticks, first, freq, inputs) ==> StampsSorted(w)
  {
    var h := new History(size, cyclicSize);
    UpdateStatistics(h, first, freq, inputs);
    assert h.samples == Samples(first, freq, inputs);
    w := LastRecords(size, h.samples);
    WindowOfInputs(size, first, freq, inputs);
    ExactLoopsAllEnd(fl, w);
    out := GenerateHtmlFile(fl, h, file);
    if InTime(t0, ticks, first, freq, inputs) {
      WindowIsSorted(t0, ticks, first, freq, inputs, size);
    }
  }
}
