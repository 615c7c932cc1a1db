/** The Delaunay demo page controller (assets/js/delaunay.js:151-357): a point
    list, the Voronoi flag and the SVG width, changed by user actions; after
    every change the whole picture and the statistics are recomputed.

    Each handler is a pure function from the page before to a `Reaction`:
    the page after, the picture drawn by `updateTriangulation` (absent when
    the handler returns before redrawing) and the new text of the Voronoi
    button's label (`caption`) (absent when the label is not touched). */
module DelaunayPage {
  import opened Wrappers
  import opened Decimal
  import opened Triangulation
  import opened StatsPanel

  /** The SVG height never changes. */
  const Height: real := 600.0
  /** Smallest SVG width, and what is taken off the container's width. */
  const MinWidth: real := 320.0
  const ContainerInset: int := 80
  /** Distance of random points from the SVG's edges. */
  const Margin: real := 60.0

  datatype Page = Page(points: seq<Point>, showVoronoi: bool, width: real)

  /** The page before `recalcSvgSize` first runs. */
  const Blank: Page := Page([], false, 0.0)

  /** A value of `Math.random()`. */
  type Random = u: real | 0.0 <= u < 1.0

  /** `recalcSvgSize`: with a container of width `clientWidth`, the width
      becomes `max(clientWidth - 80, 320)`; without one nothing changes.
      Points are not rescaled. */
  function RecalcSvgSize(p: Page, clientWidth: Option<int>): (q: Page)
    ensures clientWidth.None? ==> q == p
    ensures q.points == p.points && q.showVoronoi == p.showVoronoi
    ensures clientWidth.Some? ==> q.width >= MinWidth && q.width >= (clientWidth.value - ContainerInset) as real
    ensures clientWidth.Some? ==> q.width == MinWidth || q.width == (clientWidth.value - ContainerInset) as real
  {
    match clientWidth
    case None => p
    case Some(w) =>
      var fit := (w - ContainerInset) as real;
      p.(width := if fit >= MinWidth then fit else MinWidth)
  }

  /** The new width depends on the container only: resizing twice to the same
      container width is the same as resizing once. */
  lemma RecalcSvgSizeIdempotent(p: Page, clientWidth: Option<int>)
    ensures RecalcSvgSize(RecalcSvgSize(p, clientWidth), clientWidth) == RecalcSvgSize(p, clientWidth)
  {
  }

  /** The click handler: the pointer position is appended as one more point. */
  function AddPoint(p: Page, x: real, y: real): (q: Page)
    ensures |q.points| == |p.points| + 1
    ensures q.points[..|p.points|] == p.points
    ensures q.points[|p.points|] == (x, y)
    ensures q.showVoronoi == p.showVoronoi && q.width == p.width
  {
    p.(points := p.points + [(x, y)])
  }

  /** The example layout as fractions of (width, height). */
  const ExampleFractions: seq<(real, real)> := [
    (0.3, 0.3), (0.7, 0.3), (0.5, 0.7), (0.2, 0.6), (0.8, 0.6),
    (0.4, 0.5), (0.6, 0.5), (0.35, 0.4), (0.65, 0.4)]

  /** The nine example points for an SVG of the given width. */
  function ExampleLayout(width: real): (r: seq<Point>)
    ensures |r| == |ExampleFractions| == 9
    ensures forall i :: 0 <= i < |r| ==> r[i] == Scale(width, ExampleFractions[i])
  {
    seq(|ExampleFractions|, i requires 0 <= i < |ExampleFractions| => Scale(width, ExampleFractions[i]))
  }

  /** A fraction pair of (width, height) as a point. */
  function Scale(width: real, f: (real, real)): Point {
    (width * f.0, Height * f.1)
  }

  /** `loadExample`: the points are replaced by the example layout. */
  function LoadExample(p: Page): (q: Page)
    ensures q.points == ExampleLayout(p.width)
    ensures q.showVoronoi == p.showVoronoi && q.width == p.width
  {
    p.(points := ExampleLayout(p.width))
  }

  /** On a 1000-pixel-wide SVG the first example point is (300, 180). */
  lemma ExampleFirstPoint(p: Page)
    requires p.width == 1000.0
    ensures LoadExample(p).points[0] == (300.0, 180.0)
  {
  }

  /** Which example point is the mirror image of which. */
  const ExampleMirror: seq<nat> := [1, 0, 2, 4, 3, 6, 5, 8, 7]

  /** The example layout is symmetric about the vertical centre line. */
  lemma ExampleLayoutSymmetric(width: real)
    ensures var r := ExampleLayout(width);
      forall i :: 0 <= i < 9 ==> r[ExampleMirror[i]] == (width - r[i].0, r[i].1)
  {
  }

  /** The example layout lies in the middle of the SVG: between 20% and 80%
      of the width and between 30% and 70% of the height. */
  lemma ExampleLayoutInside(width: real)
    requires width >= 0.0
    ensures var r := ExampleLayout(width);
      forall i :: 0 <= i < 9 ==> 0.2 * width <= r[i].0 <= 0.8 * width && 0.3 * Height <= r[i].1 <= 0.7 * Height
  {
  }

  /** On an SVG of positive width the nine example points are all different,
      so loading the example always gets past the fewer-than-three branch. */
  lemma ExampleLayoutDistinct(width: real)
    requires width > 0.0
    ensures var r := ExampleLayout(width);
      forall i, j :: 0 <= i < j < 9 ==> r[i] != r[j]
  {
    var r := ExampleLayout(width);
    forall i, j | 0 <= i < j < 9
      ensures r[i] != r[j]
    {
      ScaledApart(width, ExampleFractions[i], ExampleFractions[j]);
    }
  }

  /** Scaling by a positive width keeps different fractions apart. */
  lemma ScaledApart(width: real, f: (real, real), g: (real, real))
    requires width > 0.0 && f != g
    ensures (width * f.0, Height * f.1) != (width * g.0, Height * g.1)
  {
    assert width * f.0 / width == f.0 && width * g.0 / width == g.0;
  }

  /** `Math.random() * span`: a fraction in [0, 1) of `span`, so between 0
      and `span`. */
  function Spread(u: Random, span: real): (d: real)
    ensures span >= 0.0 ==> 0.0 <= d <= span
    ensures span > 0.0 ==> d < span
    ensures span < 0.0 ==> span < d <= 0.0
  {
    SpreadBounds(u, span);
    u * span
  }

  lemma SpreadBounds(u: Random, span: real)
    ensures span >= 0.0 ==> 0.0 <= u * span <= span
    ensures span > 0.0 ==> u * span < span
    ensures span < 0.0 ==> span < u * span <= 0.0
  {
    var rest := 1.0 - u;
    assert span - u * span == rest * span;
    if span >= 0.0 {
      assert 0.0 <= u * span;
      assert 0.0 <= rest * span;
      assert span > 0.0 ==> 0.0 < rest * span;
    } else {
      var m := -span;
      assert u * span == -(u * m);
      assert rest * span == -(rest * m);
      assert 0.0 <= u * m;
      assert 0.0 < rest * m;
    }
  }

  /** The point placed by one round of the `addRandomPoints` loop, from the
      two `Math.random()` values it draws (x first, then y). */
  function RandomPoint(width: real, ux: Random, uy: Random): Point {
    (Margin + Spread(ux, width - Margin * 2.0), Margin + Spread(uy, Height - Margin * 2.0))
  }

  /** A random point lies within the margins: `[60, width - 60]` across when
      the SVG is at least 120 wide (otherwise `(width - 60, 60]`) and
      `[60, 540)` down. */
  lemma RandomPointInBox(width: real, ux: Random, uy: Random)
    ensures var pt := RandomPoint(width, ux, uy);
      Margin <= pt.1 < Height - Margin
    ensures var pt := RandomPoint(width, ux, uy);
      width >= 2.0 * Margin ==> Margin <= pt.0 <= width - Margin
    ensures var pt := RandomPoint(width, ux, uy);
      width < 2.0 * Margin ==> width - Margin < pt.0 <= Margin
  {
  }

  /** The first `n` rounds of the loop, appended to `points`; random value
      number `2k` and `2k + 1` go into the point of round `k`. */
  function AppendRandom(points: seq<Point>, n: nat, width: real, rng: nat -> Random): (r: seq<Point>)
    ensures |r| == |points| + n
    ensures r[..|points|] == points
    ensures forall m :: |points| <= m < |r| ==>
      r[m] == RandomPoint(width, rng(2 * (m - |points|)), rng(2 * (m - |points|) + 1))
  {
    if n == 0 then points
    else
      var k := n - 1;
      AppendRandom(points, k, width, rng) + [RandomPoint(width, rng(2 * k), rng(2 * k + 1))]
  }

  /** `addRandomPoints(count)`: `count` new points at the end (none when
      `count` is not positive), each inside the margins. */
  function AddRandomPoints(p: Page, count: int, rng: nat -> Random): (q: Page)
    ensures |q.points| == |p.points| + (if count > 0 then count else 0)
    ensures q.points[..|p.points|] == p.points
    ensures q.showVoronoi == p.showVoronoi && q.width == p.width
    ensures forall m :: |p.points| <= m < |q.points| ==> Margin <= q.points[m].1 < Height - Margin
    ensures p.width >= 2.0 * Margin ==>
      forall m :: |p.points| <= m < |q.points| ==> Margin <= q.points[m].0 <= p.width - Margin
  {
    var n := if count > 0 then count else 0;
    var r := AppendRandom(p.points, n, p.width, rng);
    forall m | |p.points| <= m < |r|
      ensures Margin <= r[m].1 < Height - Margin
      ensures p.width >= 2.0 * Margin ==> Margin <= r[m].0 <= p.width - Margin
    {
      var k := m - |p.points|;
      RandomPointInBox(p.width, rng(2 * k), rng(2 * k + 1));
    }
    p.(points := r)
  }

  /** `clearPoints`. */
  function ClearPoints(p: Page): (q: Page)
    ensures q.points == []
    ensures q.showVoronoi == p.showVoronoi && q.width == p.width
  {
    p.(points := [])
  }

  /** `toggleVoronoi`: the flag flips and nothing else changes. */
  function ToggleVoronoi(p: Page): (q: Page)
    ensures q.showVoronoi != p.showVoronoi
    ensures q.points == p.points && q.width == p.width
  {
    p.(showVoronoi := !p.showVoronoi)
  }

  /** Toggling twice restores the page. */
  lemma ToggleTwice(p: Page)
    ensures ToggleVoronoi(ToggleVoronoi(p)) == p
  {
  }

  /** The text of the Voronoi button's label after a toggle. */
  function ToggleLabel(showVoronoi: bool): (s: string)
    ensures s == "Hide Voronoi" <==> showVoronoi
    ensures s == "Show Voronoi" <==> !showVoronoi
  {
    if showVoronoi then "Hide Voronoi" else "Show Voronoi"
  }

  /** The Voronoi layer: the cell of every point, clipped to the SVG. */
  datatype Overlay = Overlay(clipWidth: real, clipHeight: real, cells: seq<nat>)

  /** What one `updateTriangulation` draws and reports. */
  datatype Render = Render(
    dots: seq<Point>,
    triangles: seq<Triangle>,
    hues: seq<real>,
    overlay: Option<Overlay>,
    stats: Stats)

  /** `updateTriangulation`, with the statistics of the model (see
      `StatsAsWritten` for the source's own numbers). Fewer than three points
      draw only the points and report (n, 0, 0, 0); otherwise the triangles
      come from the triangulation, the Voronoi cells are drawn exactly when
      the flag is set, and the minimum and mean summarize the angle list of
      all triangles. */
  function UpdateTriangulation(p: Page, e: Engine): (r: Render)
    ensures r.dots == p.points
    ensures |p.points| < 3 ==> r.triangles == [] && r.stats == Stats(|p.points|, 0, 0.0, 0.0)
    ensures |p.points| >= 3 ==> r.triangles == e.triangulate(p.points)
    ensures r.stats.pointCount == |p.points| && r.stats.triangleCount == |r.triangles|
    ensures |p.points| >= 3 ==>
      AngleSummary(r.stats.minAngle, r.stats.avgAngle) == Summarize(AngleList(r.triangles, e))
    ensures r.stats.minAngle <= r.stats.avgAngle
    ensures AcosInRange(e) ==> 0.0 <= r.stats.minAngle && r.stats.avgAngle <= 180.0
    ensures |r.hues| == |r.triangles|
    ensures forall i :: 0 <= i < |r.hues| ==> 0.0 <= r.hues[i] < 360.0 && r.hues[i] == Hue(i)
    ensures r.overlay.Some? <==> p.showVoronoi && |p.points| >= 3
    ensures r.overlay.Some? ==> r.overlay.value.clipWidth == p.width && r.overlay.value.clipHeight == Height
    ensures r.overlay.Some? ==> |r.overlay.value.cells| == |p.points|
    ensures r.overlay.Some? ==> forall i :: 0 <= i < |r.overlay.value.cells| ==> r.overlay.value.cells[i] == i
  {
    if |p.points| < 3 then
      Render(p.points, [], [], None, Stats(|p.points|, 0, 0.0, 0.0))
    else
      var ts := e.triangulate(p.points);
      var angles := AngleList(ts, e);
      var s := Summarize(angles);
      TriangleSummaryInRange(ts, e);
      var overlay := if p.showVoronoi then Some(Overlay(p.width, Height, seq(|p.points|, i => i))) else None;
      Render(p.points, ts, seq(|ts|, i requires 0 <= i => Hue(i)), overlay,
             Stats(|p.points|, |ts|, s.minAngle, s.avgAngle))
  }

  /** The four numbers lines 175-179 and 233-236 pass to `updateStats`. */
  function StatsAsWritten(p: Page, e: Engine): (st: RawStats)
    ensures st.pointCount == |p.points|
    ensures |p.points| < 3 ==> st == RawStats(|p.points|, 0, Finite(0.0), Finite(0.0))
    ensures |p.points| >= 3 ==> st.triangleCount == |e.triangulate(p.points)|
    ensures |p.points| >= 3 ==>
      RawSummary(st.minAngle, st.avgAngle) == SummarizeAsWritten(AngleList(e.triangulate(p.points), e))
  {
    if |p.points| < 3 then RawStats(|p.points|, 0, Finite(0.0), Finite(0.0))
    else
      var ts := e.triangulate(p.points);
      var s := SummarizeAsWritten(AngleList(ts, e));
      RawStats(|p.points|, |ts|, s.minAngle, s.avgAngle)
  }

  /** As written, three or more points that triangulate to nothing (three
      clicks on one pixel, say) show a minimum angle of "Infinity°"; the
      model shows "0°", the degenerate value the page uses everywhere else. */
  lemma EmptyTriangulationShowsInfinity(p: Page, e: Engine)
    requires |p.points| >= 3 && e.triangulate(p.points) == []
    ensures DisplayAsWritten(StatsAsWritten(p, e), e.round).minAngle == "Infinity" + [Degree]
    ensures DisplayAsWritten(StatsAsWritten(p, e), e.round).avgAngle == "0" + [Degree]
    ensures Display(UpdateTriangulation(p, e).stats, e.round).minAngle == "0" + [Degree]
    ensures Display(UpdateTriangulation(p, e).stats, e.round).avgAngle == "0" + [Degree]
  {
    assert AngleList([], e) == [];
  }

  /** In every other case the model reports exactly what the source reports. */
  lemma StatsAgreeOtherwise(p: Page, e: Engine)
    requires |p.points| < 3 || e.triangulate(p.points) != []
    ensures var st := UpdateTriangulation(p, e).stats;
      StatsAsWritten(p, e) == RawStats(st.pointCount, st.triangleCount, Finite(st.minAngle), Finite(st.avgAngle))
  {
    if |p.points| >= 3 {
      var ts := e.triangulate(p.points);
      SummariesAgree(AngleList(ts, e));
    }
  }

  /** What a handler leaves behind. */
  datatype Reaction = Reaction(page: Page, render: Option<Render>, caption: Option<string>)

  /** A new page followed by `updateTriangulation`. */
  function Redraw(q: Page, e: Engine): (r: Reaction)
    ensures r.page == q && r.caption == None
    ensures r.render == Some(UpdateTriangulation(q, e))
  {
    Reaction(q, Some(UpdateTriangulation(q, e)), None)
  }

  /** The window's resize listener (lines 140-148). */
  function OnResize(p: Page, clientWidth: Option<int>, e: Engine): (r: Reaction)
    ensures r.page.points == p.points && r.page.showVoronoi == p.showVoronoi
    ensures clientWidth.None? ==> r.page == p
    ensures clientWidth.Some? ==>
      && r.page.width >= MinWidth && r.page.width >= (clientWidth.value - ContainerInset) as real
      && (r.page.width == MinWidth || r.page.width == (clientWidth.value - ContainerInset) as real)
    ensures r.render == Some(UpdateTriangulation(r.page, e)) && r.caption == None
  {
    Redraw(RecalcSvgSize(p, clientWidth), e)
  }

  /** A click on the SVG at pointer position (x, y). */
  function OnCanvasClick(p: Page, x: real, y: real, e: Engine): (r: Reaction)
    ensures |r.page.points| == |p.points| + 1
    ensures r.page.points[..|p.points|] == p.points && r.page.points[|p.points|] == (x, y)
    ensures r.page.showVoronoi == p.showVoronoi && r.page.width == p.width
    ensures r.render == Some(UpdateTriangulation(r.page, e)) && r.caption == None
  {
    Redraw(AddPoint(p, x, y), e)
  }

  /** The `data-action` and `data-add-count` attributes of a control button
      (`None` when the attribute is missing). */
  datatype Button = Button(action: Option<string>, addCount: Option<string>)

  datatype Command = LoadExampleCommand | ClearCommand | ToggleVoronoiCommand | AddRandomCommand(count: int)

  /** The dispatch rule: a known action wins over a count, and a count that is
      missing, empty or not a number selects nothing. */
  function Decode(b: Button): (c: Option<Command>)
    ensures b.action == Some("load-example") ==> c == Some(LoadExampleCommand)
    ensures b.action == Some("clear") ==> c == Some(ClearCommand)
    ensures b.action == Some("toggle-voronoi") ==> c == Some(ToggleVoronoiCommand)
    ensures c.Some? && c.value.AddRandomCommand? ==>
      b.addCount.Some? && ParseInt(b.addCount.value) == Some(c.value.count)
    ensures
      && b.action != Some("load-example") && b.action != Some("clear") && b.action != Some("toggle-voronoi")
      && b.addCount.Some? && ParseInt(b.addCount.value).Some?
      ==> c == Some(AddRandomCommand(ParseInt(b.addCount.value).value))
    ensures c.None? <==>
      && b.action != Some("load-example") && b.action != Some("clear") && b.action != Some("toggle-voronoi")
      && (b.addCount.None? || b.addCount.value == "" || ParseInt(b.addCount.value).None?)
  {
    if b.action == Some("load-example") then Some(LoadExampleCommand)
    else if b.action == Some("clear") then Some(ClearCommand)
    else if b.action == Some("toggle-voronoi") then Some(ToggleVoronoiCommand)
    else match b.addCount
      case Some(text) =>
        if text == "" then None
        else (match ParseInt(text)
          case Some(n) => Some(AddRandomCommand(n))
          case None => None)
      case None => None
  }

  /** A decoded command followed by `updateTriangulation`; a toggle also
      relabels the button when there is one. */
  function Execute(p: Page, c: Command, hasToggleButton: bool, rng: nat -> Random, e: Engine): (r: Reaction)
    ensures c.LoadExampleCommand? ==> r.page == LoadExample(p)
    ensures c.ClearCommand? ==> r.page == ClearPoints(p)
    ensures c.ToggleVoronoiCommand? ==> r.page == ToggleVoronoi(p)
    ensures c.AddRandomCommand? ==> r.page == AddRandomPoints(p, c.count, rng)
    ensures r.render == Some(UpdateTriangulation(r.page, e))
    ensures r.caption.Some? <==> c.ToggleVoronoiCommand? && hasToggleButton
    ensures r.caption.Some? ==> r.caption.value == ToggleLabel(r.page.showVoronoi)
  {
    match c
    case LoadExampleCommand => Redraw(LoadExample(p), e)
    case ClearCommand => Redraw(ClearPoints(p), e)
    case AddRandomCommand(n) => Redraw(AddRandomPoints(p, n, rng), e)
    case ToggleVoronoiCommand =>
      var q := ToggleVoronoi(p);
      Reaction(q, Some(UpdateTriangulation(q, e)), if hasToggleButton then Some(ToggleLabel(q.showVoronoi)) else None)
  }

  /** The click listener of the control container; `target` is the button
      the click landed in, if any. Without a command nothing happens at all. */
  function OnControlClick(p: Page, target: Option<Button>, hasToggleButton: bool, rng: nat -> Random, e: Engine): (r: Reaction)
    ensures target.None? ==> r == Reaction(p, None, None)
    ensures target.Some? && Decode(target.value).None? ==> r == Reaction(p, None, None)
    ensures target.Some? && Decode(target.value).Some? ==>
      r == Execute(p, Decode(target.value).value, hasToggleButton, rng, e)
  {
    match target
    case None => Reaction(p, None, None)
    case Some(b) =>
      match Decode(b)
      case None => Reaction(p, None, None)
      case Some(c) => Execute(p, c, hasToggleButton, rng, e)
  }

  /** A button with a count that is not a number, or with no count and no
      known action, changes nothing and redraws nothing. */
  lemma BadCountIsIgnored(p: Page, action: Option<string>, count: string, hasToggleButton: bool, rng: nat -> Random, e: Engine)
    requires action != Some("load-example") && action != Some("clear") && action != Some("toggle-voronoi")
    requires ParseInt(count).None?
    ensures OnControlClick(p, Some(Button(action, Some(count))), hasToggleButton, rng, e) == Reaction(p, None, None)
    ensures OnControlClick(p, Some(Button(action, None)), hasToggleButton, rng, e) == Reaction(p, None, None)
  {
  }

  /** A count such as "12 points" adds twelve points. */
  lemma CountWithSuffix(p: Page, count: nat, suffix: string, rng: nat -> Random, e: Engine)
    requires suffix == [] || !IsDigit(suffix[0])
    ensures var r := OnControlClick(p, Some(Button(None, Some(ToDecimal(count) + suffix))), false, rng, e);
      |r.page.points| == |p.points| + count && r.render.Some?
  {
    var text := ToDecimal(count) + suffix;
    var b := Button(None, Some(text));
    ParseIntOfDecimal(count, suffix);
    DecodeCount(text, count);
    var r := OnControlClick(p, Some(b), false, rng, e);
    assert r == Execute(p, AddRandomCommand(count), false, rng, e);
    var q := AddRandomPoints(p, count, rng);
    assert r == Redraw(q, e);
    assert |q.points| == |p.points| + count;
  }

  /** A button with only a count that parses selects adding that many points. */
  lemma DecodeCount(text: string, n: int)
    requires text != [] && ParseInt(text) == Some(n)
    ensures Decode(Button(None, Some(text))) == Some(AddRandomCommand(n))
  {
  }

  /** Page load: the first `recalcSvgSize`, then `loadExample`. */
  function Boot(clientWidth: Option<int>, e: Engine): (r: Reaction)
    ensures |r.page.points| == 9 && !r.page.showVoronoi
    ensures r.page.points == ExampleLayout(r.page.width)
    ensures clientWidth.Some? ==> r.page.width == RecalcSvgSize(Blank, clientWidth).width
    ensures clientWidth.Some? ==> r.page.width >= MinWidth
    ensures clientWidth.None? ==> r.page.width == 0.0
    ensures r.render == Some(UpdateTriangulation(r.page, e))
  {
    Redraw(LoadExample(RecalcSvgSize(Blank, clientWidth)), e)
  }

  /** The page's inputs after load. */
  datatype Event =
    | Resize(clientWidth: Option<int>)
    | CanvasClick(x: real, y: real)
    | ControlClick(target: Option<Button>, rng: nat -> Random)

  function Handle(p: Page, ev: Event, hasToggleButton: bool, e: Engine): Reaction {
    match ev
    case Resize(w) => OnResize(p, w, e)
    case CanvasClick(x, y) => OnCanvasClick(p, x, y, e)
    case ControlClick(target, rng) => OnControlClick(p, target, hasToggleButton, rng, e)
  }

  /** Every picture on screen is the picture of the page as it is now. */
  lemma HandleRedrawsCurrentPage(p: Page, ev: Event, hasToggleButton: bool, e: Engine)
    ensures var r := Handle(p, ev, hasToggleButton, e);
      r.render.Some? ==> r.render.value == UpdateTriangulation(r.page, e)
    ensures var r := Handle(p, ev, hasToggleButton, e);
      r.render.None? ==> r.page == p
  {
  }

  /** The page after a sequence of events. */
  function Run(p: Page, evs: seq<Event>, hasToggleButton: bool, e: Engine): Page
    decreases |evs|
  {
    if evs == [] then p
    else Run(Handle(p, evs[0], hasToggleButton, e).page, evs[1..], hasToggleButton, e)
  }

  /** No single event takes the width below 320 once it is there. */
  lemma HandleKeepsMinWidth(p: Page, ev: Event, hasToggleButton: bool, e: Engine)
    requires p.width >= MinWidth
    ensures Handle(p, ev, hasToggleButton, e).page.width >= MinWidth
  {
    match ev
    case Resize(w) =>
    case CanvasClick(x, y) =>
    case ControlClick(target, rng) =>
      if target.Some? && Decode(target.value).Some? {
        var c := Decode(target.value).value;
        assert Execute(p, c, hasToggleButton, rng, e).page.width == p.width;
      }
  }

  /** Once the SVG is at least 320 wide it stays so, whatever happens next:
      every random point therefore lands inside the margins. */
  lemma {:induction false} RunKeepsMinWidth(p: Page, evs: seq<Event>, hasToggleButton: bool, e: Engine)
    requires p.width >= MinWidth
    ensures Run(p, evs, hasToggleButton, e).width >= MinWidth
    decreases |evs|
  {
    if evs != [] {
      var q := Handle(p, evs[0], hasToggleButton, e).page;
      HandleKeepsMinWidth(p, evs[0], hasToggleButton, e);
      RunKeepsMinWidth(q, evs[1..], hasToggleButton, e);
    }
  }
}
