/** What `updateTriangulation` computes from a point set
    (assets/js/delaunay.js:172-237): the triangle list, the three interior
    angles of every triangle, their minimum and mean, and the stroke hue of
    each triangle.

    The foreign floating-point and library computations are the fields of an
    `Engine`: the d3-delaunay triangulation, the cosine of the angle between
    two edge vectors (`dot / (hypot * hypot)`), `acos` scaled to degrees, and
    `Math.round`. Everything around them is modelled exactly. */
module Triangulation {

  /** A point in the SVG's pixel coordinates. */
  type Point = (real, real)

  /** One face of the triangulation; the angle loop reads its three vertices
      as `triangle[0]`, `triangle[1]`, `triangle[2]`. */
  datatype Triangle = Triangle(a: Point, b: Point, c: Point)

  /** The difference of two points. */
  datatype Vec = Vec(dx: real, dy: real)

  datatype Engine = Engine(
    triangulate: seq<Point> -> seq<Triangle>,
    cosine: (Vec, Vec) -> real,
    acosDegrees: real -> real,
    round: real -> int)

  /** `Math.acos(r) * 180 / Math.PI` lies in [0, 180] for every r in [-1, 1]. */
  ghost predicate AcosInRange(e: Engine) {
    forall r :: -1.0 <= r <= 1.0 ==> 0.0 <= e.acosDegrees(r) <= 180.0
  }

  /** A JavaScript number as far as this page needs: `Math.min()` of nothing
      is +Infinity and `0 / 0` is NaN. */
  datatype Num = Finite(value: real) | PositiveInfinity | NaN

  /** `Math.max(-1, Math.min(1, x))`. */
  function Clamp(x: real): (r: real)
    ensures -1.0 <= r <= 1.0
    ensures -1.0 <= x <= 1.0 ==> r == x
    ensures x > 1.0 ==> r == 1.0
    ensures x < -1.0 ==> r == -1.0
  {
    var upper := if 1.0 <= x then 1.0 else x;
    if -1.0 >= upper then -1.0 else upper
  }

  /** `triangle[i % 3]`. */
  function Vertex(t: Triangle, i: nat): Point {
    match i % 3
    case 0 => t.a
    case 1 => t.b
    case _ => t.c
  }

  /** The interior angle at `p2` between the edges to `p1` and to `p3`, in
      degrees, with the cosine clamped into [-1, 1] first. */
  function CornerAngle(p1: Point, p2: Point, p3: Point, e: Engine): real {
    var v1 := Vec(p1.0 - p2.0, p1.1 - p2.1);
    var v2 := Vec(p3.0 - p2.0, p3.1 - p2.1);
    e.acosDegrees(Clamp(e.cosine(v1, v2)))
  }

  /** The angle pushed in round `i` of the inner loop: the one at vertex
      `i + 1` of the triangle. */
  function AngleAt(t: Triangle, i: nat, e: Engine): real {
    CornerAngle(Vertex(t, i), Vertex(t, i + 1), Vertex(t, i + 2), e)
  }

  /** The property `AngleList` promises: entry `3 * j + i` is the angle of
      round `i` of triangle `j`. */
  ghost predicate FlattensAngles(r: seq<real>, ts: seq<Triangle>, e: Engine) {
    && |r| == 3 * |ts|
    && forall j, i :: 0 <= j < |ts| && 0 <= i < 3 ==> r[3 * j + i] == AngleAt(ts[j], i, e)
  }

  /** The `angles` array: three angles per triangle, triangles in order. */
  function AngleList(ts: seq<Triangle>, e: Engine): (r: seq<real>)
    ensures FlattensAngles(r, ts, e)
  {
    if ts == [] then []
    else
      var t := ts[|ts| - 1];
      var prev := AngleList(ts[..|ts| - 1], e);
      var r := prev + [AngleAt(t, 0, e), AngleAt(t, 1, e), AngleAt(t, 2, e)];
      AppendTriangleAngles(prev, ts, e);
      r
  }

  lemma AppendTriangleAngles(prev: seq<real>, ts: seq<Triangle>, e: Engine)
    requires |ts| > 0 && FlattensAngles(prev, ts[..|ts| - 1], e)
    ensures var t := ts[|ts| - 1];
      FlattensAngles(prev + [AngleAt(t, 0, e), AngleAt(t, 1, e), AngleAt(t, 2, e)], ts, e)
  {
    var n := |ts| - 1;
    var t := ts[n];
    var r := prev + [AngleAt(t, 0, e), AngleAt(t, 1, e), AngleAt(t, 2, e)];
    forall j, i | 0 <= j < |ts| && 0 <= i < 3
      ensures r[3 * j + i] == AngleAt(ts[j], i, e)
    {
      if j < n {
        assert ts[..n][j] == ts[j];
        assert r[3 * j + i] == prev[3 * j + i];
      } else {
        assert r[3 * j + i] == [AngleAt(t, 0, e), AngleAt(t, 1, e), AngleAt(t, 2, e)][i];
      }
    }
  }

  /** Each angle goes through the clamp, so it is between 0 and 180 degrees
      whenever `acos` is. */
  lemma CornerAngleInRange(p1: Point, p2: Point, p3: Point, e: Engine)
    requires AcosInRange(e)
    ensures 0.0 <= CornerAngle(p1, p2, p3, e) <= 180.0
  {
    var v1 := Vec(p1.0 - p2.0, p1.1 - p2.1);
    var v2 := Vec(p3.0 - p2.0, p3.1 - p2.1);
    var r := Clamp(e.cosine(v1, v2));
    assert -1.0 <= r <= 1.0;
  }

  /** Every entry of the angle list lies in [0, 180]. */
  lemma {:induction false} AnglesInRange(ts: seq<Triangle>, e: Engine)
    requires AcosInRange(e)
    ensures forall k :: 0 <= k < |AngleList(ts, e)| ==> 0.0 <= AngleList(ts, e)[k] <= 180.0
  {
    if ts != [] {
      var t := ts[|ts| - 1];
      AnglesInRange(ts[..|ts| - 1], e);
      CornerAngleInRange(Vertex(t, 0), Vertex(t, 1), Vertex(t, 2), e);
      CornerAngleInRange(Vertex(t, 1), Vertex(t, 2), Vertex(t, 3), e);
      CornerAngleInRange(Vertex(t, 2), Vertex(t, 3), Vertex(t, 4), e);
    }
  }

  /** `Math.min(...xs)` of a non-empty list. */
  function Min(xs: seq<real>): (m: real)
    requires |xs| > 0
    ensures m in xs
    ensures forall i :: 0 <= i < |xs| ==> m <= xs[i]
  {
    if |xs| == 1 then xs[0]
    else
      var m := Min(xs[1..]);
      if xs[0] <= m then xs[0] else m
  }

  /** `xs.reduce((sum, x) => sum + x, 0)`. */
  function Sum(xs: seq<real>): real {
    if xs == [] then 0.0 else Sum(xs[..|xs| - 1]) + xs[|xs| - 1]
  }

  /** A sum of `n` values that are all at least `lo` is at least `n * lo`. */
  lemma {:induction false} SumAtLeast(xs: seq<real>, lo: real)
    requires forall i :: 0 <= i < |xs| ==> lo <= xs[i]
    ensures |xs| as real * lo <= Sum(xs)
  {
    if xs != [] {
      SumAtLeast(xs[..|xs| - 1], lo);
    }
  }

  /** A sum of `n` values that are all at most `hi` is at most `n * hi`. */
  lemma {:induction false} SumAtMost(xs: seq<real>, hi: real)
    requires forall i :: 0 <= i < |xs| ==> xs[i] <= hi
    ensures Sum(xs) <= |xs| as real * hi
  {
    if xs != [] {
      SumAtMost(xs[..|xs| - 1], hi);
    }
  }

  /** Dividing a total of at least `n * lo` by `n` gives at least `lo`. */
  lemma MeanAtLeast(total: real, n: real, lo: real)
    requires n > 0.0 && n * lo <= total
    ensures lo <= total / n
  {
    assert total / n * n == total;
    assert n * (total / n - lo) >= 0.0;
  }

  /** The minimum and mean of the angle list, as the stats panel shows them. */
  datatype AngleSummary = AngleSummary(minAngle: real, avgAngle: real)

  /** The summary with the degenerate case the page promises: no angles
      give (0, 0). The mean is over all triangles' angles together. */
  function Summarize(angles: seq<real>): (s: AngleSummary)
    ensures angles == [] ==> s == AngleSummary(0.0, 0.0)
    ensures angles != [] ==> s.minAngle in angles
    ensures forall i :: 0 <= i < |angles| ==> s.minAngle <= angles[i]
    ensures s.avgAngle * |angles| as real == Sum(angles)
    ensures s.minAngle <= s.avgAngle
  {
    if angles == [] then AngleSummary(0.0, 0.0)
    else
      var m := Min(angles);
      SumAtLeast(angles, m);
      MeanAtLeast(Sum(angles), |angles| as real, m);
      AngleSummary(m, Sum(angles) / |angles| as real)
  }

  /** Summaries of angles in [0, 180] lie in [0, 180]. */
  lemma SummaryInRange(angles: seq<real>)
    requires forall i :: 0 <= i < |angles| ==> 0.0 <= angles[i] <= 180.0
    ensures 0.0 <= Summarize(angles).minAngle <= Summarize(angles).avgAngle <= 180.0
  {
    SumAtLeast(angles, 0.0);
    SumAtMost(angles, 180.0);
  }

  /** The summary of the triangles' angles is two numbers in [0, 180] with the
      minimum not above the mean, given an `acos` that stays in [0, 180]. */
  lemma TriangleSummaryInRange(ts: seq<Triangle>, e: Engine)
    ensures AcosInRange(e) ==> var s := Summarize(AngleList(ts, e));
      0.0 <= s.minAngle <= s.avgAngle <= 180.0
  {
    if AcosInRange(e) {
      AnglesInRange(ts, e);
      SummaryInRange(AngleList(ts, e));
    }
  }

  /** The two numbers exactly as lines 233-234 compute them, where an empty
      angle list gives `Math.min()` = +Infinity and `0 / 0` = NaN. */
  datatype RawSummary = RawSummary(minAngle: Num, avgAngle: Num)

  function SummarizeAsWritten(angles: seq<real>): (s: RawSummary)
    ensures angles == [] <==> s.minAngle == PositiveInfinity
    ensures angles == [] <==> s.avgAngle == NaN
  {
    if angles == [] then RawSummary(PositiveInfinity, NaN)
    else RawSummary(Finite(Min(angles)), Finite(Sum(angles) / |angles| as real))
  }

  /** The corrected summary differs from the source only on an empty list. */
  lemma SummariesAgree(angles: seq<real>)
    requires angles != []
    ensures SummarizeAsWritten(angles)
      == RawSummary(Finite(Summarize(angles).minAngle), Finite(Summarize(angles).avgAngle))
  {
  }

  /** `(i * 137.5) % 360`, the stroke hue of triangle `i`: 137.5 is 275 / 2,
      so the remainder is computed exactly on 275 * i modulo 720. */
  function Hue(i: nat): (h: real)
    ensures 0.0 <= h < 360.0
    ensures i as real * 137.5 == 360.0 * ((275 * i) / 720) as real + h
  {
    ((275 * i) % 720) as real / 2.0
  }

  /** The hue is the one remainder of i * 137.5 by 360 that lies in [0, 360),
      which is what `%` yields for a non-negative dividend. */
  lemma HueIsRemainder(i: nat, q: int, h: real)
    requires 0.0 <= h < 360.0
    requires i as real * 137.5 == 360.0 * q as real + h
    ensures h == Hue(i)
  {
    var d := q - (275 * i) / 720;
    assert 360.0 * d as real == Hue(i) - h;
    assert -1 < d < 1;
  }

  /** `a % 720` is the remainder of any division of `a` with a remainder in
      [0, 720). */
  lemma ModOf720(a: int, q: int, r: int)
    requires 0 <= r < 720 && a == 720 * q + r
    ensures a % 720 == r
  {
    var d := q - a / 720;
    assert 720 * d == a % 720 - r;
    assert -1 < d < 1;
  }

  /** Two triangles share a colour exactly when their indices differ by a
      multiple of 144: the colours repeat every 144 triangles and are all
      different within one such period. */
  lemma HueEqualIff(i: nat, j: nat)
    requires i <= j
    ensures Hue(i) == Hue(j) <==> (j - i) % 144 == 0
  {
    var d := j - i;
    var qi, ri := (275 * i) / 720, (275 * i) % 720;
    var qj, rj := (275 * j) / 720, (275 * j) % 720;
    assert 275 * d == 720 * (qj - qi) + (rj - ri);
    if (j - i) % 144 == 0 {
      var n := d / 144;
      assert 275 * j == 720 * (qi + 55 * n) + ri;
      ModOf720(275 * j, qi + 55 * n, ri);
    }
    if Hue(i) == Hue(j) {
      var k := qj - qi;
      assert 275 * d == 720 * k;
      assert 7920 * k == 3025 * d;
      assert d == 144 * (55 * k - 21 * d);
    }
  }

  /** The first 144 triangles all get different colours. */
  lemma HueDistinct(i: nat, j: nat)
    requires i < j < 144
    ensures Hue(i) != Hue(j)
  {
    HueEqualIff(i, j);
  }
}
