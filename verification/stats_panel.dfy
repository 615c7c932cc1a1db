/** The statistics panel written by `updateStats`
    (assets/js/delaunay.js:270-286): point count, triangle count and the
    minimum and mean angle, the angles rounded and followed by a degree sign,
    or the literal "0°" when the angle is falsy. */
module StatsPanel {
  import opened Wrappers
  import opened Decimal
  import opened Triangulation

  const Degree: char := '\U{00B0}'

  /** The four values `updateStats` receives. */
  datatype Stats = Stats(pointCount: nat, triangleCount: nat, minAngle: real, avgAngle: real)

  /** The same four values as the source computes them, where the angles can
      also be +Infinity or NaN. */
  datatype RawStats = RawStats(pointCount: nat, triangleCount: nat, minAngle: Num, avgAngle: Num)

  /** The four texts written into the panel. */
  datatype StatsText = StatsText(pointCount: string, triangleCount: string, minAngle: string, avgAngle: string)

  /** The text for a finite angle: 0 is the only falsy finite number. Reading
      the text back with `parseInt` gives the rounded angle. */
  function AngleText(v: real, round: real -> int): (s: string)
    ensures |s| > 0 && s[|s| - 1] == Degree
    ensures v == 0.0 ==> s == "0" + [Degree]
    ensures v != 0.0 ==> ParseInt(s) == Some(round(v))
    ensures v != 0.0 ==> s == ToDecimal(round(v)) + [Degree]
  {
    if v == 0.0 then "0" + [Degree]
    else
      ParseIntOfDecimal(round(v), [Degree]);
      ToDecimal(round(v)) + [Degree]
  }

  /** The text for any number the source can pass: NaN is falsy and shows
      "0°"; +Infinity is truthy and `Math.round` keeps it, so it shows
      "Infinity°". */
  function NumText(n: Num, round: real -> int): (s: string)
    ensures n.Finite? ==> s == AngleText(n.value, round)
    ensures n.NaN? ==> s == "0" + [Degree]
    ensures n.PositiveInfinity? ==> s == "Infinity" + [Degree]
  {
    match n
    case Finite(v) => AngleText(v, round)
    case NaN => "0" + [Degree]
    case PositiveInfinity => "Infinity" + [Degree]
  }

  /** The panel for the stats of the model; the counts read back unchanged. */
  function Display(st: Stats, round: real -> int): (t: StatsText)
    ensures t.pointCount == ToDecimal(st.pointCount) && t.triangleCount == ToDecimal(st.triangleCount)
    ensures ParseInt(t.pointCount) == Some(st.pointCount)
    ensures ParseInt(t.triangleCount) == Some(st.triangleCount)
    ensures t.minAngle == AngleText(st.minAngle, round)
    ensures t.avgAngle == AngleText(st.avgAngle, round)
  {
    ParseIntOfDecimal(st.pointCount, "");
    ParseIntOfDecimal(st.triangleCount, "");
    assert ToDecimal(st.pointCount) + "" == ToDecimal(st.pointCount);
    assert ToDecimal(st.triangleCount) + "" == ToDecimal(st.triangleCount);
    StatsText(ToDecimal(st.pointCount), ToDecimal(st.triangleCount),
              AngleText(st.minAngle, round), AngleText(st.avgAngle, round))
  }

  /** The panel as the source fills it from its own numbers. */
  function DisplayAsWritten(st: RawStats, round: real -> int): (t: StatsText)
    ensures t.pointCount == ToDecimal(st.pointCount) && t.triangleCount == ToDecimal(st.triangleCount)
    ensures ParseInt(t.pointCount) == Some(st.pointCount)
    ensures ParseInt(t.triangleCount) == Some(st.triangleCount)
    ensures t.minAngle == NumText(st.minAngle, round)
    ensures t.avgAngle == NumText(st.avgAngle, round)
  {
    ParseIntOfDecimal(st.pointCount, "");
    ParseIntOfDecimal(st.triangleCount, "");
    assert ToDecimal(st.pointCount) + "" == ToDecimal(st.pointCount);
    assert ToDecimal(st.triangleCount) + "" == ToDecimal(st.triangleCount);
    StatsText(ToDecimal(st.pointCount), ToDecimal(st.triangleCount),
              NumText(st.minAngle, round), NumText(st.avgAngle, round))
  }

  /** Finite angles are shown the same way by both. */
  lemma DisplaysAgree(st: Stats, round: real -> int)
    ensures DisplayAsWritten(RawStats(st.pointCount, st.triangleCount, Finite(st.minAngle), Finite(st.avgAngle)), round)
         == Display(st, round)
  {
  }
}
