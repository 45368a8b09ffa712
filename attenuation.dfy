/**
 Unity/NMBP2008.cs, the attenuation side: the steps a propagation path is
 discretised into, and the CNOSSOS-EU terms computed over them
 (JRC Reference Report JRC72550, Annex VI): atmospheric absorption, the
 mean ground plane and projections onto it, the ground effect of
 section VI.4.3.b, pure diffraction with the path difference of
 section VI.4.4.c.1, the boundary models and the final per-band level.

 The numeric library (Log10, Pow, Exp, Sqrt, Fit.Line, Vector2.Angle) is
 the uninterpreted `Maths` record; the acoustic formulas are written out
 over it and only their structure, branches, clamps and failure cases are
 proved. A thrown exception (List.First on an empty list, an empty list
 given to the mean plane, an integer division by zero) is `None`.
 */
module Attenuation {
  import opened Common
  import PathTree

  /** stepType. */
  datatype StepType = Source | Listener | Propagation | Reflection | Diffraction | DiffractionVerticalEdge

  /** propagationStep: distance from the source along the flattened path, ground height, height over ground. */
  datatype Step = Step(distance: real, groundLevel: real, height: real, kind: StepType)

  /** A step as a point of the vertical section: x the distance, y the absolute height. */
  function Elevation(s: Step): Vec2
  {
    Vec2(s.distance, s.groundLevel + s.height)
  }

  // ---------------------------------------------------------------------
  // Step classification
  // ---------------------------------------------------------------------

  /**
   The type of a step of the segment walk at `distance`: the path's source
   at distance 0, the edge of the segment at its first step (which is where
   the segment's start node diffracted or reflected), and plain
   propagation elsewhere. Mathf.Approximately is taken as exact equality.
   */
  function Classify(distance: real, prevDist: real, remaining: real, startKind: PathTree.HitType): StepType
  {
    if distance == 0.0 then Source
    else if distance == prevDist + remaining then
      if startKind == PathTree.DIFFRACTION_V then Diffraction
      else if startKind == PathTree.DIFFRACTION_H then DiffractionVerticalEdge
      else Reflection
    else Propagation
  }

  /**
   A step is the source iff its distance is 0; an edge type iff it sits at
   the segment's first step; a walk step is never the listener.
   */
  lemma ClassifyCases(distance: real, prevDist: real, remaining: real, startKind: PathTree.HitType)
    ensures var k := Classify(distance, prevDist, remaining, startKind);
      && k != Listener
      && (k == Source <==> distance == 0.0)
      && (k in {Reflection, Diffraction, DiffractionVerticalEdge} <==> distance != 0.0 && distance == prevDist + remaining)
      && (k == Diffraction <==> distance != 0.0 && distance == prevDist + remaining && startKind == PathTree.DIFFRACTION_V)
      && (k == DiffractionVerticalEdge <==>
            distance != 0.0 && distance == prevDist + remaining && startKind == PathTree.DIFFRACTION_H)
      && (k == Propagation <==> distance != 0.0 && distance != prevDist + remaining)
  {
  }

  // ---------------------------------------------------------------------
  // Atmospheric absorption
  // ---------------------------------------------------------------------

  /** The octave bands of the absorption table, in Hz. */
  const OctaveBands: seq<int> := [63, 125, 250, 500, 1000, 2000, 4000, 8000]

  /** The attenuation coefficient in dB/km at 20 degrees and 70 % humidity; 1 for any other band. */
  function AbsorptionCoefficient(band: int): (a: real)
    ensures a > 0.0
    ensures band !in OctaveBands ==> a == 1.0
  {
    if band == 63 then 0.09
    else if band == 125 then 0.26
    else if band == 250 then 1.13
    else if band == 500 then 2.80
    else if band == 1000 then 4.98
    else if band == 2000 then 9.02
    else if band == 4000 then 22.9
    else if band == 8000 then 76.6
    else 1.0
  }

  /** The coefficient grows with the band over the table's octave bands. */
  lemma AbsorptionRisesWithBand(i: nat, j: nat)
    requires i < j < |OctaveBands|
    ensures AbsorptionCoefficient(OctaveBands[i]) < AbsorptionCoefficient(OctaveBands[j])
  {
  }

  /** calculateAtmosphericAbsorption: the coefficient times the last step's distance, in km. */
  function AtmosphericAbsorption(path: seq<Step>, band: int): real
    requires |path| > 0
  {
    AbsorptionCoefficient(band) * path[|path| - 1].distance / 1000.0
  }

  /**
   The absorption is proportional to the path length: it has the sign of
   the last distance, and scales with it.
   */
  lemma AbsorptionProportional(path: seq<Step>, band: int, k: real)
    requires |path| > 0
    ensures path[|path| - 1].distance >= 0.0 ==> AtmosphericAbsorption(path, band) >= 0.0
    ensures var last := path[|path| - 1];
      AtmosphericAbsorption(path[|path| - 1 := last.(distance := k * last.distance)], band)
        == k * AtmosphericAbsorption(path, band)
    ensures band !in OctaveBands ==> AtmosphericAbsorption(path, band) == path[|path| - 1].distance / 1000.0
  {
    var a := AbsorptionCoefficient(band);
    var d := path[|path| - 1].distance;
    assert a * (k * d) / 1000.0 == k * (a * d / 1000.0);
  }

  /** calculateGeometricDivergence: 20 log10(d) + 11, the same for every band. */
  function GeometricDivergence(m: Maths, distance: real): real
  {
    20.0 * m.log10(distance) + 11.0
  }

  // ---------------------------------------------------------------------
  // Geometry of the vertical section
  // ---------------------------------------------------------------------

  /**
   What the projection needs of the numeric library: squaring a square
   root gives the (non-negative) radicand back.
   */
  ghost predicate SquaresRoots(m: Maths)
  {
    forall x {:trigger m.sqrt(x)} :: 0.0 <= x ==> m.pow(m.sqrt(x), 2.0) == x
  }

  /** crossMeanPlane: the foot of `p` on the line through `start` and `end`. */
  function CrossMeanPlane(m: Maths, p: Vec2, start: Vec2, end: Vec2): Vec2
  {
    var d := Sub2(end, start);
    var u := Div(Dot2(Sub2(p, start), d), m.pow(Distance2(m, start, end), 2.0));
    Vec2(start.x + u * d.x, start.y + u * d.y)
  }

  /**
   When the divisor, the squared distance between the line points, is not
   zero (the points are distinct), crossMeanPlane is the orthogonal
   projection: the result lies on the line, the residual is perpendicular to
   it, and a point already on the line is its own projection.
   */
  lemma ProjectionIsOrthogonal(m: Maths, p: Vec2, start: Vec2, end: Vec2)
    requires SquaresRoots(m) && m.pow(Distance2(m, start, end), 2.0) != 0.0
    ensures var r := CrossMeanPlane(m, p, start, end);
      && Cross2(Sub2(r, start), Sub2(end, start)) == 0.0
      && Dot2(Sub2(p, r), Sub2(end, start)) == 0.0
      && (Cross2(Sub2(p, start), Sub2(end, start)) == 0.0 ==> r == p)
  {
    var d := Sub2(end, start);
    var w := Sub2(p, start);
    var len := Dot2(d, d);
    assert Dot2(Sub2(start, end), Sub2(start, end)) == len;
    assert m.pow(Distance2(m, start, end), 2.0) == len;
    var u := Div(Dot2(w, d), len);
    assert u * len == Dot2(w, d);
    ProjectionAlgebra(w.x, w.y, d.x, d.y, len, u);
    var r := CrossMeanPlane(m, p, start, end);
    assert r == Vec2(start.x + u * d.x, start.y + u * d.y);
    assert Sub2(r, start) == Vec2(u * d.x, u * d.y);
    assert Sub2(p, r) == Vec2(w.x - u * d.x, w.y - u * d.y);
    if Cross2(w, d) == 0.0 {
      assert p == Add2(start, w);
    }
  }

  /**
   The algebra of the projection in coordinates: `u` scales the direction
   `(dx, dy)` of squared length `len` to the foot of `(wx, wy)`.
   */
  lemma ProjectionAlgebra(wx: real, wy: real, dx: real, dy: real, len: real, u: real)
    requires len == dx * dx + dy * dy && len != 0.0
    requires u * len == wx * dx + wy * dy
    ensures (u * dx) * dy - (u * dy) * dx == 0.0
    ensures (wx - u * dx) * dx + (wy - u * dy) * dy == 0.0
    ensures wx * dy - wy * dx == 0.0 ==> u * dx == wx && u * dy == wy
  {
    var dot := wx * dx + wy * dy;
    assert (wx - u * dx) * dx + (wy - u * dy) * dy == dot - u * len;
    if wx * dy - wy * dx == 0.0 {
      assert dot * dx == wx * len by {
        assert dot * dx == wx * dx * dx + wy * dy * dx;
        assert wy * dx * dy == wx * dy * dy;
      }
      assert dot * dy == wy * len by {
        assert dot * dy == wx * dx * dy + wy * dy * dy;
        assert wx * dy * dx == wy * dx * dx;
      }
      assert (u * dx) * len == wx * len;
      assert (u * dy) * len == wy * len;
    }
  }

  /** isLeft: `c` lies strictly to the left of (above) the directed line from `a` to `b`. */
  predicate IsLeft(a: Vec2, b: Vec2, c: Vec2)
  {
    (b.x - a.x) * (c.y - a.y) - (b.y - a.y) * (c.x - a.x) > 0.0
  }

  /**
   isLeft is an orientation test: it is invariant under rotating the three
   points, false for both directions of the line when the point is on it,
   and true for at most one direction of the line.
   */
  lemma IsLeftOrientation(a: Vec2, b: Vec2, c: Vec2, t: real)
    ensures IsLeft(a, b, c) <==> IsLeft(b, c, a)
    ensures IsLeft(a, b, c) ==> !IsLeft(b, a, c)
    ensures var on := Add2(a, Vec2(t * (b.x - a.x), t * (b.y - a.y)));
      !IsLeft(a, b, on) && !IsLeft(b, a, on)
  {
    var on := Add2(a, Vec2(t * (b.x - a.x), t * (b.y - a.y)));
    assert (b.x - a.x) * (on.y - a.y) - (b.y - a.y) * (on.x - a.x) == 0.0 by {
      assert on.y - a.y == t * (b.y - a.y) && on.x - a.x == t * (b.x - a.x);
    }
    assert (a.x - b.x) * (on.y - b.y) - (a.y - b.y) * (on.x - b.x) == 0.0 by {
      assert on.y - b.y == (t - 1.0) * (b.y - a.y) && on.x - b.x == (t - 1.0) * (b.x - a.x);
    }
    assert (b.x - a.x) * (c.y - a.y) - (b.y - a.y) * (c.x - a.x)
        == (c.x - b.x) * (a.y - b.y) - (c.y - b.y) * (a.x - b.x);
    assert (a.x - b.x) * (c.y - b.y) - (a.y - b.y) * (c.x - b.x)
        == -((b.x - a.x) * (c.y - a.y) - (b.y - a.y) * (c.x - a.x));
  }

  // ---------------------------------------------------------------------
  // Mean ground plane
  // ---------------------------------------------------------------------

  /** The distances of a list of steps, the x data of the line fit. */
  function Distances(path: seq<Step>): seq<real>
  {
    seq(|path|, i requires 0 <= i < |path| => path[i].distance)
  }

  /** The ground levels of a list of steps, the y data of the line fit. */
  function GroundLevels(path: seq<Step>): seq<real>
  {
    seq(|path|, i requires 0 <= i < |path| => path[i].groundLevel)
  }

  /**
   calcMeanPlane: two points of the ground line of a list of steps. One
   step gives the horizontal line from its ground point; two or more give
   the least-squares line evaluated at the first and last distances; no
   step at all throws.
   */
  function MeanPlane(m: Maths, path: seq<Step>): Option<(Vec2, Vec2)>
  {
    if |path| == 0 then None
    else if |path| < 2 then
      var start := Vec2(path[0].distance, path[0].groundLevel);
      Some((start, Add2(start, Vec2(1.0, 0.0))))
    else
      var fit := m.fitLine(Distances(path), GroundLevels(path));
      var first, last := path[0].distance, path[|path| - 1].distance;
      Some((LinePoint(fit, first), LinePoint(fit, last)))
  }

  /** The point at distance `x` of the line with intercept `fit.0` and slope `fit.1`. */
  function LinePoint(fit: (real, real), x: real): Vec2
  {
    Vec2(x, fit.0 + x * fit.1)
  }

  /**
   The mean plane's cases: it fails exactly on an empty list; one step
   gives a horizontal line of length 1 from that step's ground point; more
   steps give the fitted line's points over the first and last distances.
   Either way the two points differ when the path is not degenerate.
   */
  lemma MeanPlaneCases(m: Maths, path: seq<Step>)
    ensures MeanPlane(m, path).None? <==> |path| == 0
    ensures |path| == 1 ==>
      var plane := MeanPlane(m, path).value;
      && plane.0 == Vec2(path[0].distance, path[0].groundLevel)
      && plane.1.y == plane.0.y && plane.1.x == plane.0.x + 1.0 && plane.0 != plane.1
    ensures |path| >= 2 ==>
      var plane := MeanPlane(m, path).value;
      var fit := m.fitLine(Distances(path), GroundLevels(path));
      && plane.0.x == path[0].distance && plane.1.x == path[|path| - 1].distance
      && plane.0.y == fit.0 + plane.0.x * fit.1 && plane.1.y == fit.0 + plane.1.x * fit.1
      && (path[0].distance != path[|path| - 1].distance ==> plane.0 != plane.1)
  {
  }

  /**
   calcMeanPlane as the source writes it: copy the distances and ground
   levels into two lists, then fall back or fit.
   */
  method CalcMeanPlane(m: Maths, path: seq<Step>) returns (ok: bool, start: Vec2, end: Vec2)
    ensures ok <==> MeanPlane(m, path).Some?
    ensures ok ==> MeanPlane(m, path) == Some((start, end))
  {
    var xdata: seq<real> := [];
    var ydata: seq<real> := [];
    for i := 0 to |path|
      invariant |xdata| == |ydata| == i
      invariant forall j :: 0 <= j < i ==> xdata[j] == path[j].distance && ydata[j] == path[j].groundLevel
    {
      xdata := xdata + [path[i].distance];
      ydata := ydata + [path[i].groundLevel];
    }
    assert xdata == Distances(path) && ydata == GroundLevels(path);
    if |xdata| < 2 || |ydata| < 2 {
      if |xdata| == 0 {
        return false, Vec2(0.0, 0.0), Vec2(0.0, 0.0);
      }
      start := Vec2(xdata[0], ydata[0]);
      end := Add2(start, Vec2(1.0, 0.0));
      assert MeanPlane(m, path) == Some((start, end));
      return true, start, end;
    }
    var fit := m.fitLine(xdata, ydata);
    start := LinePoint(fit, path[0].distance);
    end := LinePoint(fit, path[|path| - 1].distance);
    assert fit == m.fitLine(Distances(path), GroundLevels(path)) && |path| >= 2;
    assert MeanPlane(m, path) == Some((start, end));
    ok := true;
  }

  // ---------------------------------------------------------------------
  // Ground effect (section VI.4.3.b)
  // ---------------------------------------------------------------------

  /** Heights of source and receiver over the mean plane, and the distance between their projections. */
  datatype Heights = Heights(zSrc: real, zRec: real, dp: real)

  function PlaneHeights(m: Maths, source: Vec2, receiver: Vec2, start: Vec2, end: Vec2): (h: Heights)
    ensures h.zSrc >= 0.0 && h.zRec >= 0.0
  {
    var eqSrc := CrossMeanPlane(m, source, start, end);
    var eqRec := CrossMeanPlane(m, receiver, start, end);
    Heights(MaxR(Distance2(m, source, eqSrc), 0.0), MaxR(Distance2(m, receiver, eqRec), 0.0),
            Distance2(m, eqSrc, eqRec))
  }

  /**
   Gpath (equation VI-14) with a ground factor of 0.5, scaled down by
   dp / (30 (zSrc + zRec)) when the projections are close.
   */
  function Gpath(h: Heights): real
  {
    var reach := 30.0 * (h.zSrc + h.zRec);
    if h.dp <= reach then 0.5 * Div(h.dp, reach) else 0.5
  }

  /**
   With non-negative heights, Gpath never exceeds 0.5; it is 0.5 exactly
   when the projections are farther apart than the reach, and otherwise
   0.5 dp / reach; it is never negative when dp is not. With both heights
   and dp at 0 the reach is 0, and the bounds hold for the 0 that `Div`
   gives there; the source's 0 / 0 would be NaN.
   */
  lemma GpathBounds(h: Heights)
    requires h.zSrc >= 0.0 && h.zRec >= 0.0
    ensures Gpath(h) <= 0.5
    ensures h.dp > 30.0 * (h.zSrc + h.zRec) ==> Gpath(h) == 0.5
    ensures h.dp >= 0.0 ==> Gpath(h) >= 0.0
    ensures h.zSrc + h.zRec > 0.0 && h.dp <= 30.0 * (h.zSrc + h.zRec) ==>
      Gpath(h) * 60.0 * (h.zSrc + h.zRec) == h.dp
  {
    var reach := 30.0 * (h.zSrc + h.zRec);
    if h.dp <= reach && reach != 0.0 {
      var q := Div(h.dp, reach);
      assert q * reach == h.dp;
      assert reach > 0.0;
      assert q <= 1.0 by {
        if q > 1.0 {
          assert q * reach > reach;
        }
      }
      if h.dp >= 0.0 {
        assert q >= 0.0;
      }
    }
  }

  /** calculateGroundEffect: equations VI-15 to VI-17, floored at -3 (1 - Gpath). */
  function GroundEffect(m: Maths, source: Vec2, receiver: Vec2, band: int, start: Vec2, end: Vec2): real
  {
    var h := PlaneHeights(m, source, receiver, start, end);
    var g := Gpath(h);
    var f := band as real;
    var k := 2.0 * Pi * f / 340.0;
    var w := Div(0.0185 * (m.pow(f, 2.5) * m.pow(g, 2.6)),
                 m.pow(f, 1.5) * m.pow(g, 2.6) + 1.3 * m.pow(10.0, 3.0) * m.pow(f, 0.75) * m.pow(g, 1.3)
                   + 1.16 * m.pow(10.0, 6.0));
    var cf := Div(h.dp * (1.0 + 3.0 * w * h.dp * m.exp(-m.sqrt(w * h.dp))), 1.0 + w * h.dp);
    var ge := -10.0 * m.log10(Div(4.0 * m.pow(k, 2.0), m.pow(h.dp, 2.0))
                              * (m.pow(h.zSrc, 2.0) - m.sqrt(Div(2.0 * cf, k)) * h.zSrc + Div(cf, k))
                              * (m.pow(h.zRec, 2.0) - m.sqrt(Div(2.0 * cf, k)) * h.zRec + Div(cf, k)));
    MaxR(ge, -3.0 * (1.0 - g))
  }

  /**
   The ground effect is never below -3 (1 - Gpath), and so, with a square
   root that is never negative, never below -3 dB.
   */
  lemma GroundEffectFloor(m: Maths, source: Vec2, receiver: Vec2, band: int, start: Vec2, end: Vec2)
    ensures GroundEffect(m, source, receiver, band, start, end)
      >= -3.0 * (1.0 - Gpath(PlaneHeights(m, source, receiver, start, end)))
    ensures SqrtNonNegative(m) ==> GroundEffect(m, source, receiver, band, start, end) >= -3.0
  {
    var h := PlaneHeights(m, source, receiver, start, end);
    GpathBounds(h);
    if SqrtNonNegative(m) {
      assert h.dp >= 0.0;
      assert Gpath(h) >= 0.0;
    }
  }

  // ---------------------------------------------------------------------
  // Diffraction (section VI.4.4.c.1)
  // ---------------------------------------------------------------------

  /** float.MinValue, the starting maximum of convexDistance's angle search. */
  const FloatMinValue: real := -340282346638528859811704183484516925440.0

  /** Vector2.Angle(Vector2.right, pts[i] - pts[curr]). */
  function AngleTo(m: Maths, pts: seq<Vec2>, curr: nat, i: nat): real
    requires curr < |pts| && i < |pts|
  {
    m.angle2(Vec2(1.0, 0.0), Sub2(pts[i], pts[curr]))
  }

  /**
   The inner loop of convexDistance from `i` on, with the best angle and
   point found so far: the later point seen under the largest angle, the
   first one on a tie.
   */
  function Steepest(m: Maths, pts: seq<Vec2>, curr: nat, i: nat, maxAngle: real, maxPt: nat): (k: nat)
    requires curr < i <= |pts|
    requires maxPt == curr || curr < maxPt < i
    ensures k == maxPt || i <= k < |pts|
    decreases |pts| - i
  {
    if i == |pts| then maxPt
    else if AngleTo(m, pts, curr, i) > maxAngle then Steepest(m, pts, curr, i + 1, AngleTo(m, pts, curr, i), i)
    else Steepest(m, pts, curr, i + 1, maxAngle, maxPt)
  }

  /** The point convexDistance moves to from `curr`. */
  function SteepestFrom(m: Maths, pts: seq<Vec2>, curr: nat): (k: nat)
    requires curr < |pts|
    ensures k == curr || curr < k < |pts|
  {
    Steepest(m, pts, curr, curr + 1, FloatMinValue, curr)
  }

  /** Vector2.Angle yields degrees in [0, 180], well above float.MinValue. */
  ghost predicate AnglesInRange(m: Maths)
  {
    forall a, b :: 0.0 <= m.angle2(a, b) <= 180.0
  }

  /**
   The invariant of the angle search: the result's angle is at least
   every angle from `i` on and at least `maxAngle`, strictly above every
   angle before it from `i` on, and the result is `maxPt` only when no
   angle from `i` on beats `maxAngle`.
   */
  lemma {:induction false} SteepestIsFirstMaximum(m: Maths, pts: seq<Vec2>, curr: nat, i: nat, maxAngle: real,
                                                  maxPt: nat)
    requires curr < i <= |pts|
    requires maxPt == curr || curr < maxPt < i
    ensures var k := Steepest(m, pts, curr, i, maxAngle, maxPt);
      && (forall j :: i <= j < |pts| ==> AngleTo(m, pts, curr, j) <= (if k == maxPt then maxAngle else AngleTo(m, pts, curr, k)))
      && (k == maxPt <==> forall j :: i <= j < |pts| ==> AngleTo(m, pts, curr, j) <= maxAngle)
      && (k != maxPt ==> maxAngle < AngleTo(m, pts, curr, k)
                         && forall j :: i <= j < k ==> AngleTo(m, pts, curr, j) < AngleTo(m, pts, curr, k))
    decreases |pts| - i
  {
    if i < |pts| {
      var a := AngleTo(m, pts, curr, i);
      if a > maxAngle {
        SteepestIsFirstMaximum(m, pts, curr, i + 1, a, i);
      } else {
        SteepestIsFirstMaximum(m, pts, curr, i + 1, maxAngle, maxPt);
      }
    }
  }

  /**
   With Vector2.Angle's range, the angle search always moves to a strictly
   later point while one is left, and that point is the first of largest
   angle.
   */
  lemma SteepestAdvances(m: Maths, pts: seq<Vec2>, curr: nat)
    requires AnglesInRange(m) && curr + 1 < |pts|
    ensures var k := SteepestFrom(m, pts, curr);
      && curr < k < |pts|
      && (forall j :: curr < j < |pts| ==> AngleTo(m, pts, curr, j) <= AngleTo(m, pts, curr, k))
      && (forall j :: curr < j < k ==> AngleTo(m, pts, curr, j) < AngleTo(m, pts, curr, k))
  {
    SteepestIsFirstMaximum(m, pts, curr, curr + 1, FloatMinValue, curr);
    assert AngleTo(m, pts, curr, curr + 1) > FloatMinValue;
  }

  /** The inner for loop of convexDistance. */
  method SteepestPoint(m: Maths, pts: seq<Vec2>, curr: nat) returns (maxPt: nat)
    requires curr < |pts|
    ensures maxPt == SteepestFrom(m, pts, curr)
  {
    var maxAngle := FloatMinValue;
    maxPt := curr;
    for i := curr + 1 to |pts|
      invariant maxPt == curr || curr < maxPt < i
      invariant Steepest(m, pts, curr, i, maxAngle, maxPt) == SteepestFrom(m, pts, curr)
    {
      var angle := m.angle2(Vec2(1.0, 0.0), Sub2(pts[i], pts[curr]));
      if angle > maxAngle {
        maxAngle := angle;
        maxPt := i;
      }
    }
  }

  /**
   The greedy walk of convexDistance from `curr` with `maxCount` not yet
   decremented and `distance` accumulated so far: move to the steepest
   later point, adding the distance to it, until the last point is
   reached or the count runs out.
   */
  function ConvexWalk(m: Maths, pts: seq<Vec2>, curr: nat, maxCount: int, distance: real): real
    requires curr < |pts|
    decreases if maxCount > 0 then maxCount else 0
  {
    var count := maxCount - 1;
    var next := SteepestFrom(m, pts, curr);
    var d := distance + Distance2(m, pts[curr], pts[next]);
    if next == |pts| - 1 || count <= 0 then d else ConvexWalk(m, pts, next, count, d)
  }

  /** The number of iterations of the walk's while loop. */
  function ConvexSteps(m: Maths, pts: seq<Vec2>, curr: nat, maxCount: int): nat
    requires curr < |pts|
    decreases if maxCount > 0 then maxCount else 0
  {
    var next := SteepestFrom(m, pts, curr);
    if next == |pts| - 1 || maxCount - 1 <= 0 then 1 else 1 + ConvexSteps(m, pts, next, maxCount - 1)
  }

  /**
   The walk ends: it runs at least once and at most max(1, maxCount)
   times whatever the angles; with Vector2.Angle's range it also runs at
   most once per later point, so within |pts| - 1 iterations from the
   first point of two or more.
   */
  lemma {:induction false} ConvexStepsBound(m: Maths, pts: seq<Vec2>, curr: nat, maxCount: int)
    requires curr < |pts|
    ensures ConvexSteps(m, pts, curr, maxCount) <= if maxCount > 1 then maxCount else 1
    ensures AnglesInRange(m) && curr + 1 < |pts| ==> ConvexSteps(m, pts, curr, maxCount) <= |pts| - 1 - curr
    decreases if maxCount > 0 then maxCount else 0
  {
    var next := SteepestFrom(m, pts, curr);
    if AnglesInRange(m) && curr + 1 < |pts| {
      SteepestAdvances(m, pts, curr);
    }
    if !(next == |pts| - 1 || maxCount - 1 <= 0) {
      ConvexStepsBound(m, pts, next, maxCount - 1);
      if AnglesInRange(m) && curr + 1 < |pts| {
        assert next + 1 < |pts|;
      }
    }
  }

  /** With non-negative square roots the walk only adds: its length is at least what it started with. */
  lemma {:induction false} ConvexWalkGrows(m: Maths, pts: seq<Vec2>, curr: nat, maxCount: int, distance: real)
    requires curr < |pts| && SqrtNonNegative(m)
    ensures ConvexWalk(m, pts, curr, maxCount, distance) >= distance
    decreases if maxCount > 0 then maxCount else 0
  {
    var next := SteepestFrom(m, pts, curr);
    var d := distance + Distance2(m, pts[curr], pts[next]);
    assert d >= distance;
    if !(next == |pts| - 1 || maxCount - 1 <= 0) {
      ConvexWalkGrows(m, pts, next, maxCount - 1, d);
    }
  }

  /**
   convexDistance: the walk from the first point with
   maxCount = (int) maximumDistance / rayResolution; the integer division
   throws on a zero resolution and an empty list throws at pts[0].
   */
  function ConvexDistance(m: Maths, pts: seq<Vec2>, maximumDistance: real, rayResolution: int): Option<real>
  {
    if rayResolution == 0 || |pts| == 0 then None
    else Some(ConvexWalk(m, pts, 0, DivTrunc(TruncToInt(maximumDistance), rayResolution), 0.0))
  }

  /** convexDistance as the source writes it, with the iteration count as a ghost result. */
  method ConvexDistanceLoop(m: Maths, pts: seq<Vec2>, maximumDistance: real, rayResolution: int)
    returns (ok: bool, distance: real, ghost iterations: nat)
    ensures ok <==> ConvexDistance(m, pts, maximumDistance, rayResolution).Some?
    ensures ok ==> distance == ConvexDistance(m, pts, maximumDistance, rayResolution).value
    ensures ok ==> iterations == ConvexSteps(m, pts, 0, DivTrunc(TruncToInt(maximumDistance), rayResolution))
  {
    if rayResolution == 0 {
      return false, 0.0, 0;
    }
    var complete := false;
    var currPt: nat := 0;
    distance := 0.0;
    var maxCount := DivTrunc(TruncToInt(maximumDistance), rayResolution);
    ghost var maxCount0 := maxCount;
    iterations := 0;
    if |pts| == 0 {
      return false, 0.0, 0;
    }
    while !complete
      invariant currPt < |pts|
      invariant !complete ==> iterations == 0 || maxCount > 0
      invariant !complete ==>
        ConvexWalk(m, pts, currPt, maxCount, distance) == ConvexWalk(m, pts, 0, maxCount0, 0.0)
        && iterations + ConvexSteps(m, pts, currPt, maxCount) == ConvexSteps(m, pts, 0, maxCount0)
      invariant complete ==>
        distance == ConvexWalk(m, pts, 0, maxCount0, 0.0) && iterations == ConvexSteps(m, pts, 0, maxCount0)
      decreases !complete, if maxCount > 0 then maxCount else 0
    {
      ghost var before := maxCount;
      maxCount := maxCount - 1;
      var maxPt := SteepestPoint(m, pts, currPt);
      distance := distance + Distance2(m, pts[currPt], pts[maxPt]);
      iterations := iterations + 1;
      if maxPt == |pts| - 1 {
        complete := true;
      } else {
        currPt := maxPt;
      }
      if maxCount <= 0 {
        complete := true;
      }
    }
    ok := true;
  }

  /** The convex distance is never negative when square roots are not. */
  lemma ConvexDistanceNonNegative(m: Maths, pts: seq<Vec2>, maximumDistance: real, rayResolution: int)
    requires SqrtNonNegative(m)
    ensures ConvexDistance(m, pts, maximumDistance, rayResolution).Some? ==>
      ConvexDistance(m, pts, maximumDistance, rayResolution).value >= 0.0
  {
    if rayResolution != 0 && |pts| != 0 {
      ConvexWalkGrows(m, pts, 0, DivTrunc(TruncToInt(maximumDistance), rayResolution), 0.0);
    }
  }

  /** Ch of equation VI-22: band * h0 / 250, capped at 1. */
  function HeightCoefficient(band: int, h0: real): (ch: real)
    ensures ch <= 1.0
    ensures band as real * h0 / 250.0 <= 1.0 ==> ch == band as real * h0 / 250.0
  {
    MinR(band as real * h0 / 250.0, 1.0)
  }

  /** The source's `(1 / 3)`: an integer division. */
  const OneThird: int := DivTrunc(1, 3)

  /**
   The multi-diffraction coefficient C1 over a span `e` and wavelength
   `lambda`: 1 for spans up to 0.3, else (1 + q) / ((1 / 3) + q) with
   q = Pow(5 lambda / e, 2).
   */
  function MultiDiffraction(m: Maths, lambda: real, e: real): real
  {
    if e > 0.3 then
      var q := m.pow(Div(5.0 * lambda, e), 2.0);
      Div(1.0 + q, OneThird as real + q)
    else 1.0
  }

  /**
   `(1 / 3)` is 0 in integer arithmetic, so over a long span C1 is
   (1 + q) / q: larger than 1 for every positive q, where the equation's
   1/3 would keep it below 3.
   */
  lemma MultiDiffractionDropsThird(m: Maths, lambda: real, e: real)
    requires e > 0.3
    ensures OneThird == 0
    ensures var q := m.pow(Div(5.0 * lambda, e), 2.0);
      q > 0.0 ==> MultiDiffraction(m, lambda, e) * q == 1.0 + q && MultiDiffraction(m, lambda, e) > 1.0
  {
    var q := m.pow(Div(5.0 * lambda, e), 2.0);
    if q > 0.0 {
      var c := MultiDiffraction(m, lambda, e);
      assert c * q == 1.0 + q;
      assert c > 1.0;
    }
  }

  /**
   The path difference: for one edge, the detour over it, counted negative
   when the edge is not above the direct line (isLeft); for several, the
   detour over the first edge, the convex span `e` and the last edge.
   */
  function PathDifference(m: Maths, source: Vec2, receiver: Vec2, pts: seq<Vec2>, e: real): real
    requires |pts| > 0
  {
    if |pts| == 1 then
      var detour := Distance2(m, source, pts[0]) + Distance2(m, pts[0], receiver) - Distance2(m, source, receiver);
      if IsLeft(source, receiver, pts[0]) then detour else -detour
    else
      Distance2(m, source, pts[0]) + e + Distance2(m, pts[|pts| - 1], receiver) - Distance2(m, source, receiver)
  }

  /**
   calculateDiffraction, equation VI-21: 10 Ch log10(3 + (40 / lambda) C1
   delta) when the argument's term is at least -2, else 0. It fails on an
   empty edge list and, for several edges, where convexDistance fails.
   */
  function PureDiffraction(m: Maths, cfg: PathTree.Config, source: Vec2, receiver: Vec2, band: int, pts: seq<Vec2>,
                           start1: Vec2, end1: Vec2, start2: Vec2, end2: Vec2): Option<real>
  {
    if |pts| == 0 then None
    else
      var first, last := pts[0], pts[|pts| - 1];
      var leftH0 := Distance2(m, first, CrossMeanPlane(m, first, start1, end1));
      var rightH0 := Distance2(m, last, CrossMeanPlane(m, last, start2, end2));
      var ch := HeightCoefficient(band, MaxR(leftH0, rightH0));
      var span := DiffractionSpan(m, cfg, pts);
      if span.None? then None
      else
        var c1 := if |pts| == 1 then 1.0 else MultiDiffraction(m, Div(340.0, band as real), span.value);
        Some(DiffractionLevel(m, band, ch, c1, PathDifference(m, source, receiver, pts, span.value)))
  }

  /** The distance e spanned by the edges: 0 for a single edge, else convexDistance. */
  function DiffractionSpan(m: Maths, cfg: PathTree.Config, pts: seq<Vec2>): Option<real>
    requires |pts| > 0
  {
    if |pts| == 1 then Some(0.0) else ConvexDistance(m, pts, cfg.maximumDistance, cfg.rayResolution)
  }

  /** Equation VI-21 for given Ch, C1 and path difference delta. */
  function DiffractionLevel(m: Maths, band: int, ch: real, c1: real, delta: real): real
  {
    var x := Div(40.0, Div(340.0, band as real)) * c1 * delta;
    if x >= -2.0 then 10.0 * ch * m.log10(3.0 + x) else 0.0
  }

  /**
   calculateDiffraction fails exactly on an empty edge list, or on several
   edges with a zero ray resolution.
   */
  lemma PureDiffractionCases(m: Maths, cfg: PathTree.Config, source: Vec2, receiver: Vec2, band: int, pts: seq<Vec2>,
                             start1: Vec2, end1: Vec2, start2: Vec2, end2: Vec2)
    ensures PureDiffraction(m, cfg, source, receiver, band, pts, start1, end1, start2, end2).None?
      <==> |pts| == 0 || (|pts| >= 2 && cfg.rayResolution == 0)
  {
    if |pts| > 0 {
      var span := DiffractionSpan(m, cfg, pts);
      assert span.None? <==> |pts| >= 2 && cfg.rayResolution == 0;
    }
  }

  /** The clamp of the pure diffraction to [0, 25] dB. */
  function ClampDiffraction(x: real): (r: real)
    ensures 0.0 <= r <= 25.0
    ensures 0.0 <= x <= 25.0 ==> r == x
    ensures x > 25.0 ==> r == 25.0
    ensures x < 0.0 ==> r == 0.0
  {
    MaxR(MinR(x, 25.0), 0.0)
  }

  // ---------------------------------------------------------------------
  // Boundary models
  // ---------------------------------------------------------------------

  /** calculateHomogenousConditions: the ground effect over the whole path's mean plane. */
  function HomogenousConditions(m: Maths, path: seq<Step>, band: int): Option<real>
  {
    match MeanPlane(m, path)
    case None => None
    case Some((start, end)) =>
      Some(GroundEffect(m, Elevation(path[0]), Elevation(path[|path| - 1]), band, start, end))
  }

  /** The indices of the diffraction steps among the first `n`, in order. */
  function DiffractionIndicesBelow(path: seq<Step>, n: nat): seq<nat>
    requires n <= |path|
  {
    if n == 0 then []
    else
      DiffractionIndicesBelow(path, n - 1)
        + (if path[n - 1].kind in {Diffraction, DiffractionVerticalEdge} then [n - 1] else [])
  }

  /** The diffraction points of calculateHomogenousConditionsDiffracting: both edge types. */
  function DiffractionIndices(path: seq<Step>): seq<nat>
  {
    DiffractionIndicesBelow(path, |path|)
  }

  /** The indices found are exactly the diffraction steps, strictly increasing. */
  lemma {:induction false} DiffractionIndicesExact(path: seq<Step>, n: nat)
    requires n <= |path|
    ensures var r := DiffractionIndicesBelow(path, n);
      && (forall i: nat :: i in r <==> i < n && path[i].kind in {Diffraction, DiffractionVerticalEdge})
      && (forall a, b :: 0 <= a < b < |r| ==> r[a] < r[b])
  {
    if n > 0 {
      DiffractionIndicesExact(path, n - 1);
      var prev := DiffractionIndicesBelow(path, n - 1);
      assert forall a :: 0 <= a < |prev| ==> prev[a] in prev;
    }
  }

  /** The index-collecting loop of calculateHomogenousConditionsDiffracting. */
  method CollectDiffractionPoints(path: seq<Step>) returns (r: seq<nat>)
    ensures r == DiffractionIndices(path)
    ensures forall i: nat :: i in r <==> i < |path| && path[i].kind in {Diffraction, DiffractionVerticalEdge}
  {
    r := [];
    for i := 0 to |path|
      invariant r == DiffractionIndicesBelow(path, i)
    {
      if path[i].kind == Diffraction || path[i].kind == DiffractionVerticalEdge {
        r := r + [i];
      }
    }
    DiffractionIndicesExact(path, |path|);
  }

  /** The mirror image of `p` in the point `q` on the mean plane. */
  function Mirror(p: Vec2, q: Vec2): Vec2
  {
    Sub2(q, Sub2(p, q))
  }

  /** Equations VI-31/32: the ground correction of one side from its attenuation and the two diffractions. */
  function SideCorrection(m: Maths, attenuation: real, imageDiff: real, pureDiff: real): real
  {
    -20.0 * m.log10(1.0 + (m.pow(10.0, -attenuation / 20.0) - 1.0) * m.pow(10.0, -(imageDiff - pureDiff) / 20.0))
  }

  /**
   calculateHomogenousConditionsDiffracting: the clamped pure diffraction
   plus the ground corrections of the source side and the receiver side.
   The source side's mean plane is fitted to the steps before the first
   edge, the receiver side's to the steps from the last edge up to, but not
   including, the final step.
   */
  function HomogenousDiffracting(m: Maths, cfg: PathTree.Config, path: seq<Step>, band: int): Option<real>
  {
    var idx := DiffractionIndices(path);
    if idx == [] then None
    else
      DiffractionIndicesExact(path, |path|);
      assert idx[0] in idx && idx[|idx| - 1] in idx;
      var first, last := idx[0], idx[|idx| - 1];
      var pts := seq(|idx|, j requires 0 <= j < |idx| => Elevation(path[idx[j]]));
      var source, receiver := Elevation(path[0]), Elevation(path[|path| - 1]);
      var sourcePlane := MeanPlane(m, path[..first]);
      var receiverPlane := MeanPlane(m, path[last..|path| - 1]);
      if sourcePlane.None? || receiverPlane.None? then None
      else
        var (start, diff1) := sourcePlane.value;
        var (diff2, end) := receiverPlane.value;
        var pure := PureDiffraction(m, cfg, source, receiver, band, pts, start, diff1, diff2, end);
        var imageSource := Mirror(source, CrossMeanPlane(m, source, start, diff1));
        var imageSourceDiff := PureDiffraction(m, cfg, imageSource, receiver, band, pts, start, diff1, start, diff1);
        var imageReceiver := Mirror(receiver, CrossMeanPlane(m, receiver, diff2, end));
        var imageReceiverDiff := PureDiffraction(m, cfg, source, imageReceiver, band, pts, start, diff1, diff2, end);
        if pure.None? || imageSourceDiff.None? || imageReceiverDiff.None? then None
        else
          var clamped := ClampDiffraction(pure.value);
          var sourceAttenuation := GroundEffect(m, source, Elevation(path[first]), band, start, diff1);
          var receiverAttenuation := GroundEffect(m, Elevation(path[last]), receiver, band, diff2, end);
          Some(clamped + SideCorrection(m, sourceAttenuation, imageSourceDiff.value, clamped)
                       + SideCorrection(m, receiverAttenuation, imageReceiverDiff.value, clamped))
  }

  /**
   calculateHomogenousConditionsDiffracting throws exactly when there is no
   edge, when the first edge is the first step or the last edge is the
   final step (an empty list for a mean plane), or when there are several
   edges and the ray resolution is 0.
   */
  lemma HomogenousDiffractingFails(m: Maths, cfg: PathTree.Config, path: seq<Step>, band: int)
    ensures var idx := DiffractionIndices(path);
      HomogenousDiffracting(m, cfg, path, band).None? <==>
        idx == [] || idx[0] == 0 || idx[|idx| - 1] == |path| - 1 || (|idx| >= 2 && cfg.rayResolution == 0)
  {
    var idx := DiffractionIndices(path);
    if idx != [] {
      DiffractionIndicesExact(path, |path|);
      assert idx[0] in idx && idx[|idx| - 1] in idx;
      var first, last := idx[0], idx[|idx| - 1];
      MeanPlaneCases(m, path[..first]);
      MeanPlaneCases(m, path[last..|path| - 1]);
    }
  }

  /** calculateHomogenousConditionsLateralDiffracting: ground effect plus diffraction (V-33). */
  function HomogenousLateral(m: Maths, cfg: PathTree.Config, path: seq<Step>, band: int): Option<real>
  {
    var ground := HomogenousConditions(m, path, band);
    var diffraction := HomogenousDiffracting(m, cfg, path, band);
    if ground.None? || diffraction.None? then None else Some(ground.value + diffraction.value)
  }

  /** The shape flags of createImage. */
  datatype Shape = Shape(hasDiffraction: bool, hasLateralDiffraction: bool, hasReflection: bool)

  /** The shape of a path: which step types occur in it. */
  function ShapeOf(path: seq<Step>): Shape
  {
    Shape(exists i :: 0 <= i < |path| && path[i].kind == Diffraction,
          exists i :: 0 <= i < |path| && path[i].kind == DiffractionVerticalEdge,
          exists i :: 0 <= i < |path| && path[i].kind == Reflection)
  }

  /** The flag loop of createImage. */
  method ScanShape(path: seq<Step>) returns (shape: Shape)
    ensures shape == ShapeOf(path)
  {
    shape := Shape(false, false, false);
    for i := 0 to |path|
      invariant shape == ShapeOf(path[..i])
    {
      assert forall j :: 0 <= j < i ==> path[..i + 1][j] == path[..i][j];
      if path[i].kind == Diffraction {
        shape := shape.(hasDiffraction := true);
      }
      if path[i].kind == DiffractionVerticalEdge {
        shape := shape.(hasLateralDiffraction := true);
      }
      if path[i].kind == Reflection {
        shape := shape.(hasReflection := true);
      }
      assert path[..i + 1][i] == path[i];
    }
    assert path[..|path|] == path;
  }

  /**
   The boundary attenuation under homogeneous conditions: diffracting when
   the path has a (vertical-axis) diffraction, else lateral when it has a
   lateral one, else plain ground effect.
   */
  function HomogenousBoundary(m: Maths, cfg: PathTree.Config, path: seq<Step>, band: int, shape: Shape): Option<real>
  {
    if shape.hasDiffraction then HomogenousDiffracting(m, cfg, path, band)
    else if shape.hasLateralDiffraction then HomogenousLateral(m, cfg, path, band)
    else HomogenousConditions(m, path, band)
  }

  /**
   The boundary attenuation under downward refraction: all three variants
   (diffracting, lateral, plain) return 0.
   */
  function RefractiveBoundary(shape: Shape): real
  {
    if shape.hasDiffraction then 0.0 else if shape.hasLateralDiffraction then 0.0 else 0.0
  }

  /** One band of an image: its geometric divergence and its final level. */
  datatype BandResult = BandResult(divergence: real, level: real)

  /** The distance the geometric divergence is taken over: the direct one for lateral paths, else the path's length. */
  function DivergenceDistance(path: seq<Step>, shape: Shape, directDistance: real): real
    requires |path| > 0
  {
    if shape.hasLateralDiffraction then directDistance else path[|path| - 1].distance
  }

  /**
   The body of createImage's band loop for band `band` of emission level
   `power`: the divergence, absorption and boundary attenuations are
   subtracted from the emission level; the long-term level blends the two
   conditions, the short-term one takes the refractive level under
   downward refraction, else the homogeneous level.
   */
  function BandLevel(m: Maths, cfg: PathTree.Config, path: seq<Step>, band: int, power: real, directDistance: real,
                     shape: Shape): Option<BandResult>
    requires |path| > 0
  {
    LevelFrom(m, cfg, power, DivergenceDistance(path, shape, directDistance), AtmosphericAbsorption(path, band),
              RefractiveBoundary(shape),
              if cfg.longTerm || !cfg.downwardRefraction then HomogenousBoundary(m, cfg, path, band, shape)
              else Some(0.0))
  }

  /**
   BandLevel from the divergence distance, the absorption and the two
   boundary attenuations, the homogeneous one being the only one that can
   fail.
   */
  function LevelFrom(m: Maths, cfg: PathTree.Config, power: real, distance: real, absorption: real,
                     refractiveBoundary: real, boundary: Option<real>): Option<BandResult>
  {
    var gd := GeometricDivergence(m, distance);
    if boundary.None? then None
    else Some(BandResult(gd, CombinedLevel(m, cfg, power, gd + absorption, refractiveBoundary, boundary.value)))
  }

  /**
   The final level of a band from the emission `power`, the divergence
   plus absorption `loss`, and the two boundary attenuations.
   */
  function CombinedLevel(m: Maths, cfg: PathTree.Config, power: real, loss: real, refractiveBoundary: real,
                         homogenousBoundary: real): real
  {
    var refractive := if cfg.longTerm || cfg.downwardRefraction then power - (loss + refractiveBoundary) else 0.0;
    var homogenous := if cfg.longTerm || !cfg.downwardRefraction then power - (loss + homogenousBoundary) else 0.0;
    if cfg.longTerm then
      10.0 * m.log10(cfg.downwardLikelihood * m.pow(10.0, refractive / 10.0)
                     + (1.0 - cfg.homogenousLikelihood) * m.pow(10.0, homogenous / 10.0))
    else if cfg.downwardRefraction then refractive
    else homogenous
  }

  /**
   The reflection flag changes nothing: the level is the same whether or
   not the path reflects, since the absorption-adjusted sound power is
   never used.
   */
  lemma LevelIgnoresReflection(m: Maths, cfg: PathTree.Config, path: seq<Step>, band: int, power: real,
                               directDistance: real, shape: Shape)
    requires |path| > 0
    ensures BandLevel(m, cfg, path, band, power, directDistance, shape)
         == BandLevel(m, cfg, path, band, power, directDistance, shape.(hasReflection := !shape.hasReflection))
  {
    var flipped := shape.(hasReflection := !shape.hasReflection);
    assert DivergenceDistance(path, shape, directDistance) == DivergenceDistance(path, flipped, directDistance);
    assert RefractiveBoundary(shape) == RefractiveBoundary(flipped);
    BoundaryIgnoresReflection(m, cfg, path, band, shape);
    LevelByShape(m, cfg, path, band, power, directDistance, shape, flipped);
  }

  /** Two shapes with the same divergence distance and boundaries give the same level. */
  lemma LevelByShape(m: Maths, cfg: PathTree.Config, path: seq<Step>, band: int, power: real,
                     directDistance: real, a: Shape, b: Shape)
    requires |path| > 0
    requires DivergenceDistance(path, a, directDistance) == DivergenceDistance(path, b, directDistance)
    requires RefractiveBoundary(a) == RefractiveBoundary(b)
    requires HomogenousBoundary(m, cfg, path, band, a) == HomogenousBoundary(m, cfg, path, band, b)
    ensures BandLevel(m, cfg, path, band, power, directDistance, a)
         == BandLevel(m, cfg, path, band, power, directDistance, b)
  {
  }

  lemma BoundaryIgnoresReflection(m: Maths, cfg: PathTree.Config, path: seq<Step>, band: int, shape: Shape)
    ensures HomogenousBoundary(m, cfg, path, band, shape)
         == HomogenousBoundary(m, cfg, path, band, shape.(hasReflection := !shape.hasReflection))
  {
  }

  /**
   The boundary model's precedence: with a diffraction, the lateral flag
   is ignored; the refractive boundary is always 0.
   */
  lemma BoundaryPrecedence(m: Maths, cfg: PathTree.Config, path: seq<Step>, band: int, shape: Shape)
    ensures shape.hasDiffraction ==>
      HomogenousBoundary(m, cfg, path, band, shape) == HomogenousDiffracting(m, cfg, path, band)
      && HomogenousBoundary(m, cfg, path, band, shape)
         == HomogenousBoundary(m, cfg, path, band, shape.(hasLateralDiffraction := !shape.hasLateralDiffraction))
    ensures !shape.hasDiffraction && shape.hasLateralDiffraction ==>
      HomogenousBoundary(m, cfg, path, band, shape) == HomogenousLateral(m, cfg, path, band)
    ensures RefractiveBoundary(shape) == 0.0
  {
  }

  /**
   The short-term levels: under downward refraction the level is the
   emission minus divergence and absorption (the boundary being 0), and
   it never fails; otherwise it is the emission minus divergence,
   absorption and the homogeneous boundary, failing where that fails.
   */
  lemma ShortTermLevels(m: Maths, cfg: PathTree.Config, path: seq<Step>, band: int, power: real, directDistance: real,
                        shape: Shape)
    requires |path| > 0 && !cfg.longTerm
    ensures var gd := GeometricDivergence(m, DivergenceDistance(path, shape, directDistance));
      var aa := AtmosphericAbsorption(path, band);
      var r := BandLevel(m, cfg, path, band, power, directDistance, shape);
      && (cfg.downwardRefraction ==> r == Some(BandResult(gd, power - (gd + aa))))
      && (!cfg.downwardRefraction ==>
            (r.None? <==> HomogenousBoundary(m, cfg, path, band, shape).None?)
            && (r.Some? ==> r.value == BandResult(gd, power - (gd + aa + HomogenousBoundary(m, cfg, path, band, shape).value))))
  {
  }

  /** A path without any edge and with a non-empty step list always yields its levels. */
  lemma PlainPathNeverFails(m: Maths, cfg: PathTree.Config, path: seq<Step>, band: int, power: real, directDistance: real,
                            shape: Shape)
    requires |path| > 0 && !shape.hasDiffraction && !shape.hasLateralDiffraction
    ensures BandLevel(m, cfg, path, band, power, directDistance, shape).Some?
  {
    MeanPlaneCases(m, path);
  }
}
