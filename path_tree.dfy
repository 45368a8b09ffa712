/**
 The path-tree builder of Unity/NoiseSource.cs. Starting from the noise
 source, `FireAt` looks for the listener; a blocked line of sight makes it
 scan along the obstacle (`ScanCast`) for an edge to diffract around, and
 `ReflectToward` sweeps a plane of rays for specular reflections. Every
 surviving path ends in a DIRECT segment at the listener; a segment that
 leads nowhere removes itself from the tree.

 Unity's physics and rotations are the oracles of `Scene`: the model holds
 for every scene. The builder's recursion has no termination argument in
 the source, so the methods carry a `fuel` bound.
 */
module PathTree {
  import opened Common
  import opened RoseTree

  /** NoiseSource.HitType: how a segment of a path starts. */
  datatype HitType = SOURCE | DIRECT | REFLECTION | DIFFRACTION_H | DIFFRACTION_V

  /** A collider of the scene, by identity; C#'s null is `None`. */
  type ColliderId = nat

  /** A NoiseSource as stored in the tree: where its segment starts, how, and off which collider. */
  datatype Segment = Segment(origin: Vec3, kind: HitType, hitObject: Option<ColliderId>)

  /** The settings of NoiseController that the engine reads. */
  datatype Config = Config(
    collisionChecks: int,
    rayResolution: int,
    fullPath: bool,
    maximumDistance: real,
    reflections: bool,
    sidewaysDiffraction: bool,
    downwardDiffraction: bool,
    reflectionAngle: int,
    angleSteps: int,
    specularTolerance: real,
    downwardRefraction: bool,
    longTerm: bool,
    downwardLikelihood: real,
    homogenousLikelihood: real)

  /** RaycastHit: the impact point, the surface normal, the collider and the ray length. */
  datatype Hit = Hit(point: Vec3, normal: Vec3, collider: ColliderId, distance: real)

  /**
   Unity's physics and rotations: `linecast` and `raycast` against the
   reflection mask, `groundcast` straight down against the terrain mask,
   `rotate(angle, axis, v)` for Quaternion.AngleAxis(angle, axis) * v and
   `signedAngle` for Vector3.SignedAngle.
   */
  datatype Scene = Scene(
    linecast: (Vec3, Vec3) -> Option<Hit>,
    raycast: (Vec3, Vec3, real) -> Option<Hit>,
    groundcast: Vec3 -> Option<Hit>,
    rotate: (real, Vec3, Vec3) -> Vec3,
    signedAngle: (Vec3, Vec3, Vec3) -> real,
    maths: Maths)

  /**
   The direction hint after an obstacle: reset to "" (scan everywhere) only
   under `fullPath` and only when the obstacle is a different collider from
   the last one; otherwise the incoming hint is kept.
   */
  function EffectiveDirection(direction: string, fullPath: bool, collider: ColliderId,
                              lastHit: Option<ColliderId>): (d: string)
    ensures d == direction || d == ""
    ensures d != direction <==> fullPath && lastHit != Some(collider) && direction != ""
  {
    if fullPath && Some(collider) != lastHit then "" else direction
  }

  const ProbeNames: set<string> := {"right", "left", "up", "down"}

  /** The order in which FireAt tries the probes. */
  function ProbeRank(name: string): nat
  {
    if name == "right" then 0 else if name == "left" then 1 else if name == "up" then 2
    else if name == "down" then 3 else 4
  }

  /**
   The probes FireAt sends from a blocked segment, in order, for a direction
   hint: "" tries right and left (when sideways diffraction is on), up
   (always) and down (when downward diffraction is on); a named hint tries
   only that probe, under the same switches; any other hint tries nothing.
   */
  function Probes(direction: string, cfg: Config): seq<string>
  {
    if direction == "" then
      (if cfg.sidewaysDiffraction then ["right", "left"] else []) + ["up"]
        + (if cfg.downwardDiffraction then ["down"] else [])
    else if direction == "right" && cfg.sidewaysDiffraction then ["right"]
    else if direction == "left" && cfg.sidewaysDiffraction then ["left"]
    else if direction == "up" then ["up"]
    else if direction == "down" && cfg.downwardDiffraction then ["down"]
    else []
  }

  /**
   The probe table: which of the four probes run for a hint, in the order
   right, left, up, down, and never more than one for a non-empty hint.
   */
  lemma ProbesTable(direction: string, cfg: Config)
    ensures var r := Probes(direction, cfg);
      && (forall k :: 0 <= k < |r| ==> r[k] in ProbeNames)
      && (forall i, j :: 0 <= i < j < |r| ==> ProbeRank(r[i]) < ProbeRank(r[j]))
      && (("right" in r) <==> cfg.sidewaysDiffraction && (direction == "" || direction == "right"))
      && (("left" in r) <==> cfg.sidewaysDiffraction && (direction == "" || direction == "left"))
      && (("up" in r) <==> (direction == "" || direction == "up"))
      && (("down" in r) <==> cfg.downwardDiffraction && (direction == "" || direction == "down"))
      && (direction != "" ==> |r| <= 1)
  {
  }

  lemma ProbesWithoutHint(cfg: Config)
    ensures Probes("", cfg) == (if cfg.sidewaysDiffraction then ["right", "left"] else []) + ["up"]
                               + (if cfg.downwardDiffraction then ["down"] else [])
  {
  }

  /** The kind of a diffraction segment: around a vertical edge for left/right probes, over an edge otherwise. */
  function DiffractionKind(dirName: string): (k: HitType)
    ensures k == DIFFRACTION_H || k == DIFFRACTION_V
    ensures k == DIFFRACTION_H <==> dirName == "left" || dirName == "right"
  {
    if dirName == "left" || dirName == "right" then DIFFRACTION_H else DIFFRACTION_V
  }

  /**
   The frame at an impact point, (side, up): on a floor (normal equal to up,
   in Unity's approximate sense) `up` is the horizontal direction toward the
   listener; otherwise `side` is horizontal along the wall and `up` climbs it.
   */
  function ImpactFrame(m: Maths, hit: Hit, listener: Vec3): (Vec3, Vec3)
  {
    if ApproxEqual3(hit.normal, Up) then
      var toward := Sub3(listener, hit.point);
      var up := Normalized3(m, Vec3(toward.x, 0.0, toward.z));
      (Normalized3(m, Cross3(hit.normal, up)), up)
    else
      var side := Normalized3(m, Cross3(hit.normal, Up));
      (side, Normalized3(m, Cross3(side, hit.normal)))
  }

  /** The scan direction of a probe: the normal turned by ±90 degrees about up (right/left) or side (up/down). */
  function ProbeDirection(scene: Scene, name: string, normal: Vec3, side: Vec3, up: Vec3): Vec3
  {
    if name == "right" then scene.rotate(90.0, up, normal)
    else if name == "left" then scene.rotate(-90.0, up, normal)
    else if name == "up" then scene.rotate(90.0, side, normal)
    else scene.rotate(-90.0, side, normal)
  }

  /** How a scan along an obstacle ended. */
  datatype ScanEnd =
    | Blocked                 // every probe hit the obstacle
    | OverBudget              // the first clear probe is out of the distance budget
    | Receding                // the first clear probe is farther from the listener
    | Spawn(at: Vec3, budget: real, lastHit: Option<ColliderId>)  // a diffraction segment starts at `at`

  datatype ScanResult = ScanResult(probes: nat, end: ScanEnd)

  /**
   The scan loop of scanCast: move the target one `step` further, test the
   line of sight from `origin`, and stop at the first clear probe, or after
   `remaining` probes.
   */
  function Scan(scene: Scene, origin: Vec3, listener: Vec3, step: Vec3, maxDist: real,
                target: Vec3, lastHit: Option<ColliderId>, remaining: nat): ScanResult
    decreases remaining
  {
    if remaining == 0 then ScanResult(0, Blocked)
    else
      var t := Add3(target, step);
      match scene.linecast(origin, t)
      case Some(h) =>
        var rest := Scan(scene, origin, listener, step, maxDist, t, Some(h.collider), remaining - 1);
        ScanResult(rest.probes + 1, rest.end)
      case None =>
        var budget := maxDist - Distance3(scene.maths, origin, t);
        if budget < 0.0 then ScanResult(1, OverBudget)
        else if Distance3(scene.maths, listener, origin) < Distance3(scene.maths, listener, t) then ScanResult(1, Receding)
        else ScanResult(1, Spawn(t, budget, lastHit))
  }

  /** The outcome of a scan whose next probe is clear. */
  lemma ScanEndClear(scene: Scene, origin: Vec3, listener: Vec3, step: Vec3, maxDist: real,
                     target: Vec3, lastHit: Option<ColliderId>, remaining: nat)
    requires remaining > 0 && scene.linecast(origin, Add3(target, step)).None?
    ensures var t := Add3(target, step);
      var budget := maxDist - Distance3(scene.maths, origin, t);
      Scan(scene, origin, listener, step, maxDist, target, lastHit, remaining).end
        == if budget < 0.0 then OverBudget
           else if Distance3(scene.maths, listener, origin) < Distance3(scene.maths, listener, t) then Receding
           else Spawn(t, budget, lastHit)
  {
  }

  /** The outcome of a scan whose next probe hits: that of the rest of the scan. */
  lemma ScanEndBlocked(scene: Scene, origin: Vec3, listener: Vec3, step: Vec3, maxDist: real,
                       target: Vec3, lastHit: Option<ColliderId>, remaining: nat)
    requires remaining > 0 && scene.linecast(origin, Add3(target, step)).Some?
    ensures var t := Add3(target, step);
      Scan(scene, origin, listener, step, maxDist, target, lastHit, remaining).end
        == Scan(scene, origin, listener, step, maxDist, t, Some(scene.linecast(origin, t).value.collider),
                remaining - 1).end
  {
  }

  /** The number of loop iterations of `for (i = 0; i < n; i++)`. */
  function Iterations(n: int): nat { if n > 0 then n else 0 }

  /**
   A scan makes at most `remaining` probes, all of them when it is blocked
   throughout, and at least one otherwise.
   */
  lemma {:induction false} ScanProbeBound(scene: Scene, origin: Vec3, listener: Vec3, step: Vec3, maxDist: real,
                                          target: Vec3, lastHit: Option<ColliderId>, remaining: nat)
    ensures var r := Scan(scene, origin, listener, step, maxDist, target, lastHit, remaining);
      && r.probes <= remaining
      && (r.end.Blocked? ==> r.probes == remaining)
      && (!r.end.Blocked? ==> 1 <= r.probes)
    decreases remaining
  {
    if remaining > 0 {
      var t := Add3(target, step);
      match scene.linecast(origin, t)
      case Some(h) =>
        ScanProbeBound(scene, origin, listener, step, maxDist, t, Some(h.collider), remaining - 1);
      case None =>
    }
  }

  /**
   A diffraction segment starts exactly `probes` steps from the start
   target, where the line of sight from `origin` is clear; its budget is
   what is left of `maxDist` after the distance to it, and it is no farther
   from the listener than `origin` is.
   */
  lemma {:induction false} ScanSpawnPoint(scene: Scene, origin: Vec3, listener: Vec3, step: Vec3, maxDist: real,
                                          target: Vec3, lastHit: Option<ColliderId>, remaining: nat)
    ensures var r := Scan(scene, origin, listener, step, maxDist, target, lastHit, remaining);
      r.end.Spawn? ==>
        && r.end.at == Add3(target, Scale3(step, r.probes as real))
        && scene.linecast(origin, r.end.at).None?
        && r.end.budget == maxDist - Distance3(scene.maths, origin, r.end.at)
        && 0.0 <= r.end.budget
        && Distance3(scene.maths, listener, r.end.at) <= Distance3(scene.maths, listener, origin)
    decreases remaining
  {
    if remaining > 0 {
      var t := Add3(target, step);
      match scene.linecast(origin, t)
      case Some(h) =>
        var rest := Scan(scene, origin, listener, step, maxDist, t, Some(h.collider), remaining - 1);
        ScanSpawnPoint(scene, origin, listener, step, maxDist, t, Some(h.collider), remaining - 1);
        if rest.end.Spawn? {
          var k := rest.probes as real;
          assert Add3(t, Scale3(step, k)) == Add3(target, Scale3(step, k + 1.0));
        }
      case None =>
        assert Scale3(step, 1.0) == step;
    }
  }

  /**
   A scan that reaches a clear probe uses the hit collider of the probe
   before it as `lastHit`, and the caller's `lastHit` when the first probe
   is already clear.
   */
  lemma {:induction false} ScanLastHit(scene: Scene, origin: Vec3, listener: Vec3, step: Vec3, maxDist: real,
                                       target: Vec3, lastHit: Option<ColliderId>, remaining: nat)
    ensures var r := Scan(scene, origin, listener, step, maxDist, target, lastHit, remaining);
      r.end.Spawn? ==>
        (r.probes == 1 ==> r.end.lastHit == lastHit) &&
        (r.probes > 1 ==>
          var before := Add3(target, Scale3(step, (r.probes - 1) as real));
          && r.end.lastHit.Some?
          && scene.linecast(origin, before).Some?
          && scene.linecast(origin, before).value.collider == r.end.lastHit.value)
    decreases remaining
  {
    if remaining > 0 {
      var t := Add3(target, step);
      match scene.linecast(origin, t)
      case Some(h) =>
        var rest := Scan(scene, origin, listener, step, maxDist, t, Some(h.collider), remaining - 1);
        ScanLastHit(scene, origin, listener, step, maxDist, t, Some(h.collider), remaining - 1);
        if rest.end.Spawn? {
          ScanProbeBound(scene, origin, listener, step, maxDist, t, Some(h.collider), remaining - 1);
          var k := (rest.probes - 1) as real;
          assert Add3(t, Scale3(step, k)) == Add3(target, Scale3(step, k + 1.0));
          if rest.probes == 1 {
            assert Scale3(step, 1.0) == step;
          }
        }
      case None =>
    }
  }

  /** Vector3.Equals: exact component-wise equality (unlike `==`, which is approximate). */
  function SweepAxis(m: Maths, direction: Vec3): Vec3
  {
    if direction != Up then Normalized3(m, Cross3(direction, Cross3(direction, Up))) else Right3
  }

  /**
   The sweep's turn per iteration in degrees, `1/angleSteps` and
   `-1/angleSteps`, which are C# integer divisions.
   */
  function SweepStep(angleSteps: int, sign: int): (deg: int)
    requires angleSteps != 0 && (sign == 1 || sign == -1)
    ensures deg == 0 || deg == 1 || deg == -1
    ensures deg != 0 <==> angleSteps == 1 || angleSteps == -1
    ensures angleSteps == 1 ==> deg == sign
  {
    DivTrunc(sign, angleSteps)
  }

  /** A reflection the sweep accepted: the child's start point, collider, budget and direction hint. */
  datatype Reflection = Reflection(point: Vec3, collider: ColliderId, budget: real, hint: string)

  /**
   One ray of the sweep: a hit becomes a reflection iff the two signed
   angles of the incoming and outgoing legs about `axis` cancel to within the
   specular tolerance. The reflection point sits a centimetre off the surface.
   */
  function SpecularProbe(scene: Scene, cfg: Config, origin: Vec3, listener: Vec3, axis: Vec3,
                         maxDistance: real, direction: Vec3, hint: string): Option<Reflection>
  {
    match scene.raycast(origin, direction, cfg.maximumDistance)
    case None => None
    case Some(h) =>
      if AbsReal(scene.signedAngle(h.normal, Sub3(h.point, origin), axis)
                 + scene.signedAngle(h.normal, Sub3(h.point, listener), axis)) > cfg.specularTolerance
      then None
      else Some(Reflection(Add3(h.point, Scale3(h.normal, 0.01)), h.collider,
                           maxDistance - Distance3(scene.maths, origin, h.point), hint))
  }

  /**
   The specular acceptance test: a ray yields a reflection iff it hits and
   the signed angles of the two legs cancel to within the tolerance; the
   reflection carries the hit collider, the hint, and the budget left after
   the distance to the hit point.
   */
  lemma SpecularAcceptance(scene: Scene, cfg: Config, origin: Vec3, listener: Vec3, axis: Vec3,
                           maxDistance: real, direction: Vec3, hint: string)
    ensures var r := SpecularProbe(scene, cfg, origin, listener, axis, maxDistance, direction, hint);
      var h := scene.raycast(origin, direction, cfg.maximumDistance);
      && (r.Some? <==>
            h.Some? && AbsReal(scene.signedAngle(h.value.normal, Sub3(h.value.point, origin), axis)
                               + scene.signedAngle(h.value.normal, Sub3(h.value.point, listener), axis))
                       <= cfg.specularTolerance)
      && (r.Some? ==>
            && r.value.collider == h.value.collider && r.value.hint == hint
            && r.value.point == Add3(h.value.point, Scale3(h.value.normal, 0.01))
            && r.value.budget == maxDistance - Distance3(scene.maths, origin, h.value.point))
  {
  }

  function AsSeq<T>(o: Option<T>): seq<T>
  {
    if o.Some? then [o.value] else []
  }

  /** The reflections of one sweep iteration: the right ray's, then the left ray's. */
  function SweepPair(scene: Scene, cfg: Config, origin: Vec3, listener: Vec3, axis: Vec3,
                     maxDistance: real, right: Vec3, left: Vec3): seq<Reflection>
  {
    AsSeq(SpecularProbe(scene, cfg, origin, listener, axis, maxDistance, right, "right"))
      + AsSeq(SpecularProbe(scene, cfg, origin, listener, axis, maxDistance, left, "left"))
  }

  /**
   The reflections found by `remaining` iterations of the sweep of
   reflectToward, in the order they become children; `right` and `left` are
   the ray directions before the next turn.
   */
  function Sweep(scene: Scene, cfg: Config, origin: Vec3, listener: Vec3, axis: Vec3, maxDistance: real,
                 right: Vec3, left: Vec3, remaining: nat): seq<Reflection>
    requires cfg.angleSteps != 0
    decreases remaining
  {
    if remaining == 0 then []
    else
      var r := scene.rotate(SweepStep(cfg.angleSteps, 1) as real, axis, right);
      var l := scene.rotate(SweepStep(cfg.angleSteps, -1) as real, axis, left);
      SweepPair(scene, cfg, origin, listener, axis, maxDistance, r, l)
        + Sweep(scene, cfg, origin, listener, axis, maxDistance, r, l, remaining - 1)
  }

  lemma SweepUnfold(scene: Scene, cfg: Config, origin: Vec3, listener: Vec3, axis: Vec3, maxDistance: real,
                    right: Vec3, left: Vec3, remaining: nat)
    requires cfg.angleSteps != 0
    ensures var r := scene.rotate(SweepStep(cfg.angleSteps, 1) as real, axis, right);
      var l := scene.rotate(SweepStep(cfg.angleSteps, -1) as real, axis, left);
      Sweep(scene, cfg, origin, listener, axis, maxDistance, right, left, remaining + 1)
        == SweepPair(scene, cfg, origin, listener, axis, maxDistance, r, l)
           + Sweep(scene, cfg, origin, listener, axis, maxDistance, r, l, remaining)
  {
  }

  /**
   The sweep finds at most two reflections per iteration, each hinted
   "right" or "left", each with a budget of at most `maxDistance` when
   distances are never negative.
   */
  lemma SweepBound(scene: Scene, cfg: Config, origin: Vec3, listener: Vec3, axis: Vec3,
                   maxDistance: real, right: Vec3, left: Vec3, remaining: nat)
    requires cfg.angleSteps != 0
    ensures var s := Sweep(scene, cfg, origin, listener, axis, maxDistance, right, left, remaining);
      |s| <= 2 * remaining && SidesHinted(s) && (SqrtNonNegative(scene.maths) ==> WithinBudget(s, maxDistance))
  {
    SweepLength(scene, cfg, origin, listener, axis, maxDistance, right, left, remaining);
    SweepHints(scene, cfg, origin, listener, axis, maxDistance, right, left, remaining);
    if SqrtNonNegative(scene.maths) {
      SweepBudgets(scene, cfg, origin, listener, axis, maxDistance, right, left, remaining);
    }
  }

  /** The sweep finds at most two reflections per iteration. */
  lemma {:induction false} SweepLength(scene: Scene, cfg: Config, origin: Vec3, listener: Vec3, axis: Vec3,
                                       maxDistance: real, right: Vec3, left: Vec3, remaining: nat)
    requires cfg.angleSteps != 0
    ensures |Sweep(scene, cfg, origin, listener, axis, maxDistance, right, left, remaining)| <= 2 * remaining
    decreases remaining
  {
    if remaining > 0 {
      var r := scene.rotate(SweepStep(cfg.angleSteps, 1) as real, axis, right);
      var l := scene.rotate(SweepStep(cfg.angleSteps, -1) as real, axis, left);
      var pair := SweepPair(scene, cfg, origin, listener, axis, maxDistance, r, l);
      var rest := Sweep(scene, cfg, origin, listener, axis, maxDistance, r, l, remaining - 1);
      assert Sweep(scene, cfg, origin, listener, axis, maxDistance, right, left, remaining) == pair + rest;
      PairBound(scene, cfg, origin, listener, axis, maxDistance, r, l);
      SweepLength(scene, cfg, origin, listener, axis, maxDistance, r, l, remaining - 1);
    }
  }

  /** Every reflection of the sweep is hinted "right" or "left". */
  lemma {:induction false} SweepHints(scene: Scene, cfg: Config, origin: Vec3, listener: Vec3, axis: Vec3,
                                      maxDistance: real, right: Vec3, left: Vec3, remaining: nat)
    requires cfg.angleSteps != 0
    ensures SidesHinted(Sweep(scene, cfg, origin, listener, axis, maxDistance, right, left, remaining))
    decreases remaining
  {
    if remaining > 0 {
      var r := scene.rotate(SweepStep(cfg.angleSteps, 1) as real, axis, right);
      var l := scene.rotate(SweepStep(cfg.angleSteps, -1) as real, axis, left);
      var pair := SweepPair(scene, cfg, origin, listener, axis, maxDistance, r, l);
      var rest := Sweep(scene, cfg, origin, listener, axis, maxDistance, r, l, remaining - 1);
      assert Sweep(scene, cfg, origin, listener, axis, maxDistance, right, left, remaining) == pair + rest;
      SweepHints(scene, cfg, origin, listener, axis, maxDistance, r, l, remaining - 1);
      PairBound(scene, cfg, origin, listener, axis, maxDistance, r, l);
      JoinHints(Sweep(scene, cfg, origin, listener, axis, maxDistance, right, left, remaining), pair, rest);
    }
  }

  /** Every reflection of the sweep leaves a budget of at most `maxDistance` when distances are never negative. */
  lemma {:induction false} SweepBudgets(scene: Scene, cfg: Config, origin: Vec3, listener: Vec3, axis: Vec3,
                                        maxDistance: real, right: Vec3, left: Vec3, remaining: nat)
    requires cfg.angleSteps != 0 && SqrtNonNegative(scene.maths)
    ensures WithinBudget(Sweep(scene, cfg, origin, listener, axis, maxDistance, right, left, remaining), maxDistance)
    decreases remaining
  {
    if remaining > 0 {
      var r := scene.rotate(SweepStep(cfg.angleSteps, 1) as real, axis, right);
      var l := scene.rotate(SweepStep(cfg.angleSteps, -1) as real, axis, left);
      var pair := SweepPair(scene, cfg, origin, listener, axis, maxDistance, r, l);
      var rest := Sweep(scene, cfg, origin, listener, axis, maxDistance, r, l, remaining - 1);
      assert Sweep(scene, cfg, origin, listener, axis, maxDistance, right, left, remaining) == pair + rest;
      SweepBudgets(scene, cfg, origin, listener, axis, maxDistance, r, l, remaining - 1);
      PairBound(scene, cfg, origin, listener, axis, maxDistance, r, l);
      JoinBudgets(Sweep(scene, cfg, origin, listener, axis, maxDistance, right, left, remaining), pair, rest, maxDistance);
    }
  }

  /** Every reflection is hinted "right" or "left". */
  ghost predicate SidesHinted(s: seq<Reflection>)
    decreases |s|
  {
    s != [] ==> (s[0].hint == "right" || s[0].hint == "left") && SidesHinted(s[1..])
  }

  /** Every reflection leaves a budget of at most `maxDistance`. */
  ghost predicate WithinBudget(s: seq<Reflection>, maxDistance: real)
    decreases |s|
  {
    s != [] ==> s[0].budget <= maxDistance && WithinBudget(s[1..], maxDistance)
  }

  /** One iteration finds at most two reflections, hinted "right" and "left", within the budget when distances are never negative. */
  lemma PairBound(scene: Scene, cfg: Config, origin: Vec3, listener: Vec3, axis: Vec3,
                  maxDistance: real, right: Vec3, left: Vec3)
    ensures var p := SweepPair(scene, cfg, origin, listener, axis, maxDistance, right, left);
      && |p| <= 2 && SidesHinted(p) && (SqrtNonNegative(scene.maths) ==> WithinBudget(p, maxDistance))
  {
    SpecularAcceptance(scene, cfg, origin, listener, axis, maxDistance, right, "right");
    SpecularAcceptance(scene, cfg, origin, listener, axis, maxDistance, left, "left");
  }

  /** A concatenation of hinted sequences is hinted. */
  lemma {:induction false} JoinHints(s: seq<Reflection>, a: seq<Reflection>, b: seq<Reflection>)
    ensures s == a + b && SidesHinted(a) && SidesHinted(b) ==> SidesHinted(s)
    decreases |a|
  {
    if s == a + b {
      if a == [] {
        assert s == b;
      } else {
        assert s[0] == a[0] && s[1..] == a[1..] + b;
        JoinHints(s[1..], a[1..], b);
      }
    }
  }

  /** A concatenation of sequences within the budget is within the budget. */
  lemma {:induction false} JoinBudgets(s: seq<Reflection>, a: seq<Reflection>, b: seq<Reflection>, maxDistance: real)
    ensures s == a + b && WithinBudget(a, maxDistance) && WithinBudget(b, maxDistance) ==> WithinBudget(s, maxDistance)
    decreases |a|
  {
    if s == a + b {
      if a == [] {
        assert s == b;
      } else {
        assert s[0] == a[0] && s[1..] == a[1..] + b;
        JoinBudgets(s[1..], a[1..], b, maxDistance);
      }
    }
  }

  function Repeat<T>(s: seq<T>, n: nat): (r: seq<T>)
    ensures |r| == n * |s|
  {
    if n == 0 then [] else s + Repeat(s, n - 1)
  }

  /**
   The sweep as written never turns when |angleSteps| >= 2: the integer
   division makes the step 0 degrees, so (for a rotation by 0 that is the
   identity) every iteration casts the first rotated rays again and finds
   the same reflections again.
   */
  lemma {:induction false} FrozenSweep(scene: Scene, cfg: Config, origin: Vec3, listener: Vec3, axis: Vec3,
                                       maxDistance: real, right: Vec3, left: Vec3, remaining: nat)
    requires cfg.angleSteps >= 2 || cfg.angleSteps <= -2
    requires forall v :: scene.rotate(0.0, axis, v) == v
    ensures Sweep(scene, cfg, origin, listener, axis, maxDistance, right, left, remaining)
         == Repeat(SweepPair(scene, cfg, origin, listener, axis, maxDistance, right, left), remaining)
    decreases remaining
  {
    if remaining > 0 {
      assert SweepStep(cfg.angleSteps, 1) == 0 && SweepStep(cfg.angleSteps, -1) == 0;
      assert scene.rotate(0.0, axis, right) == right;
      assert scene.rotate(0.0, axis, left) == left;
      FrozenSweep(scene, cfg, origin, listener, axis, maxDistance, right, left, remaining - 1);
    }
  }

  /** `after` grew out of `before`: nodes and values are kept, new ids are at least `nb`. */
  ghost predicate Grown(before: Nodes<Segment>, nb: nat, after: Nodes<Segment>, na: nat)
  {
    && nb <= na && before.Keys <= after.Keys && ValuesKept(before, after)
    && (forall id :: id in after && id !in before ==> nb <= id)
  }

  /** `after` is `before` followed by ids of at least `lo`. */
  ghost predicate ExtendedFresh(before: seq<nat>, after: seq<nat>, lo: nat)
  {
    && |before| <= |after| && after[..|before|] == before
    && (forall k :: |before| <= k < |after| ==> lo <= after[k])
  }

  /**
   What a scan or a sweep from node `m` does to the tree: only `m` changes
   among the old nodes, it keeps its parent, and its child list keeps its old
   entries in front of new ones.
   */
  ghost predicate GrewAt(before: Nodes<Segment>, nb: nat, after: Nodes<Segment>, na: nat, m: nat)
  {
    && m in before && Grown(before, nb, after, na) && Untouched(before, after, {m})
    && after[m].parent == before[m].parent
    && ExtendedFresh(before[m].children, after[m].children, nb)
  }

  /**
   What FireAt on node `m` does to the tree: among the old nodes only `m`,
   its parent and its children change; `m` and its parent keep their parent
   fields; the parent's list is either unchanged or has lost `m` and gained
   `m`'s children at its end.
   */
  ghost predicate FireAtFrame(before: Nodes<Segment>, nb: nat, after: Nodes<Segment>, na: nat, m: nat)
  {
    && m in before && Grown(before, nb, after, na)
    && after[m].parent == before[m].parent
    && Untouched(before, after, Around(before, m))
    && (before[m].parent.Some? ==>
          var p := before[m].parent.value;
          && p in before
          && after[p].parent == before[p].parent
          && (after[p].children == before[p].children
              || after[p].children == RemoveFirst(before[p].children, m) + after[m].children))
  }

  lemma GrewAtRefl(nodes: Nodes<Segment>, next: nat, m: nat)
    requires m in nodes
    ensures GrewAt(nodes, next, nodes, next, m)
  {
    assert nodes[m].children[..|nodes[m].children|] == nodes[m].children;
  }

  lemma GrewAtTrans(a: Nodes<Segment>, na: nat, b: Nodes<Segment>, nb: nat, c: Nodes<Segment>, nc: nat, m: nat)
    requires GrewAt(a, na, b, nb, m) && GrewAt(b, nb, c, nc, m)
    ensures GrewAt(a, na, c, nc, m)
  {
    var sa, sb, sc := a[m].children, b[m].children, c[m].children;
    assert sc[..|sb|] == sb;
    assert sc[..|sa|] == sc[..|sb|][..|sa|];
    assert sb[..|sa|] == sa;
  }

  /** A node that only grew at `m` satisfies the FireAt frame of `m` with its parent untouched. */
  lemma GrewAtIsFrame(a: Nodes<Segment>, na: nat, b: Nodes<Segment>, nb: nat, m: nat)
    requires WellFormed(a, na) && GrewAt(a, na, b, nb, m)
    ensures FireAtFrame(a, na, b, nb, m)
  {
  }

  /** FireAt's blocked case when no probe left a child: `m` unlinks itself. */
  lemma LeafRemovedFrame(a: Nodes<Segment>, na: nat, b: Nodes<Segment>, nb: nat, m: nat)
    requires WellFormed(a, na) && WellFormed(b, nb) && GrewAt(a, na, b, nb, m) && b[m].children == []
    ensures FireAtFrame(a, na, RemovedSelf(b, m), nb, m)
  {
    LeafRemoval(b, nb, m);
    assert b[m].parent == a[m].parent;
    UnlinkedFrame(a, na, b, nb, m, RemovedSelf(b, m));
  }

  /** The unlinking of a childless `m` from its parent's list, stated on the resulting tree `r`. */
  lemma UnlinkedFrame(a: Nodes<Segment>, na: nat, b: Nodes<Segment>, nb: nat, m: nat, r: Nodes<Segment>)
    requires WellFormed(a, na) && GrewAt(a, na, b, nb, m) && b[m].children == []
    requires a[m].parent.None? ==> r == b
    requires a[m].parent.Some? ==>
      var p := a[m].parent.value;
      p in b && r == b[p := b[p].(children := RemoveFirst(b[p].children, m))]
    ensures FireAtFrame(a, na, r, nb, m)
  {
    assert a[m].children == [] by {
      assert b[m].children[..|a[m].children|] == a[m].children;
    }
    assert m in Around(a, m);
    if a[m].parent.None? {
      forall id | id in a && id !in Around(a, m)
        ensures id in r && r[id] == a[id]
      {
        assert id != m;
      }
    } else {
      var p := a[m].parent.value;
      assert p in a && p < m;
      assert p in Around(a, m);
      assert b[p] == a[p];
      assert r[m] == b[m] && r.Keys == b.Keys;
      forall id | id in a
        ensures id in r && r[id].value == a[id].value
      {
        assert id in b;
      }
      forall id | id in r && id !in a
        ensures na <= id
      {
        assert id in b;
      }
      forall id | id in a && id !in Around(a, m)
        ensures id in r && r[id] == a[id]
      {
        assert id != m && id != p;
        assert r[id] == b[id] && b[id] == a[id];
      }
      assert RemoveFirst(a[p].children, m) + [] == RemoveFirst(a[p].children, m);
      assert r[p].children == RemoveFirst(a[p].children, m) + r[m].children;
    }
  }

  /** FireAt's clear case out of range: RemoveSelf as is. */
  lemma RemovedFrame(a: Nodes<Segment>, na: nat, m: nat)
    requires WellFormed(a, na) && m in a
    ensures FireAtFrame(a, na, RemovedSelf(a, m), na, m)
  {
    RemovalFrame(a, na, m);
  }

  /** FireAt's clear case in range: a DIRECT child is added. */
  lemma AddedFrame(a: Nodes<Segment>, na: nat, m: nat, v: Segment)
    requires WellFormed(a, na) && m in a
    ensures FireAtFrame(a, na, AddedChild(a, m, na, v), na + 1, m)
  {
  }

  /** The child list of `m` after its new child `c` ran FireAt: old entries first, then ids of at least `c`. */
  lemma SpawnedChildren(before: seq<nat>, c: nat, tail: seq<nat>, now: seq<nat>)
    requires forall x :: x in before ==> x < c
    requires forall x :: x in tail ==> c < x
    requires now == before + [c] || now == RemoveFirst(before + [c], c) + tail
    ensures ExtendedFresh(before, now, c)
  {
    assert c !in before;
    if now == before + [c] {
      assert now[..|before|] == before;
    } else {
      RemoveFirstAppendFresh(before, c);
      assert now == before + tail;
      assert now[..|before|] == before;
      forall k | |before| <= k < |now|
        ensures c <= now[k]
      {
        assert now[k] == tail[k - |before|];
        assert now[k] in tail;
      }
    }
  }

  /**
   A child `na` added to `m` and then grown by its own FireAt: `m` grew by
   fresh ids, and the child keeps its value and its parent `m`.
   */
  lemma SpawnedChildGrew(a: Nodes<Segment>, na: nat, m: nat, v: Segment, d: Nodes<Segment>, nd: nat)
    requires WellFormed(a, na) && m in a
    requires FireAtFrame(AddedChild(a, m, na, v), na + 1, d, nd, na) && WellFormed(d, nd)
    ensures GrewAt(a, na, d, nd, m)
    ensures na in d && d[na].parent == Some(m) && d[na].value == v
  {
    SpawnedChildFrame(a, na, m, v, d, nd);
    var before := a[m].children;
    forall x | x in before
      ensures x in a && m < x < na
    {
      ChildInRange(a, na, m, x);
    }
    assert na in d;
    forall x | x in d[na].children
      ensures x in d && na < x
    {
      ChildInRange(d, nd, na, x);
    }
    SpawnedChildren(before, na, d[na].children, d[m].children);
  }

  /**
   The nodes after a child `na` was added to `m` and grown by its own
   FireAt: only `m` changed among the old nodes, and `m`'s list is its old
   list plus `na`, or that list with `na` replaced by `na`'s children.
   */
  lemma SpawnedChildFrame(a: Nodes<Segment>, na: nat, m: nat, v: Segment, d: Nodes<Segment>, nd: nat)
    requires WellFormed(a, na) && m in a
    requires FireAtFrame(AddedChild(a, m, na, v), na + 1, d, nd, na)
    ensures m in d && Grown(a, na, d, nd) && Untouched(a, d, {m}) && d[m].parent == a[m].parent
    ensures na in d && d[na].parent == Some(m) && d[na].value == v
    ensures || d[m].children == a[m].children + [na]
            || d[m].children == RemoveFirst(a[m].children + [na], na) + d[na].children
  {
    var b := AddedChild(a, m, na, v);
    assert na !in a;
    assert b[na] == Node(v, Some(m), []);
    assert Around(b, na) == {na, m};
    forall id | id in a && id != m
      ensures id in d && d[id] == a[id]
    {
      assert b[id] == a[id];
    }
    forall id | id in d && id !in a
      ensures na <= id
    {
      if id != na {
        assert id !in b;
      }
    }
    assert b[m].children == a[m].children + [na];
  }

  /** RemoveSelf on `m` where it is defined, and no change elsewhere. */
  ghost function Unlinked(nodes: Nodes<Segment>, m: nat): Nodes<Segment>
  {
    if m in nodes && (nodes[m].parent.Some? ==>
                        nodes[m].parent.value in nodes && nodes[m].parent.value !in nodes[m].children)
    then RemovedSelf(nodes, m)
    else nodes
  }

  /** In a well-formed arena RemoveSelf is always defined. */
  lemma UnlinkedIsRemovedSelf(nodes: Nodes<Segment>, next: nat, m: nat)
    requires WellFormed(nodes, next) && m in nodes
    ensures nodes[m].parent.Some? ==>
      nodes[m].parent.value in nodes && nodes[m].parent.value !in nodes[m].children
    ensures Unlinked(nodes, m) == RemovedSelf(nodes, m)
  {
    if nodes[m].parent.Some? {
      SpliceRemoval(nodes, next, m);
    }
  }

  /**
   The tree (and next free id) after fireAt on node `m`, step by step as in
   the source: with the sight blocked, the probes of `Probes` for the
   effective hint, each from a centimetre inside the obstacle with the
   obstacle as `lastHit` and `fuel - 1`, then RemoveSelf if `m` is left
   without children; with a clear sight, RemoveSelf beyond `maxDist`, and a
   DIRECT child at the listener otherwise.
   */
  ghost function Fired(nodes: Nodes<Segment>, next: nat, m: nat, listener: Vec3, maxDist: real, direction: string,
                       lastHit: Option<ColliderId>, cfg: Config, scene: Scene, fuel: nat): (Nodes<Segment>, nat)
    decreases fuel, 0, 0
  {
    if fuel == 0 || m !in nodes then (nodes, next)
    else
      var origin := nodes[m].value.origin;
      match scene.linecast(origin, listener)
      case Some(hit) =>
        var frame := ImpactFrame(scene.maths, hit, listener);
        var s := Probed(nodes, next, m, Probes(EffectiveDirection(direction, cfg.fullPath, hit.collider, lastHit), cfg),
                        listener, Sub3(hit.point, Scale3(hit.normal, 0.01)), hit.normal, frame.0, frame.1,
                        maxDist, Some(hit.collider), cfg, scene, fuel - 1);
        if m in s.0 && |s.0[m].children| == 0 then (Unlinked(s.0, m), s.1) else s
      case None => ClearSight(nodes, next, m, listener, maxDist, scene.maths)
  }

  /** fireAt with a clear line of sight: RemoveSelf beyond `maxDist`, a DIRECT child at the listener otherwise. */
  ghost function ClearSight(nodes: Nodes<Segment>, next: nat, m: nat, listener: Vec3, maxDist: real, maths: Maths)
    : (Nodes<Segment>, nat)
    requires m in nodes
  {
    if Distance3(maths, listener, nodes[m].value.origin) > maxDist then (Unlinked(nodes, m), next)
    else (AddedChild(nodes, m, next, Segment(listener, DIRECT, None)), next + 1)
  }

  /**
   The nextSegment of scanCast and reflectToward: a new segment `seg` below
   `m`, at id `next`, which then runs fireAt.
   */
  ghost function FiredChild(nodes: Nodes<Segment>, next: nat, m: nat, seg: Segment, listener: Vec3, maxDist: real,
                            direction: string, lastHit: Option<ColliderId>, cfg: Config, scene: Scene, fuel: nat)
    : (Nodes<Segment>, nat)
    requires m in nodes
    decreases fuel, 0, 2
  {
    Fired(AddedChild(nodes, m, next, seg), next + 1, next, listener, maxDist, direction, lastHit, cfg, scene, fuel)
  }

  /** `FiredChild` is fireAt on the tree that AddChild left. */
  lemma FiredChildAfter(nodes: Nodes<Segment>, next: nat, m: nat, seg: Segment, b: Nodes<Segment>, listener: Vec3,
                        maxDist: real, direction: string, lastHit: Option<ColliderId>, cfg: Config, scene: Scene,
                        fuel: nat, s: (Nodes<Segment>, nat))
    requires m in nodes && b == AddedChild(nodes, m, next, seg)
    requires s == Fired(b, next + 1, next, listener, maxDist, direction, lastHit, cfg, scene, fuel)
    ensures s == FiredChild(nodes, next, m, seg, listener, maxDist, direction, lastHit, cfg, scene, fuel)
  {
  }

  /** The probes `names` of fireAt, in order: each one a scanCast in its direction with its name as hint. */
  ghost function Probed(nodes: Nodes<Segment>, next: nat, m: nat, names: seq<string>, listener: Vec3, target: Vec3,
                        normal: Vec3, side: Vec3, up: Vec3, maxDist: real, last: Option<ColliderId>, cfg: Config,
                        scene: Scene, fuel: nat): (Nodes<Segment>, nat)
    decreases fuel, 2, |names|
  {
    if names == [] then (nodes, next)
    else
      var s := Scanned(nodes, next, m, listener, target, ProbeDirection(scene, names[0], normal, side, up),
                       maxDist, names[0], last, cfg, scene, fuel);
      Probed(s.0, s.1, m, names[1..], listener, target, normal, side, up, maxDist, last, cfg, scene, fuel)
  }

  /**
   scanCast from node `m`: when `Scan` ends in `Spawn`, exactly one child of
   the diffraction kind of `dirName`, at the clear point and with no hit
   collider, which then runs fireAt with the reduced budget, `dirName` as
   hint and the last collider hit; any other outcome changes nothing.
   */
  ghost function Scanned(nodes: Nodes<Segment>, next: nat, m: nat, listener: Vec3, target0: Vec3, direction: Vec3,
                         maxDist: real, dirName: string, lastHit0: Option<ColliderId>, cfg: Config, scene: Scene,
                         fuel: nat): (Nodes<Segment>, nat)
    decreases fuel, 1
  {
    if m !in nodes then (nodes, next)
    else
      var r := Scan(scene, nodes[m].value.origin, listener, Scale3(direction, cfg.rayResolution as real), maxDist,
                    target0, lastHit0, Iterations(cfg.collisionChecks));
      match r.end
      case Spawn(at, budget, lastHit) =>
        FiredChild(nodes, next, m, Segment(at, DiffractionKind(dirName), None), listener, budget, dirName, lastHit,
                   cfg, scene, fuel)
      case _ => (nodes, next)
  }

  /** Scanned when the scan spawns a diffraction segment, one step unfolded. */
  lemma ScannedSpawn(nodes: Nodes<Segment>, next: nat, m: nat, listener: Vec3, target0: Vec3, direction: Vec3,
                     maxDist: real, dirName: string, lastHit0: Option<ColliderId>, cfg: Config, scene: Scene,
                     fuel: nat, at: Vec3, budget: real, lastHit: Option<ColliderId>)
    requires m in nodes
    requires Scan(scene, nodes[m].value.origin, listener, Scale3(direction, cfg.rayResolution as real), maxDist,
                  target0, lastHit0, Iterations(cfg.collisionChecks)).end == Spawn(at, budget, lastHit)
    ensures Scanned(nodes, next, m, listener, target0, direction, maxDist, dirName, lastHit0, cfg, scene, fuel)
         == FiredChild(nodes, next, m, Segment(at, DiffractionKind(dirName), None), listener, budget, dirName,
                       lastHit, cfg, scene, fuel)
  {
  }

  /** Scanned when the scan spawns nothing: no change. */
  lemma ScannedIdle(nodes: Nodes<Segment>, next: nat, m: nat, listener: Vec3, target0: Vec3, direction: Vec3,
                    maxDist: real, dirName: string, lastHit0: Option<ColliderId>, cfg: Config, scene: Scene,
                    fuel: nat)
    requires m in nodes
    requires !Scan(scene, nodes[m].value.origin, listener, Scale3(direction, cfg.rayResolution as real), maxDist,
                   target0, lastHit0, Iterations(cfg.collisionChecks)).end.Spawn?
    ensures Scanned(nodes, next, m, listener, target0, direction, maxDist, dirName, lastHit0, cfg, scene, fuel)
         == (nodes, next)
  {
  }

  /**
   One accepted reflection: a REFLECTION child of `m` at the reflection
   point, off its collider, which then runs fireAt with the reflection's
   budget and hint and its collider as `lastHit`.
   */
  ghost function ReflectedOne(nodes: Nodes<Segment>, next: nat, m: nat, listener: Vec3, r: Reflection, cfg: Config,
                              scene: Scene, fuel: nat): (Nodes<Segment>, nat)
  {
    if m !in nodes then (nodes, next)
    else
      FiredChild(nodes, next, m, Segment(r.point, REFLECTION, Some(r.collider)), listener, r.budget, r.hint,
                 Some(r.collider), cfg, scene, fuel)
  }

  /** The reflections `rs`, in order, each as `ReflectedOne`. */
  ghost function ReflectedAll(nodes: Nodes<Segment>, next: nat, m: nat, listener: Vec3, rs: seq<Reflection>,
                              cfg: Config, scene: Scene, fuel: nat): (Nodes<Segment>, nat)
    decreases |rs|
  {
    if rs == [] then (nodes, next)
    else
      var s := ReflectedOne(nodes, next, m, listener, rs[0], cfg, scene, fuel);
      ReflectedAll(s.0, s.1, m, listener, rs[1..], cfg, scene, fuel)
  }

  /** Handling at most one reflection: `ReflectedOne` of it, or nothing. */
  lemma ReflectedAllOption(nodes: Nodes<Segment>, next: nat, m: nat, listener: Vec3, o: Option<Reflection>,
                           cfg: Config, scene: Scene, fuel: nat)
    ensures ReflectedAll(nodes, next, m, listener, AsSeq(o), cfg, scene, fuel)
         == if o.Some? then ReflectedOne(nodes, next, m, listener, o.value, cfg, scene, fuel) else (nodes, next)
  {
    if o.Some? {
      var s := ReflectedOne(nodes, next, m, listener, o.value, cfg, scene, fuel);
      assert ReflectedAll(s.0, s.1, m, listener, [], cfg, scene, fuel) == s;
    }
  }

  /** Handling `a + b` is handling `a`, then `b` from where `a` left the tree. */
  lemma {:induction false} ReflectedAllAppend(nodes: Nodes<Segment>, next: nat, m: nat, listener: Vec3,
                                              a: seq<Reflection>, b: seq<Reflection>, cfg: Config, scene: Scene,
                                              fuel: nat)
    ensures var s := ReflectedAll(nodes, next, m, listener, a, cfg, scene, fuel);
      ReflectedAll(nodes, next, m, listener, a + b, cfg, scene, fuel)
        == ReflectedAll(s.0, s.1, m, listener, b, cfg, scene, fuel)
    decreases |a|
  {
    if a == [] {
      assert a + b == b;
    } else {
      var s := ReflectedOne(nodes, next, m, listener, a[0], cfg, scene, fuel);
      assert (a + b)[0] == a[0] && (a + b)[1..] == a[1..] + b;
      ReflectedAllAppend(s.0, s.1, m, listener, a[1..], b, cfg, scene, fuel);
    }
  }

  /** The scan outcome of probe `name` from node `m`. */
  ghost function ProbeScan(nodes: Nodes<Segment>, m: nat, name: string, listener: Vec3, target: Vec3, normal: Vec3,
                           side: Vec3, up: Vec3, maxDist: real, last: Option<ColliderId>, cfg: Config,
                           scene: Scene): ScanEnd
    requires m in nodes
  {
    Scan(scene, nodes[m].value.origin, listener,
         Scale3(ProbeDirection(scene, name, normal, side, up), cfg.rayResolution as real), maxDist,
         target, last, Iterations(cfg.collisionChecks)).end
  }

  /** Probes whose scans all stay on the obstacle (or stop) leave the tree as it was. */
  lemma {:induction false} ProbedIdle(nodes: Nodes<Segment>, next: nat, m: nat, names: seq<string>, listener: Vec3,
                                      target: Vec3, normal: Vec3, side: Vec3, up: Vec3, maxDist: real,
                                      last: Option<ColliderId>, cfg: Config, scene: Scene, fuel: nat)
    requires m in nodes
    requires forall k :: 0 <= k < |names| ==>
      !ProbeScan(nodes, m, names[k], listener, target, normal, side, up, maxDist, last, cfg, scene).Spawn?
    ensures Probed(nodes, next, m, names, listener, target, normal, side, up, maxDist, last, cfg, scene, fuel)
         == (nodes, next)
    decreases |names|
  {
    if names != [] {
      assert !ProbeScan(nodes, m, names[0], listener, target, normal, side, up, maxDist, last, cfg, scene).Spawn?;
      ProbedIdle(nodes, next, m, names[1..], listener, target, normal, side, up, maxDist, last, cfg, scene, fuel);
    }
  }

  /**
   A fresh segment whose sight is blocked and whose every probe fails removes
   itself from the tree and leaves nothing behind.
   */
  lemma DeadEndRemoved(nodes: Nodes<Segment>, next: nat, m: nat, listener: Vec3, maxDist: real, direction: string,
                       lastHit: Option<ColliderId>, cfg: Config, scene: Scene, fuel: nat)
    requires WellFormed(nodes, next) && m in nodes && nodes[m].children == [] && fuel > 0
    requires scene.linecast(nodes[m].value.origin, listener).Some?
    requires var hit := scene.linecast(nodes[m].value.origin, listener).value;
      var frame := ImpactFrame(scene.maths, hit, listener);
      var names := Probes(EffectiveDirection(direction, cfg.fullPath, hit.collider, lastHit), cfg);
      forall k :: 0 <= k < |names| ==>
        !ProbeScan(nodes, m, names[k], listener, Sub3(hit.point, Scale3(hit.normal, 0.01)), hit.normal,
                   frame.0, frame.1, maxDist, Some(hit.collider), cfg, scene).Spawn?
    ensures Fired(nodes, next, m, listener, maxDist, direction, lastHit, cfg, scene, fuel)
         == (RemovedSelf(nodes, m), next)
  {
    var hit := scene.linecast(nodes[m].value.origin, listener).value;
    var frame := ImpactFrame(scene.maths, hit, listener);
    var names := Probes(EffectiveDirection(direction, cfg.fullPath, hit.collider, lastHit), cfg);
    ProbedIdle(nodes, next, m, names, listener, Sub3(hit.point, Scale3(hit.normal, 0.01)), hit.normal,
               frame.0, frame.1, maxDist, Some(hit.collider), cfg, scene, fuel - 1);
    UnlinkedIsRemovedSelf(nodes, next, m);
  }

  /** Fired with a blocked line of sight, one step unfolded. */
  lemma FiredBlocked(nodes: Nodes<Segment>, next: nat, m: nat, listener: Vec3, maxDist: real, direction: string,
                     lastHit: Option<ColliderId>, cfg: Config, scene: Scene, fuel: nat, hit: Hit,
                     s: (Nodes<Segment>, nat))
    requires fuel > 0 && m in nodes && scene.linecast(nodes[m].value.origin, listener) == Some(hit)
    requires var frame := ImpactFrame(scene.maths, hit, listener);
      s == Probed(nodes, next, m, Probes(EffectiveDirection(direction, cfg.fullPath, hit.collider, lastHit), cfg),
                  listener, Sub3(hit.point, Scale3(hit.normal, 0.01)), hit.normal, frame.0, frame.1,
                  maxDist, Some(hit.collider), cfg, scene, fuel - 1)
    ensures Fired(nodes, next, m, listener, maxDist, direction, lastHit, cfg, scene, fuel)
         == if m in s.0 && |s.0[m].children| == 0 then (Unlinked(s.0, m), s.1) else s
  {
  }

  /**
   fireAt(listener, maxDist, direction, lastHit) on the segment at node `m`:
   the tree becomes `Fired`, and only `m`, its parent and its children
   change among the old nodes.
   */
  method FireAt(t: Arena<Segment>, m: nat, listener: Vec3, maxDist: real, direction: string,
                lastHit: Option<ColliderId>, cfg: Config, scene: Scene, fuel: nat)
    requires t.Valid() && m in t.nodes
    modifies t
    decreases fuel, 0, 1
    ensures t.Valid()
    ensures FireAtFrame(old(t.nodes), old(t.next), t.nodes, t.next, m)
    ensures (t.nodes, t.next) == Fired(old(t.nodes), old(t.next), m, listener, maxDist, direction, lastHit,
                                      cfg, scene, fuel)
  {
    ghost var n0, x0 := t.nodes, t.next;
    if fuel == 0 {
      GrewAtRefl(n0, x0, m);
      GrewAtIsFrame(n0, x0, n0, x0, m);
      return;
    }
    var origin := t.nodes[m].value.origin;
    var sight := scene.linecast(origin, listener);
    if sight.Some? {
      FireBlocked(t, m, listener, maxDist, direction, lastHit, cfg, scene, fuel, sight.value);
    } else {
      FireClear(t, m, listener, maxDist, scene);
    }
  }

  /**
   The clear branch of fireAt: RemoveSelf beyond `maxDist`, a DIRECT child
   at the listener otherwise.
   */
  method FireClear(t: Arena<Segment>, m: nat, listener: Vec3, maxDist: real, scene: Scene)
    requires t.Valid() && m in t.nodes
    modifies t
    ensures t.Valid()
    ensures FireAtFrame(old(t.nodes), old(t.next), t.nodes, t.next, m)
    ensures (t.nodes, t.next) == ClearSight(old(t.nodes), old(t.next), m, listener, maxDist, scene.maths)
  {
    ghost var n0, x0 := t.nodes, t.next;
    ghost var goal := ClearSight(n0, x0, m, listener, maxDist, scene.maths);
    if Distance3(scene.maths, listener, t.nodes[m].value.origin) > maxDist {
      assert goal == (Unlinked(n0, m), x0);
      UnlinkedIsRemovedSelf(t.nodes, t.next, m);
      t.RemoveSelf(m);
      RemovedFrame(n0, x0, m);
      assert (t.nodes, t.next) == goal;
    } else {
      assert goal == (AddedChild(n0, m, x0, Segment(listener, DIRECT, None)), x0 + 1);
      var _ := t.AddChild(m, Segment(listener, DIRECT, None));
      AddedFrame(n0, x0, m, Segment(listener, DIRECT, None));
      assert (t.nodes, t.next) == goal;
    }
  }

  /**
   The blocked branch of fireAt: the probes from a centimetre inside the
   obstacle, then RemoveSelf when the segment is still childless.
   */
  method FireBlocked(t: Arena<Segment>, m: nat, listener: Vec3, maxDist: real, direction: string,
                     lastHit: Option<ColliderId>, cfg: Config, scene: Scene, fuel: nat, hit: Hit)
    requires t.Valid() && m in t.nodes && fuel > 0
    requires scene.linecast(t.nodes[m].value.origin, listener) == Some(hit)
    modifies t
    decreases fuel, 0, 0
    ensures t.Valid()
    ensures FireAtFrame(old(t.nodes), old(t.next), t.nodes, t.next, m)
    ensures (t.nodes, t.next) == Fired(old(t.nodes), old(t.next), m, listener, maxDist, direction, lastHit,
                                      cfg, scene, fuel)
  {
    ghost var n0, x0 := t.nodes, t.next;
    var dir := EffectiveDirection(direction, cfg.fullPath, hit.collider, lastHit);
    var last := Some(hit.collider);
    var target := Sub3(hit.point, Scale3(hit.normal, 0.01));
    var (side, up) := ImpactFrame(scene.maths, hit, listener);
    ProbeAll(t, m, dir, listener, target, hit.normal, side, up, maxDist, last, cfg, scene, fuel - 1);
    ghost var afterProbes := t.nodes;
    FiredBlocked(n0, x0, m, listener, maxDist, direction, lastHit, cfg, scene, fuel, hit, (t.nodes, t.next));
    if |t.nodes[m].children| == 0 {
      UnlinkedIsRemovedSelf(t.nodes, t.next, m);
      t.RemoveSelf(m);
      LeafRemovedFrame(n0, x0, afterProbes, t.next, m);
    } else {
      GrewAtIsFrame(n0, x0, afterProbes, t.next, m);
    }
  }

  /**
   The probe block of fireAt: the probes of `Probes` for the hint `dir`, in
   order, each from `target` in its direction of the impact frame.
   */
  method ProbeAll(t: Arena<Segment>, m: nat, dir: string, listener: Vec3, target: Vec3, normal: Vec3,
                  side: Vec3, up: Vec3, maxDist: real, last: Option<ColliderId>, cfg: Config,
                  scene: Scene, fuel: nat)
    requires t.Valid() && m in t.nodes
    modifies t
    decreases fuel, 3
    ensures t.Valid()
    ensures GrewAt(old(t.nodes), old(t.next), t.nodes, t.next, m)
    ensures (t.nodes, t.next) == Probed(old(t.nodes), old(t.next), m, Probes(dir, cfg), listener, target, normal,
                                       side, up, maxDist, last, cfg, scene, fuel)
  {
    ghost var n0, x0 := t.nodes, t.next;
    ghost var goal := Probed(n0, x0, m, Probes(dir, cfg), listener, target, normal, side, up, maxDist, last,
                             cfg, scene, fuel);
    ghost var todo := Probes(dir, cfg);
    GrewAtRefl(n0, x0, m);
    if dir == "" {
      ProbeWithoutHint(t, m, listener, target, normal, side, up, maxDist, last, cfg, scene, fuel);
      return;
    } else if dir == "right" && cfg.sidewaysDiffraction {
      todo := DiffractNext(t, m, todo, "right", listener, target, normal, side, up, maxDist, last, cfg, scene,
                           fuel, n0, x0, goal);
    } else if dir == "left" && cfg.sidewaysDiffraction {
      todo := DiffractNext(t, m, todo, "left", listener, target, normal, side, up, maxDist, last, cfg, scene,
                           fuel, n0, x0, goal);
    } else if dir == "up" {
      todo := DiffractNext(t, m, todo, "up", listener, target, normal, side, up, maxDist, last, cfg, scene,
                           fuel, n0, x0, goal);
    } else if dir == "down" && cfg.downwardDiffraction {
      todo := DiffractNext(t, m, todo, "down", listener, target, normal, side, up, maxDist, last, cfg, scene,
                           fuel, n0, x0, goal);
    }
    assert todo == [];
  }

  /** The probe block of fireAt without a hint: right and left, up, then down, as configured. */
  method ProbeWithoutHint(t: Arena<Segment>, m: nat, listener: Vec3, target: Vec3, normal: Vec3,
                          side: Vec3, up: Vec3, maxDist: real, last: Option<ColliderId>, cfg: Config,
                          scene: Scene, fuel: nat)
    requires t.Valid() && m in t.nodes
    modifies t
    decreases fuel, 3, 0
    ensures t.Valid()
    ensures GrewAt(old(t.nodes), old(t.next), t.nodes, t.next, m)
    ensures (t.nodes, t.next) == Probed(old(t.nodes), old(t.next), m, Probes("", cfg), listener, target, normal,
                                       side, up, maxDist, last, cfg, scene, fuel)
  {
    ghost var n0, x0 := t.nodes, t.next;
    ghost var goal := Probed(n0, x0, m, Probes("", cfg), listener, target, normal, side, up, maxDist, last,
                             cfg, scene, fuel);
    ghost var todo := Probes("", cfg);
    GrewAtRefl(n0, x0, m);
    ProbesWithoutHint(cfg);
    if cfg.sidewaysDiffraction {
      todo := DiffractNext(t, m, todo, "right", listener, target, normal, side, up, maxDist, last, cfg, scene,
                           fuel, n0, x0, goal);
      todo := DiffractNext(t, m, todo, "left", listener, target, normal, side, up, maxDist, last, cfg, scene,
                           fuel, n0, x0, goal);
    }
    ProbeVertical(t, m, todo, listener, target, normal, side, up, maxDist, last, cfg, scene, fuel, n0, x0, goal);
  }

  /** The last probes of the block without a hint: up, then down when configured. */
  method ProbeVertical(t: Arena<Segment>, m: nat, ghost todo0: seq<string>, listener: Vec3, target: Vec3,
                       normal: Vec3, side: Vec3, up: Vec3, maxDist: real, last: Option<ColliderId>, cfg: Config,
                       scene: Scene, fuel: nat, ghost n0: Nodes<Segment>, ghost x0: nat,
                       ghost goal: (Nodes<Segment>, nat))
    requires t.Valid() && m in t.nodes && GrewAt(n0, x0, t.nodes, t.next, m)
    requires todo0 == ["up"] + (if cfg.downwardDiffraction then ["down"] else [])
    requires Probed(t.nodes, t.next, m, todo0, listener, target, normal, side, up, maxDist, last, cfg, scene, fuel)
          == goal
    modifies t
    decreases fuel, 3, 0, 0
    ensures t.Valid() && GrewAt(n0, x0, t.nodes, t.next, m)
    ensures (t.nodes, t.next) == goal
  {
    var todo := DiffractNext(t, m, todo0, "up", listener, target, normal, side, up, maxDist, last, cfg, scene,
                             fuel, n0, x0, goal);
    if cfg.downwardDiffraction {
      todo := DiffractNext(t, m, todo, "down", listener, target, normal, side, up, maxDist, last, cfg, scene,
                           fuel, n0, x0, goal);
    }
    assert todo == [];
  }

  /**
   One probe of the probe block: `name` must be the next of the probes still
   to run; the call moves it from what is left to what was done.
   */
  method DiffractNext(t: Arena<Segment>, m: nat, ghost todo0: seq<string>, name: string, listener: Vec3,
                      target: Vec3, normal: Vec3, side: Vec3, up: Vec3, maxDist: real, last: Option<ColliderId>,
                      cfg: Config, scene: Scene, fuel: nat,
                      ghost n0: Nodes<Segment>, ghost x0: nat, ghost goal: (Nodes<Segment>, nat))
    returns (ghost todo: seq<string>)
    requires t.Valid() && m in t.nodes && GrewAt(n0, x0, t.nodes, t.next, m)
    requires todo0 != [] && todo0[0] == name
    requires Probed(t.nodes, t.next, m, todo0, listener, target, normal, side, up, maxDist, last, cfg, scene, fuel)
          == goal
    modifies t
    decreases fuel, 2
    ensures t.Valid() && GrewAt(n0, x0, t.nodes, t.next, m)
    ensures todo == todo0[1..]
    ensures Probed(t.nodes, t.next, m, todo, listener, target, normal, side, up, maxDist, last, cfg, scene, fuel)
         == goal
  {
    ghost var before, nb := t.nodes, t.next;
    Diffract(t, m, name, listener, target, normal, side, up, maxDist, last, cfg, scene, fuel);
    GrewAtTrans(n0, x0, before, nb, t.nodes, t.next, m);
    todo := todo0[1..];
  }

  /**
   One probe of fireAt: scanCast in the direction of probe `name` of the
   impact frame, with `name` as the direction hint of any child.
   */
  method Diffract(t: Arena<Segment>, m: nat, name: string, listener: Vec3, target: Vec3, normal: Vec3,
                  side: Vec3, up: Vec3, maxDist: real, lastHit: Option<ColliderId>, cfg: Config,
                  scene: Scene, fuel: nat)
    requires t.Valid() && m in t.nodes
    modifies t
    decreases fuel, 1, 2
    ensures t.Valid()
    ensures GrewAt(old(t.nodes), old(t.next), t.nodes, t.next, m)
    ensures (t.nodes, t.next) == Scanned(old(t.nodes), old(t.next), m, listener, target,
                                        ProbeDirection(scene, name, normal, side, up), maxDist, name, lastHit,
                                        cfg, scene, fuel)
  {
    ScanCast(t, m, listener, target, ProbeDirection(scene, name, normal, side, up),
             maxDist, name, lastHit, cfg, scene, fuel);
  }

  /**
   scanCast: step the target along `direction` (rayResolution units per
   step, at most collisionChecks steps) until the line of sight from the
   segment's origin is clear, as `Scan` describes; the tree becomes
   `Scanned`.
   */
  method ScanCast(t: Arena<Segment>, m: nat, listener: Vec3, target0: Vec3, direction: Vec3, maxDist: real,
                  dirName: string, lastHit0: Option<ColliderId>, cfg: Config, scene: Scene, fuel: nat)
    requires t.Valid() && m in t.nodes
    modifies t
    decreases fuel, 1, 1
    ensures t.Valid()
    ensures GrewAt(old(t.nodes), old(t.next), t.nodes, t.next, m)
    ensures (t.nodes, t.next) == Scanned(old(t.nodes), old(t.next), m, listener, target0, direction, maxDist,
                                        dirName, lastHit0, cfg, scene, fuel)
  {
    var origin := t.nodes[m].value.origin;
    var outcome := ScanSteps(scene, origin, listener, Scale3(direction, cfg.rayResolution as real), maxDist,
                             target0, lastHit0, cfg.collisionChecks);
    if outcome.Spawn? {
      ScanSpawn(t, m, listener, target0, direction, maxDist, dirName, lastHit0, cfg, scene, fuel,
                outcome.at, outcome.budget, outcome.lastHit);
    } else {
      ScannedIdle(t.nodes, t.next, m, listener, target0, direction, maxDist, dirName, lastHit0, cfg, scene, fuel);
      GrewAtRefl(t.nodes, t.next, m);
    }
  }

  /** The clear probe of scanCast that starts a diffraction segment: the tree becomes `Scanned`. */
  method ScanSpawn(t: Arena<Segment>, m: nat, listener: Vec3, target0: Vec3, direction: Vec3, maxDist: real,
                   dirName: string, lastHit0: Option<ColliderId>, cfg: Config, scene: Scene, fuel: nat,
                   at: Vec3, budget: real, lastHit: Option<ColliderId>)
    requires t.Valid() && m in t.nodes
    requires Scan(scene, t.nodes[m].value.origin, listener, Scale3(direction, cfg.rayResolution as real), maxDist,
                  target0, lastHit0, Iterations(cfg.collisionChecks)).end == Spawn(at, budget, lastHit)
    modifies t
    decreases fuel, 1, 0, 1
    ensures t.Valid()
    ensures GrewAt(old(t.nodes), old(t.next), t.nodes, t.next, m)
    ensures (t.nodes, t.next) == Scanned(old(t.nodes), old(t.next), m, listener, target0, direction, maxDist,
                                        dirName, lastHit0, cfg, scene, fuel)
  {
    var seg := Segment(at, DiffractionKind(dirName), None);
    ghost var goal := Scanned(t.nodes, t.next, m, listener, target0, direction, maxDist, dirName, lastHit0,
                              cfg, scene, fuel);
    ghost var fired := FiredChild(t.nodes, t.next, m, seg, listener, budget, dirName, lastHit, cfg, scene, fuel);
    ScannedSpawn(t.nodes, t.next, m, listener, target0, direction, maxDist, dirName, lastHit0, cfg, scene, fuel,
                 at, budget, lastHit);
    assert goal == fired;
    Spawned(t, m, listener, seg, budget, dirName, lastHit, cfg, scene, fuel);
    assert (t.nodes, t.next) == fired;
  }

  /**
   The loop of scanCast up to its first clear probe: it moves the target
   and tests the line of sight, and returns how the scan ended; the tree is
   not touched before that point.
   */
  method ScanSteps(scene: Scene, origin: Vec3, listener: Vec3, step: Vec3, maxDist: real, target0: Vec3,
                   lastHit0: Option<ColliderId>, collisionChecks: int)
    returns (outcome: ScanEnd)
    ensures outcome == Scan(scene, origin, listener, step, maxDist, target0, lastHit0, Iterations(collisionChecks)).end
  {
    var target := target0;
    var lastHit := lastHit0;
    var i := 0;
    while i < collisionChecks
      invariant 0 <= i <= Iterations(collisionChecks)
      invariant Scan(scene, origin, listener, step, maxDist, target0, lastHit0, Iterations(collisionChecks)).end
             == Scan(scene, origin, listener, step, maxDist, target, lastHit, Iterations(collisionChecks) - i).end
    {
      ghost var before := target;
      target := Add3(target, step);
      var hit := scene.linecast(origin, target);
      if hit.None? {
        ScanEndClear(scene, origin, listener, step, maxDist, before, lastHit, Iterations(collisionChecks) - i);
        var budget := maxDist - Distance3(scene.maths, origin, target);
        if budget < 0.0 {
          return OverBudget;
        }
        if Distance3(scene.maths, listener, origin) < Distance3(scene.maths, listener, target) {
          return Receding;
        }
        return Spawn(target, budget, lastHit);
      }
      ScanEndBlocked(scene, origin, listener, step, maxDist, before, lastHit, Iterations(collisionChecks) - i);
      lastHit := Some(hit.value.collider);
      i := i + 1;
    }
    outcome := Blocked;
  }

  /**
   A new segment `seg` below `m` that goes on with fireAt: the nextSegment
   of scanCast and reflectToward.
   */
  method Spawned(t: Arena<Segment>, m: nat, listener: Vec3, seg: Segment, budget: real, hint: string,
                 lastHit: Option<ColliderId>, cfg: Config, scene: Scene, fuel: nat)
    requires t.Valid() && m in t.nodes
    modifies t
    decreases fuel, 1, 0, 0
    ensures t.Valid() && GrewAt(old(t.nodes), old(t.next), t.nodes, t.next, m)
    ensures (t.nodes, t.next) == FiredChild(old(t.nodes), old(t.next), m, seg, listener, budget, hint, lastHit,
                                           cfg, scene, fuel)
  {
    ghost var a, na := t.nodes, t.next;
    AddedChildWellFormed(a, na, m, seg);
    var c := t.AddChild(m, seg);
    FireChild(t, c, a, na, m, seg, listener, budget, hint, lastHit, cfg, scene, fuel);
  }

  /** The fireAt of a child that was just added to `m` with value `seg`. */
  method FireChild(t: Arena<Segment>, c: nat, ghost a: Nodes<Segment>, ghost na: nat, m: nat, seg: Segment,
                   listener: Vec3, budget: real, hint: string,
                   lastHit: Option<ColliderId>, cfg: Config, scene: Scene, fuel: nat)
    requires WellFormed(a, na) && m in a && c == na
    requires t.Valid() && t.nodes == AddedChild(a, m, na, seg) && t.next == na + 1
    modifies t
    decreases fuel, 0, 2
    ensures t.Valid() && GrewAt(a, na, t.nodes, t.next, m)
    ensures (t.nodes, t.next) == FiredChild(a, na, m, seg, listener, budget, hint, lastHit, cfg, scene, fuel)
  {
    ghost var b := t.nodes;
    FireAt(t, c, listener, budget, hint, lastHit, cfg, scene, fuel);
    FiredChildAfter(a, na, m, seg, b, listener, budget, hint, lastHit, cfg, scene, fuel, (t.nodes, t.next));
    SpawnedChildGrew(a, na, m, seg, t.nodes, t.next);
  }

  /**
   reflectToward(listener, maxDistance) on the segment at node `m`: sweep
   two rays, one turning each way about the axis of the plane through the
   segment's origin and the listener, for reflectionAngle * angleSteps
   iterations; the tree becomes `ReflectedAll` of the reflections `Sweep`
   accepts, in order, and nothing else. With angleSteps 0 the integer
   division throws before anything happens: `ok` is false and nothing
   changes. The product is taken on unbounded integers, without C#'s 32-bit
   wrap-around.
   */
  method ReflectToward(t: Arena<Segment>, m: nat, listener: Vec3, maxDistance: real, cfg: Config,
                       scene: Scene, fuel: nat)
    returns (ok: bool)
    requires t.Valid() && m in t.nodes
    modifies t
    ensures t.Valid()
    ensures GrewAt(old(t.nodes), old(t.next), t.nodes, t.next, m)
    ensures ok <==> cfg.angleSteps != 0
    ensures !ok ==> t.nodes == old(t.nodes) && t.next == old(t.next)
    ensures ok ==>
      var origin := old(t.nodes)[m].value.origin;
      var toward := Sub3(listener, origin);
      (t.nodes, t.next)
        == ReflectedAll(old(t.nodes), old(t.next), m, listener,
                        Sweep(scene, cfg, origin, listener, SweepAxis(scene.maths, toward), maxDistance,
                              toward, toward, Iterations(cfg.reflectionAngle * cfg.angleSteps)),
                        cfg, scene, fuel)
  {
    GrewAtRefl(t.nodes, t.next, m);
    var origin := t.nodes[m].value.origin;
    var directionRight := Sub3(listener, origin);
    var directionLeft := Sub3(listener, origin);
    var axis := SweepAxis(scene.maths, directionRight);
    if cfg.angleSteps == 0 {
      return false;
    }
    ok := true;
    var rightStep := SweepStep(cfg.angleSteps, 1) as real;
    var leftStep := SweepStep(cfg.angleSteps, -1) as real;
    SweepLoop(t, m, listener, origin, axis, rightStep, leftStep, maxDistance,
              cfg.reflectionAngle * cfg.angleSteps, cfg, scene, fuel);
  }

  /**
   The loop of reflectToward: `n` iterations of `SweepIteration`, starting
   with both rays pointing from the segment's origin to the listener.
   */
  method SweepLoop(t: Arena<Segment>, m: nat, listener: Vec3, origin: Vec3, axis: Vec3,
                   rightStep: real, leftStep: real, maxDistance: real, n: int,
                   cfg: Config, scene: Scene, fuel: nat)
    requires cfg.angleSteps != 0
    requires rightStep == SweepStep(cfg.angleSteps, 1) as real && leftStep == SweepStep(cfg.angleSteps, -1) as real
    requires t.Valid() && m in t.nodes && t.nodes[m].value.origin == origin
    modifies t
    ensures t.Valid() && GrewAt(old(t.nodes), old(t.next), t.nodes, t.next, m)
    ensures (t.nodes, t.next)
         == ReflectedAll(old(t.nodes), old(t.next), m, listener,
                         Sweep(scene, cfg, origin, listener, axis, maxDistance,
                               Sub3(listener, origin), Sub3(listener, origin), Iterations(n)),
                         cfg, scene, fuel)
  {
    ghost var n0, x0 := t.nodes, t.next;
    GrewAtRefl(n0, x0, m);
    var directionRight := Sub3(listener, origin);
    var directionLeft := Sub3(listener, origin);
    ghost var total := Sweep(scene, cfg, origin, listener, axis, maxDistance, directionRight, directionLeft,
                             Iterations(n));
    ghost var left: nat := Iterations(n);
    ghost var found: seq<Reflection> := [];
    var i := 0;
    while i < n
      invariant 0 <= i <= Iterations(n) && left == Iterations(n) - i
      invariant t.Valid() && GrewAt(n0, x0, t.nodes, t.next, m) && t.nodes[m].value.origin == origin
      invariant found + Sweep(scene, cfg, origin, listener, axis, maxDistance, directionRight, directionLeft, left)
             == total
      invariant (t.nodes, t.next) == ReflectedAll(n0, x0, m, listener, found, cfg, scene, fuel)
    {
      left := left - 1;
      directionRight, directionLeft, found :=
        SweepNext(t, m, listener, origin, axis, directionRight, directionLeft, rightStep, leftStep, maxDistance,
                  cfg, scene, fuel, n0, x0, left, found, total);
      i := i + 1;
    }
    assert left == 0;
    assert found + [] == total && found + [] == found;
  }

  /**
   One turn of the sweep loop: the two rays turned once more, and the tree
   grown by the reflections they find, which follow `found0` in the sweep.
   */
  method SweepNext(t: Arena<Segment>, m: nat, listener: Vec3, origin: Vec3, axis: Vec3,
                   right0: Vec3, left0: Vec3, rightStep: real, leftStep: real, maxDistance: real,
                   cfg: Config, scene: Scene, fuel: nat, ghost n0: Nodes<Segment>, ghost x0: nat,
                   ghost remaining: nat, ghost found0: seq<Reflection>, ghost total: seq<Reflection>)
    returns (right: Vec3, left: Vec3, ghost found: seq<Reflection>)
    requires cfg.angleSteps != 0
    requires rightStep == SweepStep(cfg.angleSteps, 1) as real && leftStep == SweepStep(cfg.angleSteps, -1) as real
    requires t.Valid() && m in t.nodes && t.nodes[m].value.origin == origin && GrewAt(n0, x0, t.nodes, t.next, m)
    requires found0 + Sweep(scene, cfg, origin, listener, axis, maxDistance, right0, left0, remaining + 1) == total
    requires (t.nodes, t.next) == ReflectedAll(n0, x0, m, listener, found0, cfg, scene, fuel)
    modifies t
    ensures t.Valid() && GrewAt(n0, x0, t.nodes, t.next, m) && t.nodes[m].value.origin == origin
    ensures found + Sweep(scene, cfg, origin, listener, axis, maxDistance, right, left, remaining) == total
    ensures (t.nodes, t.next) == ReflectedAll(n0, x0, m, listener, found, cfg, scene, fuel)
  {
    ghost var before, nb := t.nodes, t.next;
    right, left := SweepIteration(t, m, listener, origin, axis, right0, left0, rightStep, leftStep, maxDistance,
                                  cfg, scene, fuel);
    GrewAtTrans(n0, x0, before, nb, t.nodes, t.next, m);
    ghost var pair := SweepPair(scene, cfg, origin, listener, axis, maxDistance, right, left);
    found := found0 + pair;
    SweepAdvance(scene, cfg, origin, listener, axis, maxDistance, right0, left0, right, left,
                 remaining, found0, found, total);
    ReflectedAllAppend(n0, x0, m, listener, found0, pair, cfg, scene, fuel);
  }

  /** One iteration of the sweep moves its pair of reflections from what is left to what was found. */
  lemma SweepAdvance(scene: Scene, cfg: Config, origin: Vec3, listener: Vec3, axis: Vec3, maxDistance: real,
                     right0: Vec3, left0: Vec3, right: Vec3, left: Vec3, remaining: nat,
                     found0: seq<Reflection>, found: seq<Reflection>, total: seq<Reflection>)
    requires cfg.angleSteps != 0
    requires right == scene.rotate(SweepStep(cfg.angleSteps, 1) as real, axis, right0)
    requires left == scene.rotate(SweepStep(cfg.angleSteps, -1) as real, axis, left0)
    requires found0 + Sweep(scene, cfg, origin, listener, axis, maxDistance, right0, left0, remaining + 1) == total
    requires found == found0 + SweepPair(scene, cfg, origin, listener, axis, maxDistance, right, left)
    ensures found + Sweep(scene, cfg, origin, listener, axis, maxDistance, right, left, remaining) == total
  {
    var pair := SweepPair(scene, cfg, origin, listener, axis, maxDistance, right, left);
    var rest := Sweep(scene, cfg, origin, listener, axis, maxDistance, right, left, remaining);
    SweepUnfold(scene, cfg, origin, listener, axis, maxDistance, right0, left0, remaining);
    AppendAssoc(found0, pair, rest);
  }

  /**
   One iteration of the sweep: turn the right ray and cast it, then turn
   the left ray and cast it.
   */
  method SweepIteration(t: Arena<Segment>, m: nat, listener: Vec3, origin: Vec3, axis: Vec3,
                        right0: Vec3, left0: Vec3, rightStep: real, leftStep: real, maxDistance: real,
                        cfg: Config, scene: Scene, fuel: nat)
    returns (right: Vec3, left: Vec3)
    requires t.Valid() && m in t.nodes && t.nodes[m].value.origin == origin
    modifies t
    ensures t.Valid() && GrewAt(old(t.nodes), old(t.next), t.nodes, t.next, m)
    ensures t.nodes[m].value.origin == origin
    ensures right == scene.rotate(rightStep, axis, right0) && left == scene.rotate(leftStep, axis, left0)
    ensures (t.nodes, t.next)
         == ReflectedAll(old(t.nodes), old(t.next), m, listener,
                         SweepPair(scene, cfg, origin, listener, axis, maxDistance, right, left), cfg, scene, fuel)
  {
    ghost var n0, x0 := t.nodes, t.next;
    right := scene.rotate(rightStep, axis, right0);
    SweepRay(t, m, listener, origin, axis, right, "right", maxDistance, cfg, scene, fuel);
    ghost var mid, nm := t.nodes, t.next;
    left := scene.rotate(leftStep, axis, left0);
    SweepRay(t, m, listener, origin, axis, left, "left", maxDistance, cfg, scene, fuel);
    GrewAtTrans(n0, x0, mid, nm, t.nodes, t.next, m);
    ReflectedAllAppend(n0, x0, m, listener,
                       AsSeq(SpecularProbe(scene, cfg, origin, listener, axis, maxDistance, right, "right")),
                       AsSeq(SpecularProbe(scene, cfg, origin, listener, axis, maxDistance, left, "left")),
                       cfg, scene, fuel);
  }

  /**
   One ray of the sweep: cast it, and on a specular hit add the reflection
   child (see `Reflected`).
   */
  method SweepRay(t: Arena<Segment>, m: nat, listener: Vec3, origin: Vec3, axis: Vec3, direction: Vec3,
                  hint: string, maxDistance: real, cfg: Config, scene: Scene, fuel: nat)
    requires t.Valid() && m in t.nodes && t.nodes[m].value.origin == origin
    modifies t
    ensures t.Valid() && GrewAt(old(t.nodes), old(t.next), t.nodes, t.next, m)
    ensures t.nodes[m].value.origin == origin
    ensures (t.nodes, t.next)
         == ReflectedAll(old(t.nodes), old(t.next), m, listener,
                         AsSeq(SpecularProbe(scene, cfg, origin, listener, axis, maxDistance, direction, hint)),
                         cfg, scene, fuel)
  {
    GrewAtRefl(t.nodes, t.next, m);
    ReflectedAllOption(t.nodes, t.next, m, listener,
                       SpecularProbe(scene, cfg, origin, listener, axis, maxDistance, direction, hint), cfg, scene, fuel);
    var hitOpt := scene.raycast(origin, direction, cfg.maximumDistance);
    if hitOpt.Some? {
      var hit := hitOpt.value;
      var reflectionPoint := Add3(hit.point, Scale3(hit.normal, 0.01));
      if AbsReal(scene.signedAngle(hit.normal, Sub3(hit.point, origin), axis)
                 + scene.signedAngle(hit.normal, Sub3(hit.point, listener), axis)) <= cfg.specularTolerance {
        var budget := maxDistance - Distance3(scene.maths, origin, hit.point);
        Reflected(t, m, listener, reflectionPoint, hit.collider, budget, hint, cfg, scene, fuel);
      }
    }
  }

  /**
   One accepted reflection of the sweep: a REFLECTION child of `m` at the
   reflection point, off `collider`, which then runs fireAt with `budget`
   and the direction hint `hint`.
   */
  method Reflected(t: Arena<Segment>, m: nat, listener: Vec3, point: Vec3, collider: ColliderId, budget: real,
                   hint: string, cfg: Config, scene: Scene, fuel: nat)
    requires t.Valid() && m in t.nodes
    modifies t
    ensures t.Valid() && GrewAt(old(t.nodes), old(t.next), t.nodes, t.next, m)
    ensures t.nodes[m].value == old(t.nodes[m].value)
    ensures (t.nodes, t.next)
         == ReflectedOne(old(t.nodes), old(t.next), m, listener, Reflection(point, collider, budget, hint),
                         cfg, scene, fuel)
  {
    Spawned(t, m, listener, Segment(point, REFLECTION, Some(collider)), budget, hint, Some(collider), cfg, scene, fuel);
  }
}
