/**
 Unity/NMBP2008.cs, the propagation side: `calculateNoise` walks the path
 tree that NoiseSource built, from the source node down to every DIRECT
 leaf. Each segment is discretised into 1 m steps over the flattened
 (x, z) ground plane (`pathFromTo`); at a DIRECT leaf the accumulated steps
 become one image source per path (`createImage`), with a level for every
 octave band of the vehicle's emission.

 As in the source, ONE step list is shared by the whole traversal: every
 segment appends to it and nothing removes from it, so the image of a later
 leaf is computed over the steps of every path visited before it.
 Exceptions thrown by the attenuation terms abort the whole calculation
 and are modelled as a failed (`None`) outcome.
 */
module Propagation {
  import opened Common
  import opened RoseTree
  import PathTree
  import opened Attenuation
  import opened Images

  /**
   What the calculation reads besides the tree: Unity's scene, the
   controller's settings, the vehicle's emission per octave band (at the
   controller's temperature) and the listener's position.
   */
  datatype Env = Env(scene: PathTree.Scene, cfg: PathTree.Config, emission: map<int, real>, listener: Vec3)

  // ---------------------------------------------------------------------
  // One segment: the 1 m walk of pathFromTo
  // ---------------------------------------------------------------------

  /**
   The geometry of a segment from `origin` to the next node: the flattened
   start, the 3D and 2D directions (normalized) and the 3D and 2D lengths.
   */
  datatype Leg = Leg(origin: Vec3, start2D: Vec3, dir: Vec3, dir2D: Vec3, dist: real, dist2D: real)

  function LegOf(m: Maths, a: Vec3, b: Vec3): Leg
  {
    var start2D, end2D := Flat(a), Flat(b);
    Leg(a, start2D, Normalized3(m, Sub3(b, a)), Normalized3(m, Sub3(end2D, start2D)),
        Distance3(m, a, b), Distance3(m, start2D, end2D))
  }

  /**
   The 3D point of the walk at ground distance `i`: the fraction of the
   flattened segment covered so far, applied along the 3D segment.
   */
  function WalkPoint(m: Maths, leg: Leg, i: real): Vec3
  {
    var point2D := Add3(leg.start2D, Scale3(leg.dir2D, i));
    var fraction := Div(Distance3(m, leg.start2D, point2D), leg.dist2D);
    Add3(leg.origin, Scale3(leg.dir, leg.dist * fraction))
  }

  /** The number of walk iterations left from `i`, as a termination measure. */
  function StepsLeft(leg: Leg, i: real): nat
  {
    if i < leg.dist2D then (leg.dist2D - i).Floor + 1 else 0
  }

  /**
   The outcome of walking a segment: the steps appended, the distance
   carried over to the next segment, and whether the walk reached the end
   (a missing ground hit abandons the path; the steps taken so far stay).
   */
  datatype Walk = Walk(steps: seq<Step>, carry: real, reached: bool)

  /**
   The walk from ground distance `i` with the carry `carry`: one step per
   metre while `i` is below the 2D length, each classified against the
   segment's first step at `prevDist + remaining`; the iteration that
   takes the walk past the end records `1 - (dist2D - i)` as the carry.
   */
  function WalkFrom(env: Env, leg: Leg, prevDist: real, remaining: real, startKind: PathTree.HitType,
                    i: real, carry: real): Walk
    decreases StepsLeft(leg, i)
  {
    if i >= leg.dist2D then Walk([], carry, true)
    else
      var hit := env.scene.groundcast(WalkPoint(env.scene.maths, leg, i));
      if hit.None? then Walk([], carry, false)
      else
        var step := Step(prevDist + i, hit.value.point.y, hit.value.distance,
                         Classify(prevDist + i, prevDist, remaining, startKind));
        var carry' := if i + 1.0 >= leg.dist2D then 1.0 - (leg.dist2D - i) else carry;
        var rest := WalkFrom(env, leg, prevDist, remaining, startKind, i + 1.0, carry');
        Walk([step] + rest.steps, rest.carry, rest.reached)
  }

  /**
   One step of the walk at `i`, where the ground is hit: `found` followed by
   the walk from `i` is `found` plus that step followed by the walk from
   `i + 1`, with the same carry and outcome.
   */
  lemma WalkAdvance(env: Env, leg: Leg, prevDist: real, remaining: real, startKind: PathTree.HitType,
                    i: real, carry: real, carry': real, step: Step, found: seq<Step>, total: seq<Step>)
    requires i < leg.dist2D && carry == remaining
    requires carry' == if i + 1.0 >= leg.dist2D then 1.0 - (leg.dist2D - i) else carry
    requires var hit := env.scene.groundcast(WalkPoint(env.scene.maths, leg, i));
      hit.Some? && step == Step(prevDist + i, hit.value.point.y, hit.value.distance,
                                Classify(prevDist + i, prevDist, carry, startKind))
    requires found + WalkFrom(env, leg, prevDist, remaining, startKind, i, carry).steps == total
    ensures var now := WalkFrom(env, leg, prevDist, remaining, startKind, i, carry);
      var rest := WalkFrom(env, leg, prevDist, remaining, startKind, i + 1.0, carry');
      && (found + [step]) + rest.steps == total
      && rest.carry == now.carry && rest.reached == now.reached
  {
    var rest := WalkFrom(env, leg, prevDist, remaining, startKind, i + 1.0, carry');
    assert WalkFrom(env, leg, prevDist, remaining, startKind, i, carry).steps == [step] + rest.steps;
    AppendAssoc(found, [step], rest.steps);
  }

  /** The walk of a whole segment, which starts at the carried-over distance. */
  function SegmentWalk(env: Env, leg: Leg, prevDist: real, remaining: real, startKind: PathTree.HitType): Walk
  {
    WalkFrom(env, leg, prevDist, remaining, startKind, remaining, remaining)
  }

  /**
   The walk's steps are 1 m apart: the k-th lies at `prevDist + i + k`,
   strictly before the segment's end at `prevDist + dist2D`.
   */
  lemma {:induction false} WalkSpacing(env: Env, leg: Leg, prevDist: real, remaining: real,
                                       startKind: PathTree.HitType, i: real, carry: real, k: nat)
    requires k < |WalkFrom(env, leg, prevDist, remaining, startKind, i, carry).steps|
    ensures WalkFrom(env, leg, prevDist, remaining, startKind, i, carry).steps[k].distance == prevDist + i + k as real
    ensures WalkFrom(env, leg, prevDist, remaining, startKind, i, carry).steps[k].distance < prevDist + leg.dist2D
    decreases StepsLeft(leg, i)
  {
    if k > 0 {
      var carry' := if i + 1.0 >= leg.dist2D then 1.0 - (leg.dist2D - i) else carry;
      WalkSpacing(env, leg, prevDist, remaining, startKind, i + 1.0, carry', k - 1);
    }
  }

  /**
   The carry: a walk that starts at or past the end takes no step and keeps
   its carry; a walk that reaches the end after at least one step carries a
   distance in [0, 1), chosen so that the next step (of the next segment,
   or the listener step) lies exactly 1 m after the last one.
   */
  lemma {:induction false} WalkCarry(env: Env, leg: Leg, prevDist: real, remaining: real,
                                     startKind: PathTree.HitType, i: real, carry: real)
    ensures i >= leg.dist2D ==> WalkFrom(env, leg, prevDist, remaining, startKind, i, carry) == Walk([], carry, true)
    ensures (WalkFrom(env, leg, prevDist, remaining, startKind, i, carry).reached
             && |WalkFrom(env, leg, prevDist, remaining, startKind, i, carry).steps| > 0) ==>
      var w := WalkFrom(env, leg, prevDist, remaining, startKind, i, carry);
      0.0 <= w.carry < 1.0 && w.steps[|w.steps| - 1].distance + 1.0 == prevDist + leg.dist2D + w.carry
    decreases StepsLeft(leg, i)
  {
    var w := WalkFrom(env, leg, prevDist, remaining, startKind, i, carry);
    if i < leg.dist2D && env.scene.groundcast(WalkPoint(env.scene.maths, leg, i)).Some? {
      var carry' := if i + 1.0 >= leg.dist2D then 1.0 - (leg.dist2D - i) else carry;
      var rest := WalkFrom(env, leg, prevDist, remaining, startKind, i + 1.0, carry');
      WalkCarry(env, leg, prevDist, remaining, startKind, i + 1.0, carry');
      if |rest.steps| > 0 {
        assert w.steps[|w.steps| - 1] == rest.steps[|rest.steps| - 1];
      }
    }
  }

  /**
   Only a segment's first step carries the edge its start node stands
   for (a non-negative start distance never meets 0 again): every later
   step of the walk is plain propagation.
   */
  lemma {:induction false} WalkKinds(env: Env, leg: Leg, prevDist: real, remaining: real,
                                     startKind: PathTree.HitType)
    requires prevDist >= 0.0 && remaining >= 0.0
    ensures var w := SegmentWalk(env, leg, prevDist, remaining, startKind);
      && (|w.steps| > 0 ==> w.steps[0].kind == Classify(prevDist + remaining, prevDist, remaining, startKind))
      && forall k :: 1 <= k < |w.steps| ==> w.steps[k].kind == Propagation
  {
    var w := SegmentWalk(env, leg, prevDist, remaining, startKind);
    forall k | 0 <= k < |w.steps|
      ensures w.steps[k].kind == Classify(prevDist + remaining + k as real, prevDist, remaining, startKind)
    {
      WalkClassified(env, leg, prevDist, remaining, startKind, remaining, remaining, k);
    }
  }

  /** The k-th step of a walk is classified at its own distance. */
  lemma {:induction false} WalkClassified(env: Env, leg: Leg, prevDist: real, remaining: real,
                                          startKind: PathTree.HitType, i: real, carry: real, k: nat)
    requires k < |WalkFrom(env, leg, prevDist, remaining, startKind, i, carry).steps|
    ensures WalkFrom(env, leg, prevDist, remaining, startKind, i, carry).steps[k].kind
         == Classify(prevDist + i + k as real, prevDist, remaining, startKind)
    decreases StepsLeft(leg, i)
  {
    if k > 0 {
      var carry' := if i + 1.0 >= leg.dist2D then 1.0 - (leg.dist2D - i) else carry;
      WalkClassified(env, leg, prevDist, remaining, startKind, i + 1.0, carry', k - 1);
      assert prevDist + (i + 1.0) + (k - 1) as real == prevDist + i + k as real;
    }
  }

  // ---------------------------------------------------------------------
  // createImage
  // ---------------------------------------------------------------------

  /** The content of an ImageSource: its position and its per-band maps. */
  datatype ImageValue = ImageValue(source: Vec3, divergence: map<int, real>, level: map<int, real>)

  /** Where createImage places the image: back from the listener along the incoming direction. */
  function ImagePosition(env: Env, path: seq<Step>, shape: Shape, incomingDir: Vec3, directDistance: real): Vec3
    requires |path| > 0
  {
    Sub3(env.listener, Scale3(incomingDir, DivergenceDistance(path, shape, directDistance)))
  }

  /** Some band of the emission makes an attenuation term throw. */
  predicate SomeBandFails(env: Env, path: seq<Step>, shape: Shape, directDistance: real)
    requires |path| > 0
  {
    exists band :: band in env.emission &&
      BandLevel(env.scene.maths, env.cfg, path, band, env.emission[band], directDistance, shape).None?
  }

  /**
   createImage as a value: no image for an empty step list; failure when
   any band throws; otherwise one image whose maps hold every band of the
   emission. The position is only set inside the band loop, so without
   bands it stays at the origin.
   */
  function ImageOf(env: Env, path: seq<Step>, incomingDir: Vec3, directDistance: real): Option<seq<ImageValue>>
  {
    if |path| == 0 then Some([])
    else
      var shape := ShapeOf(path);
      if SomeBandFails(env, path, shape, directDistance) then None
      else
        var m := env.scene.maths;
        var source := if env.emission == map[] then Zero3
                      else ImagePosition(env, path, shape, incomingDir, directDistance);
        Some([ImageValue(source,
                         map band | band in env.emission ::
                           BandLevel(m, env.cfg, path, band, env.emission[band], directDistance, shape).value.divergence,
                         map band | band in env.emission ::
                           BandLevel(m, env.cfg, path, band, env.emission[band], directDistance, shape).value.level)])
  }

  /**
   What an image holds: exactly the emission's bands in both maps; each
   band's level is the per-band model's; the divergence is the same for
   every band, 20 log10 d + 11 over the path's length (the direct distance
   for lateral paths); an empty step list never fails and yields nothing,
   and a path without edges never fails.
   */
  lemma ImageContents(env: Env, path: seq<Step>, incomingDir: Vec3, directDistance: real)
    ensures |path| == 0 ==> ImageOf(env, path, incomingDir, directDistance) == Some([])
    ensures |path| > 0 && !ShapeOf(path).hasDiffraction && !ShapeOf(path).hasLateralDiffraction ==>
      ImageOf(env, path, incomingDir, directDistance).Some?
    ensures |path| > 0 && ImageOf(env, path, incomingDir, directDistance).Some? ==>
      var r := ImageOf(env, path, incomingDir, directDistance).value;
      var m := env.scene.maths;
      var shape := ShapeOf(path);
      && |r| == 1
      && r[0].divergence.Keys == env.emission.Keys && r[0].level.Keys == env.emission.Keys
      && (forall band :: band in r[0].divergence ==>
            r[0].divergence[band] == GeometricDivergence(m, DivergenceDistance(path, shape, directDistance)))
      && (forall band :: band in r[0].level ==>
            BandLevel(m, env.cfg, path, band, env.emission[band], directDistance, shape)
              == Some(BandResult(r[0].divergence[band], r[0].level[band])))
  {
    if |path| > 0 {
      var shape := ShapeOf(path);
      if !shape.hasDiffraction && !shape.hasLateralDiffraction {
        if SomeBandFails(env, path, shape, directDistance) {
          var band :| band in env.emission &&
            BandLevel(env.scene.maths, env.cfg, path, band, env.emission[band], directDistance, shape).None?;
          PlainPathNeverFails(env.scene.maths, env.cfg, path, band, env.emission[band], directDistance, shape);
          assert false;
        }
      }
    }
  }

  /**
   The body of createImage for a non-empty step list: the flags, then
   every band of the emission, in an unspecified order, through the
   per-band model; the position is set on every band. It fails as soon as
   a band throws.
   */
  method ImageBands(env: Env, path: seq<Step>, incomingDir: Vec3, directDistance: real)
    returns (ok: bool, source: Vec3, divergence: map<int, real>, level: map<int, real>)
    requires |path| > 0
    ensures ok <==> !SomeBandFails(env, path, ShapeOf(path), directDistance)
    ensures ok ==> ImageOf(env, path, incomingDir, directDistance) == Some([ImageValue(source, divergence, level)])
  {
    var m := env.scene.maths;
    var shape := ScanShape(path);
    source := Zero3;
    divergence, level := map[], map[];
    var pending := env.emission.Keys;
    while pending != {}
      invariant pending <= env.emission.Keys
      invariant divergence.Keys == level.Keys == env.emission.Keys - pending
      invariant forall band :: band in level ==>
        BandLevel(m, env.cfg, path, band, env.emission[band], directDistance, shape)
          == Some(BandResult(divergence[band], level[band]))
      invariant source == if pending == env.emission.Keys then Zero3
                          else ImagePosition(env, path, shape, incomingDir, directDistance)
      decreases pending
    {
      NonEmptyHasMember(pending);
      var band :| band in pending;
      var r := BandLevel(m, env.cfg, path, band, env.emission[band], directDistance, shape);
      if r.None? {
        return false, source, divergence, level;
      }
      source := ImagePosition(env, path, shape, incomingDir, directDistance);
      divergence := divergence[band := r.value.divergence];
      level := level[band := r.value.level];
      pending := pending - {band};
    }
    ok := true;
    BandsAssembled(env, path, incomingDir, directDistance, source, divergence, level);
  }

  /** When every band of the emission has its result in the maps, they are the image of `ImageOf`. */
  lemma BandsAssembled(env: Env, path: seq<Step>, incomingDir: Vec3, directDistance: real,
                       source: Vec3, divergence: map<int, real>, level: map<int, real>)
    requires |path| > 0
    requires divergence.Keys == level.Keys == env.emission.Keys
    requires forall band :: band in level ==>
      BandLevel(env.scene.maths, env.cfg, path, band, env.emission[band], directDistance, ShapeOf(path))
        == Some(BandResult(divergence[band], level[band]))
    requires source == if env.emission.Keys == {} then Zero3
                       else ImagePosition(env, path, ShapeOf(path), incomingDir, directDistance)
    ensures !SomeBandFails(env, path, ShapeOf(path), directDistance)
    ensures ImageOf(env, path, incomingDir, directDistance) == Some([ImageValue(source, divergence, level)])
  {
    var m, shape := env.scene.maths, ShapeOf(path);
    assert env.emission == map[] <==> env.emission.Keys == {};
    var divergences := map band | band in env.emission ::
      BandLevel(m, env.cfg, path, band, env.emission[band], directDistance, shape).value.divergence;
    var levels := map band | band in env.emission ::
      BandLevel(m, env.cfg, path, band, env.emission[band], directDistance, shape).value.level;
    assert divergence == divergences;
    assert level == levels;
  }

  // ---------------------------------------------------------------------
  // The traversal
  // ---------------------------------------------------------------------

  /** The calculation's state: the shared step list and the images produced so far. */
  datatype State = State(steps: seq<Step>, images: seq<ImageValue>)

  /** The listener step of a DIRECT segment, when the ground below the listener is hit. */
  function ListenerStep(env: Env, point: Vec3, distance: real): seq<Step>
  {
    var hit := env.scene.groundcast(point);
    if hit.None? then [] else [Step(distance, hit.value.point.y, hit.value.distance, Listener)]
  }

  /**
   pathFromTo as a value: walk the segment from `stepStart` to `end`; an
   abandoned walk ends this path; at a DIRECT node the listener step is
   added and the whole shared list becomes an image; otherwise every child
   continues, one after the other, from the end of this segment.
   */
  function PathsFrom(env: Env, nodes: Nodes<PathTree.Segment>, next: nat, pathStart: nat, stepStart: nat, end: nat,
                     prevDist: real, remaining: real, s: State): Option<State>
    requires WellFormed(nodes, next) && pathStart in nodes && stepStart in nodes && end in nodes
    decreases next - end, 3
  {
    var leg := LegOf(env.scene.maths, nodes[stepStart].value.origin, nodes[end].value.origin);
    var w := SegmentWalk(env, leg, prevDist, remaining, nodes[stepStart].value.kind);
    AfterWalk(env, nodes, next, pathStart, end, leg, prevDist, w.reached, w.carry, s.(steps := s.steps + w.steps))
  }

  /** What follows the walk of the segment to `end`: nothing more when it was abandoned. */
  function AfterWalk(env: Env, nodes: Nodes<PathTree.Segment>, next: nat, pathStart: nat, end: nat, leg: Leg,
                     prevDist: real, reached: bool, carry: real, walked: State): Option<State>
    requires WellFormed(nodes, next) && pathStart in nodes && end in nodes
    decreases next - end, 2
  {
    if !reached then Some(walked) else AtEnd(env, nodes, next, pathStart, end, leg, prevDist, carry, walked)
  }

  /** A reached `end`: the path finishes there when it is DIRECT, else every child continues. */
  function AtEnd(env: Env, nodes: Nodes<PathTree.Segment>, next: nat, pathStart: nat, end: nat, leg: Leg,
                 prevDist: real, carry: real, walked: State): Option<State>
    requires WellFormed(nodes, next) && pathStart in nodes && end in nodes
    decreases next - end, 1
  {
    if nodes[end].value.kind == PathTree.DIRECT then
      FinishedPath(env, walked, nodes[pathStart].value.origin, nodes[end].value.origin, leg, prevDist + leg.dist2D + carry)
    else
      OwnChildIds(nodes, next, end);
      PathsAll(env, nodes, next, pathStart, end, nodes[end].children, prevDist + leg.dist2D, carry, walked)
  }

  /**
   The end of a path at a DIRECT node: the listener step is added, then
   the image over the whole list, at the direct distance from the path's
   start.
   */
  function FinishedPath(env: Env, s: State, pathOrigin: Vec3, listenerPoint: Vec3, leg: Leg, lastDistance: real)
    : Option<State>
  {
    var finished := s.steps + ListenerStep(env, listenerPoint, lastDistance);
    var made := ImageOf(env, finished, leg.dir, Distance3(env.scene.maths, pathOrigin, listenerPoint));
    if made.None? then None else Some(State(finished, s.images + made.value))
  }

  /** The children `ids` of `p`, continued in order from the same distance and carry. */
  function PathsAll(env: Env, nodes: Nodes<PathTree.Segment>, next: nat, pathStart: nat, p: nat, ids: seq<nat>,
                    prevDist: real, remaining: real, s: State): Option<State>
    requires WellFormed(nodes, next) && pathStart in nodes && p in nodes && ChildIds(nodes, p, ids)
    decreases next - p, 0, |ids|
  {
    if ids == [] then Some(s)
    else
      var r := PathsFrom(env, nodes, next, pathStart, p, ids[0], prevDist, remaining, s);
      if r.None? then None
      else PathsAll(env, nodes, next, pathStart, p, ids[1..], prevDist, remaining, r.value)
  }

  /** calculateNoise as a value: every child of the source node, from distance 0, on empty lists. */
  function Noise(env: Env, nodes: Nodes<PathTree.Segment>, next: nat, root: nat): Option<State>
    requires WellFormed(nodes, next) && root in nodes
  {
    PathsAll(env, nodes, next, root, root, nodes[root].children, 0.0, 0.0, State([], []))
  }

  /** `a` is a prefix of `b`. */
  ghost predicate Prefix<T>(a: seq<T>, b: seq<T>)
  {
    |a| <= |b| && b[..|a|] == a
  }

  lemma PrefixTrans<T>(a: seq<T>, b: seq<T>, c: seq<T>)
    requires Prefix(a, b) && Prefix(b, c)
    ensures Prefix(a, c)
  {
    assert c[..|a|] == c[..|b|][..|a|];
  }

  /**
   The traversal only appends: the shared step list and the image list it
   ends with begin with the ones it started from. In particular every image
   is computed over the steps of all the paths visited before it.
   */
  lemma {:induction false} PathsFromAppends(env: Env, nodes: Nodes<PathTree.Segment>, next: nat, pathStart: nat,
                                            stepStart: nat, end: nat, prevDist: real, remaining: real, s: State)
    requires WellFormed(nodes, next) && pathStart in nodes && stepStart in nodes && end in nodes
    ensures var r := PathsFrom(env, nodes, next, pathStart, stepStart, end, prevDist, remaining, s);
      r.Some? ==> Prefix(s.steps, r.value.steps) && Prefix(s.images, r.value.images)
    decreases next - end, 3
  {
    var leg := LegOf(env.scene.maths, nodes[stepStart].value.origin, nodes[end].value.origin);
    var w := SegmentWalk(env, leg, prevDist, remaining, nodes[stepStart].value.kind);
    var walked := s.(steps := s.steps + w.steps);
    assert Prefix(s.steps, walked.steps) by { assert walked.steps[..|s.steps|] == s.steps; }
    if w.reached {
      AtEndAppends(env, nodes, next, pathStart, end, leg, prevDist, w.carry, walked);
      var r := AtEnd(env, nodes, next, pathStart, end, leg, prevDist, w.carry, walked);
      if r.Some? {
        PrefixTrans(s.steps, walked.steps, r.value.steps);
      }
    }
  }

  lemma {:induction false} AtEndAppends(env: Env, nodes: Nodes<PathTree.Segment>, next: nat, pathStart: nat, end: nat,
                                        leg: Leg, prevDist: real, carry: real, walked: State)
    requires WellFormed(nodes, next) && pathStart in nodes && end in nodes
    ensures var r := AtEnd(env, nodes, next, pathStart, end, leg, prevDist, carry, walked);
      r.Some? ==> Prefix(walked.steps, r.value.steps) && Prefix(walked.images, r.value.images)
    decreases next - end, 1
  {
    if nodes[end].value.kind == PathTree.DIRECT {
      var b := nodes[end].value.origin;
      var finished := walked.steps + ListenerStep(env, b, prevDist + leg.dist2D + carry);
      var made := ImageOf(env, finished, leg.dir, Distance3(env.scene.maths, nodes[pathStart].value.origin, b));
      if made.Some? {
        assert finished[..|walked.steps|] == walked.steps;
        assert (walked.images + made.value)[..|walked.images|] == walked.images;
      }
    } else {
      OwnChildIds(nodes, next, end);
      PathsAllAppends(env, nodes, next, pathStart, end, nodes[end].children, prevDist + leg.dist2D, carry, walked);
    }
  }

  lemma {:induction false} PathsAllAppends(env: Env, nodes: Nodes<PathTree.Segment>, next: nat, pathStart: nat,
                                           p: nat, ids: seq<nat>, prevDist: real, remaining: real, s: State)
    requires WellFormed(nodes, next) && pathStart in nodes && p in nodes && ChildIds(nodes, p, ids)
    ensures var r := PathsAll(env, nodes, next, pathStart, p, ids, prevDist, remaining, s);
      r.Some? ==> Prefix(s.steps, r.value.steps) && Prefix(s.images, r.value.images)
    decreases next - p, 0, |ids|
  {
    if ids != [] {
      PathsFromAppends(env, nodes, next, pathStart, p, ids[0], prevDist, remaining, s);
      var r := PathsFrom(env, nodes, next, pathStart, p, ids[0], prevDist, remaining, s);
      if r.Some? {
        PathsAllAppends(env, nodes, next, pathStart, p, ids[1..], prevDist, remaining, r.value);
        var r2 := PathsAll(env, nodes, next, pathStart, p, ids[1..], prevDist, remaining, r.value);
        if r2.Some? {
          PrefixTrans(s.steps, r.value.steps, r2.value.steps);
          PrefixTrans(s.images, r.value.images, r2.value.images);
        }
      }
    }
  }

  /**
   A leaf that is not DIRECT produces nothing but its walk: with no
   children to continue, no image is created and nothing can fail.
   */
  lemma DeadEndMakesNoImage(env: Env, nodes: Nodes<PathTree.Segment>, next: nat, pathStart: nat, stepStart: nat,
                            end: nat, prevDist: real, remaining: real, s: State)
    requires WellFormed(nodes, next) && pathStart in nodes && stepStart in nodes && end in nodes
    requires nodes[end].value.kind != PathTree.DIRECT && nodes[end].children == []
    ensures var r := PathsFrom(env, nodes, next, pathStart, stepStart, end, prevDist, remaining, s);
      var leg := LegOf(env.scene.maths, nodes[stepStart].value.origin, nodes[end].value.origin);
      r == Some(s.(steps := s.steps + SegmentWalk(env, leg, prevDist, remaining, nodes[stepStart].value.kind).steps))
  {
    var leg := LegOf(env.scene.maths, nodes[stepStart].value.origin, nodes[end].value.origin);
    var w := SegmentWalk(env, leg, prevDist, remaining, nodes[stepStart].value.kind);
    var walked := s.(steps := s.steps + w.steps);
    assert AtEnd(env, nodes, next, pathStart, end, leg, prevDist, w.carry, walked)
        == PathsAll(env, nodes, next, pathStart, end, [], prevDist + leg.dist2D, w.carry, walked);
  }

  // ---------------------------------------------------------------------
  // The engine object
  // ---------------------------------------------------------------------

  /** The NMBP2008 object during one calculateNoise call. */
  class Engine {
    /** The image sources produced so far. */
    var images: seq<ImageSource>
    /** What each of `images` holds. */
    ghost var produced: seq<ImageValue>
    /** The step list that calculateNoise creates and every pathFromTo call appends to. */
    var steps: seq<Step>

    /** Each image object holds the value recorded for it. */
    ghost predicate Valid()
      reads this, images
    {
      && |images| == |produced|
      && forall i :: 0 <= i < |images| ==>
           && images[i].source == produced[i].source
           && images[i].geometricDivergence == produced[i].divergence
           && images[i].soundLevel == produced[i].level
    }

    constructor ()
      ensures Valid() && images == [] && steps == []
    {
      images := [];
      produced := [];
      steps := [];
    }

    /**
     The loop of pathFromTo over one segment: steps are appended while the
     ground is hit; the carried distance is updated on the last iteration
     only, so every step is classified against the segment's starting one.
     */
    method WalkSegment(env: Env, leg: Leg, prevDist: real, remainingStep: real, startKind: PathTree.HitType)
      returns (reached: bool, carry: real)
      modifies this`steps
      ensures var w := SegmentWalk(env, leg, prevDist, remainingStep, startKind);
        steps == old(steps) + w.steps && carry == w.carry && reached == w.reached
    {
      ghost var w0 := SegmentWalk(env, leg, prevDist, remainingStep, startKind);
      carry := remainingStep;
      var i := remainingStep;
      while i < leg.dist2D
        invariant i < leg.dist2D ==> carry == remainingStep
        invariant var w := WalkFrom(env, leg, prevDist, remainingStep, startKind, i, carry);
          steps + w.steps == old(steps) + w0.steps && w.carry == w0.carry && w.reached == w0.reached
        decreases StepsLeft(leg, i)
      {
        var currPos := WalkPoint(env.scene.maths, leg, i);
        var hit := env.scene.groundcast(currPos);
        if hit.None? {
          return false, carry;
        }
        var distance := prevDist + i;
        var step := Step(distance, hit.value.point.y, hit.value.distance,
                         Classify(distance, prevDist, carry, startKind));
        ghost var found, carried := steps, carry;
        steps := steps + [step];
        if i + 1.0 >= leg.dist2D {
          carry := 1.0 - (leg.dist2D - i);
        }
        WalkAdvance(env, leg, prevDist, remainingStep, startKind, i, carried, carry, step, found,
                    old(steps) + w0.steps);
        i := i + 1.0;
      }
      reached := true;
    }

    /**
     createImage: nothing for an empty step list; otherwise the image built
     by `ImageBands` is added. A band whose terms throw aborts the
     calculation.
     */
    method CreateImage(env: Env, path: seq<Step>, incomingDir: Vec3, directDistance: real) returns (ok: bool)
      requires Valid()
      modifies this`images, this`produced
      ensures Valid()
      ensures var r := ImageOf(env, path, incomingDir, directDistance);
        (ok <==> r.Some?) && (ok ==> produced == old(produced) + r.value)
    {
      if |path| == 0 {
        assert produced == produced + [];
        return true;
      }
      var source, divergence, level;
      ok, source, divergence, level := ImageBands(env, path, incomingDir, directDistance);
      if !ok {
        return;
      }
      var image := new ImageSource(source, divergence, level);
      images := images + [image];
      produced := produced + [ImageValue(source, divergence, level)];
    }

    /**
     pathFromTo: walk one segment, then finish the path at a DIRECT node or
     continue with every child of `end`.
     */
    method PathFromTo(env: Env, nodes: Nodes<PathTree.Segment>, next: nat, pathStart: nat, stepStart: nat, end: nat,
                      prevDist: real, remainingStep: real) returns (ok: bool)
      requires WellFormed(nodes, next) && pathStart in nodes && stepStart in nodes && end in nodes
      requires Valid()
      modifies this
      ensures Valid()
      ensures var r := PathsFrom(env, nodes, next, pathStart, stepStart, end, prevDist, remainingStep,
                                 State(old(steps), old(produced)));
        (ok <==> r.Some?) && (ok ==> steps == r.value.steps && produced == r.value.images)
      decreases next - end, 3
    {
      var leg := LegOf(env.scene.maths, nodes[stepStart].value.origin, nodes[end].value.origin);
      var reached, carry := WalkSegment(env, leg, prevDist, remainingStep, nodes[stepStart].value.kind);
      if !reached {
        return true;
      }
      ok := ReachedEnd(env, nodes, next, pathStart, end, leg, prevDist, carry);
    }

    /**
     The part of pathFromTo after a completed walk: finish the path at a
     DIRECT node, or continue with every child of `end`.
     */
    method ReachedEnd(env: Env, nodes: Nodes<PathTree.Segment>, next: nat, pathStart: nat, end: nat, leg: Leg,
                      prevDist: real, carry: real) returns (ok: bool)
      requires WellFormed(nodes, next) && pathStart in nodes && end in nodes
      requires Valid()
      modifies this
      ensures Valid()
      ensures var r := AfterWalk(env, nodes, next, pathStart, end, leg, prevDist, true, carry,
                                 State(old(steps), old(produced)));
        (ok <==> r.Some?) && (ok ==> steps == r.value.steps && produced == r.value.images)
      decreases next - end, 2
    {
      if nodes[end].value.kind == PathTree.DIRECT {
        ok := FinishPath(env, nodes[pathStart].value.origin, nodes[end].value.origin, leg, prevDist + leg.dist2D + carry);
      } else {
        OwnChildIds(nodes, next, end);
        ok := ContinueChildren(env, nodes, next, pathStart, end, nodes[end].children, prevDist + leg.dist2D, carry);
      }
    }

    /**
     The DIRECT end of pathFromTo: the listener step, 1 m after the last
     walk step, when the ground below the listener is hit; then the image
     over the whole shared list, at the direct distance from the path's start.
     */
    method FinishPath(env: Env, pathOrigin: Vec3, listenerPoint: Vec3, leg: Leg, lastDistance: real) returns (ok: bool)
      requires Valid()
      modifies this
      ensures Valid()
      ensures var r := FinishedPath(env, State(old(steps), old(produced)), pathOrigin, listenerPoint, leg, lastDistance);
        (ok <==> r.Some?) && (ok ==> steps == r.value.steps && produced == r.value.images)
    {
      ghost var before := State(steps, produced);
      var lastHit := env.scene.groundcast(listenerPoint);
      if lastHit.Some? {
        steps := steps + [Step(lastDistance, lastHit.value.point.y, lastHit.value.distance, Listener)];
      }
      assert steps == before.steps + ListenerStep(env, listenerPoint, lastDistance);
      var directPathDistance := Distance3(env.scene.maths, pathOrigin, listenerPoint);
      ghost var made := ImageOf(env, steps, leg.dir, directPathDistance);
      assert FinishedPath(env, before, pathOrigin, listenerPoint, leg, lastDistance)
          == if made.None? then None else Some(State(steps, before.images + made.value));
      ok := CreateImage(env, steps, leg.dir, directPathDistance);
    }

    /**
     The loop over the children of `p` (in pathFromTo and in
     calculateNoise): each continues from the same distance and carry, on
     the list the previous one left.
     */
    method ContinueChildren(env: Env, nodes: Nodes<PathTree.Segment>, next: nat, pathStart: nat, p: nat, ids: seq<nat>,
                            prevDist: real, remaining: real) returns (ok: bool)
      requires WellFormed(nodes, next) && pathStart in nodes && p in nodes && ChildIds(nodes, p, ids)
      requires Valid()
      modifies this
      ensures Valid()
      ensures var r := PathsAll(env, nodes, next, pathStart, p, ids, prevDist, remaining,
                                State(old(steps), old(produced)));
        (ok <==> r.Some?) && (ok ==> steps == r.value.steps && produced == r.value.images)
      decreases next - p, 0
    {
      ghost var before := State(steps, produced);
      ok := true;
      for k := 0 to |ids|
        invariant Valid()
        invariant PathsAll(env, nodes, next, pathStart, p, ids[k..], prevDist, remaining, State(steps, produced))
               == PathsAll(env, nodes, next, pathStart, p, ids, prevDist, remaining, before)
      {
        assert ids[k..][1..] == ids[k + 1..];
        ok := PathFromTo(env, nodes, next, pathStart, p, ids[k], prevDist, remaining);
        if !ok {
          return;
        }
      }
    }

    /**
     calculateNoise: reset the image list, then run pathFromTo from the
     source node to each of its children, on one shared, initially empty
     step list, and return the images.
     */
    method CalculateNoise(env: Env, tree: Arena<PathTree.Segment>, root: nat) returns (ok: bool, result: seq<ImageSource>)
      requires tree.Valid() && root in tree.nodes
      modifies this
      ensures Valid()
      ensures var r := Noise(env, tree.nodes, tree.next, root);
        (ok <==> r.Some?) && (ok ==> result == images && produced == r.value.images && steps == r.value.steps)
    {
      images := [];
      produced := [];
      steps := [];
      ok := ContinueChildren(env, tree.nodes, tree.next, root, root, tree.nodes[root].children, 0.0, 0.0);
      result := images;
    }
  }
}
