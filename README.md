# ImmersiveNoise propagation core in Dafny

ImmersiveNoise places virtual traffic noise into a Unity scene. Each noise
source builds a tree of propagation paths toward the listener. A path bends
around building edges (diffraction) and bounces off facades (reflection). The
NMBP2008 engine then walks every path in 1 m steps over the terrain. For each
path that reaches the listener, it creates one image source: a virtual sound
source with one level per octave band, computed with the CNOSSOS-EU formulas
for divergence, atmospheric absorption, ground effect and diffraction.

The model has six modules:

- `Common`: optional values and 2D/3D vectors over the reals. It also holds the
  C# arithmetic the engine relies on: integer division truncating toward zero,
  the `(int)` cast, `Mathf.Max`/`Min` and `List.Remove`. Integers are unbounded,
  so these agree with C# only within the 32-bit range (see "## Left out"). The numeric library
  (`Sqrt`, `Log10`, `Pow`, `Exp`, `Fit.Line`, `Vector2.Angle`) is the
  uninterpreted record `Maths`.
- `RoseTree` (Unity/TreeNode.cs): the generic tree as a class `Arena` whose
  nodes live in a map from id to value, parent and child ids. A child always
  has a larger id than its parent. This ordering is the arena's invariant, and
  it is what makes the recursive walks terminate.
- `PathTree` (Unity/NoiseSource.cs): the path-tree builder. `FireAt` either
  ends a segment at the listener, removes it, or probes around the obstacle.
  `ScanCast` searches for a diffraction edge. `ReflectToward` is the sweep for
  specular reflections. Unity's physics and rotations are the uninterpreted
  record `Scene`.
- `Attenuation` (Unity/NMBP2008.cs, the per-path terms): step classification,
  absorption, the mean ground plane, ground effect, diffraction over one or
  several edges, the convex distance, the boundary models and the per-band level.
- `Propagation` (Unity/NMBP2008.cs, the traversal): `calculateNoise`,
  `pathFromTo` and `createImage`, as the class `Engine`. Each method is proved
  against a value-level definition (`PathsFrom`, `PathsAll`, `Noise`,
  `ImageOf`).
- `Images` (Unity/ImageSource.cs): the image source record and `removeDistances`.

The model keeps several behaviours of the code exactly as written:

- `fireAt` resets the direction hint to "" only under `fullPath`, and only when
  the obstacle is a different collider from the last one.
- `reflectToward` turns its rays by `1/angleSteps` and `-1/angleSteps`. These
  are C# integer divisions, so for every `|angleSteps| >= 2` the rays never
  turn (`FrozenSweep`), and `angleSteps == 0` throws.
- The multi-diffraction coefficient uses `(1 / 3)`, which is 0 in integer
  arithmetic (`MultiDiffractionDropsThird`).
- `calculateNoise` shares one step list across the whole traversal and never
  shortens it. Each image is therefore computed over the steps of every path
  visited before it (`PathsFromAppends`).
- `createImage` computes a sound power adjusted for reflection absorption and
  never uses it (`LevelIgnoresReflection`).
- The long-term level weighs the homogeneous level by
  `1 - homogenousLikelihood`.
- The image position is set only inside the band loop, so an emission without
  bands leaves it at the origin.
- A thrown exception aborts the whole calculation and is modelled as a failed
  result. This covers `List.First` on an empty list, an empty list given to the
  mean plane, and an integer division by zero.

## Model

| member | source | states |
|---|---|---|
| Common.DivTrunc | Unity/NMBP2008.cs:472 | C#'s integer quotient, on operands within the 32-bit range: 0 or the sign of the operands' product |
| Common.DivTruncBrackets | Unity/NMBP2008.cs:472 | the truncated quotient's magnitude is the largest multiple of the divisor within the dividend's magnitude |
| Common.TruncToInt | Unity/NMBP2008.cs:472 | the `(int)` cast of a value within the 32-bit range truncates toward zero: the result is within 1 of the value, on the side of 0 |
| Common.MaxR | Unity/NMBP2008.cs:291-292 | Mathf.Max is an upper bound of both arguments and equals one of them |
| Common.MinR | Unity/NMBP2008.cs:223 | Mathf.Min is a lower bound of both arguments and equals one of them |
| Common.RemoveFirst | Unity/TreeNode.cs:52-55 | List.Remove drops the first occurrence of a present element and keeps everything before and after it in order; an absent element leaves the list unchanged |
| RoseTree.Arena.constructor | Unity/TreeNode.cs:15-18 | a new tree is a single root with the value, no parent and no children |
| RoseTree.Arena.ChildAt | Unity/TreeNode.cs:20-23 | the indexer yields the i-th child exactly for an index within the child list (else the source throws); that child is a node after its parent |
| RoseTree.Arena.AddChild | Unity/TreeNode.cs:34-39 | a fresh leaf with parent `p` is appended at the end of `p`'s children; no value changes; the tree stays well formed |
| RoseTree.Arena.AddChildren | Unity/TreeNode.cs:47-50 | one fresh leaf per value, in order and at consecutive ids, appended to `p`'s children; the node set gains exactly those ids and every other old node is unchanged |
| RoseTree.AddedChildWellFormed | Unity/TreeNode.cs:34-39 | adding a child keeps the arena well formed and leaves every node after the parent unchanged |
| RoseTree.AddChildExtendsFlatten | Unity/TreeNode.cs:34-39 | after AddChild(p, v), Flatten of `p` is the old flattening followed by `v` |
| RoseTree.Arena.ConnectChild | Unity/TreeNode.cs:41-45 | the child is appended to the parent's list and gets the parent; nothing else changes |
| RoseTree.Arena.RemoveChild | Unity/TreeNode.cs:52-55 | the result is true iff the node was a child; the first occurrence leaves the list |
| RoseTree.Arena.RemoveSelf | Unity/TreeNode.cs:57-72 | the new tree is `RemovedSelf`: a root loses its children, otherwise the children move to the parent and the node leaves the parent's list |
| RoseTree.ConnectedShape | Unity/TreeNode.cs:65-68 | reconnecting the children appends them to the parent's list and re-parents exactly them |
| RoseTree.ConnectedStep | Unity/TreeNode.cs:65-68 | each iteration of the reconnecting loop is one ConnectChild |
| RoseTree.SpliceRemoval | Unity/TreeNode.cs:63-70 | for a node with a parent: the parent's list loses the node and gains its children at the end, in order; the children are re-parented; all else, including the node itself, is unchanged; the tree stays well formed |
| RoseTree.RootRemoval | Unity/TreeNode.cs:59-62 | a root's removal only clears its child list |
| RoseTree.RemovalFrame | Unity/TreeNode.cs:57-72 | RemoveSelf touches only the node, its parent and its children, and keeps every node and value |
| RoseTree.LeafRemoval | Unity/TreeNode.cs:57-72 | a childless node only unlinks itself from its parent, and a childless root stays as it is |
| RoseTree.Arena.Traverse | Unity/TreeNode.cs:74-79 | the values reach the action in pre-order |
| RoseTree.Arena.Reverse | Unity/TreeNode.cs:81-86 | the values reach the action in post-order |
| RoseTree.Arena.Flatten | Unity/TreeNode.cs:88-91 | the enumeration is the node's own value followed by each child's flattening in turn, one value per node of the subtree |
| RoseTree.PreOrderLength | Unity/TreeNode.cs:88-91 | the flattening has one value per node of the subtree |
| RoseTree.PostOrderPermutesPreOrder | Unity/TreeNode.cs:81-86 | Reverse visits the same values as Traverse, as a multiset |
| RoseTree.PreOrderFrame | Unity/TreeNode.cs:74-79 | a subtree's walk depends only on the nodes at or after its root |
| RoseTree.LeafFlatten | Unity/TreeNode.cs:88-91 | a leaf flattens to its own value alone |
| RoseTree.RemoveSelfFlattenIds | Unity/TreeNode.cs:57-72 | after RemoveSelf on a node with a parent, the flattening of any node above it that held no node twice now holds exactly its old nodes except the removed one, still none twice |
| RoseTree.AddChildFlattenIds | Unity/TreeNode.cs:34-39 | after AddChild(p, v), the flattening of any node above `p` that held no node twice now holds exactly its old nodes and the new one, still none twice, and its values gain exactly one `v` |
| PathTree.EffectiveDirection | Unity/NoiseSource.cs:26-29 | the hint changes (to "") iff `fullPath` is set, the collider differs from the last one, and the hint was not already "" |
| PathTree.ProbesTable | Unity/NoiseSource.cs:53-83 | which of right/left/up/down are probed for each hint and switch; the order is right, left, up, down; at most one probe for a named hint |
| PathTree.ProbesWithoutHint | Unity/NoiseSource.cs:54-66 | with no hint: right and left when sideways diffraction is on, then up, then down when downward diffraction is on |
| PathTree.DiffractionKind | Unity/NoiseSource.cs:143-149 | a diffraction child is DIFFRACTION_H iff it came from a left or right probe, else DIFFRACTION_V |
| PathTree.ScanProbeBound | Unity/NoiseSource.cs:115-154 | a scan makes at most collisionChecks probes, all of them iff it stays blocked |
| PathTree.ScanSpawnPoint | Unity/NoiseSource.cs:119-136 | a diffraction child starts `probes` steps along the scan at a clear point, with a non-negative budget equal to `maxDist` minus the distance to it, no farther from the listener than the origin |
| PathTree.ScanLastHit | Unity/NoiseSource.cs:121-153 | the child inherits the collider of the last blocked probe, or the caller's when the first probe is clear |
| PathTree.SweepStep | Unity/NoiseSource.cs:181-182 | the per-iteration turn is 0 or ±1 degrees, and non-zero iff `|angleSteps| == 1` |
| PathTree.FrozenSweep | Unity/NoiseSource.cs:181-185 | for `|angleSteps| >= 2` the sweep repeats its first pair of reflections on every iteration |
| PathTree.SpecularAcceptance | Unity/NoiseSource.cs:187-210 | a ray yields a reflection iff it hits and the two signed angles cancel within the tolerance; the reflection's point, collider, hint and budget |
| PathTree.SweepBound | Unity/NoiseSource.cs:183-239 | at most two reflections per iteration, each hinted right or left, each with a budget of at most the distance given |
| PathTree.SweepLength | Unity/NoiseSource.cs:183-239 | the sweep finds at most two reflections per iteration |
| PathTree.SweepHints | Unity/NoiseSource.cs:183-239 | every reflection the sweep finds is hinted right or left |
| PathTree.SweepBudgets | Unity/NoiseSource.cs:183-239 | when distances are never negative, every reflection the sweep finds leaves a budget of at most the distance given |
| PathTree.PairBound | Unity/NoiseSource.cs:185-211 | one iteration finds at most two reflections, the right ray's hinted right and the left ray's hinted left, each within the budget when distances are never negative |
| PathTree.LeafRemovedFrame | Unity/NoiseSource.cs:85-88 | a blocked segment that gained no child unlinks itself, within the fireAt frame |
| PathTree.RemovedFrame | Unity/NoiseSource.cs:92-96 | a clear segment out of range removes itself, within the fireAt frame |
| PathTree.AddedFrame | Unity/NoiseSource.cs:97-108 | a clear segment in range gains a DIRECT child, within the fireAt frame |
| PathTree.SpawnedChildGrew | Unity/NoiseSource.cs:136-141 | after a new child ran fireAt, its parent only gained fresh ids at the end of its list, and the child keeps its value and parent |
| PathTree.ProbedIdle | Unity/NoiseSource.cs:53-83 | probes whose scans never spawn leave the tree as it was |
| PathTree.DeadEndRemoved | Unity/NoiseSource.cs:84-88 | a fresh blocked segment whose probes all fail is removed by RemoveSelf and nothing else changes |
| PathTree.FireAt | Unity/NoiseSource.cs:20-110 | the new tree is `Fired`: blocked, the probes of the effective hint, each a scanCast from a centimetre inside the obstacle with the obstacle as last hit, then RemoveSelf iff the node is still childless; clear, RemoveSelf beyond `maxDist`, else one DIRECT child at the listener; only the node, its parent and its children change |
| PathTree.FireBlocked | Unity/NoiseSource.cs:23-89 | with the sight blocked, the new tree is `Fired`: the probes of the effective hint from a centimetre inside the obstacle, then RemoveSelf iff the node is still childless; only the node, its parent and its children change |
| PathTree.FireClear | Unity/NoiseSource.cs:90-109 | with a clear sight, the new tree is `ClearSight`: RemoveSelf beyond `maxDist`, else exactly one DIRECT child at the listener; only the node, its parent and its children change |
| PathTree.ProbeWithoutHint | Unity/NoiseSource.cs:53-66 | without a hint the new tree is `Probed` over right and left when sideways diffraction is on, then up, then down when downward diffraction is on; the node only gains children |
| PathTree.ProbeVertical | Unity/NoiseSource.cs:61-65 | the up probe, then the down probe when downward diffraction is on, leave the tree `Probed` over those names |
| PathTree.ProbeAll | Unity/NoiseSource.cs:53-83 | the new tree is `Probed` over exactly `Probes` of the hint, in order, each probe scanning in its own direction of the impact frame with its own name as hint |
| PathTree.Diffract | Unity/NoiseSource.cs:58-82 | the new tree is `Scanned` along the probe's direction, with the probe's name as hint |
| PathTree.ScanCast | Unity/NoiseSource.cs:113-157 | the new tree is `Scanned`: only a `Spawn` outcome of `Scan` changes it, by exactly one child of the probe's diffraction kind at the clear point, which runs fireAt with the reduced budget, the probe's name and the last collider hit |
| PathTree.ScanSteps | Unity/NoiseSource.cs:115-154 | the stepping loop ends as `Scan` does |
| PathTree.ScanSpawn | Unity/NoiseSource.cs:136-151 | a spawning scan leaves the tree of `Scanned` |
| PathTree.Spawned | Unity/NoiseSource.cs:136-141 | a new segment child followed by its fireAt: the tree is `FiredChild`, which is `Fired` of the child over `AddedChild` |
| PathTree.FireChild | Unity/NoiseSource.cs:139-141 | the fireAt of a child just added to the node leaves the tree `FiredChild`, and the node only gains fresh ids at the end of its list |
| PathTree.ReflectToward | Unity/NoiseSource.cs:160-240 | fails iff angleSteps is 0 (the division throws), with nothing changed; otherwise the new tree is `ReflectedAll` of exactly the reflections of `Sweep` over reflectionAngle * angleSteps iterations, each a REFLECTION child off its collider that runs fireAt with its budget and hint |
| PathTree.SweepLoop | Unity/NoiseSource.cs:183-239 | the loop handles the reflections of `Sweep` from both rays pointing at the listener, in order |
| PathTree.SweepIteration | Unity/NoiseSource.cs:185-238 | one iteration turns both rays and handles the right ray's reflection, then the left ray's |
| PathTree.SweepNext | Unity/NoiseSource.cs:185-238 | one turn of the loop moves the next pair of `Sweep` from what is left to what was found and grows the tree by exactly their `ReflectedAll` |
| PathTree.SweepRay | Unity/NoiseSource.cs:185-211 | one ray handles exactly its specular reflection, if any |
| PathTree.Reflected | Unity/NoiseSource.cs:202-209 | an accepted reflection is `ReflectedOne`: one REFLECTION child off the collider, whose fireAt gets the budget, the hint and the collider as last hit |
| Attenuation.ClassifyCases | Unity/NMBP2008.cs:84-111 | a step is the source iff at distance 0, an edge step iff at the segment's first distance (of the start node's kind), else propagation; never the listener |
| Attenuation.AbsorptionCoefficient | Unity/NMBP2008.cs:159-199 | the coefficient is positive, and 1 outside the table's octave bands |
| Attenuation.AbsorptionRisesWithBand | Unity/NMBP2008.cs:163-195 | the tabulated coefficient rises strictly with the band |
| Attenuation.AbsorptionProportional | Unity/NMBP2008.cs:201 | absorption scales linearly with the last step's distance and is non-negative for a non-negative distance |
| Attenuation.ProjectionIsOrthogonal | Unity/NMBP2008.cs:205-212 | when its divisor is non-zero, crossMeanPlane lies on the line, the residual is perpendicular, and a point on the line projects to itself |
| Attenuation.IsLeftOrientation | Unity/NMBP2008.cs:459-463 | isLeft is invariant under rotation, antisymmetric in the line's direction, and false on the line |
| Attenuation.MeanPlaneCases | Unity/NMBP2008.cs:430-457 | the mean plane fails iff no step is given; one step gives a unit horizontal line; more steps give the fitted line at the first and last distances |
| Attenuation.CalcMeanPlane | Unity/NMBP2008.cs:430-457 | the copying loop and fit agree with `MeanPlane`, including its failure |
| Attenuation.PlaneHeights | Unity/NMBP2008.cs:288-293 | the heights over the plane are never negative |
| Attenuation.GpathBounds | Unity/NMBP2008.cs:294-299 | Gpath is at most 0.5, exactly 0.5 beyond reach, else proportional to dp, and never negative |
| Attenuation.GroundEffectFloor | Unity/NMBP2008.cs:316-317 | the ground effect never drops below -3 (1 - Gpath), hence below -3 dB |
| Attenuation.Steepest | Unity/NMBP2008.cs:476-487 | the angle search returns the starting point or a later one |
| Attenuation.SteepestIsFirstMaximum | Unity/NMBP2008.cs:478-487 | the search returns the first point of largest angle, and keeps the start only when no angle beats it |
| Attenuation.SteepestAdvances | Unity/NMBP2008.cs:476-487 | with angles in [0, 180] the search always moves to a strictly later point |
| Attenuation.SteepestPoint | Unity/NMBP2008.cs:476-487 | the inner for loop computes `SteepestFrom` |
| Attenuation.ConvexStepsBound | Unity/NMBP2008.cs:471-498 | the while loop runs at most max(1, maxCount) times, and at most once per later point |
| Attenuation.ConvexWalkGrows | Unity/NMBP2008.cs:488 | the accumulated distance never decreases |
| Attenuation.ConvexDistanceLoop | Unity/NMBP2008.cs:465-500 | the loop computes `ConvexDistance` with `ConvexSteps` iterations, and fails on a zero resolution or an empty list |
| Attenuation.ConvexDistanceNonNegative | Unity/NMBP2008.cs:465-500 | the convex distance is never negative |
| Attenuation.HeightCoefficient | Unity/NMBP2008.cs:223 | Ch is capped at 1 and equals band * h0 / 250 below the cap |
| Attenuation.MultiDiffractionDropsThird | Unity/NMBP2008.cs:238-241 | `(1 / 3)` is 0, so C1 = (1 + q) / q > 1 over long spans |
| Attenuation.PureDiffractionCases | Unity/NMBP2008.cs:215-279 | calculateDiffraction fails iff there is no edge, or several edges with a zero ray resolution |
| Attenuation.ClampDiffraction | Unity/NMBP2008.cs:380 | the pure diffraction is clamped to [0, 25] and unchanged inside it |
| Attenuation.DiffractionIndicesExact | Unity/NMBP2008.cs:352-359 | the indices collected are exactly those of the diffraction steps, increasing |
| Attenuation.CollectDiffractionPoints | Unity/NMBP2008.cs:352-359 | the loop collects exactly the diffraction steps' indices |
| Attenuation.HomogenousDiffractingFails | Unity/NMBP2008.cs:349-413 | the diffracting boundary fails iff there is no edge, the first edge is the first step, the last edge is the final step, or several edges meet a zero resolution |
| Attenuation.ScanShape | Unity/NMBP2008.cs:514-533 | the flag loop computes which step types occur in the path |
| Attenuation.LevelIgnoresReflection | Unity/NMBP2008.cs:538-545 | the reflection flag never changes a band's result |
| Attenuation.BoundaryIgnoresReflection | Unity/NMBP2008.cs:579-593 | the homogeneous boundary does not depend on the reflection flag |
| Attenuation.BoundaryPrecedence | Unity/NMBP2008.cs:562-593 | a diffraction selects the diffracting model whatever the lateral flag; a lateral-only path selects the lateral one; the refractive boundary is 0 |
| Attenuation.ShortTermLevels | Unity/NMBP2008.cs:598-614 | short term: under downward refraction the level is emission minus divergence and absorption and never fails; otherwise it also subtracts the homogeneous boundary and fails where that fails |
| Attenuation.PlainPathNeverFails | Unity/NMBP2008.cs:579-593 | a non-empty path without edges always yields its levels |
| Propagation.WalkSpacing | Unity/NMBP2008.cs:67-81 | the walk's steps are 1 m apart from the start distance and lie before the segment's end |
| Propagation.WalkCarry | Unity/NMBP2008.cs:118-122 | a completed walk carries a remainder in [0, 1) that places the next step 1 m after the last one |
| Propagation.WalkKinds | Unity/NMBP2008.cs:84-111 | only a segment's first step is classified by the start node's kind; every later step is propagation |
| Propagation.WalkClassified | Unity/NMBP2008.cs:84-111 | each step is classified at its own distance |
| Propagation.ImageContents | Unity/NMBP2008.cs:502-620 | no image for an empty list; otherwise one image whose maps hold exactly the emission's bands, each with the per-band level and the common divergence; a path without edges never fails |
| Propagation.ImageBands | Unity/NMBP2008.cs:534-617 | the band loop succeeds iff no band fails, and then builds `ImageOf`'s image whatever the order of the bands |
| Propagation.PathsFromAppends | Unity/NMBP2008.cs:54-151 | the traversal only appends to the shared step list and to the image list |
| Propagation.AtEndAppends | Unity/NMBP2008.cs:124-150 | finishing or continuing a path only appends |
| Propagation.PathsAllAppends | Unity/NMBP2008.cs:146-149 | the loop over children only appends |
| Propagation.DeadEndMakesNoImage | Unity/NMBP2008.cs:144-150 | a non-DIRECT leaf contributes only its walk's steps, creates no image and cannot fail |
| Propagation.Engine.constructor | Unity/NMBP2008.cs:38-39 | a fresh engine holds no images and no steps: the empty image list and step list that calculateNoise starts from (the step list is a local of calculateNoise, which the engine's `steps` field stands for) |
| Propagation.Engine.WalkSegment | Unity/NMBP2008.cs:67-123 | the loop appends the steps of `SegmentWalk` and returns its carry and whether the end was reached |
| Propagation.Engine.CreateImage | Unity/NMBP2008.cs:502-620 | succeeds iff `ImageOf` does, appending its image (none for an empty list), and keeps each image object in step with its value |
| Propagation.Engine.PathFromTo | Unity/NMBP2008.cs:54-151 | the new step list and images are those of `PathsFrom`, and it fails iff that does |
| Propagation.Engine.ReachedEnd | Unity/NMBP2008.cs:124-150 | after a completed walk, the state is that of `AfterWalk` |
| Propagation.Engine.FinishPath | Unity/NMBP2008.cs:125-143 | the listener step (when the ground is hit) followed by the image over the whole list, as `FinishedPath` |
| Propagation.Engine.ContinueChildren | Unity/NMBP2008.cs:146-149 | the children are continued in order from the same distance and carry, as `PathsAll` |
| Propagation.Engine.CalculateNoise | Unity/NMBP2008.cs:33-49 | the images returned are those of `Noise`: every child of the source, from distance 0, on one shared step list; it fails iff any term throws |
| Images.ImageSource.constructor | Unity/NMBP2008.cs:509-511 | an image holds the position and the two per-band maps it is given: createImage's default-constructed image once its fields are filled in (lines 550-557 and 616) |
| Images.ImageSource.RemoveDistances | Unity/ImageSource.cs:14-21 | every band's level gains that band's divergence; the band set does not change |
| Images.FoldTwiceAddsTwice | Unity/ImageSource.cs:14-21 | folding twice adds the divergence twice |
| Images.FoldNotIdempotent | Unity/ImageSource.cs:14-21 | with any non-zero divergence, a second fold changes the levels |
| Images.FoldIsReversible | Unity/ImageSource.cs:14-21 | subtracting the divergences restores the levels |

## Left out

- Floating point: every `float` and `double` is a real number. Rounding,
  single-precision constants beyond their decimal value, infinities and NaN are
  not modelled. A float division by zero yields 0 (`Common.Div`) where C#
  yields an infinity or NaN. A property proved over such a case holds for the
  model's 0, not for the source's infinity or NaN.
- Attenuation.GpathBounds: with both heights 0 and `dp` 0 the reach is 0, and
  NMBP2008.cs:298 computes 0.5 * (0 / 0), which is NaN. The model's Gpath is 0
  there, and the bounds `<= 0.5` and `>= 0` hold for that 0, not for the NaN.
  Attenuation.GroundEffectFloor's `>= -3 (1 - Gpath)` inherits the same value.
- Common.TruncToInt: C#'s `int` has 32 bits, the model's integers are unbounded.
  The `(int)` cast of a float beyond the 32-bit range has no defined value in C#
  (int.MinValue on x86 and x64) and is not modelled. NMBP2008.cs:472 casts
  `maximumDistance` this way; the controller's default of 800
  (NoiseController.cs:21) is well within range.
- Common.DivTrunc: `int.MinValue / -1` throws in C# and is not modelled. The
  model's quotient is `2^31`.
- PathTree.ReflectToward: the loop bound `reflectionAngle * angleSteps`
  (NoiseSource.cs:183) wraps around in 32 bits in C#. The model multiplies
  unbounded integers, so for a product beyond the 32-bit range (65536 * 65536,
  which C# wraps to 0) the two disagree on the number of iterations. The
  controller's defaults, 180 and 1 (NoiseController.cs:26-27), are far from it.
- Unity's physics queries (`Physics.Linecast`, `Physics.Raycast` with its layer
  masks), `Quaternion.AngleAxis`, `Vector3.SignedAngle`, `Vector2.Angle` and
  MathNet's `Fit.Line` are uninterpreted functions passed in as parameters. The
  results hold for every choice of them. A lemma that needs one of their
  properties states it as a precondition.
- The noise controller and the vehicle parameters are not part of this model.
  Their settings are the `Config` record. The emission per octave band (the
  vehicle's `soundEmission` at the controller's temperature) and the listener's
  position are parameters.
- Debug drawing (`Debug.DrawLine`, `Debug.DrawRay`, the `debug` flags) and
  Unity's `Start` are left out: they have no effect on the results.
- `Mathf.Approximately` in the step classification is taken as exact equality.
- PathTree.FireAt: the builder's recursion has no termination argument in the
  source. The model bounds it with a `fuel` parameter, and with no fuel left a
  call does nothing. Trees deeper than the fuel are not described.
- PathTree.ScanCast: the diffraction child's `hitObject` is read from the failed
  line cast's hit, which holds no collider. The model stores `None`. The child's
  type is set when it is created, not after its `fireAt` returns. `fireAt` never
  reads the type, so nothing observable changes.
- PathTree.ScanCast: the scan loop is the method `ScanSteps`, which returns the
  scan's outcome; the child is then added by `ScanSpawn`. The source adds the
  child inside the loop, but the loop changes nothing before that point.
- RoseTree.Arena.ConnectChild: requires the child's id to be larger than the
  parent's. The source accepts any node, even one that would make a cycle. The
  only caller in the core (RemoveSelf) meets this.
- Images.ImageSource.RemoveDistances: requires every band of the level map to
  have a divergence, where the source would throw. `createImage` always fills
  both maps with the same bands.
- Attenuation.ProjectionIsOrthogonal: holds only when the squared distance
  between the line points is non-zero and `Pow(Sqrt(x), 2) == x`. The source
  divides by zero otherwise.
- Attenuation.PureDiffractionCases: states when the diffraction fails, not its
  value, which is left to the uninterpreted logarithm and power.
- Attenuation.GroundEffectFloor: states the floor of the ground effect. Its
  value above the floor (equations VI-15 to VI-17) is written out but not
  characterised further.
- Propagation.Engine.CreateImage: the order in which the emission's bands are
  visited is unspecified. When a band throws, the levels already computed are
  discarded together with the whole calculation.
