# Spline and catenary helpers of UE_EasyPowerLines, in Dafny

This project models the placement and cable-shape helpers of the
UE_EasyPowerLines Unreal Engine plugin (`USplineHelpers` and
`UCatenaryHelpers` in `Source/UtilityPoles/Private/SplineHelpers.cpp`).
It also models the axis lookup of `ACatenaryBase`
(`Source/UtilityPoles/Public/CatenaryBase.h`). It proves properties of the
model.

- `Engine` (engine.dfy) holds the engine's value types: `FVector`,
  `FRotator`, `FTransform` and `EAxis`, plus scalar helpers with contracts.
  It also holds the engine services the helpers call, in two records:
  - `Maths`: square root, sinh, cosh, natural logarithm, the infinity test
    and the vector clamp;
  - `Spline`: the read-only spline component.

  Floats are modelled as `real`. A float division whose divisor may be zero
  is `Maths.Div`. It is the real quotient for a non-zero divisor, and an
  abstract non-finite value otherwise.
- `SplineHelpers` (spline_helpers.dfy) models four things:
  - the even-spacing sampler `GetTransformPointsAlongSpline`, a method with
    the source's appending loop;
  - the mesh extent `GetMeshLenght`;
  - the counts and distances built on the extent;
  - the tiler `GetSplineMeshStartAndEndByIteration`, a function returning
    the four out-parameters as one record.
- `CatenaryHelpers` (catenary_helpers.dfy) models the two solvers for the
  catenary parameter Z, and the two samplers that call them.
  - Each solver is a method with the source's loops, breaks and early
    return. It is proved equal to a recursive function that follows the
    iteration: `NewtonSolve` for the Newton solver, `FixedSolve` for the
    forward search.
  - Lemmas about those functions state what the loops guarantee.
  - The samplers compute the wire length, the target ratio and the fitted
    catenary. Each fills a new array of `Steps` points and returns its
    contents.
- `CatenaryBase` (catenary_base.dfy) models `EnumFinder` and `FindAxis`. It
  relates the lookup to the axis `GetMeshLenght` measures.

## Model

| member | source | states |
|---|---|---|
| SplineHelpers.InstancesToSpawn | Source/UtilityPoles/Private/SplineHelpers.cpp:10-11 | the count is ceil(L / d): count - 1 intervals of length d fall short of L, count intervals reach it, and a spline of positive length gets at least one interval |
| SplineHelpers.GetTransformPointsAlongSpline | Source/UtilityPoles/Private/SplineHelpers.cpp:8-29 | returns exactly count + 1 transforms. Entry i is the spline's transform at distance (L / count) * i. With bFacingUp it has pitch 0, the sampled yaw, roll and location, and unit scale; without it, it is the sampled transform unchanged |
| SplineHelpers.SampleDistancesSpanSpline | Source/UtilityPoles/Private/SplineHelpers.cpp:15-17 | for L > 0 the first sample is at 0 and the last at L, and consecutive samples are a positive distance apart, no more than the requested spacing |
| SplineHelpers.GetMeshLenght | Source/UtilityPoles/Private/SplineHelpers.cpp:31-55 | never negative. A null mesh gives 0. Otherwise it is abs(min) + abs(max) of the bounding box on the chosen axis, and any axis other than Y or Z reads X |
| SplineHelpers.MeshLenghtVersusWidth | Source/UtilityPoles/Private/SplineHelpers.cpp:43-53 | the extent is never less than the box's width on that axis, and equals the width exactly when the box straddles the origin on that axis |
| SplineHelpers.GetMeshesCountInSpline | Source/UtilityPoles/Private/SplineHelpers.cpp:57-60 | for a non-negative spline length, the count is the number of whole meshes that fit: count meshes fit within the length and count + 1 do not |
| SplineHelpers.GetDistanceBetweenSplinePoints | Source/UtilityPoles/Private/SplineHelpers.cpp:73-76 | non-negative, and equal to one of the two differences of the points' distances along the spline |
| SplineHelpers.DistanceBetweenSplinePointsIsSymmetric | Source/UtilityPoles/Private/SplineHelpers.cpp:73-76 | swapping the two spline points does not change the distance |
| SplineHelpers.GetMeshCountBewteenSplinePoints | Source/UtilityPoles/Private/SplineHelpers.cpp:78-81 | count meshes fit within the distance between the points, count + 1 do not, and the count is never negative |
| SplineHelpers.GetSplineMeshStartAndEndByIteration | Source/UtilityPoles/Private/SplineHelpers.cpp:62-71 | the positions are the spline's locations at Index * Bound + offset and (Index + 1) * Bound + offset; the tangents are the spline's tangents at those two distances clamped to size Bound, so for Bound >= 0 both have length at most Bound |
| SplineHelpers.TilesAreContiguous | Source/UtilityPoles/Private/SplineHelpers.cpp:64-65 | each tile spans exactly Bound of arc length, and tile Index ends where tile Index + 1 starts: no gaps, no overlaps |
| CatenaryHelpers.FindParameterNewton | Source/UtilityPoles/Private/SplineHelpers.cpp:175-194 | the loop returns NewtonSolve: the Newton iterate from Z = 1 after the number of updates the loop makes |
| CatenaryHelpers.NewtonStopsAfterFirstSmallStep | Source/UtilityPoles/Private/SplineHelpers.cpp:181-190 | Z is updated between 1 and 8 times. No update before the last is below the 0.01 tolerance, and unless the budget of 8 ran out the last one is. These conditions determine the number of updates uniquely |
| CatenaryHelpers.FindParameterFixed | Source/UtilityPoles/Private/SplineHelpers.cpp:196-223 | the nested loops return FixedSolve, and evaluate the ratio at most 8 * 5 = 40 times |
| CatenaryHelpers.FixedRound | Source/UtilityPoles/Private/SplineHelpers.cpp:204-219 | one inner round never moves Z back: Z only advances by StepSize |
| CatenaryHelpers.FixedFrom | Source/UtilityPoles/Private/SplineHelpers.cpp:202-221 | the remaining rounds never move Z back |
| CatenaryHelpers.FixedSolve | Source/UtilityPoles/Private/SplineHelpers.cpp:196-223 | the result is never below the initial guess 1 |
| CatenaryHelpers.SearchRound | Source/UtilityPoles/Private/SplineHelpers.cpp:204-219 | the inner loop returns the outcome FixedRound specifies: an early return with the probe it returns, or the Z it reached, and evaluates the ratio at most 5 times |
| CatenaryHelpers.FixedRoundReach | Source/UtilityPoles/Private/SplineHelpers.cpp:204-219 | the rest of a round moves Z forward by at most one StepSize for each probe left |
| CatenaryHelpers.FixedFromReach | Source/UtilityPoles/Private/SplineHelpers.cpp:202-221 | the remaining rounds move Z forward by at most 6.25 times the current StepSize: 5 steps per round, the step shrinking by 0.2 each round |
| CatenaryHelpers.FixedSolveReach | Source/UtilityPoles/Private/SplineHelpers.cpp:196-223 | the forward search never returns more than 1 + 62.5 |
| CatenaryHelpers.FixedRoundOutcome | Source/UtilityPoles/Private/SplineHelpers.cpp:206-218 | a round that returns early returns a probe whose ratio is finite and within 0.05 of the target. A round that moves Z moves it only to a probe whose ratio is finite and not above the target |
| CatenaryHelpers.FixedFromOutcome | Source/UtilityPoles/Private/SplineHelpers.cpp:202-221 | the same two facts hold over all remaining rounds |
| CatenaryHelpers.FixedSolveOutcome | Source/UtilityPoles/Private/SplineHelpers.cpp:196-223 | an early return yields a probe within 0.05 of the target. Otherwise the result is the initial 1, or a probe whose ratio is finite and not above the target |
| CatenaryHelpers.HorizontalDistance | Source/UtilityPoles/Private/SplineHelpers.cpp:95-97 | non-negative, and zero exactly when the anchors share X and Y |
| CatenaryHelpers.WireLength | Source/UtilityPoles/Private/SplineHelpers.cpp:99 | at least TotalDistance + MIN_SLACK and at least TotalDistance + slack, equal to one of them. With a positive MIN_SLACK it exceeds the height difference |
| CatenaryHelpers.TargetRatioExceedsOne | Source/UtilityPoles/Private/SplineHelpers.cpp:103-105 | when the anchors are not vertically aligned and MIN_SLACK is positive, the target ratio exceeds 1 (for the real sinh this is the condition for sinh(Z) / Z to equal it at some Z > 0, which the model, with Sinh uninterpreted, does not prove) |
| CatenaryHelpers.SampleCatenary | Source/UtilityPoles/Private/SplineHelpers.cpp:115-127 | returns exactly Steps points. Point i is the fitted catenary's point at T = i / (Steps - 1) |
| CatenaryHelpers.CreateCatenaryNewton | Source/UtilityPoles/Private/SplineHelpers.cpp:83-130 | empty when the anchors are within 20 units on every axis. Otherwise exactly Steps points, point i on the catenary fitted with the Newton solver for slack + ran |
| CatenaryHelpers.CreateCatenaryFixed | Source/UtilityPoles/Private/SplineHelpers.cpp:132-173 | no near-point guard: always exactly Steps points, point i on the catenary fitted with the forward search for the given slack |
| CatenaryHelpers.CatenaryEndsAtAnchors | Source/UtilityPoles/Private/SplineHelpers.cpp:117-127 | with at least two steps, point 0 has the start anchor's X and Y, and point Steps - 1 the end anchor's |
| CatenaryHelpers.CatenaryStaysOverChord | Source/UtilityPoles/Private/SplineHelpers.cpp:160-170 | every point's X and Y lie between the anchors' X and Y |
| CatenaryBase.FindAxis | Source/UtilityPoles/Public/CatenaryBase.h:85-97 | the lookup always finds an entry. X, Y and Z map to the same spline-mesh axis, and None falls back to X |
| CatenaryBase.EnumFinderCoversEveryAxis | Source/UtilityPoles/Public/CatenaryBase.h:85-91 | every EAxis value is a key of EnumFinder, so FindAxis never dereferences a null result |
| CatenaryBase.MeshIsMeasuredAlongItsSplineAxis | Source/UtilityPoles/Public/CatenaryBase.h:93-97 | for every non-null mesh and every axis, GetMeshLenght measures the bounding box along the spline-mesh axis FindAxis chooses |

Scalar helpers in `Engine` also carry contracts: `Abs`, `Max`, `Min`,
`Ceil` (CeilToInt), `Trunc` (TruncToInt, rounding toward zero) and
`Square`. They model engine library calls, not code of this repository.

## Left out

- Floating point is not modelled: no rounding, overflow or NaN. Floats are
  reals. A division by a possibly-zero divisor yields one abstract value,
  `Maths.nonFinite`, so infinities and NaN are not told apart.
- Sinh, Cosh, Loge and Sqrt are uninterpreted; `Maths.Valid` assumes only
  that Sqrt is the non-negative square root. So the numeric Z coordinate of
  a catenary point is not stated, nor that the curve passes through the
  anchors' heights. The Newton iteration is not proved to converge.
- `isinf` in the forward search is the abstract predicate `Maths.IsInf`.
- The spline component is a record of oracle functions: length, transform,
  location and tangent at a distance, and distance at a spline point.
  GetClampedToSize is constrained only by "the result is no longer than
  the maximum".
- `FMath::FRandRange(0, SlackVariation)` is the parameter `ran`. The caller
  guarantees it lies between 0 and SlackVariation.
- `FVector::PointsAreNear` is modelled as "every component differs by less
  than the radius", which is its engine definition.
- `MIN_SLACK` is declared in SplineHelpers.h, which is not part of this
  model. It is the parameter `minSlack`. Two facts need it to be positive:
  `TargetRatioExceedsOne`, and the last ensures of `WireLength` (the wire
  is longer than the height difference).
- CeilToInt and TruncToInt are exact on the reals. Their 32-bit range is
  not modelled, and neither is the int32 range of Index, Steps or the
  point numbers.
- CreateCatenaryNewton and CreateCatenaryFixed take Steps as a natural
  number. A negative Steps, which `SetNum` rejects, is not modelled.
- GetTransformPointsAlongSpline requires a non-negative spline length and a
  spacing taken to be positive. A zero spacing gives an infinite or NaN
  quotient, whose CeilToInt has no integer value. A negative spacing gives
  a finite quotient the code would handle (a count of at most 0, so the
  loop runs once or not at all); the model does not cover it.
  - A spline of length zero gives the count 0. The code then samples its one
    transform at (0 / 0) * 0, which is NaN. In the model the distance is
    `Maths.nonFinite * 0`, which is 0, so the model samples at distance 0.
- GetMeshesCountInSpline and GetMeshCountBewteenSplinePoints require a
  non-zero mesh length, because TruncToInt of a non-finite quotient has no
  integer value.
- GetMeshesCountInSpline: its bracket on the count is stated for a
  non-negative spline length, the only kind a spline has.
- A float division by zero yields `Maths.nonFinite`, which is an ordinary
  real once it enters further arithmetic or a comparison, while an IEEE
  infinity or NaN propagates and fails every comparison. Results on those
  inputs are therefore not the source's; the model states nothing about
  them beyond what its contracts say for any value of `nonFinite`:
  - a zero horizontal distance in the catenary samplers;
  - a single step, where T = 0 / 0 and the code yields NaN coordinates,
    while the model's point 0 has X = Start.X + nonFinite * (End.X - Start.X);
  - a zero derivative in FindParameterNewton, where the code's Delta is
    infinite or NaN and never passes |Delta| < 0.01, while the model's
    Delta is `nonFinite` and passes the test exactly when |nonFinite| < 0.01;
  - the zero-length spline in GetTransformPointsAlongSpline, above.
- The rest of `ACatenaryBase` in CatenaryBase.h is declarations without
  bodies here, so it is not part of this model:
  - the actor lifecycle;
  - spline and spline-mesh pooling;
  - the parallel catenary fan-out.
- The counts are specified with truncation toward zero, as the code does.
  Floor and truncation agree on the non-negative quotients the counts
  receive.
- The even-spacing sampler divides by the count without a guard, as the
  code does: the code has no special case for a zero-length spline.
