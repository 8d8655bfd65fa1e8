/** UCatenaryHelpers: sagging wires between two anchors.

    The shape parameter Z of a catenary solves sinh(Z) / Z == TargetRatio,
    where TargetRatio compares the wire's length (less the height difference)
    with the horizontal span. Two solvers find Z: a Newton iteration and a
    coarse-to-fine forward search. Each sampler derives the wire length and
    TargetRatio, calls its solver, and samples the curve at Steps points.

    Each solver is specified by a function that follows its iteration; the
    methods with the source's loops are proved equal to those functions, and
    the lemmas state what the iterations guarantee.
 */
module CatenaryHelpers {
  import opened Engine

  // ---------------------------------------------------------------------
  // FindParameterNewton

  const MaxIterations: nat := 8
  const Tolerance: real := 0.01

  /** Ratio: sinh(Z) / Z */
  function SinhRatio(m: Maths, z: real): real
  {
    m.Div(m.Sinh(z), z)
  }

  /** Derivative: the derivative of sinh(Z) / Z, (Z cosh(Z) - sinh(Z)) / Z^2 */
  function SinhRatioDerivative(m: Maths, z: real): real
  {
    m.Div(m.Cosh(z) * z - m.Sinh(z), z * z)
  }

  /** Delta of the Newton step at Z for sinh(Z) / Z == targetRatio. */
  function NewtonDelta(m: Maths, targetRatio: real, z: real): real
  {
    m.Div(SinhRatio(m, z) - targetRatio, SinhRatioDerivative(m, z))
  }

  /** Z after `k` Newton steps from the initial guess 1. */
  function NewtonIterate(m: Maths, targetRatio: real, k: nat): real
  {
    if k == 0 then 1.0
    else
      var z := NewtonIterate(m, targetRatio, k - 1);
      z - NewtonDelta(m, targetRatio, z)
  }

  /** The step taken from the `k`-th iterate is below the tolerance. */
  predicate IsSmallStep(m: Maths, targetRatio: real, k: nat)
  {
    Abs(NewtonDelta(m, targetRatio, NewtonIterate(m, targetRatio, k))) < Tolerance
  }

  /** How many updates the loop makes in all, when iteration `k` is reached. */
  function NewtonUpdatesFrom(m: Maths, targetRatio: real, k: nat): nat
    requires k <= MaxIterations
    decreases MaxIterations - k
  {
    if k == MaxIterations then MaxIterations
    else if IsSmallStep(m, targetRatio, k) then k + 1
    else NewtonUpdatesFrom(m, targetRatio, k + 1)
  }

  function NewtonUpdates(m: Maths, targetRatio: real): nat
  {
    NewtonUpdatesFrom(m, targetRatio, 0)
  }

  /** The value FindParameterNewton returns. */
  function NewtonSolve(m: Maths, targetRatio: real): real
  {
    NewtonIterate(m, targetRatio, NewtonUpdates(m, targetRatio))
  }

  /** `n` updates is where the iteration stops: at most MaxIterations, no
      step before the last is small, and unless the budget ran out the last
      one is. */
  ghost predicate StopsAfter(m: Maths, targetRatio: real, n: nat)
  {
    && 1 <= n <= MaxIterations
    && (forall k :: 0 <= k < n - 1 ==> !IsSmallStep(m, targetRatio, k))
    && (n < MaxIterations ==> IsSmallStep(m, targetRatio, n - 1))
  }

  method FindParameterNewton(m: Maths, targetRatio: real) returns (z: real)
    ensures z == NewtonSolve(m, targetRatio)
  {
    z := 1.0;
    var i := 0;
    while i < MaxIterations
      invariant 0 <= i <= MaxIterations
      invariant z == NewtonIterate(m, targetRatio, i)
      invariant NewtonUpdatesFrom(m, targetRatio, i) == NewtonUpdates(m, targetRatio)
    {
      var ratio := SinhRatio(m, z);
      var derivative := SinhRatioDerivative(m, z);
      var delta := m.Div(ratio - targetRatio, derivative);
      z := z - delta;
      if Abs(delta) < Tolerance {
        assert IsSmallStep(m, targetRatio, i);
        break;
      }
      i := i + 1;
    }
  }

  /** Z is updated at most MaxIterations times, and the loop stops right
      after the first update smaller than the tolerance; these conditions
      determine the number of updates. */
  lemma NewtonStopsAfterFirstSmallStep(m: Maths, targetRatio: real)
    ensures StopsAfter(m, targetRatio, NewtonUpdates(m, targetRatio))
    ensures forall n :: StopsAfter(m, targetRatio, n) ==> n == NewtonUpdates(m, targetRatio)
  {
    NewtonUpdatesFromStops(m, targetRatio, 0);
    forall n | StopsAfter(m, targetRatio, n)
      ensures n == NewtonUpdates(m, targetRatio)
    {
      StopCountIsReached(m, targetRatio, n, 0);
    }
  }

  lemma {:induction false} NewtonUpdatesFromStops(m: Maths, targetRatio: real, k: nat)
    requires k <= MaxIterations
    requires forall j :: 0 <= j < k ==> !IsSmallStep(m, targetRatio, j)
    ensures StopsAfter(m, targetRatio, NewtonUpdatesFrom(m, targetRatio, k))
    decreases MaxIterations - k
  {
    if k < MaxIterations && !IsSmallStep(m, targetRatio, k) {
      NewtonUpdatesFromStops(m, targetRatio, k + 1);
    }
  }

  /** Any stopping count is the one the iteration reaches from iteration `k`
      onwards, for every `k` before it. */
  lemma {:induction false} StopCountIsReached(m: Maths, targetRatio: real, n: nat, k: nat)
    requires StopsAfter(m, targetRatio, n) && k < n
    ensures NewtonUpdatesFrom(m, targetRatio, k) == n
    decreases n - k
  {
    if k < n - 1 {
      assert !IsSmallStep(m, targetRatio, k);
      StopCountIsReached(m, targetRatio, n, k + 1);
    }
  }

  // ---------------------------------------------------------------------
  // FindParameterFixed

  const MaxSteps: nat := 8
  const StepsPerRound: nat := 5
  const InitialStepSize: real := 10.0
  const StepShrink: real := 0.2
  const RatioTolerance: real := 0.05

  /** A search either returned early or is still searching from `z`. */
  datatype Search = Returned(z: real) | Searching(z: real)

  /** sinh(Z) / Z at a probe point. */
  function ProbeRatio(m: Maths, testZ: real): real
    requires 0.0 < testZ
  {
    m.Sinh(testZ) / testZ
  }

  /** The early-return test: a finite ratio within RatioTolerance of the target. */
  predicate IsCloseEnough(m: Maths, targetRatio: real, z: real)
    requires 0.0 < z
  {
    !m.IsInf(ProbeRatio(m, z)) && Abs(ProbeRatio(m, z) - targetRatio) < RatioTolerance
  }

  /** The advance test: a finite ratio, not close enough, and not above the target. */
  predicate IsBelowTarget(m: Maths, targetRatio: real, z: real)
    requires 0.0 < z
  {
    var ratio := ProbeRatio(m, z);
    !m.IsInf(ratio) && !(Abs(ratio - targetRatio) < RatioTolerance) && ratio <= targetRatio
  }

  /** The inner loop from its `j`-th probe, with Z at `z`; it never moves Z
      back. */
  function FixedRound(m: Maths, targetRatio: real, z: real, stepSize: real, j: nat): (s: Search)
    requires 1.0 <= z && 0.0 < stepSize && j <= StepsPerRound
    ensures z <= s.z
    decreases StepsPerRound - j
  {
    if j == StepsPerRound then Searching(z)
    else
      var testZ := z + stepSize;
      var ratio := ProbeRatio(m, testZ);
      if m.IsInf(ratio) then Searching(z)
      else if Abs(ratio - targetRatio) < RatioTolerance then Returned(testZ)
      else if ratio > targetRatio then Searching(z)
      else FixedRound(m, targetRatio, testZ, stepSize, j + 1)
  }

  /** The outer loop from its `i`-th round; it never moves Z back. */
  function FixedFrom(m: Maths, targetRatio: real, z: real, stepSize: real, i: nat): (s: Search)
    requires 1.0 <= z && 0.0 < stepSize && i <= MaxSteps
    ensures z <= s.z
    decreases MaxSteps - i
  {
    if i == MaxSteps then Searching(z)
    else
      match FixedRound(m, targetRatio, z, stepSize, 0)
      case Returned(testZ) => Returned(testZ)
      case Searching(next) => FixedFrom(m, targetRatio, next, stepSize * StepShrink, i + 1)
  }

  /** The value FindParameterFixed returns: never below the initial guess 1. */
  function FixedSolve(m: Maths, targetRatio: real): (z: real)
    ensures 1.0 <= z
  {
    FixedFrom(m, targetRatio, 1.0, InitialStepSize, 0).z
  }

  /** How far `k` probes of `stepSize` reach. */
  function RoundReach(stepSize: real, k: nat): (r: real)
    requires 0.0 <= stepSize
    ensures 0.0 <= r
  {
    if k == 0 then 0.0 else stepSize + RoundReach(stepSize, k - 1)
  }

  /** A whole round of probes reaches five StepSizes. */
  lemma FullRoundReach(stepSize: real)
    requires 0.0 <= stepSize
    ensures RoundReach(stepSize, StepsPerRound) == 5.0 * stepSize
  {
    assert RoundReach(stepSize, 1) == stepSize;
    assert RoundReach(stepSize, 2) == 2.0 * stepSize;
    assert RoundReach(stepSize, 3) == 3.0 * stepSize;
    assert RoundReach(stepSize, 4) == 4.0 * stepSize;
  }

  /** The rest of a round moves Z forward by at most one StepSize per
      remaining probe. */
  lemma {:induction false} FixedRoundReach(m: Maths, targetRatio: real, z: real, stepSize: real, j: nat)
    requires 1.0 <= z && 0.0 < stepSize && j <= StepsPerRound
    ensures FixedRound(m, targetRatio, z, stepSize, j).z <= z + RoundReach(stepSize, StepsPerRound - j)
    decreases StepsPerRound - j
  {
    if j < StepsPerRound {
      FixedRoundStep(m, targetRatio, z, stepSize, j);
      FixedRoundReach(m, targetRatio, z + stepSize, stepSize, j + 1);
    }
  }

  /** A probe stops the round there, returns it, or moves on to the next. */
  lemma FixedRoundStep(m: Maths, targetRatio: real, z: real, stepSize: real, j: nat)
    requires 1.0 <= z && 0.0 < stepSize && j < StepsPerRound
    ensures var s := FixedRound(m, targetRatio, z, stepSize, j);
      || s == Searching(z)
      || s == Returned(z + stepSize)
      || s == FixedRound(m, targetRatio, z + stepSize, stepSize, j + 1)
  {
  }

  /** The remaining rounds move Z forward by at most 6.25 times the current
      StepSize: five steps a round, the step shrinking by 0.2 each round. */
  lemma {:induction false} FixedFromReach(m: Maths, targetRatio: real, z: real, stepSize: real, i: nat)
    requires 1.0 <= z && 0.0 < stepSize && i <= MaxSteps
    ensures FixedFrom(m, targetRatio, z, stepSize, i).z <= z + 6.25 * stepSize
    decreases MaxSteps - i
  {
    if i < MaxSteps {
      var s := FixedRound(m, targetRatio, z, stepSize, 0);
      FixedRoundReach(m, targetRatio, z, stepSize, 0);
      FullRoundReach(stepSize);
      if s.Searching? {
        FixedFromReach(m, targetRatio, s.z, stepSize * StepShrink, i + 1);
      }
      RoundThenRest(m, targetRatio, z, stepSize, i);
    }
  }

  /** One round followed by the rest: the reach of both adds up. */
  lemma RoundThenRest(m: Maths, targetRatio: real, z: real, stepSize: real, i: nat)
    requires 1.0 <= z && 0.0 < stepSize && i < MaxSteps
    requires FixedRound(m, targetRatio, z, stepSize, 0).z <= z + 5.0 * stepSize
    requires FixedRound(m, targetRatio, z, stepSize, 0).Searching? ==>
      var next := FixedRound(m, targetRatio, z, stepSize, 0).z;
      FixedFrom(m, targetRatio, next, stepSize * StepShrink, i + 1).z <= next + 6.25 * (stepSize * StepShrink)
    ensures FixedFrom(m, targetRatio, z, stepSize, i).z <= z + 6.25 * stepSize
  {
  }

  /** FindParameterFixed never returns more than 1 + 6.25 * 10. */
  lemma FixedSolveReach(m: Maths, targetRatio: real)
    ensures FixedSolve(m, targetRatio) <= 1.0 + 6.25 * InitialStepSize
  {
    FixedFromReach(m, targetRatio, 1.0, InitialStepSize, 0);
  }

  method FindParameterFixed(m: Maths, targetRatio: real) returns (z: real, ghost ratioEvaluations: nat)
    ensures z == FixedSolve(m, targetRatio)
    ensures ratioEvaluations <= MaxSteps * StepsPerRound
  {
    z := 1.0;
    var stepSize := InitialStepSize;
    ratioEvaluations := 0;
    var i := 0;
    while i < MaxSteps
      invariant 0 <= i <= MaxSteps && 1.0 <= z && 0.0 < stepSize
      invariant FixedFrom(m, targetRatio, z, stepSize, i) == FixedFrom(m, targetRatio, 1.0, InitialStepSize, 0)
      invariant ratioEvaluations <= i * StepsPerRound
    {
      var returned;
      ghost var evaluations;
      z, returned, evaluations := SearchRound(m, targetRatio, z, stepSize);
      ratioEvaluations := ratioEvaluations + evaluations;
      if returned {
        return;
      }
      stepSize := stepSize * StepShrink;
      i := i + 1;
    }
  }

  /** One pass of the inner loop: up to five probes of StepSize each,
      stopping at an infinite ratio or an overshoot, or returning a probe
      within RatioTolerance of the target. */
  method SearchRound(m: Maths, targetRatio: real, start: real, stepSize: real)
    returns (z: real, returned: bool, ghost ratioEvaluations: nat)
    requires 1.0 <= start && 0.0 < stepSize
    ensures FixedRound(m, targetRatio, start, stepSize, 0) == (if returned then Returned(z) else Searching(z))
    ensures ratioEvaluations <= StepsPerRound
  {
    z := start;
    ratioEvaluations := 0;
    var j := 0;
    while j < StepsPerRound
      invariant 0 <= j <= StepsPerRound && start <= z
      invariant FixedRound(m, targetRatio, z, stepSize, j) == FixedRound(m, targetRatio, start, stepSize, 0)
      invariant ratioEvaluations == j
    {
      var testZ := z + stepSize;
      var ratio := ProbeRatio(m, testZ);
      ratioEvaluations := ratioEvaluations + 1;
      if m.IsInf(ratio) {
        break;
      }
      if Abs(ratio - targetRatio) < RatioTolerance {
        return testZ, true, ratioEvaluations;
      }
      if ratio > targetRatio {
        break;
      }
      z := testZ;
      j := j + 1;
    }
    returned := false;
  }

  /** A round that returns early returns a close-enough probe, and a round
      that moves Z moves it only to a probe below the target. */
  lemma {:induction false} FixedRoundOutcome(m: Maths, targetRatio: real, z: real, stepSize: real, j: nat)
    requires 1.0 <= z && 0.0 < stepSize && j <= StepsPerRound
    ensures var s := FixedRound(m, targetRatio, z, stepSize, j);
      && (s.Returned? ==> IsCloseEnough(m, targetRatio, s.z))
      && (s.Searching? && s.z != z ==> IsBelowTarget(m, targetRatio, s.z))
    decreases StepsPerRound - j
  {
    if j < StepsPerRound && IsBelowTarget(m, targetRatio, z + stepSize) {
      FixedRoundOutcome(m, targetRatio, z + stepSize, stepSize, j + 1);
    }
  }

  lemma {:induction false} FixedFromOutcome(m: Maths, targetRatio: real, z: real, stepSize: real, i: nat)
    requires 1.0 <= z && 0.0 < stepSize && i <= MaxSteps
    ensures var s := FixedFrom(m, targetRatio, z, stepSize, i);
      && (s.Returned? ==> IsCloseEnough(m, targetRatio, s.z))
      && (s.Searching? && s.z != z ==> IsBelowTarget(m, targetRatio, s.z))
    decreases MaxSteps - i
  {
    if i < MaxSteps {
      FixedRoundOutcome(m, targetRatio, z, stepSize, 0);
      var s := FixedRound(m, targetRatio, z, stepSize, 0);
      if s.Searching? {
        FixedFromOutcome(m, targetRatio, s.z, stepSize * StepShrink, i + 1);
      }
    }
  }

  /** An early return yields a probe whose ratio is within RatioTolerance of
      the target; otherwise the search ends at the initial guess or at the
      last probe it advanced to, whose ratio is finite and below the target. */
  lemma FixedSolveOutcome(m: Maths, targetRatio: real)
    ensures var s := FixedFrom(m, targetRatio, 1.0, InitialStepSize, 0);
      && FixedSolve(m, targetRatio) == s.z
      && (s.Returned? ==> IsCloseEnough(m, targetRatio, s.z))
      && (s.Searching? ==> s.z == 1.0 || IsBelowTarget(m, targetRatio, s.z))
  {
    FixedFromOutcome(m, targetRatio, 1.0, InitialStepSize, 0);
  }

  // ---------------------------------------------------------------------
  // CreateCatenaryNewton and CreateCatenaryFixed

  /** The radius of PointsAreNear below which no catenary is drawn. */
  const NearDistance: real := 20.0

  /** The anchors differ in X or Y, so the horizontal distance is not zero. */
  predicate HasHorizontalSpan(startPoint: Vec3, endPoint: Vec3)
  {
    startPoint.x != endPoint.x || startPoint.y != endPoint.y
  }

  /** HorizontalDistance: the distance from the start to the end point
      raised or lowered to the start's height. */
  function HorizontalDistance(m: Maths, startPoint: Vec3, endPoint: Vec3): (h: real)
    ensures m.Valid() ==> 0.0 <= h && (h != 0.0 <==> HasHorizontalSpan(startPoint, endPoint))
  {
    HorizontalDistanceSign(m, startPoint, endPoint);
    m.Dist(Vec3(endPoint.x, endPoint.y, startPoint.z), startPoint)
  }

  /** WireLength: the straight-line distance plus the slack, floored at
      `minSlack` (MIN_SLACK). With a positive floor the wire is always longer
      than the height difference. */
  function WireLength(m: Maths, minSlack: real, startPoint: Vec3, endPoint: Vec3, slack: real): (w: real)
    ensures m.Dist(startPoint, endPoint) + minSlack <= w
    ensures m.Dist(startPoint, endPoint) + slack <= w
    ensures w == m.Dist(startPoint, endPoint) + minSlack || w == m.Dist(startPoint, endPoint) + slack
    ensures m.Valid() && 0.0 < minSlack ==> Abs(endPoint.z - startPoint.z) < w
  {
    DistanceCoversHeight(m, startPoint, endPoint);
    m.Dist(startPoint, endPoint) + Max(minSlack, slack)
  }

  /** TargetRatio: sqrt(WireLength^2 - HeightDiff^2) / HorizontalDistance,
      a float division that has no real value when the anchors are
      vertically aligned. */
  function TargetRatio(m: Maths, startPoint: Vec3, endPoint: Vec3, wireLength: real): real
  {
    var heightDiff := endPoint.z - startPoint.z;
    m.Div(m.Sqrt(Square(wireLength) - Square(heightDiff)), HorizontalDistance(m, startPoint, endPoint))
  }

  /** Whenever the anchors are not vertically aligned, the ratio handed to
      the solvers exceeds 1: the wire is longer than the straight line. (For
      the real sinh, sinh(Z) / Z == TargetRatio then has a positive root Z;
      Sinh is uninterpreted here, so that root is not part of this lemma.) */
  lemma TargetRatioExceedsOne(m: Maths, minSlack: real, startPoint: Vec3, endPoint: Vec3, slack: real)
    requires m.Valid() && 0.0 < minSlack && HasHorizontalSpan(startPoint, endPoint)
    ensures 1.0 < TargetRatio(m, startPoint, endPoint, WireLength(m, minSlack, startPoint, endPoint, slack))
  {
    var wireLength := WireLength(m, minSlack, startPoint, endPoint, slack);
    var heightDiff := endPoint.z - startPoint.z;
    var horizontalDistance := HorizontalDistance(m, startPoint, endPoint);
    var totalDistance := m.Dist(startPoint, endPoint);
    HorizontalAndVerticalParts(m, startPoint, endPoint);
    assert 0.0 <= totalDistance < wireLength;
    SquareIsMonotone(totalDistance, wireLength);
    assert Square(horizontalDistance) < Square(wireLength) - Square(heightDiff);
    SqrtAbove(m, Square(wireLength) - Square(heightDiff), horizontalDistance);
    QuotientAboveOne(m.Sqrt(Square(wireLength) - Square(heightDiff)), horizontalDistance);
  }

  /** A, P and Q of the fitted catenary, with the horizontal distance. */
  datatype CatenaryFit = CatenaryFit(horizontalDistance: real, a: real, p: real, q: real)

  /** A = HorizontalDistance / 2Z, P = (HorizontalDistance - A ln((WireLength +
      HeightDiff) / (WireLength - HeightDiff))) / 2 and Q = (EndPoint.Z +
      StartPoint.Z - WireLength cosh(Z) / sinh(Z)) / 2, each quotient a float
      division. */
  function FitCatenary(m: Maths, startPoint: Vec3, endPoint: Vec3, wireLength: real, z: real): CatenaryFit
  {
    var horizontalDistance := HorizontalDistance(m, startPoint, endPoint);
    var heightDiff := endPoint.z - startPoint.z;
    var a := m.Div(horizontalDistance, 2.0 * z);
    var p := (horizontalDistance - a * m.Loge(m.Div(wireLength + heightDiff, wireLength - heightDiff))) / 2.0;
    var q := (endPoint.z + startPoint.z - m.Div(wireLength * m.Cosh(z), m.Sinh(z))) / 2.0;
    CatenaryFit(horizontalDistance, a, p, q)
  }

  /** Which solver a sampler uses. */
  datatype Solver = Newton | Fixed

  function Solve(m: Maths, solver: Solver, targetRatio: real): real
  {
    match solver
    case Newton => NewtonSolve(m, targetRatio)
    case Fixed => FixedSolve(m, targetRatio)
  }

  /** The catenary a sampler fits for the given anchors and total slack. */
  function SagFit(m: Maths, solver: Solver, minSlack: real, startPoint: Vec3, endPoint: Vec3, slack: real): CatenaryFit
  {
    var wireLength := WireLength(m, minSlack, startPoint, endPoint, slack);
    FitCatenary(m, startPoint, endPoint, wireLength, Solve(m, solver, TargetRatio(m, startPoint, endPoint, wireLength)))
  }

  /** The point of the fitted catenary at parameter T: X and Y interpolated
      between the anchors, Z = A cosh((T HorizontalDistance - P) / A) + Q. */
  function CatenaryPointAt(m: Maths, fit: CatenaryFit, startPoint: Vec3, endPoint: Vec3, t: real): Vec3
  {
    Vec3(
      Lerp(startPoint.x, endPoint.x, t),
      Lerp(startPoint.y, endPoint.y, t),
      fit.a * m.Cosh(m.Div(t * fit.horizontalDistance - fit.p, fit.a)) + fit.q)
  }

  /** T of point `i` of `steps`: the float division i / (steps - 1). */
  function StepParameter(m: Maths, steps: nat, i: nat): real
  {
    m.Div(i as real, (steps - 1) as real)
  }

  /** Point `i` of `steps`. */
  function CatenaryPoint(m: Maths, fit: CatenaryFit, startPoint: Vec3, endPoint: Vec3, steps: nat, i: nat): Vec3
  {
    CatenaryPointAt(m, fit, startPoint, endPoint, StepParameter(m, steps, i))
  }

  /** The sampling loop both samplers end with: fills a buffer of `steps`
      points and returns its contents. */
  method SampleCatenary(m: Maths, fit: CatenaryFit, startPoint: Vec3, endPoint: Vec3, steps: nat)
    returns (points: seq<Vec3>)
    ensures |points| == steps
    ensures forall i :: 0 <= i < |points| ==> points[i] == CatenaryPoint(m, fit, startPoint, endPoint, steps, i)
  {
    var buffer := new Vec3[steps];
    for i := 0 to steps
      invariant forall k :: 0 <= k < i ==> buffer[k] == CatenaryPoint(m, fit, startPoint, endPoint, steps, k)
    {
      var t := m.Div(i as real, (steps - 1) as real);
      buffer[i] := CatenaryPointAt(m, fit, startPoint, endPoint, t);
    }
    points := buffer[..];
  }

  method CreateCatenaryNewton(m: Maths, minSlack: real, startPoint: Vec3, endPoint: Vec3,
                              slack: real, slackVariation: real, ran: real, steps: nat)
    returns (points: seq<Vec3>)
    requires Min(0.0, slackVariation) <= ran <= Max(0.0, slackVariation)
    ensures PointsAreNear(startPoint, endPoint, NearDistance) ==> points == []
    ensures !PointsAreNear(startPoint, endPoint, NearDistance) ==> |points| == steps
    ensures !PointsAreNear(startPoint, endPoint, NearDistance) ==>
      forall i :: 0 <= i < |points| ==>
        points[i] == CatenaryPoint(m, SagFit(m, Newton, minSlack, startPoint, endPoint, slack + ran),
                                   startPoint, endPoint, steps, i)
  {
    if PointsAreNear(startPoint, endPoint, NearDistance) {
      return [];
    }
    var wireLength := WireLength(m, minSlack, startPoint, endPoint, slack + ran);
    var targetRatio := TargetRatio(m, startPoint, endPoint, wireLength);
    var z := FindParameterNewton(m, targetRatio);
    var fit := FitCatenary(m, startPoint, endPoint, wireLength, z);
    points := SampleCatenary(m, fit, startPoint, endPoint, steps);
  }

  method CreateCatenaryFixed(m: Maths, minSlack: real, startPoint: Vec3, endPoint: Vec3, slack: real, steps: nat)
    returns (points: seq<Vec3>)
    ensures |points| == steps
    ensures forall i :: 0 <= i < |points| ==>
      points[i] == CatenaryPoint(m, SagFit(m, Fixed, minSlack, startPoint, endPoint, slack),
                                 startPoint, endPoint, steps, i)
  {
    var wireLength := WireLength(m, minSlack, startPoint, endPoint, slack);
    var targetRatio := TargetRatio(m, startPoint, endPoint, wireLength);
    var z, _ := FindParameterFixed(m, targetRatio);
    var fit := FitCatenary(m, startPoint, endPoint, wireLength, z);
    points := SampleCatenary(m, fit, startPoint, endPoint, steps);
  }

  /** With at least two steps, the first point lies above or below the start
      anchor and the last above or below the end anchor. */
  lemma CatenaryEndsAtAnchors(m: Maths, fit: CatenaryFit, startPoint: Vec3, endPoint: Vec3, steps: nat)
    requires 2 <= steps
    ensures var first := CatenaryPoint(m, fit, startPoint, endPoint, steps, 0);
      first.x == startPoint.x && first.y == startPoint.y
    ensures var last := CatenaryPoint(m, fit, startPoint, endPoint, steps, steps - 1);
      last.x == endPoint.x && last.y == endPoint.y
  {
    assert StepParameter(m, steps, steps - 1) == 1.0;
  }

  /** Every point lies over the horizontal chord between the anchors. */
  lemma CatenaryStaysOverChord(m: Maths, fit: CatenaryFit, startPoint: Vec3, endPoint: Vec3, steps: nat, i: nat)
    requires 2 <= steps && i < steps
    ensures var point := CatenaryPoint(m, fit, startPoint, endPoint, steps, i);
      && Min(startPoint.x, endPoint.x) <= point.x <= Max(startPoint.x, endPoint.x)
      && Min(startPoint.y, endPoint.y) <= point.y <= Max(startPoint.y, endPoint.y)
  {
    var n := (steps - 1) as real;
    var t := StepParameter(m, steps, i);
    assert t * n == i as real;
    UnitFraction(i as real, n);
    LerpBetween(startPoint.x, endPoint.x, t);
    LerpBetween(startPoint.y, endPoint.y, t);
  }

  // ---------------------------------------------------------------------
  // Helpers

  lemma HorizontalDistanceSign(m: Maths, startPoint: Vec3, endPoint: Vec3)
    ensures var h := m.Dist(Vec3(endPoint.x, endPoint.y, startPoint.z), startPoint);
      m.Valid() ==> 0.0 <= h && (h != 0.0 <==> HasHorizontalSpan(startPoint, endPoint))
  {
    if m.Valid() {
      SizeSign(m, Sub(startPoint, Vec3(endPoint.x, endPoint.y, startPoint.z)));
    }
  }

  /** Squared, the distance between the anchors splits into its horizontal
      and vertical parts. */
  lemma HorizontalAndVerticalParts(m: Maths, startPoint: Vec3, endPoint: Vec3)
    requires m.Valid()
    ensures Square(m.Dist(startPoint, endPoint))
         == Square(m.Dist(Vec3(endPoint.x, endPoint.y, startPoint.z), startPoint)) + Square(endPoint.z - startPoint.z)
    ensures 0.0 <= m.Dist(startPoint, endPoint)
  {
    var d := Sub(endPoint, startPoint);
    var flat := Sub(startPoint, Vec3(endPoint.x, endPoint.y, startPoint.z));
    SquareOfNegation(d.x);
    SquareOfNegation(d.y);
    assert flat == Vec3(-d.x, -d.y, 0.0);
    assert Square(0.0) == 0.0;
    assert Square(m.Sqrt(SizeSquared(flat))) == SizeSquared(flat);
    assert Square(m.Sqrt(SizeSquared(d))) == SizeSquared(d);
  }

  lemma DistanceCoversHeight(m: Maths, startPoint: Vec3, endPoint: Vec3)
    ensures m.Valid() ==> Abs(endPoint.z - startPoint.z) <= m.Dist(startPoint, endPoint)
  {
    if m.Valid() {
      SqrtBelow(m, SizeSquared(Sub(endPoint, startPoint)), endPoint.z - startPoint.z);
    }
  }

  lemma QuotientAboveOne(a: real, b: real)
    requires 0.0 < b < a
    ensures 1.0 < a / b
  {
    assert a / b * b == a;
    ScaleWeakly(a / b, 1.0, b);
  }

  lemma UnitFraction(i: real, n: real)
    requires 0.0 <= i <= n && 0.0 < n
    ensures 0.0 <= i / n <= 1.0
  {
    var t := i / n;
    assert t * n == i;
    ScaleStrictly(t, 0.0, n);
    ScaleStrictly(1.0, t, n);
  }

  lemma LerpBetween(a: real, b: real, t: real)
    requires 0.0 <= t <= 1.0
    ensures Min(a, b) <= Lerp(a, b, t) <= Max(a, b)
  {
    if a <= b {
      LerpForward(a, b, t);
    } else {
      LerpForward(b, a, 1.0 - t);
      assert Lerp(a, b, t) == Lerp(b, a, 1.0 - t);
    }
  }

  lemma LerpForward(a: real, b: real, t: real)
    requires 0.0 <= t <= 1.0 && a <= b
    ensures a <= Lerp(a, b, t) <= b
  {
    ProductSigns(t, b - a);
    ProductSigns(1.0 - t, b - a);
    assert (b - a) - t * (b - a) == (1.0 - t) * (b - a);
  }
}
