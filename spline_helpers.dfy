/** USplineHelpers: placement queries along a spline.

    Even spacing of transforms along a spline, the extent of a mesh along
    one axis, how many meshes of that extent fit along a spline or between
    two of its points, and the start and end geometry of one tile of a row
    of fixed-length spline meshes.
 */
module SplineHelpers {
  import opened Engine

  // ---------------------------------------------------------------------
  // GetTransformPointsAlongSpline

  /** instancesToSpawn: the fewest intervals of length at most
      `distBetweenObjects` that cover the spline. */
  function InstancesToSpawn(splineLength: real, distBetweenObjects: real): (count: int)
    requires 0.0 < distBetweenObjects
    ensures (count - 1) as real * distBetweenObjects < splineLength
    ensures splineLength <= count as real * distBetweenObjects
    ensures 0.0 < splineLength ==> 1 <= count
  {
    var q := splineLength / distBetweenObjects;
    var c := Ceil(q);
    assert q * distBetweenObjects == splineLength;
    ScaleStrictly(c as real - 1.0, q, distBetweenObjects);
    ScaleWeakly(q, c as real, distBetweenObjects);
    assert q <= c as real;
    assert q * distBetweenObjects <= c as real * distBetweenObjects;
    assert splineLength <= c as real * distBetweenObjects;
    c
  }

  /** distanceAlongSpline of sample `i` when the spline is cut into `count`
      equal intervals; the quotient is a float division, with no real value
      for a spline of length zero, where `count` is zero. */
  function SampleDistance(m: Maths, splineLength: real, count: int, i: int): real
  {
    m.Div(splineLength, count as real) * i as real
  }

  /** A transform with the pitch levelled out and unit scale, keeping yaw,
      roll and location. */
  predicate IsFacingUp(t: Transform, sampled: Transform)
  {
    && t.rotation == Rotator(0.0, sampled.rotation.yaw, sampled.rotation.roll)
    && t.location == sampled.location
    && t.scale == Vec3(1.0, 1.0, 1.0)
  }

  /** Sample `i` as the sampler returns it. */
  predicate IsSpawnPoint(m: Maths, spline: Spline, count: int, facingUp: bool, i: int, t: Transform)
  {
    var sampled := spline.GetTransformAtDistance(SampleDistance(m, spline.GetSplineLength(), count, i));
    if facingUp then IsFacingUp(t, sampled) else t == sampled
  }

  method GetTransformPointsAlongSpline(m: Maths, spline: Spline, distBetweenObjects: real, facingUp: bool)
    returns (spawnPoints: seq<Transform>)
    requires 0.0 <= spline.GetSplineLength() && 0.0 < distBetweenObjects
    ensures |spawnPoints| == InstancesToSpawn(spline.GetSplineLength(), distBetweenObjects) + 1
    ensures forall i :: 0 <= i < |spawnPoints| ==>
      IsSpawnPoint(m, spline, |spawnPoints| - 1, facingUp, i, spawnPoints[i])
  {
    var splineLength := spline.GetSplineLength();
    var instancesToSpawn := InstancesToSpawn(splineLength, distBetweenObjects);
    spawnPoints := [];
    var i := 0;
    while i <= instancesToSpawn
      invariant 0 <= i <= instancesToSpawn + 1
      invariant |spawnPoints| == i
      invariant forall k :: 0 <= k < i ==>
        IsSpawnPoint(m, spline, instancesToSpawn, facingUp, k, spawnPoints[k])
    {
      var distanceAlongSpline := m.Div(splineLength, instancesToSpawn as real) * i as real;
      var splinePointTransform := spline.GetTransformAtDistance(distanceAlongSpline);
      var facingUpTransform := Transform(
        Rotator(0.0, splinePointTransform.rotation.yaw, splinePointTransform.rotation.roll),
        splinePointTransform.location,
        Vec3(1.0, 1.0, 1.0));
      assert distanceAlongSpline == SampleDistance(m, splineLength, instancesToSpawn, i);
      var spawned := if facingUp then facingUpTransform else splinePointTransform;
      spawnPoints := spawnPoints + [spawned];
      i := i + 1;
    }
  }

  /** The samples start at the beginning of the spline, end at its end, and
      are equally spaced, no further apart than requested. */
  lemma SampleDistancesSpanSpline(m: Maths, splineLength: real, distBetweenObjects: real, i: int)
    requires 0.0 < splineLength && 0.0 < distBetweenObjects
    ensures var count := InstancesToSpawn(splineLength, distBetweenObjects);
      && SampleDistance(m, splineLength, count, 0) == 0.0
      && SampleDistance(m, splineLength, count, count) == splineLength
      && 0.0 < SampleDistance(m, splineLength, count, i + 1) - SampleDistance(m, splineLength, count, i)
      && SampleDistance(m, splineLength, count, i + 1) - SampleDistance(m, splineLength, count, i) <= distBetweenObjects
  {
    var count := InstancesToSpawn(splineLength, distBetweenObjects);
    var spacing := splineLength / count as real;
    assert m.Div(splineLength, count as real) == spacing;
    assert SampleDistance(m, splineLength, count, i + 1) - SampleDistance(m, splineLength, count, i) == spacing;
    assert spacing * count as real == splineLength;
    ScaleWeakly(spacing * count as real, distBetweenObjects * count as real, 1.0 / count as real);
    assert spacing * count as real * (1.0 / count as real) == spacing;
  }

  // ---------------------------------------------------------------------
  // GetMeshLenght and the counts built on it

  /** FBox */
  datatype Box = Box(min: Vec3, max: Vec3)

  /** A UStaticMesh pointer: null, or a mesh with its bounding box. */
  datatype StaticMesh = NullMesh | StaticMesh(boundingBox: Box)

  /** The component GetMeshLenght reads for an axis; None reads X. */
  function MeasuredComponent(v: Vec3, axis: Axis): real
  {
    match axis
    case Y => v.y
    case Z => v.z
    case _ => v.x
  }

  function GetMeshLenght(mesh: StaticMesh, axis: Axis): (length: real)
    ensures 0.0 <= length
    ensures mesh.NullMesh? ==> length == 0.0
    ensures mesh.StaticMesh? ==>
      length == Abs(MeasuredComponent(mesh.boundingBox.min, axis)) + Abs(MeasuredComponent(mesh.boundingBox.max, axis))
  {
    if mesh.NullMesh? then 0.0
    else
      var minBoundingBox, maxBoundingBox := mesh.boundingBox.min, mesh.boundingBox.max;
      match axis
      case X => Abs(minBoundingBox.x) + Abs(maxBoundingBox.x)
      case Y => Abs(minBoundingBox.y) + Abs(maxBoundingBox.y)
      case Z => Abs(minBoundingBox.z) + Abs(maxBoundingBox.z)
      case _ => Abs(minBoundingBox.x) + Abs(maxBoundingBox.x)
  }

  /** |min| + |max| is never less than the width of the box on that axis,
      and is exactly the width when the box straddles the origin there. */
  lemma MeshLenghtVersusWidth(box: Box, axis: Axis)
    ensures var lo, hi := MeasuredComponent(box.min, axis), MeasuredComponent(box.max, axis);
      && Abs(hi - lo) <= GetMeshLenght(StaticMesh(box), axis)
      && (GetMeshLenght(StaticMesh(box), axis) == hi - lo <==> lo <= 0.0 <= hi)
  {
  }

  function GetMeshesCountInSpline(spline: Spline, mesh: StaticMesh, axis: Axis): (count: int)
    requires GetMeshLenght(mesh, axis) != 0.0
    ensures 0.0 <= spline.GetSplineLength() ==>
      && 0 <= count
      && count as real * GetMeshLenght(mesh, axis) <= spline.GetSplineLength()
      && spline.GetSplineLength() < (count + 1) as real * GetMeshLenght(mesh, axis)
  {
    var meshLength := GetMeshLenght(mesh, axis);
    var count := Trunc(spline.GetSplineLength() / meshLength);
    FitsInto(spline.GetSplineLength(), meshLength, count);
    count
  }

  function GetDistanceBetweenSplinePoints(spline: Spline, point1: int, point2: int): (distance: real)
    ensures var d1, d2 := spline.GetDistanceAtSplinePoint(point1), spline.GetDistanceAtSplinePoint(point2);
      0.0 <= distance && (distance == d1 - d2 || distance == d2 - d1)
  {
    Abs(spline.GetDistanceAtSplinePoint(point1) - spline.GetDistanceAtSplinePoint(point2))
  }

  lemma DistanceBetweenSplinePointsIsSymmetric(spline: Spline, point1: int, point2: int)
    ensures GetDistanceBetweenSplinePoints(spline, point1, point2)
         == GetDistanceBetweenSplinePoints(spline, point2, point1)
  {
  }

  function GetMeshCountBewteenSplinePoints(spline: Spline, mesh: StaticMesh, axis: Axis, point1: int, point2: int): (count: int)
    requires GetMeshLenght(mesh, axis) != 0.0
    ensures var distance := GetDistanceBetweenSplinePoints(spline, point1, point2);
      && 0 <= count
      && count as real * GetMeshLenght(mesh, axis) <= distance
      && distance < (count + 1) as real * GetMeshLenght(mesh, axis)
  {
    var distance := GetDistanceBetweenSplinePoints(spline, point1, point2);
    var meshLength := GetMeshLenght(mesh, axis);
    var count := Trunc(distance / meshLength);
    FitsInto(distance, meshLength, count);
    count
  }

  // ---------------------------------------------------------------------
  // GetSplineMeshStartAndEndByIteration

  /** StartPosition, StartTangent, EndPosition and EndTangent of one tile. */
  datatype TileSpan = TileSpan(startPosition: Vec3, startTangent: Vec3, endPosition: Vec3, endTangent: Vec3)

  function TileStartDistance(index: int, bound: real, newStartPosition: real): real
  {
    index as real * bound + newStartPosition
  }

  function TileEndDistance(index: int, bound: real, newStartPosition: real): real
  {
    (index + 1) as real * bound + newStartPosition
  }

  function GetSplineMeshStartAndEndByIteration(m: Maths, index: int, bound: real, spline: Spline, newStartPosition: real): (span: TileSpan)
    ensures span.startPosition == spline.GetLocationAtDistance(TileStartDistance(index, bound, newStartPosition))
    ensures span.endPosition == spline.GetLocationAtDistance(TileEndDistance(index, bound, newStartPosition))
    ensures span.startTangent == m.ClampedToSize(spline.GetTangentAtDistance(TileStartDistance(index, bound, newStartPosition)), bound)
    ensures span.endTangent == m.ClampedToSize(spline.GetTangentAtDistance(TileEndDistance(index, bound, newStartPosition)), bound)
    ensures m.Valid() && 0.0 <= bound ==> m.Size(span.startTangent) <= bound && m.Size(span.endTangent) <= bound
  {
    var startDistance := index as real * bound + newStartPosition;
    var endDistance := (index + 1) as real * bound + newStartPosition;
    TileSpan(
      spline.GetLocationAtDistance(startDistance),
      m.ClampedToSize(spline.GetTangentAtDistance(startDistance), bound),
      spline.GetLocationAtDistance(endDistance),
      m.ClampedToSize(spline.GetTangentAtDistance(endDistance), bound))
  }

  /** Each tile covers exactly `bound` of arc length, and tile `index` ends
      where tile `index + 1` starts: the tiles leave no gaps and do not
      overlap. */
  lemma TilesAreContiguous(index: int, bound: real, newStartPosition: real)
    ensures TileEndDistance(index, bound, newStartPosition) - TileStartDistance(index, bound, newStartPosition) == bound
    ensures TileEndDistance(index, bound, newStartPosition) == TileStartDistance(index + 1, bound, newStartPosition)
  {
  }

  // ---------------------------------------------------------------------
  // Arithmetic helpers

  /** The truncated quotient of a non-negative length counts how many whole
      pieces fit into it. */
  lemma FitsInto(distance: real, pieceLength: real, count: int)
    requires 0.0 <= pieceLength && pieceLength != 0.0 && count == Trunc(distance / pieceLength)
    ensures 0.0 <= distance ==> 0 <= count
    ensures 0.0 <= distance ==> count as real * pieceLength <= distance
    ensures 0.0 <= distance ==> distance < (count + 1) as real * pieceLength
  {
    QuotientTimesDivisor(distance, pieceLength);
    FitsIntoQuotient(distance, pieceLength, distance / pieceLength, count);
  }

  lemma FitsIntoQuotient(distance: real, pieceLength: real, q: real, count: int)
    requires 0.0 < pieceLength && q * pieceLength == distance
    requires 0.0 <= q ==> 0 <= count && count as real <= q < (count + 1) as real
    ensures 0.0 <= distance ==> 0 <= count
    ensures 0.0 <= distance ==> count as real * pieceLength <= distance
    ensures 0.0 <= distance ==> distance < (count + 1) as real * pieceLength
  {
    if 0.0 <= distance {
      assert 0.0 <= q by {
        ScaleStrictly(q, 0.0, pieceLength);
      }
      Bracket(q, pieceLength, count);
    }
  }

  lemma Bracket(q: real, p: real, n: int)
    requires 0.0 < p && n as real <= q < (n + 1) as real
    ensures n as real * p <= q * p < (n + 1) as real * p
  {
    ScaleWeakly(n as real, q, p);
    ScaleStrictly(q, (n + 1) as real, p);
  }
}
