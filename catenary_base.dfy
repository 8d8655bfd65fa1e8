/** The axis lookup of ACatenaryBase: the spline-mesh forward axis that
    matches the axis a wire mesh is measured along. */
module CatenaryBase {
  import Engine
  import SplineHelpers

  /** ESplineMeshAxis::Type */
  datatype SplineMeshAxis = X | Y | Z

  /** EnumFinder: every EAxis value to a spline-mesh axis, None to X. */
  const EnumFinder: map<Engine.Axis, SplineMeshAxis> :=
    map[Engine.None := X, Engine.X := X, Engine.Y := Y, Engine.Z := Z]

  /** The component of a vector along a spline-mesh axis. */
  function Component(v: Engine.Vec3, axis: SplineMeshAxis): real
  {
    match axis
    case X => v.x
    case Y => v.y
    case Z => v.z
  }

  /** FindAxis dereferences the result of EnumFinder.Find; every EAxis value
      is a key, so the lookup always succeeds. The result names the same
      axis as its argument, and None falls back to X. */
  function FindAxis(axis: Engine.Axis): (found: SplineMeshAxis)
    ensures axis.None? || axis.X? <==> found.X?
    ensures axis.Y? <==> found.Y?
    ensures axis.Z? <==> found.Z?
  {
    EnumFinderCoversEveryAxis(axis);
    EnumFinder[axis]
  }

  lemma EnumFinderCoversEveryAxis(axis: Engine.Axis)
    ensures axis in EnumFinder
  {
    match axis
    case None => assert EnumFinder[Engine.None] == X;
    case X => assert EnumFinder[Engine.X] == X;
    case Y => assert EnumFinder[Engine.Y] == Y;
    case Z => assert EnumFinder[Engine.Z] == Z;
  }

  /** A wire mesh is laid along the axis its length is measured on: for every
      non-null mesh and EAxis value, GetMeshLenght reads the bounding box along the
      spline-mesh axis FindAxis chooses. */
  lemma MeshIsMeasuredAlongItsSplineAxis(box: SplineHelpers.Box, axis: Engine.Axis)
    ensures SplineHelpers.GetMeshLenght(SplineHelpers.StaticMesh(box), axis)
         == Engine.Abs(Component(box.min, FindAxis(axis))) + Engine.Abs(Component(box.max, FindAxis(axis)))
  {
  }
}
