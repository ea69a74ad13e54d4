/**
  The value types the planners exchange: 2D and 3D points, segments, an
  orientation quaternion and the pose option flags. Coordinates are taken as
  given reals; no geometric computation is modelled on them.
 */
module Geometry {

  datatype Point2 = Point2(x: real, y: real)

  datatype Point3 = Point3(x: real, y: real, z: real)

  datatype Segment2 = Segment2(source: Point2, target: Point2)

  datatype Segment3 = Segment3(source: Point3, target: Point3)

  /** A rotation, as scalar and vector part; `QQuaternion()` is the identity. */
  datatype Quaternion = Quaternion(scalar: real, x: real, y: real, z: real)

  const Identity := Quaternion(1.0, 0.0, 0.0, 0.0)

  const Origin3 := Point3(0.0, 0.0, 0.0)

  const Origin2 := Point2(0.0, 0.0)

  /** The pose option flags the planners test. */
  datatype PoseOption = CalculateLocalOffsets | CalculateWithoutOrientation

  /** Projection onto the ground plane: the height is dropped. */
  function To2D(p: Point3): Point2
  {
    Point2(p.x, p.y)
  }
}
