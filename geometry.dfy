/**
 * Points of the 3D scene. The renderer keeps its coordinates in `f32`; this
 * model keeps them as reals, so every arithmetic identity below is exact.
 */
module Geometry {

  /** A position or direction in model, world or camera space. */
  datatype Point = Point(x: real, y: real, z: real)

  const Origin := Point(0.0, 0.0, 0.0)

  /** Componentwise sum: places a model-space point in world space. */
  function Add(p: Point, q: Point): Point {
    Point(p.x + q.x, p.y + q.y, p.z + q.z)
  }

  /** Componentwise difference: a point relative to another one. */
  function Sub(p: Point, q: Point): Point {
    Point(p.x - q.x, p.y - q.y, p.z - q.z)
  }

  /** The squared Euclidean length of `p`. */
  function NormSquared(p: Point): real {
    p.x * p.x + p.y * p.y + p.z * p.z
  }

  /** `p` scaled by `k`. */
  function Scale(k: real, p: Point): Point {
    Point(k * p.x, k * p.y, k * p.z)
  }
}
