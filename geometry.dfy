/** Plane geometry shared by the engine: points, velocities, the projectile
    and the strict axis-aligned overlap test used by every collision query. */
module Geometry {

  /** A point on the canvas or a per-frame displacement (the source's
      `Position` and `Velocity`, both `{x, y}`). The y axis points down. */
  datatype Vec2 = Vec2(x: real, y: real)

  /** The projectile folded to what the engine reads of it: where it is, how
      far it moves per frame, and its radius. */
  datatype Missile = Missile(position: Vec2, velocity: Vec2, radius: real)

  /** The bounding box of a circle of radius `radius` at `centre` strictly
      overlaps the `width` x `height` rectangle whose top-left corner is
      `topLeft`. Touching edges do not overlap. */
  predicate BoxOverlap(centre: Vec2, radius: real, topLeft: Vec2, width: real, height: real) {
    && centre.x + radius > topLeft.x
    && centre.x - radius < topLeft.x + width
    && centre.y + radius > topLeft.y
    && centre.y - radius < topLeft.y + height
  }
}
