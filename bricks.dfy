/** The brick entities: an immutable value with an id, a top-left position,
    a fixed 50 x 20 size and one of three behavioural variants. */
module Bricks {
  import opened Geometry

  /** The size every brick is given when it is built; nothing changes it. */
  const Width: real := 50.0
  const Height: real := 20.0

  /** The closed set of brick variants. Only a steel brick carries state:
      the number of further hits it takes before a hit destroys it. */
  datatype Kind = Basic | Glass | Steel(hitsRemaining: int)

  datatype Brick = Brick(id: string, position: Vec2, kind: Kind)

  /** The id prefix each brick class puts in front of its random UUID. */
  function IdPrefix(kind: Kind): string {
    match kind
    case Basic => "basic-brick-"
    case Glass => "glass-brick-"
    case Steel(_) => "steel-brick-"
  }

  /** `new Brick(x, y)` of the brick class without variants: the id is
      `brick-` followed by the UUID the constructor draws (here an input). */
  function NewBrick(uuid: string, x: real, y: real): (b: Brick)
    ensures "brick-" <= b.id && b.id[|"brick-"|..] == uuid
    ensures b.position == Vec2(x, y)
    ensures b.kind == Basic
  {
    Brick("brick-" + uuid, Vec2(x, y), Basic)
  }

  /** The constructor of a variant class: its prefix, then the UUID. */
  function NewVariantBrick(kind: Kind, uuid: string, x: real, y: real): (b: Brick)
    ensures IdPrefix(kind) <= b.id && b.id[|IdPrefix(kind)|..] == uuid
    ensures b.position == Vec2(x, y)
    ensures b.kind == kind
  {
    Brick(IdPrefix(kind) + uuid, Vec2(x, y), kind)
  }

  /** The missile's bounding box strictly overlaps the brick's rectangle. */
  predicate Overlaps(m: Missile, b: Brick) {
    BoxOverlap(m.position, m.radius, b.position, Width, Height)
  }

  /** A steel brick after `onHit`: one fewer hit remaining, the id and the
      position as they were. */
  function AfterHit(b: Brick): (r: Brick)
    requires b.kind.Steel?
    ensures r.kind.Steel? && r.kind.hitsRemaining == b.kind.hitsRemaining - 1
    ensures r.id == b.id && r.position == b.position
  {
    b.(kind := Steel(b.kind.hitsRemaining - 1))
  }
}
