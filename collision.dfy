/** Collision resolution: the bounce off a brick's nearest edge and the
    per-variant policy applied to the brick that was struck. */
module CollisionDetection {
  import opened Wrappers
  import opened Geometry
  import opened Bricks
  import opened Games

  /** The missile's new velocity and position after a bounce. */
  datatype Bounce = Bounce(velocity: Vec2, position: Vec2)

  /** How far the missile's box reaches past the brick's left edge. */
  function OverlapLeft(m: Missile, b: Brick): real {
    (m.position.x + m.radius) - b.position.x
  }

  /** How far the missile's box reaches past the brick's right edge. */
  function OverlapRight(m: Missile, b: Brick): real {
    (b.position.x + Width) - (m.position.x - m.radius)
  }

  /** How far the missile's box reaches past the brick's top edge. */
  function OverlapTop(m: Missile, b: Brick): real {
    (m.position.y + m.radius) - b.position.y
  }

  /** How far the missile's box reaches past the brick's bottom edge. */
  function OverlapBottom(m: Missile, b: Brick): real {
    (b.position.y + Height) - (m.position.y - m.radius)
  }

  function Min(a: real, b: real): real {
    if a <= b then a else b
  }

  function Abs(a: real): real {
    if a < 0.0 then -a else a
  }

  /** A side hit: the horizontal penetration is strictly the smaller one.
      A tie counts as a top or bottom hit. */
  predicate IsSideHit(m: Missile, b: Brick) {
    Min(OverlapLeft(m, b), OverlapRight(m, b)) < Min(OverlapTop(m, b), OverlapBottom(m, b))
  }

  /** The bounce: on a side hit the horizontal velocity flips and the missile
      moves sideways out through the edge it penetrates less; otherwise the
      vertical velocity flips and it moves vertically out through the top or
      the bottom, whichever it penetrates less (the bottom on a tie). */
  function CalculateBounceVector(m: Missile, b: Brick): (r: Bounce)
    ensures IsSideHit(m, b) ==>
      && r.velocity == Vec2(-m.velocity.x, m.velocity.y)
      && r.position.y == m.position.y
      && r.position.x == if OverlapLeft(m, b) < OverlapRight(m, b)
                         then m.position.x - OverlapLeft(m, b)
                         else m.position.x + OverlapRight(m, b)
    ensures !IsSideHit(m, b) ==>
      && r.velocity == Vec2(m.velocity.x, -m.velocity.y)
      && r.position.x == m.position.x
      && r.position.y == if OverlapTop(m, b) < OverlapBottom(m, b)
                         then m.position.y - OverlapTop(m, b)
                         else m.position.y + OverlapBottom(m, b)
  {
    if IsSideHit(m, b) then
      var x := if OverlapLeft(m, b) < OverlapRight(m, b)
               then b.position.x - m.radius
               else b.position.x + Width + m.radius;
      Bounce(m.velocity.(x := m.velocity.x * -1.0), Vec2(x, m.position.y))
    else
      var y := if OverlapTop(m, b) < OverlapBottom(m, b)
               then b.position.y - m.radius
               else b.position.y + Height + m.radius;
      Bounce(m.velocity.(y := m.velocity.y * -1.0), Vec2(m.position.x, y))
  }

  /** The missile with a bounce applied (`setVelocity`, then `setPosition`). */
  function Bounced(m: Missile, bounce: Bounce): Missile {
    m.(velocity := bounce.velocity, position := bounce.position)
  }

  /** After the bounce the two boxes touch at most: the missile sits flush
      against the edge it was pushed out through. */
  lemma BounceSeparates(m: Missile, b: Brick)
    ensures !Overlaps(Bounced(m, CalculateBounceVector(m, b)), b)
  {
  }

  /** For a missile that overlaps the brick the bounce is the least push that
      separates them: along one axis only, by the smallest of the four
      penetration depths. */
  lemma BounceIsLeastPush(m: Missile, b: Brick)
    requires Overlaps(m, b)
    ensures var r := CalculateBounceVector(m, b);
      && (r.position.x == m.position.x || r.position.y == m.position.y)
      && Abs(r.position.x - m.position.x) + Abs(r.position.y - m.position.y)
         == Min(Min(OverlapLeft(m, b), OverlapRight(m, b)), Min(OverlapTop(m, b), OverlapBottom(m, b)))
  {
  }

  /** A bounce reverses exactly one velocity component and keeps its size. */
  lemma BounceKeepsSpeed(m: Missile, b: Brick)
    ensures var v := CalculateBounceVector(m, b).velocity;
      && Abs(v.x) == Abs(m.velocity.x) && Abs(v.y) == Abs(m.velocity.y)
      && (v.x == -m.velocity.x || v.y == -m.velocity.y)
  {
  }

  /** The brick and missile after one resolution. */
  datatype Resolution = Resolution(bricks: map<string, Brick>, missile: Missile)

  /** The collided id the game reports: none, or one whose brick (if the map
      still holds it) the missile overlaps. */
  predicate ReportedCollision(bricks: map<string, Brick>, m: Missile, collided: Option<string>) {
    collided.Some? && collided.value in bricks ==> Overlaps(m, bricks[collided.value])
  }

  /** The outcome of resolving the reported collision. Glass breaks without
      deflecting the missile; steel takes a hit and breaks once its counter
      is below zero; basic breaks; every variant but glass bounces. */
  function Resolve(bricks: map<string, Brick>, m: Missile, collided: Option<string>): (r: Resolution)
    ensures collided.None? || collided.value !in bricks ==> r == Resolution(bricks, m)
    ensures collided.Some? ==> forall k | k != collided.value ::
      (k in r.bricks <==> k in bricks) && (k in bricks ==> r.bricks[k] == bricks[k])
    ensures collided.Some? && collided.value in bricks && bricks[collided.value].kind.Glass? ==>
      r == Resolution(bricks - {collided.value}, m)
    ensures collided.Some? && collided.value in bricks && bricks[collided.value].kind.Basic? ==>
      r == Resolution(bricks - {collided.value}, Bounced(m, CalculateBounceVector(m, bricks[collided.value])))
    ensures collided.Some? && collided.value in bricks && bricks[collided.value].kind.Steel? ==>
      var b := bricks[collided.value];
      && r.missile == Bounced(m, CalculateBounceVector(m, b))
      && (collided.value in r.bricks <==> b.kind.hitsRemaining - 1 >= 0)
      && (collided.value in r.bricks ==> r.bricks[collided.value] == AfterHit(b))
  {
    match collided
    case None => Resolution(bricks, m)
    case Some(id) =>
      if id !in bricks then Resolution(bricks, m)
      else
        var b := bricks[id];
        match b.kind
        case Glass => Resolution(bricks - {id}, m)
        case Steel(_) =>
          var hit := AfterHit(b);
          var remaining := if hit.kind.hitsRemaining < 0 then bricks - {id} else bricks[id := hit];
          Resolution(remaining, Bounced(m, CalculateBounceVector(m, b)))
        case Basic => Resolution(bricks - {id}, Bounced(m, CalculateBounceVector(m, b)))
  }

  /** Resolution keeps every brick stored under its own id and never adds one. */
  lemma ResolveKeepsMapWellFormed(bricks: map<string, Brick>, m: Missile, collided: Option<string>)
    requires KeyedById(bricks)
    ensures var r := Resolve(bricks, m, collided);
      KeyedById(r.bricks) && r.bricks.Keys <= bricks.Keys
  {
  }

  /** The brick a resolution handles no longer collides with the missile
      afterwards: it is gone, or the missile was pushed flush against it. So
      one contact is resolved once. */
  lemma ResolvedBrickStopsColliding(bricks: map<string, Brick>, m: Missile, id: string)
    requires id in CollidedIds(bricks, m)
    ensures var r := Resolve(bricks, m, Some(id));
      id !in CollidedIds(r.bricks, r.missile)
  {
    var b := bricks[id];
    var r := Resolve(bricks, m, Some(id));
    if id in r.bricks {
      assert b.kind.Steel?;
      BounceSeparates(m, b);
      assert r.bricks[id].position == b.position;
    }
  }

  /** Once every brick is gone nothing collides and resolution changes nothing. */
  lemma ClearedLevelIsStable(m: Missile, collided: Option<string>)
    ensures CollidedIds(map[], m) == {}
    ensures Resolve(map[], m, collided) == Resolution(map[], m)
  {
  }

  class CollisionDetectionService {
    const game: Game

    constructor (game: Game)
      ensures this.game == game
    {
      this.game := game;
    }

    /** Resolves the collision the game reports for `missile` and returns the
        missile with its new velocity and position. */
    method ResolveCollision(missile: Missile, collided: Option<string>) returns (updated: Missile)
      requires ReportedCollision(game.bricks, missile, collided)
      modifies game
      ensures Resolution(game.bricks, updated) == Resolve(old(game.bricks), missile, collided)
      ensures old(game.Valid()) ==> game.Valid()
    {
      updated := missile;
      if collided.None? {
        return;
      }
      var id := collided.value;
      var found := game.GetBrick(id);
      if found.None? {
        return;
      }
      var brick := found.value;
      if brick.kind.Glass? {
        game.RemoveBrick(id);
        return;
      }
      var bounce := CalculateBounceVector(missile, brick);
      if brick.kind.Steel? {
        // `onHit` on the brick the map holds
        var hit := AfterHit(brick);
        game.bricks := game.bricks[id := hit];
        if hit.kind.hitsRemaining < 0 {
          game.RemoveBrick(id);
        }
      }
      if brick.kind.Basic? {
        game.RemoveBrick(id);
      }
      updated := Bounced(missile, bounce);
    }
  }
}
