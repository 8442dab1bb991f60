/** The player: the turret's single-missile slot, the number of missiles it
    may still fire and the current aim angle. */
module Players {
  import opened Wrappers
  import opened Geometry

  /** Missiles a player starts with when the caller names no other number. */
  const DefaultMissiles: int := 3
  /** The radius every fired missile is given. */
  const MissileRadius: real := 5.0

  class Player {
    var missile: Option<Missile>
    var angle: real
    var missilesLeft: int

    constructor (missiles: int := DefaultMissiles)
      ensures missile == None && angle == 0.0 && missilesLeft == missiles
    {
      missile := None;
      angle := 0.0;
      missilesLeft := missiles;
    }

    method AddMissiles(count: int)
      modifies this
      ensures missilesLeft == old(missilesLeft) + count
      ensures missile == old(missile) && angle == old(angle)
    {
      missilesLeft := missilesLeft + count;
    }

    /** A missile may be fired exactly when none is in flight. */
    predicate CanFire()
      reads this
      ensures CanFire() <==> missile == None
    {
      !missile.Some?
    }

    method RemoveMissile()
      modifies this
      ensures missile == None
      ensures missilesLeft == old(missilesLeft) && angle == old(angle)
    {
      missile := None;
    }

    /** Fires from `centre`. The missile's velocity is derived from the aim
        angle and a speed of 10 by trigonometry, so it is passed in as
        `launch`. A fire while a missile is live changes nothing; there is
        no check on the counter, which may go below zero. */
    method Fire(centre: Vec2, launch: Vec2)
      modifies this
      ensures old(CanFire()) ==> missile == Some(Missile(centre, launch, MissileRadius))
      ensures old(CanFire()) ==> missilesLeft == old(missilesLeft) - 1
      ensures !old(CanFire()) ==> missile == old(missile) && missilesLeft == old(missilesLeft)
      ensures angle == old(angle)
    {
      if missile.Some? {
        return;
      }
      missile := Some(Missile(centre, launch, MissileRadius));
      missilesLeft := missilesLeft - 1;
    }

    /** The mouse moved: aim at the new angle. */
    method OnMouseMove(pointerAngle: real)
      modifies this
      ensures angle == pointerAngle
      ensures missile == old(missile) && missilesLeft == old(missilesLeft)
    {
      angle := pointerAngle;
    }

    /** The mouse was clicked: try to fire, then aim at the click angle
        whether or not the fire was accepted. */
    method OnMouseClick(clickAngle: real, centre: Vec2, launch: Vec2)
      modifies this
      ensures angle == clickAngle
      ensures old(CanFire()) ==> missile == Some(Missile(centre, launch, MissileRadius))
      ensures old(CanFire()) ==> missilesLeft == old(missilesLeft) - 1
      ensures !old(CanFire()) ==> missile == old(missile) && missilesLeft == old(missilesLeft)
    {
      Fire(centre, launch);
      angle := clickAngle;
    }
  }
}
