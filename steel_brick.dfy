/** The steel brick: the one brick whose state a hit changes in place. */
module SteelBricks {
  import opened Geometry
  import opened Bricks

  /** Hits a steel brick is given when the caller names no other number. */
  const DefaultHits: int := 3

  class SteelBrick {
    const id: string
    const position: Vec2
    var hitsRemaining: int

    /** The brick as a value, the form in which the game's brick map holds it. */
    function Snapshot(): (b: Brick)
      reads this
      ensures b.id == id && b.position == position && b.kind == Steel(hitsRemaining)
    {
      Brick(id, position, Steel(hitsRemaining))
    }

    constructor (uuid: string, x: real, y: real, hits: int := DefaultHits)
      ensures Snapshot() == NewVariantBrick(Steel(hits), uuid, x, y)
    {
      id := IdPrefix(Steel(hits)) + uuid;
      position := Vec2(x, y);
      hitsRemaining := hits;
    }

    function GetHitsRemaining(): int
      reads this
    {
      hitsRemaining
    }

    /** One hit: the counter drops by one; id and position cannot change. */
    method OnHit()
      modifies this
      ensures Snapshot() == AfterHit(old(Snapshot()))
    {
      hitsRemaining := hitsRemaining - 1;
    }
  }

  /** A steel brick after `n` hits. */
  function HitTimes(b: Brick, n: nat): (r: Brick)
    requires b.kind.Steel?
    ensures r.kind.Steel?
  {
    if n == 0 then b else AfterHit(HitTimes(b, n - 1))
  }

  /** `n` hits take exactly `n` off the counter and touch nothing else. */
  lemma {:induction false} HitTimesCounter(b: Brick, n: nat)
    requires b.kind.Steel?
    ensures HitTimes(b, n) == b.(kind := Steel(b.kind.hitsRemaining - n))
  {
    if n > 0 {
      HitTimesCounter(b, n - 1);
    }
  }

  /** A brick is destroyed by the hit after which its counter is below zero,
      so a brick with `h >= 0` hits remaining survives hits 1..h and the
      hit number h + 1 destroys it. */
  lemma DestroyedOnHitAfterCounterRunsOut(b: Brick, k: nat)
    requires b.kind.Steel? && b.kind.hitsRemaining >= 0
    ensures HitTimes(b, k).kind.hitsRemaining < 0 <==> k > b.kind.hitsRemaining
  {
    HitTimesCounter(b, k);
  }

  /** A steel brick built with the default counter survives three hits and
      is destroyed by the fourth. */
  lemma DefaultSteelBrickTakesFourHits(uuid: string, x: real, y: real)
    ensures forall k: nat | 1 <= k <= 3 :: HitTimes(NewVariantBrick(Steel(DefaultHits), uuid, x, y), k).kind.hitsRemaining >= 0
    ensures HitTimes(NewVariantBrick(Steel(DefaultHits), uuid, x, y), 4).kind.hitsRemaining < 0
  {
    var b := NewVariantBrick(Steel(DefaultHits), uuid, x, y);
    forall k: nat | 1 <= k <= 3
      ensures HitTimes(b, k).kind.hitsRemaining >= 0
    {
      DestroyedOnHitAfterCounterRunsOut(b, k);
    }
    DestroyedOnHitAfterCounterRunsOut(b, 4);
  }
}
