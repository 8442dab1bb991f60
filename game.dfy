/** The game: the id-keyed brick map, the player, the overlap query and the
    rejection-sampling brick generator. */
module Games {
  import opened Wrappers
  import opened Geometry
  import opened Bricks
  import opened Players

  /** Bricks the game's constructor generates. */
  const InitialBrickCount: nat := 15
  /** Half the side of the square around the canvas centre kept free of bricks. */
  const ExclusionHalfSide: real := 50.0

  /** Two draws of `Math.random()`, the fractions for x and for y. */
  datatype Sample = Sample(fx: real, fy: real)

  /** `Math.random()` only yields fractions in [0, 1). */
  predicate ValidSample(s: Sample) {
    0.0 <= s.fx < 1.0 && 0.0 <= s.fy < 1.0
  }

  /** The candidate position a sample yields on a `width` x `height` canvas:
      each fraction times the extent a brick may start in, rounded down. */
  function Candidate(s: Sample, width: int, height: int): Vec2 {
    Vec2((s.fx * (width - 50) as real).Floor as real, (s.fy * (height - 20) as real).Floor as real)
  }

  /** A fraction of a positive integer extent, rounded down, is an index into it. */
  lemma FloorOfFraction(f: real, extent: int)
    requires 0.0 <= f < 1.0 && extent > 0
    ensures 0 <= (f * extent as real).Floor < extent
  {
    var e := extent as real;
    assert 0.0 <= f * e;
    assert f * e < e by {
      assert e - f * e == (1.0 - f) * e;
    }
  }

  /** Each candidate is a whole-number point in [0, width - 50) x [0, height - 20). */
  lemma CandidateInRange(s: Sample, width: int, height: int)
    requires ValidSample(s) && width > 50 && height > 20
    ensures var p := Candidate(s, width, height);
      && p.x == p.x.Floor as real && 0.0 <= p.x < (width - 50) as real
      && p.y == p.y.Floor as real && 0.0 <= p.y < (height - 20) as real
  {
    FloorOfFraction(s.fx, width - 50);
    FloorOfFraction(s.fy, height - 20);
  }

  /** Strictly inside the square of half side 50 around `centre`. */
  predicate InExclusionZone(p: Vec2, centre: Vec2) {
    && p.x > centre.x - ExclusionHalfSide && p.x < centre.x + ExclusionHalfSide
    && p.y > centre.y - ExclusionHalfSide && p.y < centre.y + ExclusionHalfSide
  }

  /** The candidates of `samples` that the generator keeps, in sample order. */
  function Accepted(samples: seq<Sample>, width: int, height: int, centre: Vec2): (ps: seq<Vec2>)
    ensures |ps| <= |samples|
    ensures forall p | p in ps :: !InExclusionZone(p, centre)
  {
    if samples == [] then []
    else
      var n := |samples| - 1;
      var p := Candidate(samples[n], width, height);
      Accepted(samples[..n], width, height, centre) + (if InExclusionZone(p, centre) then [] else [p])
  }

  /** Every kept position lies in [0, width - 50) x [0, height - 20). */
  lemma {:induction false} AcceptedInRange(samples: seq<Sample>, width: int, height: int, centre: Vec2)
    requires forall s | s in samples :: ValidSample(s)
    requires width > 50 && height > 20
    ensures forall p | p in Accepted(samples, width, height, centre) ::
      0.0 <= p.x < (width - 50) as real && 0.0 <= p.y < (height - 20) as real
  {
    if samples != [] {
      var n := |samples| - 1;
      assert forall s | s in samples[..n] :: s in samples;
      AcceptedInRange(samples[..n], width, height, centre);
      CandidateInRange(samples[n], width, height);
    }
  }

  /** Every candidate outside the exclusion zone is kept. */
  lemma {:induction false} AcceptedKeepsEveryAllowedCandidate(samples: seq<Sample>, width: int, height: int, centre: Vec2)
    ensures forall i | 0 <= i < |samples| && !InExclusionZone(Candidate(samples[i], width, height), centre) ::
      Candidate(samples[i], width, height) in Accepted(samples, width, height, centre)
  {
    if samples != [] {
      var n := |samples| - 1;
      AcceptedKeepsEveryAllowedCandidate(samples[..n], width, height, centre);
      forall i | 0 <= i < n && !InExclusionZone(Candidate(samples[i], width, height), centre)
        ensures Candidate(samples[i], width, height) in Accepted(samples, width, height, centre)
      {
        assert samples[..n][i] == samples[i];
      }
    }
  }

  /** Every kept position is the candidate of some sample. */
  lemma {:induction false} AcceptedComesFromSamples(samples: seq<Sample>, width: int, height: int, centre: Vec2)
    ensures forall p | p in Accepted(samples, width, height, centre) ::
      exists i | 0 <= i < |samples| :: p == Candidate(samples[i], width, height)
  {
    if samples != [] {
      var n := |samples| - 1;
      AcceptedComesFromSamples(samples[..n], width, height, centre);
      forall p | p in Accepted(samples, width, height, centre)
        ensures exists i | 0 <= i < |samples| :: p == Candidate(samples[i], width, height)
      {
        if p in Accepted(samples[..n], width, height, centre) {
          var i :| 0 <= i < n && p == Candidate(samples[..n][i], width, height);
          assert samples[..n][i] == samples[i];
        } else {
          assert p == Candidate(samples[n], width, height);
        }
      }
    }
  }

  /** What a shorter stream of samples yields is a prefix of what a longer one yields. */
  lemma {:induction false} AcceptedPrefix(samples: seq<Sample>, i: nat, width: int, height: int, centre: Vec2)
    requires i <= |samples|
    ensures Accepted(samples[..i], width, height, centre) <= Accepted(samples, width, height, centre)
  {
    if i < |samples| {
      var n := |samples| - 1;
      assert samples[..n][..i] == samples[..i];
      AcceptedPrefix(samples[..n], i, width, height, centre);
    } else {
      assert samples[..i] == samples;
    }
  }

  /** The positions generation settles on: the first `count` accepted
      candidates, or all of them if the samples run out first. */
  function GeneratedPositions(samples: seq<Sample>, count: nat, width: int, height: int, centre: Vec2): seq<Vec2> {
    var ps := Accepted(samples, width, height, centre);
    if |ps| <= count then ps else ps[..count]
  }

  /** Ids are unique: no UUID is drawn twice. */
  predicate Distinct(uuids: seq<string>) {
    forall i, j | 0 <= i < j < |uuids| :: uuids[i] != uuids[j]
  }

  /** Every entry of a brick map is stored under its own id. */
  predicate KeyedById(bricks: map<string, Brick>) {
    forall id | id in bricks :: bricks[id].id == id
  }

  /** No brick is stored under the empty string. */
  predicate NonEmptyKeys(bricks: map<string, Brick>) {
    forall id | id in bricks :: id != ""
  }

  /** The bricks built from `positions`, the k-th with the k-th UUID. */
  function Placed(positions: seq<Vec2>, uuids: seq<string>): (r: map<string, Brick>)
    requires |positions| <= |uuids|
    ensures KeyedById(r)
    ensures forall id | id in r :: "brick-" <= id
    ensures forall id | id in r :: r[id].kind == Basic && r[id].position in positions
  {
    if positions == [] then map[]
    else
      var n := |positions| - 1;
      var b := NewBrick(uuids[n], positions[n].x, positions[n].y);
      var rest := Placed(positions[..n], uuids);
      assert forall p | p in positions[..n] :: p in positions;
      rest[b.id := b]
  }

  /** The placed bricks are keyed `brick-` plus the UUIDs used. */
  lemma {:induction false} PlacedKeys(positions: seq<Vec2>, uuids: seq<string>)
    requires |positions| <= |uuids|
    ensures forall id :: id in Placed(positions, uuids) <==> exists k :: 0 <= k < |positions| && id == "brick-" + uuids[k]
  {
    if positions != [] {
      PlacedKeys(positions[..|positions| - 1], uuids);
    }
  }

  /** With distinct UUIDs, placing `n` positions adds exactly `n` bricks. */
  lemma {:induction false} PlacedSize(positions: seq<Vec2>, uuids: seq<string>)
    requires |positions| <= |uuids| && Distinct(uuids)
    ensures |Placed(positions, uuids)| == |positions|
  {
    if positions != [] {
      var n := |positions| - 1;
      var b := NewBrick(uuids[n], positions[n].x, positions[n].y);
      PlacedSize(positions[..n], uuids);
      PlacedKeys(positions[..n], uuids);
    }
  }

  /** Generation places exactly `count` bricks when the samples hold at
      least `count` acceptable candidates, and none in the exclusion zone. */
  lemma GenerationPlacesCount(samples: seq<Sample>, count: nat, width: int, height: int, centre: Vec2, uuids: seq<string>)
    requires |uuids| >= count && Distinct(uuids)
    requires |Accepted(samples, width, height, centre)| >= count
    ensures var placed := Placed(GeneratedPositions(samples, count, width, height, centre), uuids);
      && |placed| == count
      && forall id | id in placed :: !InExclusionZone(placed[id].position, centre)
  {
    var ps := GeneratedPositions(samples, count, width, height, centre);
    var all := Accepted(samples, width, height, centre);
    assert forall p | p in ps :: p in all;
    PlacedSize(ps, uuids);
  }

  /** Adding an entry after a union is adding it to the right operand. */
  lemma UnionThenUpdate<K, V>(m: map<K, V>, n: map<K, V>, k: K, v: V)
    ensures (m + n)[k := v] == m + n[k := v]
  {
  }

  /** The ids of the bricks whose rectangle the missile's box strictly
      overlaps. The filter keeps an entry when its callback returns the key,
      so only a non-empty (truthy) key is kept. */
  function CollidedIds(bricks: map<string, Brick>, m: Missile): (r: set<string>)
    ensures r <= bricks.Keys
    ensures forall id | id in bricks :: id in r <==> id != "" && Overlaps(m, bricks[id])
  {
    set id | id in bricks && id != "" && Overlaps(m, bricks[id])
  }

  /** On a map without an empty key, such as every map the game builds, an
      id is reported exactly when its brick overlaps the missile. */
  lemma CollidedIdsOfNonEmptyKeys(bricks: map<string, Brick>, m: Missile)
    requires NonEmptyKeys(bricks)
    ensures forall id | id in bricks :: id in CollidedIds(bricks, m) <==> Overlaps(m, bricks[id])
  {
  }

  class Game {
    var bricks: map<string, Brick>
    const player: Player

    /** Every brick is stored under its own id, and no id is empty. */
    ghost predicate Valid()
      reads this
    {
      KeyedById(bricks) && NonEmptyKeys(bricks)
    }

    /** A new game on a `width` x `height` canvas centred at `centre`: a
        fresh player and 15 generated bricks. */
    constructor (width: int, height: int, centre: Vec2, samples: seq<Sample>, uuids: seq<string>)
      requires |uuids| >= InitialBrickCount
      ensures Valid() && fresh(player)
      ensures player.missile == None && player.angle == 0.0 && player.missilesLeft == DefaultMissiles
      ensures bricks == Placed(GeneratedPositions(samples, InitialBrickCount, width, height, centre), uuids)
    {
      player := new Player();
      bricks := map[];
      new;
      GenerateBricks(InitialBrickCount, width, height, centre, samples, uuids);
    }

    function GetBrick(id: string): (r: Option<Brick>)
      reads this
      ensures id in bricks <==> r.Some?
      ensures r.Some? ==> r.value == bricks[id]
      ensures Valid() && r.Some? ==> r.value.id == id
    {
      if id in bricks then Some(bricks[id]) else None
    }

    method RemoveBrick(id: string)
      modifies this
      ensures bricks == old(bricks) - {id}
      ensures old(Valid()) ==> Valid()
    {
      bricks := bricks - {id};
    }

    method AddBrick(b: Brick)
      modifies this
      ensures bricks == old(bricks)[b.id := b]
      ensures old(Valid()) && b.id != "" ==> Valid()
    {
      bricks := bricks[b.id := b];
    }

    /** No missile, no collisions; otherwise the overlapping bricks' ids. */
    function GetCollidedBrickIds(): (r: set<string>)
      reads this, player
      ensures player.missile == None ==> r == {}
      ensures player.missile.Some? ==> r == CollidedIds(bricks, player.missile.value)
    {
      match player.missile
      case None => {}
      case Some(m) => CollidedIds(bricks, m)
    }

    /** The level is complete once every brick is gone. */
    predicate IsComplete()
      reads this
    {
      |bricks| == 0
    }

    /** The level is lost when bricks remain, no missile is in flight and
        none is left to fire: the counter is zero, or below zero since a
        fire does not check it. */
    predicate IsFailed()
      reads this, player
    {
      |bricks| > 0 && player.missile == None && player.missilesLeft <= 0
    }

    /** Draws candidates until `count` lie outside the exclusion zone (or the
        samples run out), then adds one brick per kept position. */
    method GenerateBricks(count: nat, width: int, height: int, centre: Vec2, samples: seq<Sample>, uuids: seq<string>)
      requires |uuids| >= count
      modifies this
      ensures bricks == old(bricks) + Placed(GeneratedPositions(samples, count, width, height, centre), uuids)
      ensures old(Valid()) ==> Valid()
    {
      var positions: seq<Vec2> := [];
      var i := 0;
      while |positions| < count && i < |samples|
        invariant 0 <= i <= |samples|
        invariant positions == Accepted(samples[..i], width, height, centre)
        invariant |positions| <= count
      {
        var p := Candidate(samples[i], width, height);
        assert samples[..i + 1][..i] == samples[..i];
        i := i + 1;
        if InExclusionZone(p, centre) {
          continue;
        }
        positions := positions + [p];
      }
      assert positions == GeneratedPositions(samples, count, width, height, centre) by {
        AcceptedPrefix(samples, i, width, height, centre);
        if i == |samples| {
          assert samples[..i] == samples;
        }
      }
      for k := 0 to |positions|
        invariant bricks == old(bricks) + Placed(positions[..k], uuids)
        invariant old(Valid()) ==> Valid()
      {
        var b := NewBrick(uuids[k], positions[k].x, positions[k].y);
        ghost var placed := Placed(positions[..k], uuids);
        assert Placed(positions[..k + 1], uuids) == placed[b.id := b] by {
          assert positions[..k + 1][..k] == positions[..k];
        }
        AddBrick(b);
        UnionThenUpdate(old(bricks), placed, b.id, b);
      }
      assert positions[..|positions|] == positions;
    }
  }
}
