/** The keyed shape store of the earlier canvas, and the collision sweep its
    render loop runs before every redraw. */
module Canvases {
  import opened Wrappers
  import opened Geometry

  /** The shapes the canvas can hold. */
  datatype Shape =
    | EquilateralTriangle(x: real, y: real, sideLength: real, angle: real)
    | Circle(x: real, y: real, radius: real)
    | Rectangle(x: real, y: real, width: real, height: real)

  /** Keys of missiles start with this. */
  const MissilePrefix: string := "missile-"
  /** Keys of bricks start with this. */
  const BrickPrefix: string := "brick-"

  /** The keys naming a missile drawn as a circle. */
  function MissileKeys(objects: map<string, Shape>): set<string> {
    set k | k in objects && MissilePrefix <= k && objects[k].Circle?
  }

  /** The keys naming a brick drawn as a rectangle. */
  function BrickKeys(objects: map<string, Shape>): set<string> {
    set k | k in objects && BrickPrefix <= k && objects[k].Rectangle?
  }

  /** A brick key starts with `b` and a missile key with `m`, so no key is both. */
  lemma PrefixesExclusive(k: string)
    ensures BrickPrefix <= k ==> k[0] == 'b'
    ensures MissilePrefix <= k ==> k[0] == 'm'
  {
    if BrickPrefix <= k {
      assert k[0] == BrickPrefix[0];
    }
    if MissilePrefix <= k {
      assert k[0] == MissilePrefix[0];
    }
  }

  /** The circle's bounding box strictly overlaps the rectangle. */
  predicate Hits(circle: Shape, rectangle: Shape)
    requires circle.Circle? && rectangle.Rectangle?
  {
    BoxOverlap(Vec2(circle.x, circle.y), circle.radius, Vec2(rectangle.x, rectangle.y), rectangle.width, rectangle.height)
  }

  /** The brick keys whose rectangle some missile's circle overlaps. */
  function CollisionKeys(objects: map<string, Shape>): (r: set<string>)
    ensures r <= objects.Keys
    ensures forall k | k in r :: BrickPrefix <= k && objects[k].Rectangle? && !(MissilePrefix <= k)
    ensures forall k | k in objects ::
      k in r <==> (k in BrickKeys(objects) && exists mk | mk in MissileKeys(objects) :: Hits(objects[mk], objects[k]))
  {
    var missiles := MissileKeys(objects);
    assert forall k | k in objects :: !(BrickPrefix <= k && MissilePrefix <= k) by {
      forall k | k in objects ensures !(BrickPrefix <= k && MissilePrefix <= k) {
        PrefixesExclusive(k);
      }
    }
    set k | k in BrickKeys(objects) && exists mk | mk in missiles :: Hits(objects[mk], objects[k])
  }

  /** After the colliding keys are deleted, a second sweep finds nothing: the
      missiles are all still there and no remaining brick touches one. */
  lemma SweepLeavesNoCollision(objects: map<string, Shape>)
    ensures var rest := objects - CollisionKeys(objects);
      && MissileKeys(rest) == MissileKeys(objects)
      && CollisionKeys(rest) == {}
  {
    var hit := CollisionKeys(objects);
    var rest := objects - hit;
    assert MissileKeys(rest) == MissileKeys(objects);
  }

  class Canvas {
    var objects: map<string, Shape>

    constructor ()
      ensures objects == map[]
    {
      objects := map[];
    }

    method AddObject(id: string, shape: Shape)
      modifies this
      ensures objects == old(objects)[id := shape]
    {
      objects := objects[id := shape];
    }

    method RemoveObject(id: string)
      modifies this
      ensures objects == old(objects) - {id}
    {
      objects := objects - {id};
    }

    function GetObject(id: string): (r: Option<Shape>)
      reads this
      ensures r.Some? <==> id in objects
      ensures r.Some? ==> r.value == objects[id]
    {
      if id in objects then Some(objects[id]) else None
    }

    method Clear()
      modifies this
      ensures objects == map[]
    {
      objects := map[];
    }

    /** Replaces an existing entry; an unknown id is an error and changes nothing. */
    method UpdateObject(id: string, shape: Shape) returns (r: Outcome<string>)
      modifies this
      ensures id in old(objects) ==> r.Pass? && objects == old(objects)[id := shape]
      ensures id !in old(objects) ==> r.Fail? && objects == old(objects)
    {
      if id in objects {
        objects := objects[id := shape];
        r := Pass;
      } else {
        r := Fail("Object with id " + id + " does not exist.");
      }
    }

    /** The delete step of one render tick: every colliding key goes. */
    method DeleteCollisions()
      modifies this
      ensures objects == old(objects) - CollisionKeys(old(objects))
    {
      var pending := CollisionKeys(objects);
      ghost var all := pending;
      while pending != {}
        invariant pending <= all
        invariant objects == old(objects) - (all - pending)
        decreases pending
      {
        var key :| key in pending;
        objects := objects - {key};
        pending := pending - {key};
      }
    }
  }
}
