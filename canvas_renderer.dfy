/** The decision logic of the canvas renderer: the canvas centre, the
    out-of-bounds test, the missile's removal with the end-of-level checks,
    and how each brick variant is styled. Drawing itself is not modelled. */
module CanvasRenderers {
  import opened Wrappers
  import opened Geometry
  import opened Bricks
  import opened SteelBricks
  import opened Players
  import opened Games

  /** Beyond an edge of a `width` x `height` canvas; the edges themselves
      are inside. */
  predicate IsOutsideCanvas(p: Vec2, width: int, height: int)
    ensures IsOutsideCanvas(p, width, height) <==>
      p.x < 0.0 || p.y < 0.0 || p.x > width as real || p.y > height as real
  {
    if p.x < 0.0 then true
    else if p.y < 0.0 then true
    else if p.x > width as real then true
    else p.y > height as real
  }

  /** The fill of a steel brick, darkest while it is untouched. */
  function SteelBrickFillColour(hits: int): (colour: string)
    ensures hits == 3 ==> colour == "gray"
    ensures hits == 2 ==> colour == "lightslategray"
    ensures hits == 1 ==> colour == "darkgray"
    ensures hits != 1 && hits != 2 && hits != 3 ==> colour == "lightgray"
  {
    match hits
    case 3 => "gray"
    case 2 => "lightslategray"
    case 1 => "darkgray"
    case _ => "lightgray"
  }

  /** A default steel brick is filled gray, then lightslategray, darkgray and
      lightgray as it takes its first three hits, and lightgray after. */
  lemma SteelBrickFades(uuid: string, x: real, y: real, k: nat)
    ensures var b := NewVariantBrick(Steel(DefaultHits), uuid, x, y);
      SteelBrickFillColour(HitTimes(b, k).kind.hitsRemaining)
        == if k == 0 then "gray" else if k == 1 then "lightslategray"
           else if k == 2 then "darkgray" else "lightgray"
  {
    HitTimesCounter(NewVariantBrick(Steel(DefaultHits), uuid, x, y), k);
  }

  /** The player's triangle is outlined green while a shot is available. */
  function PlayerStrokeColour(player: Player): (colour: string)
    reads player
    ensures colour == "green" <==> player.CanFire()
    ensures colour == "green" || colour == "red"
  {
    if player.CanFire() then "green" else "red"
  }

  /** Stroke and fill a brick is drawn with (none means the default). */
  datatype Style = Style(stroke: Option<string>, fill: Option<string>)

  /** The renderer's dispatch on the brick variant. */
  function BrickStyle(b: Brick): (s: Style)
    ensures s.fill.Some? <==> b.kind.Steel?
    ensures b.kind.Steel? ==> s == Style(Some("lightGray"), Some(SteelBrickFillColour(b.kind.hitsRemaining)))
    ensures b.kind.Glass? ==> s == Style(Some("lightBlue"), None)
    ensures b.kind.Basic? ==> s == Style(None, None)
  {
    match b.kind
    case Basic => Style(None, None)
    case Glass => Style(Some("lightBlue"), None)
    case Steel(hits) => Style(Some("lightGray"), Some(SteelBrickFillColour(hits)))
  }

  /** What the renderer tells the rest of the program at a level's end. */
  datatype Notification = GameOver | LevelComplete

  /** The notifications due for `game`, in the order they are sent. */
  function EndOfLevel(game: Game): (events: seq<Notification>)
    reads game, game.player
    ensures |events| <= 1
    ensures GameOver in events <==> game.IsFailed()
    ensures LevelComplete in events <==> game.IsComplete()
  {
    (if game.IsFailed() then [GameOver] else []) + (if game.IsComplete() then [LevelComplete] else [])
  }

  class CanvasRenderer {
    const width: int
    const height: int
    var game: Option<Game>

    constructor (width: int, height: int)
      ensures this.width == width && this.height == height && game == None
    {
      this.width := width;
      this.height := height;
      game := None;
    }

    method SetGame(g: Game)
      modifies this
      ensures game == Some(g)
    {
      game := Some(g);
    }

    /** Half the canvas size on each axis. */
    function GetCenter(): (c: Vec2)
      ensures c.x * 2.0 == width as real && c.y * 2.0 == height as real
    {
      Vec2(width as real / 2.0, height as real / 2.0)
    }

    /** One frame's missile handling: a missile beyond an edge is cleared,
        and then the game is checked for a loss and for a cleared level.
        Without a game the renderer fails. */
    method RenderMissile() returns (r: Outcome<string>, events: seq<Notification>)
      modifies if game.Some? then {game.value.player} else {}
      ensures game.None? ==> r.Fail? && events == []
      ensures game.Some? ==> r.Pass?
      ensures game.Some? ==> var p := game.value.player;
        && p.missilesLeft == old(p.missilesLeft) && p.angle == old(p.angle)
        && (old(p.missile).Some? && IsOutsideCanvas(old(p.missile).value.position, width, height) ==>
              p.missile.None? && events == EndOfLevel(game.value))
        && (old(p.missile).None? || !IsOutsideCanvas(old(p.missile).value.position, width, height) ==>
              p.missile == old(p.missile) && events == [])
    {
      events := [];
      if game.None? {
        r := Fail("Game instance is not set in renderer.");
        return;
      }
      r := Pass;
      var g := game.value;
      var player := g.player;
      if player.missile.None? {
        return;
      }
      if IsOutsideCanvas(player.missile.value.position, width, height) {
        player.RemoveMissile();
        if g.IsFailed() {
          events := events + [GameOver];
        }
        if g.IsComplete() {
          events := events + [LevelComplete];
        }
      }
    }
  }

  /** A missile is fired from the centre, which is on the canvas, so it is
      never cleared in the frame it is fired. */
  lemma CentreIsOnCanvas(r: CanvasRenderer)
    requires r.width >= 0 && r.height >= 0
    ensures !IsOutsideCanvas(r.GetCenter(), r.width, r.height)
  {
  }
}
