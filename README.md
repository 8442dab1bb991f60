# Brick-breaker session engine, modelled in Dafny

This project models the game engine of a browser brick-breaker (peglike).
The player sits at the centre of the canvas and fires one missile at a time
at a field of bricks. There are three kinds of brick:

- basic bricks break on a hit and deflect the missile;
- glass bricks break without deflecting it;
- steel bricks take a hit counter down and break once it is below zero.

The model covers these parts of the engine:

- the bounce computation and the per-variant collision policy;
- the game's id-keyed brick map, its overlap query, and the rejection-sampling brick generator;
- the player's single-missile slot;
- the brick entities;
- the prize shop's catalogue and roll;
- the keyed shape store of the older canvas, with its collision sweep;
- the out-of-bounds and end-of-level decisions of the canvas renderer.

Modules, one per file:

| file | module | models |
|---|---|---|
| `wrappers.dfy` | `Wrappers` | `Option` and `Outcome` (a thrown error becomes `Fail`) |
| `geometry.dfy` | `Geometry` | points, the missile record, the strict box-overlap test |
| `bricks.dfy` | `Bricks` | brick values: id prefix, position, fixed 50 x 20 size, variant |
| `steel_brick.dfy` | `SteelBricks` | the steel brick class and its hit counter |
| `player.dfy` | `Players` | the player class: missile slot, missiles left, aim angle |
| `game.dfy` | `Games` | the game class: brick map, overlap query, brick generation |
| `collision.dfy` | `CollisionDetection` | bounce vector, resolution policy, the service class |
| `prize_shop.dfy` | `PrizeShops` | catalogue pipeline (dedupe, string-order sort, naming), roll |
| `canvas.dfy` | `Canvases` | keyed shape store and the per-tick collision sweep |
| `canvas_renderer.dfy` | `CanvasRenderers` | centre, out-of-bounds test, missile removal, brick styles |

Coordinates are `real`. The canvas width and height are `int`.

Randomness becomes explicit input:

- `Math.random()` pairs become a sequence of `Sample`s;
- `crypto.randomUUID()` values become a sequence of UUID strings;
- `crypto.getRandomValues` bytes become a sequence of `Byte`s.

The missile's launch velocity comes from trigonometry on the aim angle, so it is passed in as a vector.

The source files come from different revisions, so the model uses the abstraction they share:

- The map in `game.ts` holds `Brick`s, while the collision service and renderer dispatch on `BasicBrick`, `GlassBrick` and `SteelBrick`. All of these are one `Brick` datatype with a closed `Kind = Basic | Glass | Steel(hitsRemaining)`. The brick of `brick.ts` (id prefix `brick-`) is the `Basic` brick that generation creates.
- The service calls `getCollidedBrickId()`, which the modelled revision of `game.ts` does not define. The chosen id is therefore an input to `ResolveCollision`. It is either none, or an id whose brick, if present, the missile overlaps.
- The renderer calls `isFailed()` and `isComplete()`, which the modelled revision of `game.ts` does not define either. They are defined by the session's rules:
  - a level is complete when no brick is left;
  - it is failed when bricks remain, no missile is in flight and no missile is left to fire, meaning the counter is zero or below (a fire does not check the counter, so it can go negative).

## Model

| member | source | states |
|---|---|---|
| `Bricks.NewBrick` | src/game/objects/brick.ts:1-9 | the id is `brick-` followed by the UUID, the position is the given (x, y), and the kind is basic |
| `Bricks.NewVariantBrick` | src/game/objects/brick/steelBrick.ts:10-14 | a variant brick's id is its class prefix followed by the UUID: `steel-brick-` here, `glass-brick-` as at src/game/objects/brick/glassBrick.ts:11, `basic-brick-` as at src/game/objects/brick/basicBrick.ts:8; position and kind are as given |
| `Bricks.AfterHit` | src/game/objects/brick/steelBrick.ts:24-26 | a hit lowers the steel counter by exactly one and keeps id and position |
| `SteelBricks.SteelBrick.Snapshot` | src/game/objects/brick/steelBrick.ts:6-22 | the object's id, position and counter, read as the brick value the game's map holds |
| `SteelBricks.SteelBrick.constructor` | src/game/objects/brick/steelBrick.ts:10-14 | a new steel brick is a steel-brick value with the given counter, 3 by default |
| `SteelBricks.SteelBrick.OnHit` | src/game/objects/brick/steelBrick.ts:24-26 | the object's new state is the value of one hit applied to its old state |
| `SteelBricks.HitTimes` | src/game/objects/brick/steelBrick.ts:24-26 | repeated hits keep a steel brick a steel brick |
| `SteelBricks.HitTimesCounter` | src/game/objects/brick/steelBrick.ts:24-26 | n hits take exactly n off the counter and change nothing else |
| `SteelBricks.DestroyedOnHitAfterCounterRunsOut` | src/game/objects/brick/steelBrick.ts:3-5 | with h >= 0 hits remaining, the counter is below zero after k hits iff k > h |
| `SteelBricks.DefaultSteelBrickTakesFourHits` | src/game/objects/brick/steelBrick.ts:3-13 | a default steel brick survives hits one to three and the fourth destroys it |
| `Players.Player.constructor` | src/game/objects/player.ts:14-20 | a new player holds no missile, aims at angle 0, and has the given number of missiles, 3 by default |
| `Players.Player.AddMissiles` | src/game/objects/player.ts:22-24 | missiles left grows by exactly the count; slot and angle unchanged |
| `Players.Player.CanFire` | src/game/objects/player.ts:42-44 | true iff no missile is held |
| `Players.Player.RemoveMissile` | src/game/objects/player.ts:46-48 | the slot is empty afterwards; missiles left and angle unchanged |
| `Players.Player.Fire` | src/game/objects/player.ts:50-64 | while a missile is live nothing changes; otherwise a radius-5 missile is installed at the centre and missiles left drops by exactly one, with no check against zero |
| `Players.Player.OnMouseMove` | src/game/objects/player.ts:68-70 | the angle becomes the pointer's; slot and counter unchanged |
| `Players.Player.OnMouseClick` | src/game/objects/player.ts:72-76 | a fire is attempted as above, and the angle becomes the click's whether or not the fire was accepted |
| `Games.FloorOfFraction` | src/game/game.ts:80-81 | a [0, 1) fraction of a positive extent, rounded down, lies in [0, extent) |
| `Games.CandidateInRange` | src/game/game.ts:80-81 | each candidate is a whole-number point in [0, width - 50) x [0, height - 20) |
| `Games.Accepted` | src/game/game.ts:79-88 | the kept candidates number at most the samples, and none lies strictly inside the +-50 square around the centre |
| `Games.AcceptedInRange` | src/game/game.ts:79-88 | every kept position lies in [0, width - 50) x [0, height - 20) |
| `Games.AcceptedKeepsEveryAllowedCandidate` | src/game/game.ts:79-88 | every sample whose candidate lies outside the exclusion zone has that candidate kept |
| `Games.AcceptedComesFromSamples` | src/game/game.ts:79-88 | every kept position is the candidate of some sample |
| `Games.AcceptedPrefix` | src/game/game.ts:79-88 | a shorter sample stream keeps a prefix of what a longer one keeps, so generation keeps them in sample order |
| `Games.Placed` | src/game/game.ts:90-98 | the placed bricks are keyed by their own ids, which carry the `brick-` prefix; they are basic bricks and stand at kept positions |
| `Games.PlacedKeys` | src/game/game.ts:90-98 | the keys are exactly `brick-` followed by each UUID used |
| `Games.PlacedSize` | src/game/game.ts:90-98 | with distinct UUIDs, n positions give exactly n bricks |
| `Games.GenerationPlacesCount` | src/game/game.ts:17 | given enough acceptable samples and distinct UUIDs, generation places exactly `count` bricks, none in the exclusion zone |
| `Games.CollidedIds` | src/game/game.ts:53-64 | the result is a subset of the map's keys; an id is in it iff it is non-empty (the filter keeps an entry only when its callback returns a truthy key) and the missile's box strictly overlaps its brick on all four sides |
| `Games.CollidedIdsOfNonEmptyKeys` | src/game/game.ts:53-64 | on a map with no empty key, which is every map the game builds, an id is reported iff its brick overlaps the missile |
| `Games.Game.constructor` | src/game/game.ts:12-19 | a new game has a fresh default player, and its brick map is the 15 bricks generated from the samples and UUIDs |
| `Games.Game.GetBrick` | src/game/game.ts:33-35 | the brick stored under the id, or none iff the id is absent; the brick found carries that id |
| `Games.Game.RemoveBrick` | src/game/game.ts:37-40 | only that key is deleted (a no-op when it is absent), and the map stays keyed by id with no empty key |
| `Games.Game.AddBrick` | src/game/game.ts:96-98 | the brick is stored under its own id; a brick with a non-empty id keeps the map keyed by id with no empty key |
| `Games.Game.GetCollidedBrickIds` | src/game/game.ts:47-65 | empty when no missile is held, otherwise the overlapping ids |
| `Games.Game.GenerateBricks` | src/game/game.ts:72-94 | the loop's result: the old map plus one brick per generated position; the map stays keyed by id |
| `CollisionDetection.CalculateBounceVector` | src/game/service/collisionDetectionService.ts:50-80 | on a side hit (strictly smaller horizontal penetration), vx flips, y stays, and x moves out through the less-penetrated side; otherwise, ties included, vy flips, x stays, and y moves out through the top or the bottom |
| `CollisionDetection.BounceSeparates` | src/game/service/collisionDetectionService.ts:50-80 | after the bounce, the missile's box no longer strictly overlaps the brick |
| `CollisionDetection.BounceIsLeastPush` | src/game/service/collisionDetectionService.ts:56-79 | for an overlapping missile, the bounce moves along one axis only, by the smallest of the four penetration depths |
| `CollisionDetection.BounceKeepsSpeed` | src/game/service/collisionDetectionService.ts:66-78 | the bounce negates exactly one velocity component and keeps both magnitudes |
| `CollisionDetection.Resolve` | src/game/service/collisionDetectionService.ts:17-47 | an absent or unknown id changes nothing; a glass brick is removed and the missile is untouched; a basic brick is removed and the missile bounces; a steel brick loses one hit, is removed iff its counter falls below zero, and the missile bounces; every other entry is unchanged |
| `CollisionDetection.ResolveKeepsMapWellFormed` | src/game/service/collisionDetectionService.ts:17-47 | resolution keeps every brick under its own id and never adds a key |
| `CollisionDetection.ResolvedBrickStopsColliding` | src/game/service/collisionDetectionService.ts:17-47 | the brick just resolved is no longer among the collided ids |
| `CollisionDetection.ClearedLevelIsStable` | src/game/service/collisionDetectionService.ts:17-24 | with no bricks nothing collides and resolution changes nothing |
| `CollisionDetection.CollisionDetectionService.constructor` | src/game/service/collisionDetectionService.ts:13-15 | the service works on the given game |
| `CollisionDetection.CollisionDetectionService.ResolveCollision` | src/game/service/collisionDetectionService.ts:17-47 | the game's new brick map and the returned missile are exactly `Resolve` of the old map; the map stays keyed by id |
| `PrizeShops.BallCount` | src/game/objects/PrizeShop.ts:10-12 | a byte's ball count lies in 1..10 |
| `PrizeShops.BallCounts` | src/game/objects/PrizeShop.ts:10-12 | one count per byte, each `byte % 10 + 1` |
| `PrizeShops.LexLeTotal` | src/game/objects/PrizeShop.ts:12 | string order is total |
| `PrizeShops.LexLeTransitive` | src/game/objects/PrizeShop.ts:12 | string order is transitive |
| `PrizeShops.Insert` | src/game/objects/PrizeShop.ts:12 | insertion adds exactly one occurrence of the element |
| `PrizeShops.InsertSorted` | src/game/objects/PrizeShop.ts:12 | insertion into a string-sorted sequence keeps it sorted |
| `PrizeShops.DefaultSort` | src/game/objects/PrizeShop.ts:10-12 | `toSorted()` with no comparator returns a permutation sorted by decimal-string order |
| `PrizeShops.Dedupe` | src/game/objects/PrizeShop.ts:10-15 | the `Set` keeps exactly the values present, each once; it is no longer, and not empty when the input is not |
| `PrizeShops.DedupeSorted` | src/game/objects/PrizeShop.ts:10-15 | deduplicating a sorted sequence keeps it sorted |
| `PrizeShops.FindAtLeast` | src/game/objects/PrizeShop.ts:16 | `find` yields the first key at least the count, or nothing iff every key is smaller |
| `PrizeShops.NameKey` | src/game/objects/PrizeShop.ts:16 | for counts up to 10, the smallest breakpoint at least the count; above 10, the fallback 2 |
| `PrizeShops.PrizeName` | src/game/objects/PrizeShop.ts:13-21 | 1-2 "barely any balls", 3-4 "some balls", 5-6 "a good amount of balls", 7-8 "a lot of balls", 9-10 "a heavy sack filled with balls" |
| `PrizeShops.Catalogue` | src/game/objects/PrizeShop.ts:9-15 | at most one count per byte and at least one when there is a byte; all in 1..10, pairwise distinct and string-sorted; exactly the counts the bytes stand for |
| `PrizeShops.NewPrizeShop` | src/game/objects/PrizeShop.ts:9-24 | one prize per catalogue count, in order, each named by its tier |
| `PrizeShops.RollPrize` | src/game/objects/PrizeShop.ts:30-36 | the roll yields nothing iff the catalogue is empty, and otherwise the entry at the byte modulo the catalogue's length |
| `PrizeShops.RollByIndex` | src/game/objects/PrizeShop.ts:30-36 | in a shop of at most ten prizes, the byte equal to an index rolls the prize at that index |
| `PrizeShops.RankAtLeastIndex` | src/game/objects/PrizeShop.ts:10-15 | in a sequence strictly increasing in string rank, each index is at most the rank found there |
| `PrizeShops.CatalogueHoldsAtMostTen` | src/game/objects/PrizeShop.ts:10-15 | the catalogue never lists more than ten prizes |
| `PrizeShops.EveryPrizeCanBeWon` | src/game/objects/PrizeShop.ts:30-36 | every prize in a shop is rolled by some byte, namely its index |
| `PrizeShops.DefaultShopSize` | src/game/objects/PrizeShop.ts:9-12 | a shop built from the default five bytes offers between one and five prizes |
| `PrizeShops.StringOrderOfBallCounts` | src/game/objects/PrizeShop.ts:10-12 | on 1..10 the string order is 1, 10, 2, 3, ..., 9 |
| `PrizeShops.CatalogueInStringOrder` | src/game/objects/PrizeShop.ts:10-15 | the catalogue strictly follows 1, 10, 2, ..., 9, so 10 comes before 2..9 |
| `PrizeShops.RolledPrizeWasDrawn` | src/game/objects/PrizeShop.ts:9-36 | a roll succeeds iff at least one byte was drawn, and then yields a count some byte stood for, under its tier name |
| `Canvases.PrefixesExclusive` | src/game/objects/canvas.ts:50-51 | a `brick-` key starts with `b` and a `missile-` key with `m`, so no key is both |
| `Canvases.CollisionKeys` | src/game/objects/canvas.ts:49-81 | a subset of the keys; a key is in it iff it has the `brick-` prefix, holds a rectangle, and strictly overlaps some `missile-` circle; never a missile key |
| `Canvases.SweepLeavesNoCollision` | src/game/objects/canvas.ts:32-35 | after the sweep every missile remains and nothing collides any more |
| `Canvases.Canvas.constructor` | src/game/objects/canvas.ts:16-17 | a new canvas holds no objects |
| `Canvases.Canvas.AddObject` | src/game/objects/canvas.ts:91-93 | the object is stored under its id; every other entry is unchanged |
| `Canvases.Canvas.RemoveObject` | src/game/objects/canvas.ts:95-97 | only that id is deleted, and it is a no-op when absent |
| `Canvases.Canvas.GetObject` | src/game/objects/canvas.ts:99-101 | the stored object, or none iff the id is absent |
| `Canvases.Canvas.Clear` | src/game/objects/canvas.ts:103-105 | the store is empty afterwards |
| `Canvases.Canvas.UpdateObject` | src/game/objects/canvas.ts:107-113 | an existing entry is replaced; an unknown id is an error and leaves the store unchanged |
| `Canvases.Canvas.DeleteCollisions` | src/game/objects/canvas.ts:30-35 | one tick deletes exactly the colliding keys and nothing else |
| `CanvasRenderers.IsOutsideCanvas` | src/renderer/canvas/canvasRenderer.ts:225-230 | outside iff x < 0, y < 0, x > width or y > height; the edges are inside |
| `CanvasRenderers.SteelBrickFillColour` | src/renderer/canvas/canvasRenderer.ts:179-190 | 3 gives gray, 2 lightslategray, 1 darkgray, any other count lightgray |
| `CanvasRenderers.SteelBrickFades` | src/renderer/canvas/canvasRenderer.ts:179-190 | a default steel brick is drawn gray, lightslategray, darkgray and then lightgray as it takes hits |
| `CanvasRenderers.PlayerStrokeColour` | src/renderer/canvas/canvasRenderer.ts:114-129 | the player's outline is green iff a missile can be fired, otherwise red |
| `CanvasRenderers.BrickStyle` | src/renderer/canvas/canvasRenderer.ts:131-177 | basic bricks use the default style; glass bricks have a light-blue stroke; steel bricks have a light-gray stroke and their counter's fill, and only steel bricks are filled |
| `CanvasRenderers.EndOfLevel` | src/renderer/canvas/canvasRenderer.ts:202-212 | at most one notification; game over iff the game is failed, level complete iff it is complete |
| `CanvasRenderers.CanvasRenderer.constructor` | src/renderer/canvas/canvasRenderer.ts:14-30 | a new renderer has the canvas size and no game |
| `CanvasRenderers.CanvasRenderer.SetGame` | src/renderer/canvas/canvasRenderer.ts:43-45 | the game is the one given |
| `CanvasRenderers.CanvasRenderer.GetCenter` | src/renderer/canvas/canvasRenderer.ts:36-41 | the centre is half the width and half the height |
| `CanvasRenderers.CanvasRenderer.RenderMissile` | src/renderer/canvas/canvasRenderer.ts:192-213 | with no game, an error; a missile is cleared only when it is outside the canvas, and only then are game over and level complete checked and sent; missiles left and angle never change |
| `CanvasRenderers.CentreIsOnCanvas` | src/renderer/canvas/canvasRenderer.ts:36-41 | the centre of a canvas is inside it, so a missile fired from it is not cleared at once |

## Left out

- Drawing (`#redraw`, `#drawShape`, the `#render*` draw calls, `#debug`, `#renderCenterPoint`) is left out. It is canvas-API output; only the style decisions behind it are modelled.
- The `requestAnimationFrame` loops are host scheduling. One tick of the canvas sweep is the method `DeleteCollisions`.
- `Missile` motion (`x += vx`) and its trigonometric launch velocity are left out. The missile is a record, and the launch velocity is an input.
- The angle from `getAngleBetweenPoints` is taken as given; `math/trigonometry.ts` is not part of this model.
- DOM checks and element building are left out: the canvas element test and the 2D context test in both constructors, mouse listeners, chrome screens, event dispatch, logging, `gameOver()`'s screen and `gameService`.
- `Game.setPlayer` is not modelled, and neither is the `renderer` reference `Game` keeps. Canvas width, height and centre are parameters.
- IEEE-754 rounding is left out; coordinates are exact reals.
- JavaScript `Map` insertion order (`getBricks`) is left out; the brick map is an unordered Dafny map.
- `Games.Game.GenerateBricks`: with an infinite random stream the source loops until `count` positions are kept. With a finite sample sequence the model also stops when the samples run out. `GenerationPlacesCount` states the exact count under the assumption that enough acceptable samples exist.
- `Games.Game.GenerateBricks`: UUID uniqueness is assumed, as `Distinct`, rather than drawn.
- `CollisionDetection.CollisionDetectionService.ResolveCollision`: the steel brick the source mutates in place is shared between the map and any other reference to it. The model updates the map entry, so aliasing outside the map is not captured. The missile is returned as a new value instead of being mutated through `setVelocity`/`setPosition`.
- `CanvasRenderers.BrickStyle`: the variants are a closed datatype, so the `#renderBrick` throw for an unknown brick class cannot occur and is not modelled.
- `CanvasRenderers.CanvasRenderer.RenderMissile`: the mouse-control cleanup that accompanies each notification is left out; notifications are returned in order instead.
- `PrizeShop.getPotentialPrizes` is the `potentialPrizes` field of the `PrizeShop` value.
- `SteelBrick.getHitsRemaining` is the `GetHitsRemaining` function, with no contract beyond its body.
- The `console.debug` calls of `PrizeShop` are left out.
