# Ninja platformer rules in Dafny

This project models the rule logic of a small pygame platformer and proves properties of it. In the game a player runs, jumps, wall-slides and dashes through tile levels. Enemies patrol and shoot along their facing. A dashing player kills an enemy on contact, and a level is cleared once no enemy is left.

The model covers four parts of the program:

- **The tile map** (`Tiles`, `TileFacts`, `CellKeys`). The map is a dictionary from grid cells to tiles, plus an ordered list of off-grid tiles. Its operations are:
  - neighbourhood lookup around a pixel;
  - the solid-tile test;
  - the solid rectangles near a pixel;
  - `extract`, with its failure when it deletes grid entries while iterating the dictionary;
  - `autotile`, a rule-table rewrite of variants;
  - loading a level document;
  - the editor's place and delete operations.
- **The animation clock** (`Animations`). This is the `Animation` class with its looping and non-looping frame counter, `copy` and `img`.
- **The entities** (`Physics`, `PhysicsFacts`, `Players`, `PlayerFacts`, `Enemies`, `EnemyFacts`).
  - **The physics entity:** axis-separated collision resolution, gravity with a terminal speed, facing, and the animation switch.
  - **The player:** air time, jump charges, wall slide and wall jump, and the dash counter with its forced velocity, friction and particle bursts.
  - **The enemy:** the patrol counter, turning at ledges and walls, the shot at the end of a patrol, and death on contact with a dashing player.
- **The game loop** (`Host`, `Projectiles`).
  - **`load_level`:** leaf areas, spawner dispatch, and the counter resets.
  - **One tick of `run`:**
    1. the level-clear transition and the next level;
    2. the transition unwinding;
    3. the death timer and the reload;
    4. the enemy loop, which removes killed enemies and collects shots;
    5. the player's update;
    6. the projectile loop, with walls, lifetime and player hits;
    7. the key events.

### How the program's data is represented

**The state that changes in place is held in classes.**
- `Tilemap`, `Animation`, `PhysicsEntity`, `Player`, `Enemy` and `Game` are classes whose methods update their fields.
- Every method is proved against a pure function of the old state, for example `PhysicsStep`, `PlayerRules`, `EnemyStep`, `Step`, `Autotiled`, `Fly` or `DeathTick`. The lemmas in the `*Facts` modules are about those functions.
- The program's loops stay loops:
  - the collision loops;
  - the extraction loops over the off-grid list and over the grid;
  - the autotile loop;
  - the spawner loop;
  - the enemy loop, over a copy of the list;
  - the projectile loop, over a copy of the list;
  - the event loop.

**The grid dictionary is keyed by cell.**
- The program keys its dictionary by the string `x;y`. The model keys it by the integer pair. `CellKeys.KeyRoundTrip` and `CellKeys.KeyInjective` prove that the string key is a bijection onto the pairs it is built from, so the two dictionaries hold the same entries.
- Python dictionaries iterate in insertion order. The model therefore keeps the key order as a field `order`. `Tilemap.Valid` says that `order` lists every key exactly once and that every tile's `pos` is its key.

**Numbers are exact.**
- Pixel positions and velocities are exact `real`s.
- A pygame `Rect` built from floats truncates toward zero; this is `Geometry.Trunc`.
- Cell lookup uses floor division; this is `Geometry.FloorDiv`. `TileFacts.NegativePixelCell` shows where the two differ: at pixel (-1, -1) with 16-pixel tiles.

**Behaviours kept as the code does them.** Where the code and the program's description could be read differently, the model follows the code:
- `extract(..., keep=False)` deletes the first matching grid entry and then fails, as CPython raises on the changed dictionary. The model returns `Failure(DictionaryChangedSize)` with exactly that state, and a level load stops there.
- The enemy's walking step is parsed as `(movement.x - 0.5) if flip else 0.5` (`scripts/entities.py:149`) and is modelled that way.
- A projectile that hits the player adds one to the death timer even while the player is already dead.
- The next level after a clear is `min(level + 1, maps - 1)`.

## Model

| member | source | states |
|---|---|---|
| `Geometry.Trunc` | scripts/entities.py:27-29 | int conversion of a float rounds toward zero: the result lies within 1 of the value on the side of zero |
| `Geometry.TruncIsNotFloor` | scripts/entities.py:29 | the conversion is not flooring: -0.5 gives 0, while its floor is -1 |
| `Geometry.FloorDiv` | scripts/tilemap.py:93 | floor division of a pixel coordinate: `q*d <= v < (q+1)*d` |
| `Geometry.FloorDivOfInteger` | scripts/tilemap.py:93 | on an integer pixel the floor division is integer division |
| `Geometry.RectAt` | scripts/entities.py:27-29 | the entity rectangle has the entity's size, and each corner coordinate is the position's coordinate truncated toward zero: within 1 of it, on the side of zero |
| `Geometry.Overlaps` | scripts/entities.py:63 | the predicate's body is the definition of `colliderect`: both rectangles have positive width and height and their open interiors overlap, so touching edges do not collide; its `ensures` adds that a collision implies positive sizes |
| `Geometry.ContainsPoint` | main.py:197 | the predicate's body is the definition of `collidepoint`: the point, truncated toward zero, lies in the half-open rectangle; its `ensures` adds that the rectangle then has positive size and the point lies within one pixel of it on each axis |
| `CellKeys.NatToString` | scripts/tilemap.py:96 | `str` of a natural number is a non-empty string of digits |
| `CellKeys.ParseNatToString` | scripts/tilemap.py:96 | parsing the digits of `str(n)` gives back `n` |
| `CellKeys.ParseIntToString` | scripts/tilemap.py:96 | parsing `str(i)` of any integer gives back `i` |
| `CellKeys.NoSeparator` | scripts/tilemap.py:96 | `str(i)` contains no `;` |
| `CellKeys.IndexOf` | scripts/tilemap.py:96 | the first position of a character, or the length when it is absent |
| `CellKeys.KeyRoundTrip` | scripts/tilemap.py:96 | the key `str(x)+';'+str(y)` parses back to `(x, y)` |
| `CellKeys.KeyInjective` | scripts/tilemap.py:96 | distinct cells never share a key; the key is built the same way at lines 118 and 143 |
| `Tiles.Tilemap.constructor` | scripts/tilemap.py:36-40 | an empty grid and off-grid list with the given tile size |
| `Tiles.Tilemap.CellAt` | scripts/tilemap.py:93 | the cell of a pixel by floor division on both axes |
| `Tiles.CellOf` | scripts/tilemap.py:118 | `solid_check`'s cell, by the same floor division |
| `Tiles.Tilemap.TilesAround` | scripts/tilemap.py:75-100 | `tiles_around` returns at most 9 tiles |
| `Tiles.Gather` | scripts/tilemap.py:94-100 | a lookup over offsets yields at most one tile per offset |
| `TileFacts.GatherMembers` | scripts/tilemap.py:94-100 | a tile is gathered iff it is stored at one of the offset cells |
| `TileFacts.GatherAll` | scripts/tilemap.py:94-100 | when every offset cell is stored, the result is those tiles in offset order |
| `TileFacts.GatherAppend` | scripts/tilemap.py:94-100 | gathering over joined offset lists joins the results |
| `TileFacts.TilesAroundBounded` | scripts/tilemap.py:94-100 | every tile returned is stored under its own key in the 3×3 block around the pixel's cell |
| `TileFacts.TilesAroundComplete` | scripts/tilemap.py:94-100 | every stored tile of that 3×3 block is returned |
| `TileFacts.TilesAroundFull` | scripts/tilemap.py:94-100 | with all 9 cells stored, exactly 9 tiles come back, in `NEIGHBOR_OFFSETS` order |
| `TileFacts.CellAtIntegerPixel` | scripts/tilemap.py:93 | an integer pixel maps to `(x // size, y // size)` |
| `TileFacts.NegativePixelCell` | scripts/tilemap.py:93 | pixel (-1, -1) with tile size 16 is in cell (-1, -1), although truncation of -1/16 gives 0 |
| `Tiles.Tilemap.SolidCheck` | scripts/tilemap.py:116-125 | a tile is returned iff its cell has a key whose type is grass or stone, and it is that tile |
| `TileFacts.SolidCheckIsCentre` | scripts/tilemap.py:116-125 | a tile found by `solid_check` is solid and is among `tiles_around` of the same pixel |
| `Tiles.SolidTiles` | scripts/tilemap.py:131-133 | filtering to solid tiles never adds tiles |
| `TileFacts.SolidTilesMembers` | scripts/tilemap.py:131-133 | a tile is kept iff it is in the list and solid |
| `TileFacts.SolidRectsOfTiles` | scripts/tilemap.py:127-135 | one rectangle per solid tile, in the same order |
| `Tiles.SolidRects` | scripts/tilemap.py:127-135 | at most one rectangle per tile, each a `tile_size` square |
| `Tiles.Tilemap.PhysicsRectsAround` | scripts/tilemap.py:127-135 | `physics_rects_around` returns at most 9 rectangles, each a `tile_size` square |
| `TileFacts.PhysicsRectsAroundTiles` | scripts/tilemap.py:127-135 | `physics_rects_around` yields one `tile_size` square at `pos*tile_size` for each solid tile of `tiles_around`, in order, and nothing else |
| `Tiles.Tilemap.Extract` | scripts/tilemap.py:47-70 | returns the matching off-grid tiles, then the grid matches as pixel copies in dictionary order; the stored grid is unchanged; with `keep=False` the matched off-grid tiles are removed and the rest stay in order; with `keep=False` and a grid match, the first matching entry is deleted and the call fails |
| `Tiles.Tilemap.ScanOffgrid` | scripts/tilemap.py:50-56 | the off-grid loop returns the matches and, without `keep`, leaves the rest in order |
| `Tiles.Tilemap.ScanGrid` | scripts/tilemap.py:58-69 | the grid loop: pixel copies of the matches, or deletion of the first match and failure |
| `Tiles.VisitGrid` | scripts/tilemap.py:58-69 | the grid loop stops at the first match exactly when it deletes, and otherwise collects every match |
| `Tiles.FirstGridMatch` | scripts/tilemap.py:58-69 | the first matching position in dictionary order, or the length when nothing matches |
| `Tiles.Tilemap.RemoveEntry` | scripts/tilemap.py:69 | `del` removes the key from the dictionary and from its iteration order |
| `TileFacts.OffgridPartition` | scripts/tilemap.py:50-56 | matches and rest together are the old list as a multiset; every match matches and nothing left matches |
| `Tiles.RestHasNoMatch` | scripts/tilemap.py:50-56 | a matching tile is never left in the off-grid list |
| `TileFacts.GridMatchesMembers` | scripts/tilemap.py:58-68 | a tile is returned from the grid iff a stored matching tile has it as its pixel copy, with `pos` times `tile_size` |
| `Tiles.Tilemap.Autotile` | scripts/tilemap.py:138-151 | the new grid is `Autotiled` of the old one; the key order, the off-grid tiles and the tile size are unchanged |
| `Tiles.Autotiled` | scripts/tilemap.py:138-151 | the map after `autotile` has the same keys, and every tile keeps its type and `pos` |
| `Tiles.SameKindNeighbors` | scripts/tilemap.py:141-147 | the loop over the four shifts collects exactly the same-type neighbour set |
| `Tiles.AutotileComplete` | scripts/tilemap.py:138-151 | retiling every key, in any order, from the unchanged types yields `Autotiled` and keeps the key invariants |
| `Tiles.NeighborSetOnlyReadsKinds` | scripts/tilemap.py:142-147 | the neighbour set depends only on types and positions, never on variants |
| `TileFacts.AutotiledOnlyVariants` | scripts/tilemap.py:138-151 | no key added or removed, no type or `pos` changed; a changed tile is grass or stone and its neighbour set is a key of `AUTOTILE_MAP` |
| `TileFacts.AutotileIdempotent` | scripts/tilemap.py:138-151 | autotiling twice is autotiling once |
| `TileFacts.NeighborSetOfShifts` | scripts/tilemap.py:141-147 | the neighbour set is the union of the four same-type shifts |
| `TileFacts.PlusClusterCentre` | scripts/tilemap.py:15 | a grass or stone tile with all four same-type neighbours becomes variant 8 under `autotile` |
| `TileFacts.UnlistedPatternsKeepTile` | scripts/tilemap.py:6-16 | no neighbour, one neighbour, or only an opposite pair leaves the tile as it was |
| `TileFacts.AutotileVariantRange` | scripts/tilemap.py:6-16 | a retiled variant is between 0 and 8 |
| `Tiles.Tilemap.Load` | scripts/tilemap.py:107-114 | loading replaces the grid, the tile size and the off-grid list with the document's |
| `Tiles.Tilemap.Place` | editor.py:102-104 | painting a cell stores a tile whose `pos` is that cell; a new key goes to the end of the order |
| `Tiles.Tilemap.Delete` | editor.py:107-111 | erasing removes just that key, from the dictionary and from its iteration order, which otherwise keeps its order |
| `Tiles.EnumeratesRemove` | scripts/tilemap.py:69 | deleting a key keeps the order an enumeration of the remaining keys |
| `Tiles.EnumeratesAdd` | editor.py:102-104 | adding a new key at the end keeps the order an enumeration of the keys |
| `Animations.Animation.constructor` | scripts/utils.py:38-43 | the images, duration and loop flag as given; frame 0, not done |
| `Animations.Animation.Copy` | scripts/utils.py:45-46 | a fresh animation with the same images, duration and loop flag, at frame 0 and not done |
| `Animations.Animation.Update` | scripts/utils.py:52-58 | the frame and done flag advance by `Step` and the frame stays within `[0, img_duration*len(images))` |
| `Animations.Step` | scripts/utils.py:52-58 | a looping clip wraps to 0 after its last frame and otherwise advances by one; a non-looping clip advances to at most `total - 1`, and is done iff it was done or sits on that last frame |
| `Animations.Animation.Img` | scripts/utils.py:63-64 | `img` is `images[frame // img_duration]`, an image of the animation |
| `Animations.StepInRange` | scripts/utils.py:53-58 | one update keeps the frame in range |
| `Animations.LoopRun` | scripts/utils.py:53-54 | `k` looping updates give `(frame + k) mod total` |
| `Animations.LoopReturns` | scripts/utils.py:52-64 | a looping animation is back at its frame exactly after a multiple of `img_duration*len(images)` updates |
| `Animations.NonLoopRun` | scripts/utils.py:55-56 | `k` non-looping updates give `min(frame + k, total - 1)` |
| `Animations.NonLoopMonotone` | scripts/utils.py:56 | a non-looping frame never decreases and never passes `total - 1` |
| `Animations.NonLoopDone` | scripts/utils.py:56-58 | after `k` updates a non-looping animation is done iff it was done or has reached its last frame; once done it stays done |
| `Animations.SingleTickDone` | scripts/utils.py:56-58 | with a single frame it is done after one update |
| `Animations.ImageIndexInRange` | scripts/utils.py:63-64 | `int(frame / img_duration)` is a valid image index for every frame in range |
| `Physics.Clamp` | scripts/entities.py:62-87 | a push-out keeps the rectangle's size and moves it only along its own axis |
| `Physics.MinReal` | scripts/entities.py:104 | `min`: at most both arguments, and one of them |
| `Physics.SweepAxis` | scripts/entities.py:58-88 | the collision loop over the nearby rectangles is the sweep `Resolve`; the position takes the rectangle's coordinate once any obstacle overlapped |
| `Physics.Resolve` | scripts/entities.py:58-88 | the sweep keeps the rectangle's size and its other coordinate; an untouched sweep leaves the rectangle as it was with no flag; the forward flag needs positive motion and the backward flag negative motion |
| `Physics.PhysicsStep` | scripts/entities.py:42-109 | after a step `last_movement` is the requested movement, the horizontal speed is kept, the vertical speed is at most 5 and is 0 after a vertical hit; a side hit needs horizontal motion; no horizontal input keeps the facing |
| `Physics.PhysicsEntity.constructor` | scripts/entities.py:12-25 | an idle entity at rest with no collisions, with a fresh copy of its idle animation |
| `Physics.PhysicsEntity.Rect` | scripts/entities.py:27-29 | `rect()` is the truncated position with the entity's size |
| `Physics.PhysicsEntity.SetAction` | scripts/entities.py:33-40 | the same action keeps the animation object and its frame; another one installs a fresh copy of that action's clip at frame 0 |
| `Physics.PhysicsEntity.Update` | scripts/entities.py:42-111 | the body becomes `PhysicsStep` of the old body, and the animation advances one `Step` |
| `Physics.PhysicsEntity.Move` | scripts/entities.py:45-109 | the collision passes, facing, last movement and gravity give exactly `PhysicsStep` |
| `Physics.PhysicsEntity.CollideX` | scripts/entities.py:52-72 | move by `frame_movement.x`, then push out against the rectangles around the moved position and set right and left |
| `Physics.PhysicsEntity.CollideY` | scripts/entities.py:74-88 | the same along Y, against a fresh rectangle, setting down and up |
| `Physics.PhysicsEntity.Gravity` | scripts/entities.py:91-109 | facing from the requested movement, `last_movement`, and the vertical speed raised by 0.1 up to 5 unless there was a vertical hit, which stops it |
| `PhysicsFacts.ResolveFlags` | scripts/entities.py:62-87 | a forward push happens only when moving forward, and a backward push only when moving backward |
| `PhysicsFacts.ResolveUntouched` | scripts/entities.py:58-72 | nothing is pushed iff no obstacle overlaps, and then the rectangle is unchanged |
| `PhysicsFacts.ResolveBacksOff` | scripts/entities.py:62-87 | the size and the other axis are kept; a push only moves the rectangle back against its motion; with no motion there is no change |
| `PhysicsFacts.ClampSeparates` | scripts/entities.py:62-87 | after a clamp the rectangles touch edge to edge (right to left, and so on) and no longer overlap |
| `PhysicsFacts.PushOutExample` | scripts/entities.py:62-66 | an 8-wide body at x 25 moving right into a tile at x 32 ends at x 24 with right set |
| `PhysicsFacts.StepFlags` | scripts/entities.py:45-87 | right or left is set only when `frame_movement.x` is positive or negative; down or up likewise for y |
| `PhysicsFacts.StepFreeMove` | scripts/entities.py:52-88 | with no overlap after a move, the coordinate is exactly the old one plus `frame_movement` and no flag of that axis is set |
| `PhysicsFacts.StepPullsBackX` | scripts/entities.py:52-72 | a push along X only pulls the entity back against its direction of motion |
| `PhysicsFacts.StepPullsBackY` | scripts/entities.py:74-88 | the same along Y |
| `PhysicsFacts.StepGravity` | scripts/entities.py:104-109 | the vertical speed is at most 5, and exactly 0 after a hit above or below; otherwise it grows by 0.1 up to 5 |
| `PhysicsFacts.StepFacing` | scripts/entities.py:91-99 | right movement faces right, left movement faces left, no movement keeps the facing; `last_movement` is the requested movement |
| `Players.Player.constructor` | scripts/entities.py:226-235 | a player body with no air time, one charge, no wall slide and no dash |
| `Players.Player.Update` | scripts/entities.py:237-342 | the body becomes `PhysicsStep`, then the counters, body, action, death and particles become `PlayerRules` of it; an unchanged action keeps the animation, advanced one `Step`, and a new action starts a fresh clip at frame 0 |
| `Players.Player.Rules` | scripts/entities.py:240-342 | everything after the physics step is `PlayerRules` |
| `Players.Player.Land` | scripts/entities.py:240-249 | one more tick of air time; above 120 it kills; landing resets the air time and the charge |
| `Players.Player.Slide` | scripts/entities.py:254-281 | the wall slide is on iff there is a side hit and air time above 4; it caps the fall at 0.5 and faces the wall; then the action is chosen |
| `Players.Player.DashTick` | scripts/entities.py:311-342 | the dash counter steps toward 0, followed by the forced dash velocity and friction |
| `Players.Player.Jump` | scripts/entities.py:344-373 | the jump is `JumpOutcome` with its effect `JumpEffect` on velocity, air time and charges |
| `Players.Player.Dash` | scripts/entities.py:383-394 | a dash starts at -60 facing left or 60 facing right, only when the counter is 0 |
| `Players.PlayerRules` | scripts/entities.py:240-342 | the rules kill iff the air time was at least 120; they keep position, collisions and last movement; landing resets the air time and the charge; the action is `wall_slide` exactly while sliding, and always one of the player's four actions |
| `Players.JumpOutcome` | scripts/entities.py:344-373 | a straight jump iff not sliding with a charge left; a kick to the right only off a left wall while pushing left, and the mirror; sliding while pushing into the wall never refuses |
| `Players.JumpEffect` | scripts/entities.py:344-373 | a refused jump changes nothing; any other sets air time 5 and an upward speed and spends one charge; a straight jump keeps the horizontal speed |
| `PlayerFacts.DashDecayTowardZero` | scripts/entities.py:311-314 | one step moves the counter one toward 0 without crossing it |
| `PlayerFacts.DashCountdown` | scripts/entities.py:311-314 | after `k` steps the counter is `max(d - k, 0)` from above, or `min(d + k, 0)` from below |
| `PlayerFacts.DashTimeline` | scripts/entities.py:285-332 | after a dash the speed is ±8 for 8 ticks and ±0.8 on the 9th, the bursts fall on ticks 1 and 11, contact kills for 10 ticks, and the counter is 0 after 60 |
| `PlayerFacts.FrictionTowardZero` | scripts/entities.py:335-342 | friction moves the horizontal speed 0.1 toward 0 without crossing it |
| `PlayerFacts.CoastRun` | scripts/entities.py:335-342 | `k` ticks of friction give `max(v - 0.1k, 0)` |
| `PlayerFacts.WallKickSpent` | scripts/entities.py:335-362 | a wall kick's 3.5 is spent after 35 ticks of friction |
| `PlayerFacts.JumpRefused` | scripts/entities.py:344-373 | the jump is refused iff sliding without pushing into the wall, or not sliding with no charge |
| `PlayerFacts.SlidingWithoutPushRefused` | scripts/entities.py:349-362 | a wall-sliding player not pushing into the wall cannot jump even with a charge |
| `PlayerFacts.JumpSpendsCharge` | scripts/entities.py:344-373 | a jump sets air time 5 and spends the charge; wall kicks go up and away from the wall; a straight jump sets vertical speed -3; a refusal changes nothing |
| `PlayerFacts.NoDoubleJump` | scripts/entities.py:344-373 | after a straight jump a second one, without landing, is refused |
| `PlayerFacts.AirTimeRule` | scripts/entities.py:240-249 | the update kills iff the air time was already 120 or more; landing resets the air time and the charge, otherwise the air time grows by 1 |
| `PlayerFacts.WallSlideRule` | scripts/entities.py:254-281 | the wall slide is on iff there is a side hit and air time above 4; while on, the fall is capped at 0.5 and the player faces the wall; the action follows |
| `PlayerFacts.RulesKeepBounds` | scripts/entities.py:240-332 | the charge stays 0 or 1 and the dash counter stays within ±60 and never grows in size |
| `PlayerFacts.RulesKeepBody` | scripts/entities.py:237-342 | the player's rules do not move the body or touch its collision flags |
| `Enemies.Enemy.constructor` | scripts/entities.py:131-134 | an enemy body that is not walking |
| `Enemies.Enemy.Update` | scripts/entities.py:136-207 | the new state, the shot and the kill are `EnemyStep`; kill iff contact with a player dashing at 50 or more; the sparks and particles of a shot and a kill; an unchanged action keeps the animation, advanced one `Step`, and a new action starts a fresh clip at frame 0 |
| `Enemies.Enemy.Walk` | scripts/entities.py:138-182 | the patrol part of `update` is `PatrolStep` |
| `Enemies.Enemy.Stride` | scripts/entities.py:184-191 | the physics step with the patrol's movement, then `run` when it moves along x and `idle` otherwise, with the animation stepped or restarted |
| `Enemies.EnemyStep` | scripts/entities.py:136-207 | the action is `run` or `idle`; a shot comes only from a walking enemy whose counter ends at 0; a kill needs a dash of at least 50 and contact; the horizontal speed is kept |
| `Enemies.PatrolStep` | scripts/entities.py:138-182 | an idle enemy keeps its facing and movement, fires nothing, and starts walking for the drawn length iff its roll is below 0.01; a walking counter drops by one; a shot only as the counter reaches 0 |
| `Enemies.Shot` | scripts/entities.py:154-175 | a shot iff the player is less than 16 pixels away vertically and on the facing side; it has timer 0, flies the way the enemy faces, and starts at the enemy's centre height |
| `Enemies.Killed` | scripts/entities.py:193-195 | a kill needs the enemy's rectangle to have positive size and to overlap the player's |
| `EnemyFacts.PatrolCountdown` | scripts/entities.py:138-182 | a walking counter drops by one and never below 0; an idle enemy starts walking iff its roll is below 0.01, for 30 to 120 ticks |
| `EnemyFacts.PatrolTurn` | scripts/entities.py:138-153 | a walking enemy turns iff no solid tile is at the probe or it hit a wall; turning adds no walk, otherwise it walks 0.5 forward |
| `EnemyFacts.PatrolSpeed` | scripts/entities.py:144-149 | with the game's movement (0, 0) a walking enemy moves 0.5 in its facing direction |
| `EnemyFacts.IdleSkipsPatrol` | scripts/entities.py:138-182 | an idle enemy does not turn, move or shoot |
| `EnemyFacts.ShotRule` | scripts/entities.py:154-175 | a shot is fired iff the counter reaches 0 with the player within 16 pixels vertically on the facing side; it starts 7 pixels ahead of the centre, at speed ±1.5 toward the player, with timer 0 |
| `EnemyFacts.KilledOnlyByDash` | scripts/entities.py:193-207 | the kill test holds iff the dash counter's size is at least 50 and the rectangles overlap |
| `Projectiles.Advance` | main.py:176-178 | a projectile moves by its direction along x and ages by one |
| `Projectiles.FateOf` | main.py:184-199 | a wall comes first; then expiry past 360; then a hit iff the dash counter's size is below 50 and the player's rectangle contains the point |
| `Projectiles.Fly` | main.py:176-207 | the survivors, walls and hits together are at most the projectiles there were |
| `Projectiles.FlyPass` | main.py:176-199 | the loop over a copy, advancing in place and removing by value, yields exactly `Fly` |
| `Projectiles.FlyOne` | main.py:177-199 | one turn of the projectile loop keeps the loop state |
| `Projectiles.FlyKept` | main.py:176-199 | a projectile survives iff it is an advanced projectile of the list whose fate is to fly on |
| `Projectiles.FlyKeptFlies` | main.py:184-199 | a survivor is in no solid tile, is at most 360 ticks old, and is not inside a vulnerable player |
| `Projectiles.FlyDashing` | main.py:196 | while the dash counter's size is 50 or more, no projectile hits the player |
| `Projectiles.FlyGone` | main.py:184-198 | `list.remove` by value takes out exactly the projectile being tested |
| `Host.CollectLeafAreas` | main.py:68-74 | one leaf area per tree, in order: 23 by 13, offset by 4 from the tree's corner |
| `Host.EnemySpawnsMembers` | main.py:79-86 | an enemy is spawned at a position iff a spawner of variant other than 0 stands there |
| `Host.PlayerSpotLast` | main.py:79-84 | the player moves iff there is a variant-0 spawner, and then to the last one |
| `Host.SpawnAll` | main.py:79-86 | one new idle enemy of size 8 by 15 per enemy spawner, in order, all distinct and valid |
| `Host.Recruit` | main.py:86 | appending one new enemy keeps the list valid and free of repeats |
| `Host.Game.constructor` | main.py:55-59 | a 16-pixel tile map, the player at (50, 50) of size 8 by 15, level 0, no key held |
| `Host.Game.LoadLevel` | main.py:66-101 | leaf areas of the trees, then the spawners leave the off-grid list; either the failed extraction state (the first grid spawner deleted from the grid and its order, no enemies), or the player placed, enemies spawned, no projectiles, `dead` 0 and `transition` -30 |
| `Host.Game.Populate` | main.py:79-101 | the spawner extraction, then the spawns and the counter resets |
| `Host.Game.LoadMap` | main.py:67-77 | the document is loaded, the leaf areas are recorded and the enemy list is empty |
| `Host.Game.TakeSpawners` | main.py:79 | `extract` of the spawners without `keep`: the spawners leave the off-grid list; a grid spawner makes it fail with the first one deleted from the grid and its order, otherwise it returns every spawner |
| `Host.Game.Spawn` | main.py:79-86 | spawner dispatch: enemies at the enemy spawners; the player at the last player spawner with air time 0 |
| `Host.Game.Relocate` | main.py:81-84 | a player spawner moves the player and resets its air time |
| `Host.Game.Start` | main.py:79-101 | spawns, then the resets |
| `Host.Game.Restart` | main.py:87-101 | the projectiles are emptied, `dead` is 0 and `transition` is -30 |
| `Host.NextLevel` | main.py:114 | the level stays below the number of maps and rises by at most one; it stays put only at the last map |
| `Host.Game.Clear` | main.py:109-115 | with no enemy the transition counts up; past 30 the capped next level loads; otherwise nothing else changes |
| `Host.Game.Unwind` | main.py:116-117 | a negative transition counts up by one |
| `Host.DeathTick` | main.py:119-125 | a stopped timer stays stopped; a running one counts up by one; the transition changes exactly when the timer reaches 10 (unless it is already 30), and then steps to `min(30, transition + 1)`; the reload is due exactly past 40 |
| `Host.DeathDelay` | main.py:119-125 | from a running timer the level reloads on exactly the tick the timer reaches 41, and not before |
| `Host.Game.DeathPhase` | main.py:119-125 | the death block is `DeathTick`; a reload runs `load_level` of the same level, which resets `dead` to 0 |
| `Host.Game.Opening` | main.py:109-117 | the level-clear block then, unless its load failed, the transition unwinding; states only the invariant and that any new enemies are fresh |
| `Host.Game.Timers` | main.py:109-125 | the counter blocks at the head of a tick; states only the invariant and that any new enemies are fresh |
| `Host.EnemyPass` | main.py:160-164 | each enemy of the copy updates with movement (0, 0) against the same player; survivors are exactly those not killed, in order; shots in order; sparks and particles counted |
| `Host.KeepMembers` | main.py:163-164 | an enemy leaves the list exactly when its update reports a kill |
| `Host.KeepSub` | main.py:160-164 | the survivors are enemies of the old list, without repeats |
| `Host.CrewKeep` | main.py:160-164 | the survivors still form a valid list |
| `Host.Visit` | main.py:161 | one enemy's update leaves the other enemies' states alone |
| `Host.Step` | main.py:160-164 | one turn of the enemy loop keeps the loop state |
| `Host.Game.EnemyPhase` | main.py:160-164 | the enemy loop: new states, survivors, the shots appended to the projectiles, and the player untouched |
| `Host.MovePlayer` | main.py:166-168 | the player's update leaves the enemies valid |
| `Host.Game.PlayerPhase` | main.py:166-168 | only a live player updates; a fall that kills starts the death timer |
| `Host.Game.ProjectilePhase` | main.py:176-207 | the projectiles become `Fly`'s survivors, and each hit adds one to `dead` |
| `Host.Game.Updates` | main.py:160-207 | the enemy, player and projectile updates of a tick keep the game invariant |
| `Host.Game.Tick` | main.py:103-249 | a tick keeps the game invariant, and after it the arrow keys are as this tick's events left them |
| `Host.Game.HandleEvents` | main.py:232-249 | the event loop: the held arrow keys become `Held` of the events |
| `Host.Game.Handle` | main.py:236-249 | an arrow press or release sets its key; space jumps, x dashes; any other event leaves the player alone |
| `Host.Press` | main.py:236-249 | a press or release of an arrow key sets that key to whether it was a press; the other arrow key, and both on any other key, stay as they were |
| `Host.Held` | main.py:232-249 | after the events, an arrow key addressed by the last event is set to whether that event was a press |
| `Host.LastEventWins` | main.py:236-249 | the last event on an arrow key decides whether it is held |
| `Host.HeldAppend` | main.py:232-249 | events after events continue from what the first ones left |
| `Host.HeldOthers` | main.py:236-249 | events on other keys leave an arrow key alone |
| `Common.RemoveFirst` | main.py:164 | `list.remove` of an element that is in the list removes exactly one element |
| `Common.RemoveFirstSplit` | main.py:164 | removing an element absent before its position takes out exactly that one |

## Left out

- **Rendering:** all drawing, the camera, the transition circle, the gun overlay and the screen scaling are presentation and are not modelled.
- **Assets and files:** images, the JSON map files and the asset dictionaries are file I/O.
  - `Tilemap.Load` takes the parsed document as a value.
  - The game's assets are a parameter that is assumed well formed.
  - Images are an opaque datatype.
- **Level count:** the number of maps, which the program reads from the directory listing, is the length of the `maps` sequence.
- **Sparks, particles and leaves:** each tick reports how many sparks and particles it emits. Their random angles, trigonometry, motion and removal are not modelled, and neither are the falling leaves or the clouds.
- **Randomness:** it is a parameter.
  - Each enemy's `random()` roll and `randint(30, 120)` walk length are a `Dice` value.
  - In a tick the `j`-th enemy gets `roll(j)`.
- **Exiting:** the quit event, `sys.exit`, the start menu, music and the frame clock are input and UI plumbing.
  - Events are limited to key presses and releases.
  - A failed level load ends the tick. This stands for the uncaught exception that ends the program.
- **Inheritance:** it is replaced by composition. `Player` and `Enemy` each hold a `PhysicsEntity` body. The `game` back-reference is replaced by explicit parameters and results:
  - the tile map;
  - the player view;
  - the returned death flag.
- **Floats:** floating-point rounding is not modelled. Velocities and positions are exact reals, so nothing is claimed about bit-exact float results.
- **Cell keys:** the dictionary is keyed by the cell pair rather than the string `x;y`. `CellKeys.KeyRoundTrip` and `CellKeys.KeyInjective` justify the change.
  - `Tilemap.save` is not modelled.
  - The editor's mouse, keyboard and selection UI are not modelled. Only its grid place and delete operations are.
  - The right-click erase also removes every off-grid tile whose image rectangle contains the mouse (`editor.py:112-117`). It depends on the image sizes and the scroll, which are presentation, and is not modelled.
- **Projectiles:** they are values in a sequence, not shared mutable lists.
  - The loop advances the current projectile in place and removes by value.
  - Every projectile's fate is deterministic, so a survivor never equals the projectile being tested. `FlyGone` and `FlyKeptFlies` use this to show that removing by value takes out exactly that projectile.
- **Held keys:** key events apply after the updates, as in the loop. The movement of a tick comes from the keys held before its events, as the program reads the field before polling.
- `Tiles.Tilemap.Load`: requires a well-formed document: a positive tile size, every tile's `pos` equal to its key, and an order that lists every key once. `Host.Game.Valid` asks the same of every map. The program loads any JSON without checking. The map files come from the editor, which writes each tile under the key of its own `pos` and uses tile size 16. A hand-edited file that breaks this is outside the model.
- `Host.Game.constructor`: `__init__` ends with `self.load_level(0)` (`main.py:61`). The constructor stops before it, because a constructor cannot return the load's `Result`; a game is started by calling `LoadLevel(0)` after construction.
- `Common.RemoveFirst`: Python's `list.remove` raises `ValueError` for an absent element. The model requires the element to be present, and every call proves it, since each removal takes out an element just read from the list.
- `Host.Game.Tick`: the contract states only the game invariant and the held keys. The effect of each block is stated by the contracts of `Clear`, `Unwind`, `DeathPhase`, `EnemyPhase`, `PlayerPhase` and `ProjectilePhase`, because one contract for the whole tick is beyond this model's solver budget.
- `Host.Game.Timers`: states only the invariant and the enemies' freshness. The blocks it chains are specified by `Clear`, `Unwind` and `DeathPhase`.
- `Host.Game.Opening`: states only the invariant and the enemies' freshness. Its blocks are specified by `Clear` and `Unwind`.
- `Host.Game.Updates`: states only the invariant. The phases it chains are specified by `EnemyPhase`, `PlayerPhase` and `ProjectilePhase`.
