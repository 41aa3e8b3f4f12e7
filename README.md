# Planetes, modelled in Dafny

Planetes is a small pygame platformer. A level is a grid of characters: walls (`X`), coins (`C`), death boxes (`D`), enemies standing on a platform (`E`) and the player (`P`). Each frame the level does the following, in order:

1. It scrolls its dust particle and its tiles by the camera's world shift.
2. It decides the next world shift from where the player stands and which way it walks.
3. It lets the player react to the keys: move, jump, shoot, animate.
4. It runs a horizontal collision pass for the player and for every enemy. These passes share the level's `current_x`.
5. It runs a vertical collision pass for the player. This pass applies gravity, lands or bumps on tiles, collects coins and dies on death boxes.
6. It raises landing dust and animates the enemies.
7. It ends the game on ESCAPE.

This project models that per-frame simulation: the level, the characters, bullets, particles, tiles and tile sheets, the save record, and the enumerations.

The model follows the source file by file:

| module | file | source |
|---|---|---|
| `Enums` | `enums.dfy` | `src/enums.py` |
| `Settings` | `settings.dfy` | the two constants of `src/settings.py` that the simulation reads |
| `Geometry` | `geometry.dfy` | pygame's `Rect` (integer corner and size; `colliderect` is strict overlap) and pygame's float-to-int coercion, modelled as truncation toward zero |
| `Tiles` | `tiles.dfy` | `src/tiles.py` |
| `Bullets` | `bullets.dfy` | `src/bullets.py` |
| `Particles` | `particles.dfy` | `src/particles.py` |
| `Characters` | `character.dfy` | `src/character.py` |
| `Saves` | `save.dfy` | `src/save.py` |
| `LevelRules` | `level_rules.dfy` | the rules of `src/level.py` as functions on values |
| `Levels` | `level.dfy` | the `Level` class of `src/level.py` |

Objects that the source updates in place are Dafny classes whose methods change their fields: `Square`, `Bullet`, `ParticleEffect`, `Character`, `Player`, `Enemy` and `Level`. Each `Level` method is proved against the rule of the same name in `LevelRules`. The properties of the rules are then proved as lemmas about those functions:

- spawning succeeds exactly for well-formed layouts;
- the last `P` becomes the player;
- the camera rule;
- the last blocking tile wins the horizontal snap;
- enemies turn at most once per pass;
- the game ends exactly on a killing tile;
- the score grows by exactly the number of coins removed.

`Level.Run` ties the frame together. It keeps the level valid and conserves score plus tile count. Only coins leave the group. The surviving tiles move only with the camera.

Images are only their sizes. A sprite group is a sequence, and `kill` removes an element from it. Velocities and frame indices are `real`. The keys pressed in a frame and the wall-clock time are parameters.

## Model

| member | source | states |
|---|---|---|
| Enums.CollisionsAreFour | src/enums.py:38-45 | every collision flag is one of TOP, BOTTOM, LEFT, RIGHT, and the four are distinct |
| Enums.PlayerStatesAreFour | src/enums.py:4-11 | the player states are exactly IDLE, RUN, JUMP, FALL, all distinct |
| Enums.CellTypeOf | src/enums.py:56-65 | `CellType(c)` has a member exactly for the six codes ' ', X, P, E, C, D; any other character fails |
| Enums.CellLookupInvertsTable | src/enums.py:56-65 | the lookup returns t for c exactly when t's value is c, in both directions |
| Enums.CellCharInjective | src/enums.py:56-65 | no two cell types share a code |
| Geometry.Rect.WithLeft | src/level.py:233 | assigning `rect.left` moves the rectangle so that its left edge is the value; its row and size stay |
| Geometry.Rect.WithRight | src/level.py:238 | assigning `rect.right` puts the right edge at the value; its row and size stay |
| Geometry.Rect.WithTop | src/level.py:273 | assigning `rect.top` puts the top edge at the value; its column and size stay |
| Geometry.Rect.WithBottom | src/level.py:269 | assigning `rect.bottom` puts the bottom edge at the value; its column and size stay |
| Geometry.AtTopLeft | src/tiles.py:18-20 | `get_rect(topleft=(x, y))` has the image's size with its top-left corner at (x, y) |
| Geometry.AtTopRight | src/character.py:131-132 | `get_rect(topright=…)` keeps the top-right corner, with the image's size |
| Geometry.AtBottomLeft | src/character.py:127-128 | `get_rect(bottomleft=…)` keeps the bottom-left corner, with the image's size |
| Geometry.AtBottomRight | src/character.py:125-126 | `get_rect(bottomright=…)` keeps the bottom-right corner, with the image's size |
| Geometry.AtMidTop | src/character.py:135-136 | `get_rect(midtop=…)` keeps the horizontal centre and the top edge, with the image's size |
| Geometry.AtMidBottom | src/character.py:129-130 | `get_rect(midbottom=…)` keeps the horizontal centre and the bottom edge, with the image's size |
| Geometry.AtCenter | src/particles.py:23 | `get_rect(center=pos)` is centred on pos, with the image's size |
| Geometry.CollidesSymmetric | src/bullets.py:45-52 | rectangle overlap does not depend on which rectangle asks |
| Geometry.Trunc | src/character.py:354-355 | a float stored into a rectangle loses less than one pixel, toward zero |
| Geometry.TruncOfInteger | src/level.py:210 | a float holding an integer is stored unchanged |
| Tiles.Square.constructor | src/tiles.py:34-45 | a tile keeps the given surface and flags; by default it collides and neither collects nor kills |
| Tiles.Square.View | src/tiles.py:30-45 | the view of a tile is its rectangle and its three flags |
| Tiles.Square.Scaled | src/tiles.py:22-27 | `scaled(sx, sy)` makes the image (w·sx, h·sy) and leaves the rectangle |
| Tiles.Square.WithRect | src/tiles.py:18-20 | `with_rect(x, y)` places the image's rectangle with its top-left corner at (x, y) |
| Tiles.Square.Update | src/tiles.py:47-48 | `update(s)` moves the tile by s along x; its row, size and image stay |
| Tiles.TileSheet.TileAt | src/tiles.py:63-80 | tile (x, y) with offset is cut iff the rectangle at (x·tw + xo, y·th + yo), one tile in size, lies inside the sheet; it is that rectangle, and `subsurface` raises otherwise |
| Tiles.TileSheet.Yield | src/tiles.py:82-90 | a generator of `tile_at` calls yields the asked rectangles up to the first one outside the sheet, all inside it, and raises exactly when such a rectangle exists |
| Tiles.LoadSheet | src/tiles.py:55-61 | the tile size is the sheet size floor-divided by the columns and by the rows |
| Tiles.AllTilesRowMajor | src/tiles.py:83-90 | `all_tiles` asks for tile (x, y) at position y·tile_width + x: row-major, x fastest, over the tile's size in pixels |
| Tiles.AllTilesLeavesSheet | src/tiles.py:83-90 | as written, on any sheet whose tiles are wider in pixels than the grid has columns, `all_tiles` yields the first row's `columns` tiles and then raises at tile (columns, 0), which ends past the sheet's right edge |
| Tiles.GridTilesInSheet | src/tiles.py:83-90 | walking the grid's rows and columns instead keeps every tile inside the sheet, so the generator yields the whole grid and never raises |
| Bullets.Velocity | src/bullets.py:37-40 | a bullet moves by its speed against x when facing left and along x otherwise |
| Bullets.Bullet.constructor | src/bullets.py:11-27 | a new bullet is alive, with its rectangle and spawn point at (x, y) |
| Bullets.Bullet.Update | src/bullets.py:29-43 | an update moves x by the velocity, keeps y, and leaves the bullet alive iff it is within 550 of its spawn x; a dead bullet never revives |
| Bullets.Bullet.Hits | src/bullets.py:45-52 | `hits` is rectangle overlap, and it does not matter which of the two rectangles asks |
| Bullets.Bullet.Distance | src/bullets.py:29-43 | after k updates a bullet is exactly k speeds from its spawn x |
| Bullets.DiesOnUpdate | src/bullets.py:41-43 | at speed s > 0, k updates stay in range iff k ≤ 550 div s |
| Bullets.BulletSpeedDiesOnUpdate79 | src/bullets.py:41-43 | at the game's bullet speed 7 a bullet dies on its 79th update |
| Particles.HalfStepIndex | src/particles.py:14-30 | with steps of 0.5 the index reaches n on step 2n and shows frame k div 2 on step k |
| Particles.ParticleEffect.constructor | src/particles.py:11-23 | a new particle has index 0, shows its first frame and is centred on pos |
| Particles.ParticleEffect.Animate | src/particles.py:25-30 | the index grows by 0.5; the particle dies iff the index leaves the frame list, else shows the frame at the index |
| Particles.ParticleEffect.Update | src/particles.py:32-34 | `update` animates, then shifts x by the camera even on the killing call |
| Characters.StatusOf | src/character.py:332-346 | rising is JUMP, dy > 1 is FALL, otherwise moving is RUN and standing is IDLE, each as an iff |
| Characters.AdvanceFrame | src/character.py:316-322 | an animation index stays within [0, frames), so its integer part names a frame; it wraps to 0 only past the end |
| Characters.Reanchor | src/character.py:119-136 | the rectangle takes the image's size at the first anchor among {B,R}, {B,L}, {B}, {T,R}, {T,L}, {T}; with neither TOP nor BOTTOM it is unchanged |
| Characters.ShotsAreSpaced | src/character.py:66-77 | shots that actually fire come more than 0.18 s apart, each at a requested time |
| Characters.CooldownExamples | src/character.py:74 | two requests 0.05 s apart fire once; 0.2 s apart they fire twice |
| Characters.Character.constructor | src/character.py:96-108 | a new character is at (x, y), facing right, with no collisions and direction (0, 0) |
| Characters.Character.Hits | src/character.py:110-117 | `hits` is rectangle overlap, and it does not matter which of the two rectangles asks |
| Characters.Character.HandleCollisions | src/character.py:119-136 | `handle_collisions` re-anchors the rectangle as Reanchor says |
| Characters.Player.constructor | src/character.py:176-214 | a new player is idle with score 0, no bullets, frame indices 0 and speed 8 |
| Characters.Player.X | src/character.py:242-244 | `x` is rect.x + width // 2, inside the rectangle |
| Characters.Player.Y | src/character.py:246-248 | `y` is rect.y + height // 2, inside the rectangle |
| Characters.KeyDx | src/character.py:297-304 | the direction is 1 iff RIGHT is down, −1 iff only LEFT is, 0 iff neither |
| Characters.KeyFacing | src/character.py:297-304 | RIGHT faces right, LEFT without RIGHT faces left, neither keeps the facing |
| Characters.Player.Shoot | src/character.py:66-77 | past the 0.18 s cooldown exactly one live bullet is appended, spawned at (x, y) with the player's facing, the bullet image and speed 7, and last_shot becomes now; otherwise nothing changes |
| Characters.Player.SetOrientation | src/character.py:250-254 | the orientation setter shows the current frame at the same top-left corner |
| Characters.Player.Jump | src/character.py:357-358 | `jump` sets dy to −16 |
| Characters.Player.ApplyGravity | src/character.py:348-355 | dy grows by exactly 0.8, then y moves by the new dy |
| Characters.Player.HandleKeyPresses | src/character.py:287-311 | RIGHT wins over LEFT; with neither dx is 0 and the facing stays; UP jumps only on the ground, reporting where; SPACE past the cooldown appends one bullet spawned at (x, y) with the facing and speed 7 and sets last_shot to now, otherwise bullets and last_shot stay |
| Characters.Player.UpdateStatus | src/character.py:332-346 | the status becomes the state function of the direction |
| Characters.Player.Animate | src/character.py:314-330 | the index advances and wraps, the current frame is shown and the rectangle is re-anchored |
| Characters.Player.RunDustAnimation | src/character.py:360-371 | the dust index advances and wraps only while running on the ground |
| Characters.Player.DisplayBullets | src/character.py:79-89 | every bullet, dead or alive, takes one update |
| Characters.Player.Update | src/character.py:381-386 | the whole new player: dx and facing from the keys, dy −16 iff UP on the ground, the status of the new direction, the advanced frame index and its frame, the rectangle steered then re-anchored, the jump report, the dust index, a shot from the steered centre that has flown once with last_shot now, every old bullet moved once; score, flags and speed stay |
| Characters.Enemy.constructor | src/character.py:393-397 | a new enemy is at (x, y) with speed 3.5 and frame index 0 |
| Characters.Enemy.Animate | src/character.py:404-421 | the index advances and wraps, shows its frame, and the rectangle is re-anchored |
| Saves.ToJson | src/save.py:26-38 | `to_json` has exactly the keys name, score, level, map, created_at |
| Saves.InvalidFields | src/save.py:16-20 | a dictionary is rejected exactly for values of the wrong kind |
| Saves.FromJson | src/save.py:40-54 | `from_json` succeeds iff all five keys are present with values of the right kind; a missing key is reported |
| Saves.RoundTrip | src/save.py:26-54 | `from_json(to_json(s)) == s` for every save, the empty map included |
| Saves.FromJsonReadsOnlySaveKeys | src/save.py:48-54 | `to_json(from_json(d))` is d restricted to the five keys |
| Saves.ParseShowInt | src/save.py:24 | an integer printed in decimal reads back as itself |
| Saves.PrettyRecoversFields | src/save.py:22-24 | `pretty` is name, score and level joined by single spaces: the last two words give back level and score, the rest the name |
| LevelRules.CellsRowMajor | src/level.py:114-117 | the cells are visited row by row, left to right, each grid position once with its code |
| LevelRules.CellTile | src/level.py:116-161 | X, D and E cells give a tile at (64c, 64r), C a tile at (64c+16, 64r+16); only C is collectable, only D kills, all but C collide |
| LevelRules.EnemySpot | src/level.py:144-155 | an E cell puts an enemy at (64c, 64r − 64) |
| LevelRules.SpawnCellsOutcome | src/level.py:114-120 | spawning cells succeeds iff every code is known, else fails at the first unknown one |
| LevelRules.SpawnErrorSticks | src/level.py:120 | once an unknown code is met, later cells never undo the failure |
| LevelRules.SpawnCellsPlayer | src/level.py:123-131 | the player is the last P visited, and there is one iff some cell is P |
| LevelRules.SpawnCellsGathers | src/level.py:114-161 | the spawned tiles and enemies are those of the cells, in visiting order |
| LevelRules.SpawnPlanOutcome | src/level.py:114-167 | a layout is accepted iff all its codes are known and it has a P; it fails with "no player" iff all codes are known and there is no P |
| LevelRules.SpawnPlanFirstUnknown | src/level.py:114-120 | a refused cell is in the grid, unknown, and the first unknown one in row-major order |
| LevelRules.SpawnPlanPlayerIsLastP | src/level.py:123-131 | with several P cells the player stands at the last in row-major order |
| LevelRules.SpawnPlanTiles | src/level.py:116-161 | every X, C, D and E cell has its tile in the group, and every tile comes from such a cell |
| LevelRules.SpawnPlanEnemies | src/level.py:144-155 | every E cell has its enemy one tile above, and every enemy comes from an E cell |
| LevelRules.CameraRule | src/level.py:183-201 | centre < 300 walking left gives shift 16 and speed 0; centre > 900 walking right gives −16 and 0; otherwise 0 and 8; the world never scrolls while the player moves |
| LevelRules.HStep | src/level.py:212-240 | a tile that does not collide, or that kills, leaves the player as it was |
| LevelRules.HSweepKeepsVertical | src/level.py:210-240 | the sweep keeps the row and size, only adds LEFT or RIGHT, and changes direction or speed only for enemies |
| LevelRules.HorizontalPass | src/level.py:203-250 | after the pass LEFT is absent unless moving left and RIGHT unless moving right, side flags agree with current_x, TOP and BOTTOM are untouched |
| LevelRules.LastBlockingTileWins | src/level.py:223-240 | for the player, either nothing blocks and nothing changes, or the result is the snap against some blocking tile with no later tile blocking the final position; killing tiles never block |
| LevelRules.SweepAtRest | src/level.py:216-240 | a character with direction 0 is never moved, turned or snapped |
| LevelRules.EnemyAtRestNeverMoves | src/level.py:210-250 | an enemy with direction 0 stays where it is; only its side flags are cleared |
| LevelRules.EnemiesPassStep | src/level.py:347-348 | one more enemy is one more horizontal pass, from the current_x the earlier ones left |
| LevelRules.EnemiesAtRestStay | src/level.py:347-348 | enemies that all stand still keep their places and leave current_x alone |
| LevelRules.HSweepAppend | src/level.py:212 | sweeping two tile lists in turn is sweeping their concatenation |
| LevelRules.NoTurnWhileNotRight | src/level.py:214-221 | an enemy heading left or standing keeps its direction and speed |
| LevelRules.EnemyTurnsAtMostOnce | src/level.py:214-221 | an enemy turns at most once per pass, and a turn resets its speed to 3.5 |
| LevelRules.EnemyTurnsAtInnerEdge | src/level.py:214-221 | an enemy heading right whose right edge is strictly inside a tile's x-span, whatever the rows, ends heading left at speed 3.5 |
| LevelRules.TouchStops | src/level.py:262-275 | falling onto a blocking tile lands flush on it with BOTTOM and dy 0; rising bumps flush under it with TOP; otherwise nothing changes |
| LevelRules.VSweepScore | src/level.py:261-279 | each tile gets one decision, and the score grows by one per tile removed |
| LevelRules.VSweepAppend | src/level.py:261 | sweeping two tile lists in turn is sweeping their concatenation |
| LevelRules.CollectedExactly | src/level.py:276-279 | tile k is removed iff the player is alive, tile k does not kill it, and tile k is a collectable it overlaps |
| LevelRules.KeepStable | src/level.py:261-279 | the decisions about the first n tiles are final once tile n is reached |
| LevelRules.GameOverExactly | src/level.py:262-266 | the game ends iff, while the player is alive, a killing tile overlaps it |
| LevelRules.RestingStaysPut | src/level.py:268-275 | once dy is 0, later tiles neither move the player nor change its flags |
| LevelRules.FirstLandingWins | src/level.py:268-275 | the first blocking tile met while moving vertically decides where the player stops |
| LevelRules.DeadSweepKeepsRest | src/level.py:264-266 | after a killing tile every remaining tile stays in the group |
| LevelRules.Select | src/level.py:276-279 | the kept tiles are tiles of the group, fewer by the number removed |
| LevelRules.VerticalPass | src/level.py:252-286 | gravity, sweep, flag clearing: the score grows by the number removed, BOTTOM is absent when dy < 0 or dy > 1, TOP when dy > 0.1 |
| Levels.NewTile | src/level.py:122 | a tile made as the level makes them: scaled, then placed at (x, y), with the given flags |
| Levels.AddTile | src/level.py:122 | adding a tile appends one fresh, distinct tile and changes no existing one |
| Levels.AddCellTile | src/level.py:121-161 | the tile a wall, coin, death box or enemy cell adds is the planned tile |
| Levels.PlacePlayer | src/level.py:123-131 | a P cell creates a player at the cell, and the spawned objects track the plan |
| Levels.PlaceEnemy | src/level.py:144-161 | an E cell creates an enemy one tile up and a platform tile, as planned |
| Levels.PlaceTile | src/level.py:121-143 | an X, C or D cell adds its tile, as planned |
| Levels.SpawnOne | src/level.py:120-163 | a known cell creates exactly the objects its code plans |
| Levels.SpawnAt | src/level.py:115-163 | one cell: either the planned objects, or the refusal of the whole layout at an unknown code |
| Levels.SpawnRow | src/level.py:115-163 | one row, left to right: the planned objects, or the first refusal |
| Levels.SpawnSprites | src/level.py:101-171 | the nested loops create exactly the planned tiles, enemies and player, or fail as the plan says |
| Levels.SelectDistinct | src/level.py:278 | removing tiles from a group of distinct tiles keeps them distinct |
| Levels.Level.constructor | src/level.py:37-48 | a new level holds the spawned sprites, with the camera at rest, current_x 0 and no dust |
| Levels.Level.Create | src/level.py:37-48 | `Level(level_data)` is a valid level tracking the plan of its layout, or the layout's refusal |
| Levels.Level.GetSave | src/level.py:313-326 | the save holds the player's score and the layout |
| Levels.Level.GetSaveRoundTrip | src/level.py:313-326 | the level's save comes back from its dictionary with the same score and layout |
| Levels.Level.UpdateDust | src/level.py:335 | the dust particle animates and shifts with the camera, and leaves the group when it has finished |
| Levels.Level.ShiftTiles | src/level.py:339 | every tile moves by the world shift along x |
| Levels.Level.HandleHorizontalMovement | src/level.py:183-201 | the world shift and player speed are the camera rule of the player's centre and direction |
| Levels.Level.CollideSideways | src/level.py:213-240 | one tile of the horizontal loop is one step of the horizontal rule |
| Levels.Level.ClearSideFlags | src/level.py:242-250 | the side flags are cleared as the rule says |
| Levels.Level.SweepSideways | src/level.py:212-240 | the loop over the tiles is the horizontal sweep over the group |
| Levels.Level.HorizontalMovementCollision | src/level.py:203-250 | the character and current_x end as the horizontal pass says |
| Levels.Level.VisitTile | src/level.py:262-279 | one tile of the vertical loop: a kill, a landing or bump, a collected coin, as one step of the vertical rule |
| Levels.Level.ClearVerticalFlags | src/level.py:281-286 | BOTTOM and TOP are cleared as the rule says |
| Levels.Level.SweepOne | src/level.py:261-279 | one loop turn is one more step of the sweep |
| Levels.Level.SweepTiles | src/level.py:261-279 | the loop stops at the first killing tile, having swept the tiles before it, and returns the tiles kept |
| Levels.Level.VerticalMovementCollision | src/level.py:252-286 | the player, the tile group and the outcome end as the vertical pass says |
| Levels.Level.CreateJumpParticles | src/level.py:59-72 | a fresh jump particle at 10 pixels behind and 5 above the position replaces any dust |
| Levels.Level.CreateLandingDust | src/level.py:80-99 | a grounded player with no dust gets a landing particle 10 behind and 15 above its feet; otherwise the dust stays |
| Levels.Level.MoveEnemies | src/level.py:347-348 | the enemies' horizontal passes run in list order, sharing current_x |
| Levels.Level.MoveEnemy | src/level.py:348 | one enemy's pass changes only that enemy's character |
| Levels.Level.AnimateEnemies | src/level.py:173-181 | every enemy advances and wraps its animation and re-anchors its rectangle; nothing else about it moves |
| Levels.Level.Scroll | src/level.py:334-341 | the dust and every tile move by the old shift, and the new shift and player speed are the camera rule of the player's centre and direction |
| Levels.Level.Input | src/level.py:344 | the player's update keeps the level valid, score and speed; a jump replaces the dust with a live jump particle at the steered feet, otherwise the dust stays |
| Levels.Level.Prepare | src/level.py:334-344 | dust and tiles shift, the camera decides, the player takes its input; the level stays valid and the score is unchanged |
| Levels.Level.MoveCharacters | src/level.py:345-348 | the horizontal passes of the player and every enemy keep the level valid |
| Levels.Level.Fall | src/level.py:351 | the vertical pass keeps the level valid; the player, the kept tiles and GameOver are exactly those of the vertical rule of the old player and tiles; score plus tile count is conserved |
| Levels.Level.DroppedAreCollectable | src/level.py:276-279 | a tile the vertical rule drops from a group is collectable |
| LevelRules.RemovedAreCollectable | src/level.py:276-279 | a tile the vertical rule does not keep is collectable |
| Levels.Level.FallPhase | src/level.py:351 | the vertical pass as the frame uses it: valid, score plus tile count conserved, and every tile that leaves is a coin |
| Levels.Level.Finish | src/level.py:352-361 | landing dust and enemy animation keep the level valid; ESCAPE ends the game |
| Levels.Level.Run | src/level.py:328-364 | one frame keeps the level valid and conserves score plus tile count; only coins leave the group; kept tiles moved only with the camera; the camera rule holds; the frame continues iff the player lives and ESCAPE is up |

## Left out

- The database, the HTTP server, JSON files, the bootstrap, the game loop and the image loader (`src/database.py`, `src/server.py`, `src/JsonFile.py`, `src/start.py`, `src/game.py`, `planetes.py`, `src/support.py`). They are foreign libraries, I/O and frame pacing. `src/support.py` is not part of this model.
- Drawing and blitting everywhere, and the flipping of images for left-facing characters. Only image sizes are modelled, and a flip keeps the size.
- `Level.save`, `update_db`, `save_to_api` and the `S` key branch of `run`: database and HTTP calls.
- `pygame.key.get_pressed` and `time()`: the keys of a frame are a `Keys` value, and the time is the parameter `now`.
- Asset loading: the animation folders, the tile sheets and the particle frames are sizes given in an `Assets` value. A level is built only from assets whose sheets hold the wall, coin and bullet tiles. With a smaller sheet, the first spawn that reads one of those tiles would raise ValueError; that case is not modelled.
- Levels.Level.Run: requires the player to be alive. After a GameOver the game loop does not call `run` again.
- Characters.Player.Update: the jump particle callback is a return value. `Level` creates the particle once `Player.update` returns. Nothing between the two reads the dust or changes the player's facing.
- Levels.Level.VerticalMovementCollision: collected coins leave the group once the loop is over, not during it. The loop visits a snapshot of the group, as `sprites()` does, and nothing reads the group meanwhile.
- The `landed` field of `Level` and `player_landed` as a separate property: the field is never read, and the property is inlined into CreateLandingDust.
- Levels.Level.Prepare, Levels.Level.Input, Levels.Level.MoveCharacters, Levels.Level.Finish: their contracts state validity and the frame's conserved quantities. The exact new state is stated by the methods they call: Scroll, Characters.Player.Update, HorizontalMovementCollision, MoveEnemies, CreateLandingDust and AnimateEnemies.
- Levels.Level.Run, Levels.Level.FallPhase: their contracts do not give the player's and the enemies' new positions, or which coins left. Levels.Level.Fall gives those for the vertical pass, against the state the earlier phases left.
- Saves.FromJson: pydantic's coercion of values of a near kind is not modelled. For example, it accepts the string "3" as a score. Here any value of the wrong kind is rejected.
- Floating point is modelled by exact reals. pygame's float-to-int coercion of a rectangle coordinate is truncation toward zero.
- The horizontal kill branch (`character is self.player`) compares a sprite with the player's group and is never true. It is modelled as doing nothing, as written.
- Every enemy starts with direction 0, so no enemy ever moves (LevelRules.EnemiesAtRestStay). This is modelled as written.
- The D and E tiles are 64×64 surfaces scaled by 4, so they are 256×256 on a 64-pixel grid. This is kept as written.

## Findings

| source | as written | input that shows it | evidently intended | confidence | as-written member | corrected member |
|---|---|---|---|---|---|---|
| src/tiles.py:88-90 | `all_tiles` loops over range(tile_height) × range(tile_width), the tile's size in pixels | any sheet whose tile width exceeds its column count, for example a 640×384 sheet cut 20×12 like the map sheet, with 32-pixel tiles: `all_tiles` yields 20 tiles, then asks for tile (20, 0) at x = 640 and `subsurface` raises ValueError | loop over the grid's rows and columns, as the sheet was cut | medium, not executed | Tiles.AllTilesLeavesSheet | Tiles.GridTilesInSheet |
