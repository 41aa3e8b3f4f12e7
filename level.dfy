/**
 * A level in play (src/level.py): the tile group, the player, the enemies,
 * the camera's world shift, the shared `current_x` and the dust sprite,
 * updated in place frame by frame. Each method is proved against the rule
 * of the same name in module LevelRules.
 */
module Levels {
  import opened Wrappers
  import opened Settings
  import opened Enums
  import opened Geometry
  import opened Tiles
  import opened Particles
  import opened Characters
  import opened Saves
  import opened LevelRules

  /** The `GameOver` exception, as a result. */
  datatype Outcome = Continue | GameOver

  /** The objects `spawn_sprites` creates. */
  datatype Sprites = Sprites(tiles: seq<Square>, enemies: seq<Enemy>, player: Player)

  /** Pairwise distinct tiles: shifting one never moves another. */
  ghost predicate DistinctTiles(ts: seq<Square>)
  {
    forall i, j :: 0 <= i < j < |ts| ==> ts[i] != ts[j]
  }

  /** The enemies' shared character state (a constant of each enemy). */
  function Bodies(es: seq<Enemy>): (bs: seq<Character>)
    ensures |bs| == |es| && forall i :: 0 <= i < |es| ==> bs[i] == es[i].body
  {
    seq(|es|, i requires 0 <= i < |es| => es[i].body)
  }

  /** The top-left corners of characters. */
  ghost function Spots(bs: seq<Character>): (spots: seq<(int, int)>)
    reads bs
    ensures |spots| == |bs|
    ensures forall i :: 0 <= i < |bs| ==> spots[i] == (bs[i].rect.x, bs[i].rect.y)
  {
    seq(|bs|, i requires 0 <= i < |bs| reads bs => (bs[i].rect.x, bs[i].rect.y))
  }

  ghost function MoverOf(c: Character): Mover
    reads c
  {
    Mover(c.rect, c.dx, c.speed, c.collisions)
  }
  /** The movers of a list of characters, in order. */
  ghost function Movers(bs: seq<Character>): (ms: seq<Mover>)
    reads bs
    ensures |ms| == |bs| && forall i :: 0 <= i < |bs| ==> ms[i] == MoverOf(bs[i])
  {
    seq(|bs|, i requires 0 <= i < |bs| reads bs => MoverOf(bs[i]))
  }


  /** A tile made as the level makes them: the surface scaled, then placed with its top-left corner at (x, y). */
  method NewTile(surface: Size, scale: nat, x: int, y: int, collides: bool, collectable: bool, kills: bool)
    returns (sq: Square)
    ensures fresh(sq)
    ensures sq.View() == TileView(AtTopLeft(Scale(surface, scale), x, y), collides, collectable, kills)
  {
    sq := new Square(surface, collides, collectable, kills);
    sq.Scaled(scale, scale);
    sq.WithRect(x, y);
  }

  lemma DistinctAppend(ts: seq<Square>, sq: Square)
    requires DistinctTiles(ts) && sq !in ts
    ensures DistinctTiles(ts + [sq])
  {
  }

  /** No two enemies share a body, and no enemy shares the player's. */
  predicate Separate(enemies: seq<Enemy>, player: Player?)
  {
    && (forall i, j :: 0 <= i < j < |enemies| ==> enemies[i].body != enemies[j].body)
    && (player != null ==> forall e :: e in enemies ==> e.body != player.body)
  }

  /** The objects spawned so far show exactly the plan so far. */
  ghost predicate Tracks(tiles: seq<Square>, enemies: seq<Enemy>, player: Player?, plan: Spawn, a: Assets)
    reads tiles, enemies, Bodies(enemies), player
    reads if player == null then {} else {player.body}, if player == null then [] else player.bullets
  {
    && Views(tiles) == plan.tiles && Spots(Bodies(enemies)) == plan.enemies && DistinctTiles(tiles)
    && (player == null <==> plan.player.None?)
    && (player != null ==>
          && plan.player == Some((player.body.rect.x, player.body.rect.y))
          && player.Valid() && player.bullets == []
          && player.animations == a.playerAnimations && player.dustRun == a.dustRun)
    && (forall e :: e in enemies ==> e.Valid() && e.animations == a.enemyAnimations)
    && Separate(enemies, player)
  }

  /** The tile, enemy and player a known cell contributes, by its code. */
  lemma CellContribution(cl: Cell, a: Assets, kind: CellType)
    requires CellTypeOf(cl.code) == Some(kind)
    ensures SpawnCell(Spawn([], [], None), cl, a).Ok?
    ensures CellTile(cl, a) == match kind
      case Wall => Some(TileView(AtTopLeft(Scale(a.SquareImage(), 4), Origin(cl).0, Origin(cl).1), true, false, false))
      case Coin => Some(TileView(AtTopLeft(Scale(a.CoinImage(), 2), Origin(cl).0 + 16, Origin(cl).1 + 16), false, true, false))
      case DeathBox => Some(TileView(AtTopLeft(Scale(Size(64, 64), 4), Origin(cl).0, Origin(cl).1), true, false, true))
      case Enemy => Some(TileView(AtTopLeft(Scale(Size(64, 64), 4), Origin(cl).0, Origin(cl).1), true, false, false))
      case _ => None
    ensures EnemySpot(cl).Some? <==> kind == CellType.Enemy
    ensures cl.code == 'P' <==> kind == CellType.Player
  {
    CellLookupInvertsTable(cl.code, kind);
  }

  /** Adds one new tile, built as the level builds them, to the group; nothing that existed changes. */
  method AddTile(tiles: seq<Square>, surface: Size, scale: nat, x: int, y: int, collides: bool, collectable: bool, kills: bool)
    returns (tiles': seq<Square>)
    requires DistinctTiles(tiles)
    ensures DistinctTiles(tiles') && |tiles'| == |tiles| + 1 && tiles'[..|tiles|] == tiles && fresh(tiles'[|tiles|])
    ensures Views(tiles') == Views(tiles) + [TileView(AtTopLeft(Scale(surface, scale), x, y), collides, collectable, kills)]
  {
    var sq := NewTile(surface, scale, x, y, collides, collectable, kills);
    DistinctAppend(tiles, sq);
    tiles' := tiles + [sq];
  }

  /** Adding one tile to the group keeps the objects in step with the plan grown by that tile. */
  lemma TracksNewTile(tiles: seq<Square>, tiles': seq<Square>, enemies: seq<Enemy>, player: Player?, plan: Spawn, a: Assets, v: TileView)
    requires Tracks(tiles, enemies, player, plan, a)
    requires DistinctTiles(tiles') && Views(tiles') == Views(tiles) + [v]
    ensures Tracks(tiles', enemies, player, plan.(tiles := plan.tiles + [v]), a)
  {
  }

  /** Adding one enemy keeps the objects in step with the plan grown by its top-left corner. */
  lemma TracksNewEnemy(tiles: seq<Square>, enemies: seq<Enemy>, e: Enemy, player: Player?, plan: Spawn, a: Assets)
    requires Tracks(tiles, enemies, player, plan, a)
    requires e.Valid() && e.animations == a.enemyAnimations
    requires e.body !in Bodies(enemies) && (player != null ==> e.body != player.body)
    ensures Tracks(tiles, enemies + [e], player, plan.(enemies := plan.enemies + [(e.body.rect.x, e.body.rect.y)]), a)
  {
    assert Bodies(enemies + [e]) == Bodies(enemies) + [e.body];
    assert Spots(Bodies(enemies + [e])) == Spots(Bodies(enemies)) + [(e.body.rect.x, e.body.rect.y)];
  }

  /** Placing the player keeps the objects in step with the plan that records its corner. */
  lemma TracksNewPlayer(tiles: seq<Square>, enemies: seq<Enemy>, prior: Player?, p: Player, plan: Spawn, a: Assets)
    requires Tracks(tiles, enemies, prior, plan, a)
    requires p.Valid() && p.bullets == [] && p.animations == a.playerAnimations && p.dustRun == a.dustRun
    requires forall e :: e in enemies ==> e.body != p.body
    ensures Tracks(tiles, enemies, p, plan.(player := Some((p.body.rect.x, p.body.rect.y))), a)
  {
  }

  /** The tile a wall, coin, death box or enemy cell adds, made as the level makes it. */
  method AddCellTile(cl: Cell, kind: CellType, a: Assets, tiles: seq<Square>) returns (tiles': seq<Square>)
    requires CellTypeOf(cl.code) == Some(kind) && DistinctTiles(tiles) && CellTile(cl, a).Some?
    ensures DistinctTiles(tiles') && Views(tiles') == Views(tiles) + [CellTile(cl, a).value]
    ensures forall t :: t in tiles' ==> t in tiles || fresh(t)
  {
    CellContribution(cl, a, kind);
    var (x, y) := Origin(cl);
    if kind == CellType.Wall {
      tiles' := AddTile(tiles, a.SquareImage(), 4, x, y, true, false, false);
    } else if kind == CellType.Coin {
      tiles' := AddTile(tiles, a.CoinImage(), 2, x + 16, y + 16, false, true, false);
    } else if kind == CellType.DeathBox {
      tiles' := AddTile(tiles, Size(64, 64), 4, x, y, true, false, true);
    } else {
      tiles' := AddTile(tiles, Size(64, 64), 4, x, y, true, false, false);
    }
  }

  /** A 'P' cell: the player, at the cell's corner. */
  method PlacePlayer(cl: Cell, a: Assets, tiles: seq<Square>, enemies: seq<Enemy>, player: Player?, ghost plan: Spawn)
    returns (player': Player)
    requires a.Loaded() && CellTypeOf(cl.code) == Some(CellType.Player) && Tracks(tiles, enemies, player, plan, a)
    ensures SpawnCell(plan, cl, a).Ok? && Tracks(tiles, enemies, player', SpawnCell(plan, cl, a).value, a)
    ensures fresh(player') && fresh(player'.body)
  {
    CellContribution(cl, a, CellType.Player);
    var (x, y) := Origin(cl);
    player' := new Player(x, y, a.playerImage, a.playerAnimations, a.dustRun, a.BulletImage());
    TracksNewPlayer(tiles, enemies, player, player', plan, a);
  }

  /** An 'E' cell: an enemy standing one tile above the cell, and the platform tile under it. */
  method PlaceEnemy(cl: Cell, a: Assets, tiles: seq<Square>, enemies: seq<Enemy>, player: Player?, ghost plan: Spawn)
    returns (tiles': seq<Square>, enemies': seq<Enemy>)
    requires a.Loaded() && CellTypeOf(cl.code) == Some(CellType.Enemy) && Tracks(tiles, enemies, player, plan, a)
    ensures SpawnCell(plan, cl, a).Ok? && Tracks(tiles', enemies', player, SpawnCell(plan, cl, a).value, a)
  {
    CellContribution(cl, a, CellType.Enemy);
    var (x, y) := Origin(cl);
    var e := new Enemy(x, y - 64, a.enemyImage, a.enemyAnimations);
    enemies' := enemies + [e];
    TracksNewEnemy(tiles, enemies, e, player, plan, a);
    ghost var mid := plan.(enemies := plan.enemies + [EnemySpot(cl).value]);
    tiles' := AddCellTile(cl, CellType.Enemy, a, tiles);
    TracksNewTile(tiles, tiles', enemies', player, mid, a, CellTile(cl, a).value);
  }

  /** An 'X', 'C' or 'D' cell: one tile. */
  method PlaceTile(cl: Cell, kind: CellType, a: Assets, tiles: seq<Square>, enemies: seq<Enemy>, player: Player?, ghost plan: Spawn)
    returns (tiles': seq<Square>)
    requires CellTypeOf(cl.code) == Some(kind) && (kind == CellType.Wall || kind == CellType.Coin || kind == CellType.DeathBox)
    requires Tracks(tiles, enemies, player, plan, a)
    ensures SpawnCell(plan, cl, a).Ok? && Tracks(tiles', enemies, player, SpawnCell(plan, cl, a).value, a)
  {
    CellContribution(cl, a, kind);
    tiles' := AddCellTile(cl, kind, a, tiles);
    TracksNewTile(tiles, tiles', enemies, player, plan, a, CellTile(cl, a).value);
  }

  /** One known cell of `spawn_sprites`: the objects its code creates, added to those spawned so far. */
  method SpawnOne(cl: Cell, kind: CellType, a: Assets, tiles: seq<Square>, enemies: seq<Enemy>, player: Player?, ghost plan: Spawn)
    returns (tiles': seq<Square>, enemies': seq<Enemy>, player': Player?)
    requires a.Loaded() && CellTypeOf(cl.code) == Some(kind) && Tracks(tiles, enemies, player, plan, a)
    ensures SpawnCell(plan, cl, a).Ok? && Tracks(tiles', enemies', player', SpawnCell(plan, cl, a).value, a)
  {
    tiles', enemies', player' := tiles, enemies, player;
    if kind == CellType.Player {
      player' := PlacePlayer(cl, a, tiles, enemies, player, plan);
    } else if kind == CellType.Enemy {
      tiles', enemies' := PlaceEnemy(cl, a, tiles, enemies, player, plan);
    } else if kind != CellType.Empty {
      tiles' := PlaceTile(cl, kind, a, tiles, enemies, player, plan);
    } else {
      CellContribution(cl, a, kind);
      assert SpawnCell(plan, cl, a) == Ok(plan);
    }
  }

  /** The cells visited before (r, c). */
  function Visited(layout: seq<string>, r: nat, c: nat): seq<Cell>
    requires r < |layout| && c <= |layout[r]|
  {
    Cells(layout[..r]) + RowCells(r, layout[r])[..c]
  }

  /** The cells visited before (r, c) are a prefix of all the cells. */
  lemma VisitedPrefix(layout: seq<string>, r: nat, c: nat)
    requires r < |layout| && c <= |layout[r]|
    ensures |Visited(layout, r, c)| <= |Cells(layout)|
    ensures Cells(layout) == Visited(layout, r, c) + Cells(layout)[|Visited(layout, r, c)|..]
  {
    var all, done := Cells(layout), Visited(layout, r, c);
    var pre, rc := Cells(layout[..r]), RowCells(r, layout[r]);
    CellsPrefix(layout, r + 1);
    CellsNextRow(layout, r);
    var upTo := Cells(layout[..r + 1]);
    assert upTo == pre + rc && |done| <= |upTo|;
    assert upTo[..|done|] == done;
    assert all[..|done|] == done;
  }

  /** A row visited from its first cell to its last spans the rows before it and then that row. */
  lemma RowBounds(layout: seq<string>, r: nat)
    requires r < |layout|
    ensures Visited(layout, r, 0) == Cells(layout[..r])
    ensures Visited(layout, r, |layout[r]|) == Cells(layout[..r + 1])
  {
    CellsNextRow(layout, r);
    assert RowCells(r, layout[r])[..|layout[r]|] == RowCells(r, layout[r]);
  }

  lemma SpawnNextCell(layout: seq<string>, r: nat, c: nat, a: Assets, p: Spawn)
    requires r < |layout| && c < |layout[r]|
    requires SpawnCells(Visited(layout, r, c), a) == Ok(p)
    ensures SpawnCells(Visited(layout, r, c + 1), a) == SpawnCell(p, Cell(r, c, layout[r][c]), a)
  {
    var done := Visited(layout, r, c);
    var next := Visited(layout, r, c + 1);
    assert next == done + [Cell(r, c, layout[r][c])];
    assert next[..|next| - 1] == done;
  }

  /** Meeting an unknown code refuses the whole layout with that cell. */
  lemma UnknownCellRefusesLayout(layout: seq<string>, r: nat, c: nat, a: Assets, p: Spawn)
    requires r < |layout| && c < |layout[r]| && !Known(layout[r][c])
    requires SpawnCells(Visited(layout, r, c), a) == Ok(p)
    ensures SpawnPlan(layout, a) == Err(UnknownCell(r, c, layout[r][c]))
  {
    SpawnNextCell(layout, r, c, a, p);
    VisitedPrefix(layout, r, c + 1);
    var done := Visited(layout, r, c + 1);
    SpawnErrorSticks(done, Cells(layout)[|done|..], a);
  }

  /** The cell at (r, c) of `spawn_sprites`: its objects, or the refusal of the layout at an unknown code. */
  method SpawnAt(layout: seq<string>, r: nat, c: nat, a: Assets, tiles: seq<Square>, enemies: seq<Enemy>, player: Player?, ghost plan: Spawn)
    returns (failure: Option<SpawnError>, tiles': seq<Square>, enemies': seq<Enemy>, player': Player?, ghost plan': Spawn)
    requires a.Loaded() && r < |layout| && c < |layout[r]|
    requires SpawnCells(Visited(layout, r, c), a) == Ok(plan) && Tracks(tiles, enemies, player, plan, a)
    ensures failure.Some? ==> SpawnPlan(layout, a) == Err(failure.value)
    ensures failure.None? ==> SpawnCells(Visited(layout, r, c + 1), a) == Ok(plan') && Tracks(tiles', enemies', player', plan', a)
  {
    tiles', enemies', player', plan' := tiles, enemies, player, plan;
    var cl := Cell(r, c, layout[r][c]);
    SpawnNextCell(layout, r, c, a, plan);
    if CellTypeOf(cl.code).None? {
      UnknownCellRefusesLayout(layout, r, c, a, plan);
      return Some(UnknownCell(r, c, cl.code)), tiles', enemies', player', plan';
    }
    tiles', enemies', player' := SpawnOne(cl, CellTypeOf(cl.code).value, a, tiles, enemies, player, plan);
    plan' := SpawnCell(plan, cl, a).value;
    failure := None;
  }

  /** One row of `spawn_sprites`: its cells from left to right, or the first unknown one. */
  method SpawnRow(layout: seq<string>, r: nat, a: Assets, tiles: seq<Square>, enemies: seq<Enemy>, player: Player?, ghost plan: Spawn)
    returns (failure: Option<SpawnError>, tiles': seq<Square>, enemies': seq<Enemy>, player': Player?, ghost plan': Spawn)
    requires a.Loaded() && r < |layout|
    requires SpawnCells(Cells(layout[..r]), a) == Ok(plan) && Tracks(tiles, enemies, player, plan, a)
    ensures failure.Some? ==> SpawnPlan(layout, a) == Err(failure.value)
    ensures failure.None? ==> SpawnCells(Cells(layout[..r + 1]), a) == Ok(plan') && Tracks(tiles', enemies', player', plan', a)
  {
    tiles', enemies', player', plan' := tiles, enemies, player, plan;
    RowBounds(layout, r);
    var c := 0;
    while c < |layout[r]|
      invariant 0 <= c <= |layout[r]|
      invariant SpawnCells(Visited(layout, r, c), a) == Ok(plan')
      invariant Tracks(tiles', enemies', player', plan', a)
    {
      failure, tiles', enemies', player', plan' := SpawnAt(layout, r, c, a, tiles', enemies', player', plan');
      if failure.Some? {
        return;
      }
      c := c + 1;
    }
    failure := None;
  }

  /**
   * `spawn_sprites`: the nested loops over rows and cells create exactly
   * the planned tiles, enemies and player, or fail as the plan does.
   */
  method SpawnSprites(layout: seq<string>, a: Assets) returns (res: Result<Sprites, SpawnError>)
    requires a.Loaded()
    ensures res.Err? ==> SpawnPlan(layout, a) == Err(res.error)
    ensures res.Ok? ==> SpawnPlan(layout, a).Ok? && Tracks(res.value.tiles, res.value.enemies, res.value.player, SpawnPlan(layout, a).value, a)
  {
    var tiles: seq<Square> := [];
    var enemies: seq<Enemy> := [];
    var player: Player? := null;
    ghost var plan := Spawn([], [], None);
    var r := 0;
    while r < |layout|
      invariant 0 <= r <= |layout|
      invariant SpawnCells(Cells(layout[..r]), a) == Ok(plan)
      invariant Tracks(tiles, enemies, player, plan, a)
    {
      var failure;
      failure, tiles, enemies, player, plan := SpawnRow(layout, r, a, tiles, enemies, player, plan);
      if failure.Some? {
        return Err(failure.value);
      }
      r := r + 1;
    }
    assert layout[..|layout|] == layout;
    if player == null {
      return Err(NoPlayer);
    }
    res := Ok(Sprites(tiles, enemies, player));
  }

  /** The particle position for a jump or landing: `dx` pixels behind the player's facing, `dy` above its feet. */
  function DustSpot(midBottom: (int, int), o: Orientation, dx: int, dy: int): (int, int)
  {
    if o == Orientation.Right then (midBottom.0 - dx, midBottom.1 - dy) else (midBottom.0 + dx, midBottom.1 - dy)
  }

  /** One more tile of the vertical sweep is one more step, whatever the decisions before it. */
  lemma SweepAdvance(s0: VState, views: seq<TileView>, k: nat, before: Faller, keep: seq<bool>, step: VState)
    requires k < |views| && VSweep(s0, views[..k]) == VState(before, keep, false)
    requires VStep(VState(before, [], false), views[k]) == step
    ensures VSweep(s0, views[..k + 1]) == step.(keep := keep + step.keep)
  {
    assert views[..k + 1][..k] == views[..k];
  }

  /** One more decision selects one more tile or none. */
  lemma SelectStep<T>(ts: seq<T>, keep: seq<bool>, k: nat, b: bool)
    requires k < |ts| && |keep| == k
    ensures Select(ts[..k + 1], keep + [b]) == Select(ts[..k], keep) + (if b then [ts[k]] else [])
  {
    assert ts[..k + 1][..k] == ts[..k];
  }

  /**
   * A sweep stopped at the first killing tile (or run to the end) decides
   * the vertical pass: its outcome, the player, and the tiles kept, with
   * every tile after the killing one kept.
   */
  lemma FinishPass(f0: Faller, views: seq<TileView>, snapshot: seq<Square>, stop: nat, keep: seq<bool>, kept: seq<Square>,
                   dead: bool, fEnd: Faller)
    requires |views| == |snapshot| && stop <= |snapshot| && (dead || stop == |snapshot|) && |keep| == stop
    requires VSweep(VState(Gravitate(f0), [], false), views[..stop]) == VState(fEnd, keep, dead)
    requires kept == Select(snapshot[..stop], keep)
    ensures var r := VerticalPass(f0, views);
      && r.dead == dead && r.f == (if dead then fEnd else ClearVertical(fEnd))
      && Select(snapshot, r.keep) == kept + snapshot[stop..]
  {
    var s0 := VState(Gravitate(f0), [], false);
    if dead {
      assert views == views[..stop] + views[stop..] && snapshot == snapshot[..stop] + snapshot[stop..];
      VSweepAppend(s0, views[..stop], views[stop..]);
      DeadSweepKeepsRest(VSweep(s0, views[..stop]), views[stop..]);
      SelectKeepsRest(snapshot[..stop], snapshot[stop..], keep);
    } else {
      assert views[..stop] == views && snapshot[..stop] == snapshot;
    }
  }

  /** Removing tiles from a group of distinct tiles leaves them distinct. */
  lemma {:induction false} SelectDistinct(ts: seq<Square>, keep: seq<bool>)
    requires |keep| == |ts| && DistinctTiles(ts)
    ensures DistinctTiles(Select(ts, keep))
    decreases |ts|
  {
    if ts != [] {
      var n := |ts| - 1;
      SelectDistinct(ts[..n], keep[..n]);
      assert ts[n] !in ts[..n];
    }
  }

  /** Every enemy is well formed. */
  ghost predicate EnemiesValid(es: seq<Enemy>)
    reads es
  {
    forall e :: e in es ==> e.Valid()
  }

  /** The dust group holds at most one particle, and it is still animating. */
  ghost predicate DustValid(ps: seq<ParticleEffect>)
    reads ps
  {
    |ps| <= 1 && forall p :: p in ps ==> p.Valid() && p.alive
  }

  /** A level: its tiles, the player, the enemies, the camera and the dust sprite. */
  class Level {
    const levelData: seq<string>
    const assets: Assets
    var tiles: seq<Square>
    const player: Player
    /** The player is still in its group (`kill` removes it). */
    var playerAlive: bool
    const enemies: seq<Enemy>
    var worldShift: int
    var currentX: int
    /** The dust sprite group, which holds at most one particle. */
    var dust: seq<ParticleEffect>

    ghost predicate Valid()
      reads this`tiles, this`dust, player, player.bullets, enemies, dust
    {
      && assets.Loaded() && player.Valid() && EnemiesValid(enemies)
      && DistinctTiles(tiles) && Separate(enemies, player) && DustValid(dust)
    }

    /** The level `spawn_sprites` builds, with the camera at rest and no dust. */
    constructor (layout: seq<string>, a: Assets, sp: Sprites)
      requires a.Loaded() && DistinctTiles(sp.tiles) && sp.player.Valid()
      requires forall e :: e in sp.enemies ==> e.Valid()
      requires Separate(sp.enemies, sp.player)
      ensures Valid() && playerAlive && levelData == layout && assets == a
      ensures tiles == sp.tiles && enemies == sp.enemies && player == sp.player
      ensures worldShift == 0 && currentX == 0 && dust == []
    {
      levelData := layout;
      assets := a;
      tiles := sp.tiles;
      player := sp.player;
      playerAlive := true;
      enemies := sp.enemies;
      worldShift := 0;
      currentX := 0;
      dust := [];
    }

    /** `Level(level_data)`: the level of a layout, or the layout's refusal. */
    static method Create(layout: seq<string>, a: Assets) returns (res: Result<Level, SpawnError>)
      requires a.Loaded()
      ensures res.Err? ==> SpawnPlan(layout, a) == Err(res.error)
      ensures res.Ok? ==> var l := res.value;
        && SpawnPlan(layout, a).Ok? && fresh(l) && l.Valid() && l.playerAlive
        && Tracks(l.tiles, l.enemies, l.player, SpawnPlan(layout, a).value, a)
        && l.worldShift == 0 && l.currentX == 0 && l.dust == []
    {
      var sprites := SpawnSprites(layout, a);
      match sprites
      case Err(e) =>
        return Err(e);
      case Ok(sp) =>
        var l := new Level(layout, a, sp);
        return Ok(l);
    }

    /** `get_save`: the record saved for this level. */
    function GetSave(): (s: Save)
      reads this, player
      ensures s.score == player.score && s.mapRows == levelData
    {
      Save("Player 1", player.score, 0, levelData, "today")
    }

    /** The level's save survives its dictionary form: the score and the layout come back as they are now. */
    lemma GetSaveRoundTrip()
      ensures FromJson(ToJson(GetSave())).Ok?
      ensures FromJson(ToJson(GetSave())).value.score == player.score
      ensures FromJson(ToJson(GetSave())).value.mapRows == levelData
    {
      RoundTrip(GetSave());
    }

    /** What the horizontal and vertical passes read of the player. */
    ghost function PlayerFaller(): Faller
      reads player, player.body
    {
      Faller(player.body.rect, player.body.dy, player.body.collisions, player.score)
    }

    /** The dust sprite's `update`: the particle animates and shifts; a finished one leaves the group. */
    method UpdateDust()
      requires DustValid(dust)
      modifies this`dust, set p | p in dust
      ensures DustValid(dust)
      ensures dust == [] || dust == old(dust)
      ensures old(dust) != [] ==> var p := old(dust)[0];
        && p.updates == old(p.updates) + 1 && p.rect == old(p.rect).(x := old(p.rect).x + worldShift)
        && (dust == [] <==> !p.alive)
    {
      if dust != [] {
        dust[0].Update(worldShift);
        if !dust[0].alive {
          dust := [];
        }
      }
    }

    /** The tile group's `update`: every tile moves by the world shift. */
    method ShiftTiles()
      requires DistinctTiles(tiles)
      modifies set t | t in tiles
      ensures forall i :: 0 <= i < |tiles| ==>
        tiles[i].rect == old(tiles[i].rect).(x := old(tiles[i].rect).x + worldShift) && tiles[i].image == old(tiles[i].image)
    {
      var i := 0;
      while i < |tiles|
        invariant 0 <= i <= |tiles|
        invariant forall j :: 0 <= j < i ==>
          tiles[j].rect == old(tiles[j].rect).(x := old(tiles[j].rect).x + worldShift) && tiles[j].image == old(tiles[j].image)
        invariant forall j :: i <= j < |tiles| ==> tiles[j].rect == old(tiles[j].rect) && tiles[j].image == old(tiles[j].image)
      {
        tiles[i].Update(worldShift);
        i := i + 1;
      }
    }

    /** `handle_horizontal_movement`: the camera rule applied to the player's centre and direction. */
    method HandleHorizontalMovement()
      modifies this`worldShift, player.body`speed
      ensures CameraMove(worldShift, player.body.speed) == Camera(player.body.rect.CenterX(), player.body.dx)
    {
      var playerX := player.body.rect.CenterX();
      var directionX := player.body.dx;
      if (playerX as real) < (ScreenWidth as real) / 4.0 && directionX < 0.0 {
        worldShift := PlayerMovement * 2;
        player.body.speed := 0.0;
      } else if (playerX as real) > (ScreenWidth as real) - (ScreenWidth as real) / 4.0 && directionX > 0.0 {
        worldShift := -PlayerMovement * 2;
        player.body.speed := 0.0;
      } else {
        worldShift := 0;
        player.body.speed := PlayerMovement as real;
      }
    }

    /** The body of the horizontal pass's loop for one tile: the enemy turn, then the snap. */
    method CollideSideways(c: Character, sprite: Square)
      modifies c`rect, c`dx, c`speed, c`collisions, this`currentX
      ensures HState(MoverOf(c), currentX) == HStep(old(HState(MoverOf(c), currentX)), sprite.View(), c.isEnemy)
    {
      if c.isEnemy {
        if c.dx > 0.0 && sprite.rect.Left() < c.rect.Right() < sprite.rect.Right() {
          c.dx := -c.dx;
          c.speed := EnemyMovement;
        }
      }
      if sprite.collides {
        if sprite.rect.Collides(c.rect) {
          if sprite.kills {
            // The source kills only when the character `is` the player's
            // group, which a sprite never is: nothing happens.
          } else if c.dx < 0.0 {
            c.rect := c.rect.WithLeft(sprite.rect.Right());
            c.collisions := c.collisions + {Collision.Left};
            currentX := sprite.rect.Left();
          } else if c.dx > 0.0 {
            c.rect := c.rect.WithRight(sprite.rect.Left());
            c.collisions := c.collisions + {Collision.Right};
            currentX := sprite.rect.Right();
          }
        }
      }
    }

    /** The end of the horizontal pass: a side flag survives only while the character still moves that way. */
    method ClearSideFlags(c: Character)
      modifies c`collisions
      ensures MoverOf(c) == ClearSides(old(HState(MoverOf(c), currentX)))
    {
      if Collision.Left in c.collisions && (c.rect.Left() < currentX || c.dx >= 0.0) {
        c.collisions := c.collisions - {Collision.Left};
      }
      if Collision.Right in c.collisions && (c.rect.Right() > currentX || c.dx <= 0.0) {
        c.collisions := c.collisions - {Collision.Right};
      }
    }

    /**
     * The body of the vertical pass's loop for one tile: a killing tile
     * ends the game; any other blocking tile stops the player against it,
     * and a coin the player then overlaps is collected.
     */
    method VisitTile(sprite: Square) returns (killed: bool, collected: bool)
      modifies this`playerAlive, player`score, player.body`rect, player.body`dy, player.body`collisions
      ensures VStep(VState(old(PlayerFaller()), [], false), sprite.View())
        == VState(PlayerFaller(), [!collected], killed)
      ensures playerAlive == (old(playerAlive) && !killed)
    {
      var p := player.body;
      killed, collected := false, false;
      if sprite.collides && sprite.rect.Collides(p.rect) {
        if sprite.kills {
          playerAlive := false;
          killed := true;
          return;
        } else if p.dy > 0.0 {
          p.rect := p.rect.WithBottom(sprite.rect.Top());
          p.dy := 0.0;
          p.collisions := p.collisions + {Collision.Bottom};
        } else if p.dy < 0.0 {
          p.rect := p.rect.WithTop(sprite.rect.Bottom());
          p.dy := 0.0;
          p.collisions := p.collisions + {Collision.Top};
        }
      }
      collected := sprite.collectable && sprite.rect.Collides(p.rect);
      if collected {
        player.score := player.score + 1;
      }
    }

    /** The end of the vertical pass: BOTTOM stays only while resting, TOP only while not falling. */
    method ClearVerticalFlags()
      modifies player.body`collisions
      ensures PlayerFaller() == ClearVertical(old(PlayerFaller()))
    {
      var p := player.body;
      if Collision.Bottom in p.collisions && (p.dy < 0.0 || p.dy > 1.0) {
        p.collisions := p.collisions - {Collision.Bottom};
      }
      if Collision.Top in p.collisions && p.dy > 0.1 {
        p.collisions := p.collisions - {Collision.Top};
      }
    }

    /**
     * `vertical_movement_collision`: the player, the tile group and the
     * outcome end as the vertical pass says. The loop visits a snapshot of
     * the group and nothing reads the group meanwhile, so the collected
     * tiles are taken out once the loop is over; a killing tile ends the
     * game and the player leaves its group.
     */
    method VerticalMovementCollision() returns (o: Outcome)
      modifies this`tiles, this`playerAlive, player`score, player.body`rect, player.body`dy, player.body`collisions
      ensures var r := VerticalPass(old(PlayerFaller()), old(Views(tiles)));
        && PlayerFaller() == r.f && tiles == Select(old(tiles), r.keep)
        && (o == GameOver <==> r.dead) && playerAlive == (old(playerAlive) && !r.dead)
    {
      var snapshot := tiles;
      ghost var views := Views(snapshot);
      player.ApplyGravity();
      ghost var s0 := VState(PlayerFaller(), [], false);
      assert s0.f == Gravitate(old(PlayerFaller()));
      var dead, stop, keep, kept := SweepTiles(snapshot, views, s0);
      tiles := kept + snapshot[stop..];
      FinishPass(old(PlayerFaller()), views, snapshot, stop, keep, kept, dead, PlayerFaller());
      if dead {
        o := GameOver;
      } else {
        ClearVerticalFlags();
        o := Continue;
      }
    }

    /** One turn of the vertical pass's loop, as one more step of the sweep. */
    method SweepOne(ghost s0: VState, ghost views: seq<TileView>, stop: nat, ghost keep: seq<bool>, sprite: Square)
      returns (killed: bool, collected: bool)
      requires stop < |views| && views[stop] == sprite.View()
      requires VSweep(s0, views[..stop]) == VState(PlayerFaller(), keep, false)
      modifies this`playerAlive, player`score, player.body`rect, player.body`dy, player.body`collisions
      ensures VSweep(s0, views[..stop + 1]) == VState(PlayerFaller(), keep + [!collected], killed)
      ensures playerAlive == (old(playerAlive) && !killed)
    {
      ghost var before := PlayerFaller();
      killed, collected := VisitTile(sprite);
      SweepAdvance(s0, views, stop, before, keep, VState(PlayerFaller(), [!collected], killed));
    }

    /**
     * The loop of the vertical pass over a snapshot of the group: it stops
     * at the first killing tile, having swept the tiles before it, and
     * returns the tiles it keeps.
     */
    method SweepTiles(snapshot: seq<Square>, ghost views: seq<TileView>, ghost s0: VState)
      returns (dead: bool, stop: nat, ghost keep: seq<bool>, kept: seq<Square>)
      requires views == Views(snapshot) && s0 == VState(PlayerFaller(), [], false)
      modifies this`playerAlive, player`score, player.body`rect, player.body`dy, player.body`collisions
      ensures stop <= |snapshot| && (dead || stop == |snapshot|) && |keep| == stop
      ensures VSweep(s0, views[..stop]) == VState(PlayerFaller(), keep, dead)
      ensures kept == Select(snapshot[..stop], keep)
      ensures playerAlive == (old(playerAlive) && !dead)
    {
      keep := [];
      kept := [];
      dead := false;
      stop := 0;
      while stop < |snapshot| && !dead
        invariant 0 <= stop <= |snapshot| && |keep| == stop
        invariant VSweep(s0, views[..stop]) == VState(PlayerFaller(), keep, dead)
        invariant kept == Select(snapshot[..stop], keep)
        invariant playerAlive == (old(playerAlive) && !dead)
      {
        var killed, collected := SweepOne(s0, views, stop, keep, snapshot[stop]);
        SelectStep(snapshot, keep, stop, !collected);
        if !collected {
          kept := kept + [snapshot[stop]];
        }
        keep := keep + [!collected];
        dead := killed;
        stop := stop + 1;
      }
    }

    /** `horizontal_movement_collision`: the character and `current_x` end as the horizontal pass says. */
    method HorizontalMovementCollision(c: Character)
      modifies c`rect, c`dx, c`speed, c`collisions, this`currentX
      ensures HState(MoverOf(c), currentX) == HorizontalPass(old(MoverOf(c)), old(currentX), old(Views(tiles)), c.isEnemy)
    {
      ghost var m0 := MoverOf(c);
      c.rect := c.rect.(x := Trunc(c.rect.x as real + c.dx * c.speed));
      assert MoverOf(c) == MoveX(m0);
      SweepSideways(c);
      ClearSideFlags(c);
    }

    /** The loop of the horizontal pass: every tile of the group in order, one sideways collision each. */
    method SweepSideways(c: Character)
      modifies c`rect, c`dx, c`speed, c`collisions, this`currentX
      ensures HState(MoverOf(c), currentX) == HSweep(old(HState(MoverOf(c), currentX)), Views(tiles), c.isEnemy)
    {
      ghost var views := Views(tiles);
      ghost var start := HState(MoverOf(c), currentX);
      var i := 0;
      while i < |tiles|
        invariant 0 <= i <= |tiles|
        invariant HState(MoverOf(c), currentX) == HSweep(start, views[..i], c.isEnemy)
      {
        assert views[..i + 1][..i] == views[..i];
        CollideSideways(c, tiles[i]);
        i := i + 1;
      }
      assert views[..|tiles|] == views;
    }

    /** `create_jump_particles`: a fresh jump particle, 10 pixels behind and 5 above `pos`, replaces any dust. */
    method CreateJumpParticles(pos: (int, int))
      requires assets.Loaded()
      modifies this`dust
      ensures |dust| == 1 && fresh(dust[0]) && dust[0].Valid() && dust[0].alive && dust[0].frames == assets.jumpDust
      ensures (dust[0].rect.CenterX(), dust[0].rect.CenterY()) == DustSpot(pos, player.body.orientation, 10, 5)
    {
      var p := new ParticleEffect(DustSpot(pos, player.body.orientation, 10, 5), assets.jumpDust);
      dust := [p];
    }

    /**
     * `create_landing_dust`: a player touching the ground with no dust
     * showing raises a landing particle 10 pixels behind and 15 above its
     * feet; otherwise the dust stays as it is.
     */
    method CreateLandingDust()
      requires assets.Loaded()
      modifies this`dust
      ensures Collision.Bottom in player.body.collisions && old(dust) == [] ==>
        && |dust| == 1 && fresh(dust[0]) && dust[0].Valid() && dust[0].alive && dust[0].frames == assets.landDust
        && (dust[0].rect.CenterX(), dust[0].rect.CenterY()) == DustSpot(player.body.rect.MidBottom(), player.body.orientation, 10, 15)
      ensures !(Collision.Bottom in player.body.collisions && old(dust) == []) ==> dust == old(dust)
    {
      if Collision.Bottom in player.body.collisions && dust == [] {
        var p := new ParticleEffect(DustSpot(player.body.rect.MidBottom(), player.body.orientation, 10, 15), assets.landDust);
        dust := [p];
      }
    }

    /** A level whose sprites, groups and particles are as they were is still valid. */
    twostate lemma StillValid()
      requires old(Valid())
      requires unchanged(this`tiles, this`dust, player, enemies)
      requires forall b :: b in player.bullets ==> unchanged(b)
      requires forall p :: p in dust ==> unchanged(p)
      ensures Valid()
    {
    }

    /** The loop over the enemies in `run`: each enemy's horizontal pass, in list order, sharing `current_x`. */
    method MoveEnemies()
      requires Separate(enemies, player) && forall i :: 0 <= i < |enemies| ==> enemies[i].body.isEnemy
      modifies this`currentX, Bodies(enemies)
      ensures var r := EnemiesPass(old(Movers(Bodies(enemies))), old(currentX), Views(tiles));
        Movers(Bodies(enemies)) == r.0 && currentX == r.1
    {
      ghost var ms0 := Movers(Bodies(enemies));
      ghost var views := Views(tiles);
      ghost var x0 := currentX;
      var i := 0;
      assert ms0[..0] == [] && ms0[0..] == ms0 && EnemiesPass([], x0, views) == ([], x0);
      while i < |enemies|
        invariant 0 <= i <= |enemies|
        invariant Views(tiles) == views
        invariant Movers(Bodies(enemies)) == EnemiesPass(ms0[..i], x0, views).0 + ms0[i..]
        invariant currentX == EnemiesPass(ms0[..i], x0, views).1
      {
        MoveEnemyStep(i, ms0, x0, views);
        i := i + 1;
      }
      assert ms0[..i] == ms0 && ms0[i..] == [];
    }

    /** One turn of the enemy loop: the enemies before i have had their pass, enemy i has its own. */
    method MoveEnemyStep(i: nat, ghost ms0: seq<Mover>, ghost x0: int, ghost views: seq<TileView>)
      requires i < |enemies| == |ms0| && Separate(enemies, player) && enemies[i].body.isEnemy
      requires Views(tiles) == views
      requires Movers(Bodies(enemies)) == EnemiesPass(ms0[..i], x0, views).0 + ms0[i..]
      requires currentX == EnemiesPass(ms0[..i], x0, views).1
      modifies this`currentX, enemies[i].body
      ensures Views(tiles) == views
      ensures Movers(Bodies(enemies)) == EnemiesPass(ms0[..i + 1], x0, views).0 + ms0[i + 1..]
      ensures currentX == EnemiesPass(ms0[..i + 1], x0, views).1
    {
      ghost var p := EnemiesPass(ms0[..i], x0, views);
      ghost var h := HorizontalPass(ms0[i], p.1, views, true);
      EnemiesPassStep(ms0, i, x0, views);
      assert Movers(Bodies(enemies))[i] == (p.0 + ms0[i..])[i] == ms0[i];
      MoveEnemy(i);
      assert HState(MoverOf(enemies[i].body), currentX) == h;
      assert (p.0 + ms0[i..])[i := h.m] == (p.0 + [h.m]) + ms0[i + 1..];
    }

    /** One enemy's horizontal pass; every other enemy's character stays as it was. */
    method MoveEnemy(i: nat)
      requires i < |enemies| && Separate(enemies, player) && enemies[i].body.isEnemy
      modifies this`currentX, enemies[i].body
      ensures Movers(Bodies(enemies)) == old(Movers(Bodies(enemies)))[i := MoverOf(enemies[i].body)]
      ensures HState(MoverOf(enemies[i].body), currentX) == HorizontalPass(old(MoverOf(enemies[i].body)), old(currentX), Views(tiles), true)
      ensures Views(tiles) == old(Views(tiles))
    {
      HorizontalMovementCollision(enemies[i].body);
      forall j | 0 <= j < |enemies| && j != i
        ensures MoverOf(enemies[j].body) == old(MoverOf(enemies[j].body))
      {
        assert enemies[j].body != enemies[i].body;
      }
    }

    /** `display_enemies` without the drawing: every enemy advances its animation and re-anchors its rectangle. */
    method AnimateEnemies()
      requires Separate(enemies, player) && forall i :: 0 <= i < |enemies| ==> enemies[i].Valid()
      modifies enemies, Bodies(enemies)
      ensures EnemiesValid(enemies)
      ensures forall i :: 0 <= i < |enemies| ==> var e := enemies[i];
        && old(e.Valid())
        && e.frameIndex == AdvanceFrame(old(e.frameIndex), EnemyAnimation, |e.animations|)
        && e.body.image == e.animations[e.frameIndex.Floor]
        && e.body.rect == Reanchor(old(e.body.rect), e.body.image, e.body.collisions)
        && MoverOf(e.body) == old(MoverOf(e.body)).(rect := e.body.rect)
        && e.body.dy == old(e.body.dy) && e.body.orientation == old(e.body.orientation)
    {
      var i := 0;
      while i < |enemies|
        invariant 0 <= i <= |enemies|
        invariant forall j :: 0 <= j < i ==> var e := enemies[j];
          && e.Valid()
          && e.frameIndex == AdvanceFrame(old(e.frameIndex), EnemyAnimation, |e.animations|)
          && e.body.image == e.animations[e.frameIndex.Floor]
          && e.body.rect == Reanchor(old(e.body.rect), e.body.image, e.body.collisions)
          && MoverOf(e.body) == old(MoverOf(e.body)).(rect := e.body.rect)
          && e.body.dy == old(e.body.dy) && e.body.orientation == old(e.body.orientation)
        invariant forall j :: i <= j < |enemies| ==> unchanged(enemies[j], enemies[j].body)
      {
        enemies[i].Animate();
        i := i + 1;
      }
    }

    /**
     * The start of `run`: the dust and the tiles move with the current
     * shift, the camera decides the next shift, and the player takes its
     * input (a jump raises a jump particle).
     */
    method Prepare(keys: Keys, now: real)
      requires Valid()
      modifies this`dust, this`worldShift, player, player.body, player.bullets, tiles, dust
      ensures Valid() && player.score == old(player.score)
      ensures forall t :: t in tiles ==> t.rect == old(t.rect).(x := old(t.rect).x + old(worldShift))
      ensures CameraMove(worldShift, player.body.speed) == Camera(old(player.body.rect.CenterX()), old(player.body.dx))
    {
      Scroll();
      Input(keys, now);
    }

    /** The dust and the tiles move with the current shift, and the camera decides the next one. */
    method Scroll()
      requires Valid()
      modifies this`dust, this`worldShift, player.body`speed, tiles, dust
      ensures Valid()
      ensures forall t :: t in tiles ==> t.rect == old(t.rect).(x := old(t.rect).x + old(worldShift))
      ensures CameraMove(worldShift, player.body.speed) == Camera(old(player.body.rect.CenterX()), old(player.body.dx))
    {
      UpdateDust();
      ShiftTiles();
      HandleHorizontalMovement();
    }

    /**
     * The player takes its input (its new state is `Player.Update`'s); a
     * jump replaces the dust with a jump particle at the steered feet.
     */
    method Input(keys: Keys, now: real)
      requires Valid()
      modifies this`dust, player, player.body, player.bullets
      ensures Valid() && player.score == old(player.score) && player.body.speed == old(player.body.speed)
      ensures keys.up && Collision.Bottom in old(player.body.collisions) ==>
        var steered := Steered(keys, old(player.body.rect), player.animations.For(old(player.status))[old(player.frameIndex).Floor]);
        && |dust| == 1 && fresh(dust[0]) && dust[0].alive && dust[0].frames == assets.jumpDust
        && (dust[0].rect.CenterX(), dust[0].rect.CenterY()) == DustSpot(steered.MidBottom(), player.body.orientation, 10, 5)
      ensures !(keys.up && Collision.Bottom in old(player.body.collisions)) ==> dust == old(dust)
    {
      var jumpFrom := player.Update(keys, now);
      if jumpFrom.Some? {
        CreateJumpParticles(jumpFrom.value);
      }
    }

    /** The horizontal passes of `run`: the player first, then every enemy. */
    method MoveCharacters()
      requires Valid()
      modifies this`currentX, player.body, Bodies(enemies)
      ensures Valid() && player.body.speed == old(player.body.speed)
    {
      MovePlayer();
      MoveEnemiesValid();
    }

    /** The player's horizontal pass keeps the level valid. */
    method MovePlayer()
      requires Valid()
      modifies this`currentX, player.body
      ensures Valid() && player.body.speed == old(player.body.speed)
    {
      HorizontalMovementCollision(player.body);
      StillValid();
    }

    /** The enemies' horizontal passes keep the level valid. */
    method MoveEnemiesValid()
      requires Valid()
      modifies this`currentX, Bodies(enemies)
      ensures Valid() && player.body.speed == old(player.body.speed)
    {
      forall j | 0 <= j < |enemies|
        ensures enemies[j].body.isEnemy
      {
        assert enemies[j] in enemies;
      }
      MoveEnemies();
      StillValid();
    }

    /**
     * The vertical pass of `run`: every coin it collects leaves the group
     * and scores one, and a killing tile ends the game.
     */
    method Fall() returns (o: Outcome)
      requires Valid() && playerAlive
      modifies this`tiles, this`playerAlive, player`score, player.body`rect, player.body`dy, player.body`collisions
      ensures Valid() && (o == Continue <==> playerAlive)
      ensures var r := VerticalPass(old(PlayerFaller()), old(Views(tiles)));
        && PlayerFaller() == r.f && tiles == Select(old(tiles), r.keep) && (o == GameOver <==> r.dead)
      ensures player.score + |tiles| == old(player.score) + old(|tiles|)
      ensures forall t :: t in tiles ==> t in old(tiles)
    {
      ghost var keep := VerticalPass(PlayerFaller(), Views(tiles)).keep;
      SelectDistinct(tiles, keep);
      o := VerticalMovementCollision();
      player.Rescored();
      assert DistinctTiles(tiles);
    }

    /** The vertical pass as `run` sees it: validity, the score and tile count, and only coins leave. */
    method FallPhase() returns (o: Outcome)
      requires Valid() && playerAlive
      modifies this`tiles, this`playerAlive, player`score, player.body`rect, player.body`dy, player.body`collisions
      ensures Valid() && (o == Continue <==> playerAlive)
      ensures player.score + |tiles| == old(player.score) + old(|tiles|)
      ensures forall t :: t in tiles ==> t in old(tiles)
      ensures forall t :: t in old(tiles) && t !in tiles ==> t.collectable
    {
      ghost var ts, vs, f := tiles, Views(tiles), PlayerFaller();
      o := Fall();
      forall t | t in ts && t !in tiles
        ensures t.collectable
      {
        DroppedAreCollectable(ts, vs, f, t);
      }
    }

    /** A tile the vertical pass drops from a group is a collectable one. */
    static lemma DroppedAreCollectable(ts: seq<Square>, vs: seq<TileView>, f: Faller, t: Square)
      requires |vs| == |ts| && forall i :: 0 <= i < |ts| ==> vs[i].collectable == ts[i].collectable
      requires t in ts && t !in Select(ts, VerticalPass(f, vs).keep)
      ensures t.collectable
    {
      var keep := VerticalPass(f, vs).keep;
      SelectDropped(ts, keep, t);
      var k :| 0 <= k < |ts| && ts[k] == t && !keep[k];
      RemovedAreCollectable(f, vs, k);
    }

    /** The end of `run`: the landing dust, the enemies' animation, and ESCAPE. */
    method Finish(keys: Keys) returns (o: Outcome)
      requires Valid()
      modifies this`dust, enemies, Bodies(enemies)
      ensures Valid() && (o == Continue <==> !keys.escape)
    {
      CreateLandingDust();
      AnimateEnemies();
      o := if keys.escape then GameOver else Continue;
    }

    /**
     * `run`, one frame: the dust, the tiles and the camera, the player's
     * own update (with a jump particle when it jumped), the horizontal
     * passes of the player and of every enemy, the vertical pass (which
     * ends the frame when the player dies), the landing dust, the enemies'
     * animation, and ESCAPE. Every collected coin leaves the tile group
     * and adds one to the score; the tiles that stay only moved with the
     * camera.
     */
    method Run(keys: Keys, now: real) returns (o: Outcome)
      requires Valid() && playerAlive
      modifies this, player, player.body, player.bullets, tiles, enemies, Bodies(enemies), dust
      ensures Valid()
      ensures player.score + |tiles| == old(player.score) + old(|tiles|)
      ensures forall t :: t in tiles ==> t in old(tiles) && t.rect == old(t.rect).(x := old(t.rect).x + old(worldShift))
      ensures forall t :: t in old(tiles) && t !in tiles ==> t.collectable
      ensures CameraMove(worldShift, player.body.speed) == Camera(old(player.body.rect.CenterX()), old(player.body.dx))
      ensures o == Continue <==> playerAlive && !keys.escape
    {
      Prepare(keys, now);
      MoveCharacters();
      o := FallPhase();
      if o == GameOver {
        return;
      }
      o := Finish(keys);
    }
  }
}
