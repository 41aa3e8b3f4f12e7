/**
 * The rules of a level (src/level.py) stated on values: how a layout grid
 * becomes tiles, enemies and a player, the camera rule, and the horizontal
 * and vertical collision passes as folds over the tile group. The `Level`
 * class in module Levels performs them in place and is proved against them.
 */
module LevelRules {
  import opened Wrappers
  import opened Settings
  import opened Enums
  import opened Geometry
  import opened Tiles
  import opened Characters

  // ---------------------------------------------------------------------------
  // Assets
  // ---------------------------------------------------------------------------

  /** The sizes of the images a level is built from (only sizes are modelled). */
  datatype Assets = Assets(
    mapSheet: Size, bulletSheet: Size,
    playerImage: Size, playerAnimations: Animations, dustRun: seq<Size>,
    enemyImage: Size, enemyAnimations: seq<Size>,
    jumpDust: seq<Size>, landDust: seq<Size>)
  {
    /**
     * Every animation folder holds at least one frame, and the wall, coin and
     * bullet tiles can be cut from their sheets (their cached cuts would
     * otherwise raise on the first spawn that reads them).
     */
    predicate Loaded()
    {
      playerAnimations.Loaded() && |dustRun| > 0 && |enemyAnimations| > 0 && |jumpDust| > 0 && |landDust| > 0
      && MapTiles().TileAt(1, 0).Some? && MapTiles().TileAt(7, 8, -8).Some?
      && BulletTiles().TileAt(15, 15).Some?
    }

    /** The map tile sheet, cut into 20 columns and 12 rows. */
    function MapTiles(): TileSheet
    {
      LoadSheet(mapSheet, 20, 12)
    }

    /** The wall tile of the map sheet (column 1, row 0). */
    function SquareImage(): Size
    {
      MapTiles().Cut(1, 0).Dimensions()
    }

    /** The coin tile of the map sheet (column 7, row 8, 8 pixels to the left). */
    function CoinImage(): Size
    {
      MapTiles().Cut(7, 8, -8).Dimensions()
    }

    /** The bullet tile sheet, cut into 32 columns and 24 rows. */
    function BulletTiles(): TileSheet
    {
      LoadSheet(bulletSheet, 32, 24)
    }

    /** The bullet tile of the bullet sheet (column 15, row 15). */
    function BulletImage(): Size
    {
      BulletTiles().Cut(15, 15).Dimensions()
    }
  }

  function Scale(s: Size, k: nat): Size
  {
    Size(s.w * k, s.h * k)
  }

  /** The invisible 64 by 64 surface of death boxes and enemy platforms, scaled by 4. */
  const BoxImage: Size := Scale(Size(64, 64), 4)

  // ---------------------------------------------------------------------------
  // Layout
  // ---------------------------------------------------------------------------

  /** One cell of the layout grid: its row, its column and its code. */
  datatype Cell = Cell(row: nat, col: nat, code: char)

  predicate Known(code: char)
  {
    CellTypeOf(code).Some?
  }

  /** Row-major order on grid positions. */
  predicate Before(r: int, c: int, r2: int, c2: int)
  {
    r < r2 || (r == r2 && c < c2)
  }

  predicate InGrid(layout: seq<string>, r: int, c: int)
  {
    0 <= r < |layout| && 0 <= c < |layout[r]|
  }

  function RowCells(r: nat, row: string): (cs: seq<Cell>)
    ensures |cs| == |row|
    ensures forall c :: 0 <= c < |row| ==> cs[c] == Cell(r, c, row[c])
  {
    seq(|row|, c requires 0 <= c < |row| => Cell(r, c, row[c]))
  }

  /** The cells of a layout in the order the nested loops visit them. */
  function Cells(layout: seq<string>): seq<Cell>
    decreases |layout|
  {
    if layout == [] then []
    else Cells(layout[..|layout| - 1]) + RowCells(|layout| - 1, layout[|layout| - 1])
  }

  /** The cells of the first k rows come first. */
  lemma {:induction false} CellsPrefix(layout: seq<string>, k: nat)
    requires k <= |layout|
    ensures |Cells(layout[..k])| <= |Cells(layout)|
    ensures Cells(layout)[..|Cells(layout[..k])|] == Cells(layout[..k])
    decreases |layout|
  {
    if k < |layout| {
      var n := |layout| - 1;
      assert layout[..n][..k] == layout[..k];
      CellsPrefix(layout[..n], k);
    } else {
      assert layout[..k] == layout;
    }
  }

  lemma CellsNextRow(layout: seq<string>, r: nat)
    requires r < |layout|
    ensures Cells(layout[..r + 1]) == Cells(layout[..r]) + RowCells(r, layout[r])
  {
    assert layout[..r + 1][..r] == layout[..r];
  }

  /** Where cell (r, c) sits in the row-major list: after every earlier row, then c along its own. */
  function CellIndex(layout: seq<string>, r: nat, c: nat): nat
    requires r <= |layout|
  {
    |Cells(layout[..r])| + c
  }

  lemma CellsLengthGrows(layout: seq<string>, k1: nat, k2: nat)
    requires k1 <= k2 <= |layout|
    ensures |Cells(layout[..k1])| <= |Cells(layout[..k2])|
  {
    CellsPrefix(layout[..k2], k1);
    assert layout[..k2][..k1] == layout[..k1];
  }

  /** Every grid position appears in the list, at its index, with its code. */
  lemma CellAt(layout: seq<string>, r: nat, c: nat)
    requires InGrid(layout, r, c)
    ensures CellIndex(layout, r, c) < |Cells(layout)| && Cells(layout)[CellIndex(layout, r, c)] == Cell(r, c, layout[r][c])
  {
    CellsPrefix(layout, r + 1);
    CellsNextRow(layout, r);
    var pre := Cells(layout[..r + 1]);
    assert Cells(layout)[..|pre|] == pre;
    assert pre[CellIndex(layout, r, c)] == Cell(r, c, layout[r][c]);
  }

  /** Every entry of the list is a grid position with its code, listed at that position's index. */
  lemma {:induction false} CellOf(layout: seq<string>, i: nat)
    requires i < |Cells(layout)|
    ensures var cl := Cells(layout)[i];
      InGrid(layout, cl.row, cl.col) && cl.code == layout[cl.row][cl.col] && CellIndex(layout, cl.row, cl.col) == i
    decreases |layout|
  {
    var n := |layout| - 1;
    var init := layout[..n];
    assert Cells(layout) == Cells(init) + RowCells(n, layout[n]);
    if i < |Cells(init)| {
      CellOf(init, i);
      var cl := Cells(init)[i];
      assert init[cl.row] == layout[cl.row] && init[..cl.row] == layout[..cl.row];
    }
  }

  /** Row-major order is list order. */
  lemma CellIndexOrder(layout: seq<string>, r: nat, c: nat, r2: nat, c2: nat)
    requires InGrid(layout, r, c) && InGrid(layout, r2, c2) && Before(r, c, r2, c2)
    ensures CellIndex(layout, r, c) < CellIndex(layout, r2, c2)
  {
    if r < r2 {
      CellsNextRow(layout, r);
      CellsLengthGrows(layout, r + 1, r2);
    }
  }

  /** Cells lists every grid position exactly as the layout holds it, each once, in row-major order. */
  lemma CellsRowMajor(layout: seq<string>)
    ensures forall i :: 0 <= i < |Cells(layout)| ==>
      InGrid(layout, Cells(layout)[i].row, Cells(layout)[i].col)
      && Cells(layout)[i].code == layout[Cells(layout)[i].row][Cells(layout)[i].col]
    ensures forall r, c :: InGrid(layout, r, c) ==> Cell(r, c, layout[r][c]) in Cells(layout)
    ensures forall i, j :: 0 <= i < j < |Cells(layout)| ==>
      Before(Cells(layout)[i].row, Cells(layout)[i].col, Cells(layout)[j].row, Cells(layout)[j].col)
  {
    var cs := Cells(layout);
    forall i | 0 <= i < |cs| ensures InGrid(layout, cs[i].row, cs[i].col) && cs[i].code == layout[cs[i].row][cs[i].col] {
      CellOf(layout, i);
    }
    forall r, c | InGrid(layout, r, c) ensures Cell(r, c, layout[r][c]) in cs {
      CellAt(layout, r, c);
    }
    forall i, j | 0 <= i < j < |cs| ensures Before(cs[i].row, cs[i].col, cs[j].row, cs[j].col) {
      CellOf(layout, i);
      CellOf(layout, j);
      if cs[i].row > cs[j].row {
        CellIndexOrder(layout, cs[j].row, cs[j].col, cs[i].row, cs[i].col);
      }
    }
  }

  // ---------------------------------------------------------------------------
  // Spawning
  // ---------------------------------------------------------------------------

  /** What a layout spawns: the tiles in order, the enemies' top-left corners, and the player's. */
  datatype Spawn = Spawn(tiles: seq<TileView>, enemies: seq<(int, int)>, player: Option<(int, int)>)

  /** A layout is refused for a cell outside the six codes, or for having no player. */
  datatype SpawnError = UnknownCell(row: nat, col: nat, code: char) | NoPlayer

  /** The top-left corner of a cell on screen. */
  function Origin(cl: Cell): (int, int)
  {
    (cl.col * TileSize, cl.row * TileSize)
  }

  /**
   * The tile a cell adds to the tile group: walls and death boxes and the
   * platform under an enemy fill the cell, coins are inset by 16; only walls
   * and platforms block, only death boxes kill, only coins are collected.
   */
  function CellTile(cl: Cell, a: Assets): (t: Option<TileView>)
    ensures t.Some? <==> cl.code in {'X', 'C', 'D', 'E'}
    ensures t.Some? && cl.code != 'C' ==> t.value.rect.Left() == Origin(cl).0 && t.value.rect.Top() == Origin(cl).1
    ensures t.Some? && cl.code == 'C' ==>
      t.value.rect.Left() == Origin(cl).0 + 16 && t.value.rect.Top() == Origin(cl).1 + 16
    ensures t.Some? ==> (t.value.collides <==> cl.code != 'C')
    ensures t.Some? ==> (t.value.collectable <==> cl.code == 'C')
    ensures t.Some? ==> (t.value.kills <==> cl.code == 'D')
  {
    var (x, y) := Origin(cl);
    match CellTypeOf(cl.code)
    case Some(Wall) => Some(TileView(AtTopLeft(Scale(a.SquareImage(), 4), x, y), true, false, false))
    case Some(Coin) => Some(TileView(AtTopLeft(Scale(a.CoinImage(), 2), x + 16, y + 16), false, true, false))
    case Some(DeathBox) => Some(TileView(AtTopLeft(BoxImage, x, y), true, false, true))
    case Some(Enemy) => Some(TileView(AtTopLeft(BoxImage, x, y), true, false, false))
    case _ => None
  }

  /** An enemy cell puts an enemy one tile above the cell. */
  function EnemySpot(cl: Cell): (e: Option<(int, int)>)
    ensures e.Some? <==> cl.code == 'E'
    ensures e.Some? ==> e.value == (Origin(cl).0, Origin(cl).1 - TileSize)
  {
    if cl.code == 'E' then Some((Origin(cl).0, Origin(cl).1 - TileSize)) else None
  }

  function Extend<T>(s: seq<T>, o: Option<T>): seq<T>
  {
    match o case Some(v) => s + [v] case None => s
  }

  /** One cell's contribution, or the refusal of an unknown code. */
  function SpawnCell(p: Spawn, cl: Cell, a: Assets): Result<Spawn, SpawnError>
  {
    if !Known(cl.code) then Err(UnknownCell(cl.row, cl.col, cl.code))
    else Ok(Spawn(Extend(p.tiles, CellTile(cl, a)), Extend(p.enemies, EnemySpot(cl)),
                  if cl.code == 'P' then Some(Origin(cl)) else p.player))
  }

  /** The cells spawned in order, stopping at the first unknown code. */
  function SpawnCells(cs: seq<Cell>, a: Assets): Result<Spawn, SpawnError>
    decreases |cs|
  {
    if cs == [] then Ok(Spawn([], [], None))
    else match SpawnCells(cs[..|cs| - 1], a)
      case Err(e) => Err(e)
      case Ok(p) => SpawnCell(p, cs[|cs| - 1], a)
  }

  /** `spawn_sprites`: every cell in row-major order, then the check that a player was found. */
  function SpawnPlan(layout: seq<string>, a: Assets): Result<Spawn, SpawnError>
  {
    match SpawnCells(Cells(layout), a)
    case Err(e) => Err(e)
    case Ok(s) => if s.player.None? then Err(NoPlayer) else Ok(s)
  }

  predicate FirstUnknown(cs: seq<Cell>, i: int)
  {
    0 <= i < |cs| && !Known(cs[i].code) && forall j :: 0 <= j < i ==> Known(cs[j].code)
  }

  /** Spawning succeeds exactly when every code is known, and otherwise reports the first unknown cell. */
  lemma {:induction false} SpawnCellsOutcome(cs: seq<Cell>, a: Assets)
    ensures SpawnCells(cs, a).Ok? <==> forall i :: 0 <= i < |cs| ==> Known(cs[i].code)
    ensures SpawnCells(cs, a).Err? ==> exists i :: (FirstUnknown(cs, i) &&
      SpawnCells(cs, a).error == UnknownCell(cs[i].row, cs[i].col, cs[i].code))
    decreases |cs|
  {
    if cs != [] {
      var init := cs[..|cs| - 1];
      SpawnCellsOutcome(init, a);
      if SpawnCells(init, a).Err? {
        var i :| FirstUnknown(init, i) && SpawnCells(init, a).error == UnknownCell(init[i].row, init[i].col, init[i].code);
        assert FirstUnknown(cs, i);
      } else {
        assert forall i :: 0 <= i < |cs| - 1 ==> Known(cs[i].code) by {
          forall i | 0 <= i < |cs| - 1 ensures Known(cs[i].code) { assert cs[i] == init[i]; }
        }
        if !Known(cs[|cs| - 1].code) {
          assert FirstUnknown(cs, |cs| - 1);
        }
      }
    }
  }

  /** An unknown cell stops spawning for good: more cells never undo the refusal. */
  lemma {:induction false} SpawnErrorSticks(cs: seq<Cell>, ds: seq<Cell>, a: Assets)
    requires SpawnCells(cs, a).Err?
    ensures SpawnCells(cs + ds, a) == SpawnCells(cs, a)
    decreases |ds|
  {
    if ds == [] {
      assert cs + ds == cs;
    } else {
      var n := |ds| - 1;
      assert (cs + ds)[..|cs + ds| - 1] == cs + ds[..n];
      SpawnErrorSticks(cs, ds[..n], a);
    }
  }

  /** The player is the last `P` visited, and there is one exactly when some cell is `P`. */
  lemma {:induction false} SpawnCellsPlayer(cs: seq<Cell>, a: Assets)
    requires SpawnCells(cs, a).Ok?
    ensures var s := SpawnCells(cs, a).value;
      && (s.player.None? <==> forall i :: 0 <= i < |cs| ==> cs[i].code != 'P')
      && (s.player.Some? ==> exists i :: (0 <= i < |cs| && cs[i].code == 'P' && s.player.value == Origin(cs[i])
            && forall j :: i < j < |cs| ==> cs[j].code != 'P'))
    decreases |cs|
  {
    if cs != [] {
      var n := |cs| - 1;
      var init := cs[..n];
      SpawnCellsPlayer(init, a);
      var p := SpawnCells(init, a).value;
      var s := SpawnCells(cs, a).value;
      if cs[n].code == 'P' {
        assert s.player.value == Origin(cs[n]);
      } else {
        assert s.player == p.player;
        if p.player.Some? {
          var i :| 0 <= i < |init| && init[i].code == 'P' && p.player.value == Origin(init[i])
            && forall j :: i < j < |init| ==> init[j].code != 'P';
          assert cs[i] == init[i];
          assert forall j :: i < j < |cs| ==> cs[j].code != 'P' by {
            forall j | i < j < |cs| ensures cs[j].code != 'P' {
              if j < n { assert cs[j] == init[j]; }
            }
          }
        } else {
          forall i | 0 <= i < |cs| ensures cs[i].code != 'P' {
            if i < n { assert cs[i] == init[i]; }
          }
        }
      }
    }
  }

  /** What a function of cells picks out of a list of cells, in order. */
  function Gather<T>(cs: seq<Cell>, f: Cell -> Option<T>): seq<T>
    decreases |cs|
  {
    if cs == [] then [] else Extend(Gather(cs[..|cs| - 1], f), f(cs[|cs| - 1]))
  }

  /** Everything picked out of a cell is gathered. */
  lemma {:induction false} GatherHas<T>(cs: seq<Cell>, f: Cell -> Option<T>, i: nat)
    requires i < |cs| && f(cs[i]).Some?
    ensures f(cs[i]).value in Gather(cs, f)
    decreases |cs|
  {
    var n := |cs| - 1;
    if i < n {
      GatherHas(cs[..n], f, i);
    }
  }

  /** Everything gathered was picked out of some cell. */
  lemma {:induction false} GatherFrom<T>(cs: seq<Cell>, f: Cell -> Option<T>, v: T)
    requires v in Gather(cs, f)
    ensures exists i :: 0 <= i < |cs| && f(cs[i]) == Some(v)
    decreases |cs|
  {
    var n := |cs| - 1;
    var init := cs[..n];
    if v in Gather(init, f) {
      GatherFrom(init, f, v);
      var i :| 0 <= i < |init| && f(init[i]) == Some(v);
      assert cs[i] == init[i];
    } else {
      assert f(cs[n]) == Some(v);
    }
  }

  function TileOf(a: Assets): Cell -> Option<TileView>
  {
    cl => CellTile(cl, a)
  }

  /** The spawned tiles are the cells' tiles in order, and the enemies those of the `E` cells in order. */
  lemma {:induction false} SpawnCellsGathers(cs: seq<Cell>, a: Assets)
    requires SpawnCells(cs, a).Ok?
    ensures SpawnCells(cs, a).value.tiles == Gather(cs, TileOf(a))
    ensures SpawnCells(cs, a).value.enemies == Gather(cs, EnemySpot)
    decreases |cs|
  {
    if cs != [] {
      SpawnCellsGathers(cs[..|cs| - 1], a);
    }
  }

  /** Every known code versus every listed code. */
  lemma AllKnown(layout: seq<string>)
    ensures (forall r, c :: InGrid(layout, r, c) ==> Known(layout[r][c]))
      <==> (forall i :: 0 <= i < |Cells(layout)| ==> Known(Cells(layout)[i].code))
  {
    var cs := Cells(layout);
    if forall i :: 0 <= i < |cs| ==> Known(cs[i].code) {
      forall r, c | InGrid(layout, r, c) ensures Known(layout[r][c]) {
        CellAt(layout, r, c);
      }
    }
    if forall r, c :: InGrid(layout, r, c) ==> Known(layout[r][c]) {
      forall i | 0 <= i < |cs| ensures Known(cs[i].code) {
        CellOf(layout, i);
      }
    }
  }

  /** Some `P` in the grid versus some `P` in the list. */
  lemma SomePlayerCell(layout: seq<string>)
    ensures (exists r, c :: InGrid(layout, r, c) && layout[r][c] == 'P')
      <==> (exists i :: 0 <= i < |Cells(layout)| && Cells(layout)[i].code == 'P')
  {
    var cs := Cells(layout);
    if exists i :: 0 <= i < |cs| && cs[i].code == 'P' {
      var i :| 0 <= i < |cs| && cs[i].code == 'P';
      CellOf(layout, i);
      assert InGrid(layout, cs[i].row, cs[i].col) && layout[cs[i].row][cs[i].col] == 'P';
    }
    if exists r, c :: InGrid(layout, r, c) && layout[r][c] == 'P' {
      var r, c :| InGrid(layout, r, c) && layout[r][c] == 'P';
      CellAt(layout, r, c);
      assert cs[CellIndex(layout, r, c)].code == 'P';
    }
  }

  /** A layout is accepted exactly when all its codes are known and it has a `P`. */
  lemma SpawnPlanOutcome(layout: seq<string>, a: Assets)
    ensures SpawnPlan(layout, a).Ok? <==>
      (forall r, c :: InGrid(layout, r, c) ==> Known(layout[r][c]))
      && (exists r, c :: InGrid(layout, r, c) && layout[r][c] == 'P')
    ensures SpawnPlan(layout, a) == Err(NoPlayer) <==>
      (forall r, c :: InGrid(layout, r, c) ==> Known(layout[r][c]))
      && !(exists r, c :: InGrid(layout, r, c) && layout[r][c] == 'P')
  {
    var cs := Cells(layout);
    AllKnown(layout);
    SomePlayerCell(layout);
    SpawnCellsOutcome(cs, a);
    if SpawnCells(cs, a).Ok? {
      SpawnCellsPlayer(cs, a);
    } else {
      var i :| FirstUnknown(cs, i) && SpawnCells(cs, a).error == UnknownCell(cs[i].row, cs[i].col, cs[i].code);
    }
  }

  /**
   * A layout with an unknown code is refused for the first one in
   * row-major order, and only such a layout is refused for a cell.
   */
  lemma SpawnPlanFirstUnknown(layout: seq<string>, a: Assets)
    ensures SpawnPlan(layout, a).Err? && SpawnPlan(layout, a).error.UnknownCell? ==>
      var e := SpawnPlan(layout, a).error;
      InGrid(layout, e.row, e.col) && e.code == layout[e.row][e.col] && !Known(e.code)
      && forall r, c :: InGrid(layout, r, c) && Before(r, c, e.row, e.col) ==> Known(layout[r][c])
  {
    var cs := Cells(layout);
    SpawnCellsOutcome(cs, a);
    if SpawnCells(cs, a).Err? {
      var i :| FirstUnknown(cs, i) && SpawnCells(cs, a).error == UnknownCell(cs[i].row, cs[i].col, cs[i].code);
      CellOf(layout, i);
      forall r, c | InGrid(layout, r, c) && Before(r, c, cs[i].row, cs[i].col) ensures Known(layout[r][c]) {
        CellAt(layout, r, c);
        CellIndexOrder(layout, r, c, cs[i].row, cs[i].col);
      }
    }
  }

  /** With several `P` cells, the player stands at the last one in row-major order. */
  lemma SpawnPlanPlayerIsLastP(layout: seq<string>, a: Assets)
    requires SpawnPlan(layout, a).Ok?
    ensures exists r, c :: (InGrid(layout, r, c) && layout[r][c] == 'P'
      && SpawnPlan(layout, a).value.player == Some((c * TileSize, r * TileSize))
      && forall r2, c2 :: InGrid(layout, r2, c2) && Before(r, c, r2, c2) ==> layout[r2][c2] != 'P')
  {
    var cs := Cells(layout);
    SpawnCellsPlayer(cs, a);
    var s := SpawnCells(cs, a).value;
    var i :| 0 <= i < |cs| && cs[i].code == 'P' && s.player.value == Origin(cs[i])
      && forall j :: i < j < |cs| ==> cs[j].code != 'P';
    CellOf(layout, i);
    var r, c := cs[i].row, cs[i].col;
    forall r2, c2 | InGrid(layout, r2, c2) && Before(r, c, r2, c2) ensures layout[r2][c2] != 'P' {
      CellAt(layout, r2, c2);
      CellIndexOrder(layout, r, c, r2, c2);
    }
  }

  /**
   * Every `X`, `C`, `D` and `E` cell of an accepted layout has its tile in
   * the tile group, and every tile comes from such a cell.
   */
  lemma SpawnPlanTiles(layout: seq<string>, a: Assets)
    requires SpawnPlan(layout, a).Ok?
    ensures forall r, c :: InGrid(layout, r, c) && layout[r][c] in {'X', 'C', 'D', 'E'} ==>
      CellTile(Cell(r, c, layout[r][c]), a).value in SpawnPlan(layout, a).value.tiles
    ensures forall v :: v in SpawnPlan(layout, a).value.tiles ==>
      exists r, c :: (InGrid(layout, r, c) && CellTile(Cell(r, c, layout[r][c]), a) == Some(v))
  {
    var cs := Cells(layout);
    SpawnCellsGathers(cs, a);
    var tiles := SpawnPlan(layout, a).value.tiles;
    forall r, c | InGrid(layout, r, c) && layout[r][c] in {'X', 'C', 'D', 'E'}
      ensures CellTile(Cell(r, c, layout[r][c]), a).value in tiles
    {
      CellAt(layout, r, c);
      assert TileOf(a)(cs[CellIndex(layout, r, c)]).Some?;
      GatherHas(cs, TileOf(a), CellIndex(layout, r, c));
    }
    forall v | v in tiles ensures exists r, c :: (InGrid(layout, r, c) && CellTile(Cell(r, c, layout[r][c]), a) == Some(v)) {
      GatherFrom(cs, TileOf(a), v);
      var i :| 0 <= i < |cs| && TileOf(a)(cs[i]) == Some(v);
      CellOf(layout, i);
      assert cs[i] == Cell(cs[i].row, cs[i].col, layout[cs[i].row][cs[i].col]);
    }
  }

  lemma EnemyCellSpawns(layout: seq<string>, a: Assets, r: nat, c: nat)
    requires SpawnPlan(layout, a).Ok? && InGrid(layout, r, c) && layout[r][c] == 'E'
    ensures (c * TileSize, r * TileSize - TileSize) in SpawnPlan(layout, a).value.enemies
  {
    var cs := Cells(layout);
    SpawnCellsGathers(cs, a);
    CellAt(layout, r, c);
    var cl := cs[CellIndex(layout, r, c)];
    assert EnemySpot(cl) == Some((c * TileSize, r * TileSize - TileSize));
    GatherHas(cs, EnemySpot, CellIndex(layout, r, c));
  }

  lemma SpawnedEnemyHasCell(layout: seq<string>, a: Assets, e: (int, int)) returns (r: nat, c: nat)
    requires SpawnPlan(layout, a).Ok? && e in SpawnPlan(layout, a).value.enemies
    ensures InGrid(layout, r, c) && layout[r][c] == 'E' && e == (c * TileSize, r * TileSize - TileSize)
  {
    var cs := Cells(layout);
    assert SpawnCells(cs, a).Ok? && SpawnPlan(layout, a).value == SpawnCells(cs, a).value;
    SpawnCellsGathers(cs, a);
    GatherFrom(cs, EnemySpot, e);
    var i :| 0 <= i < |cs| && EnemySpot(cs[i]) == Some(e);
    CellOf(layout, i);
    var cl := cs[i];
    assert cl.code == 'E' && e == (cl.col * TileSize, cl.row * TileSize - TileSize);
    r, c := cl.row, cl.col;
  }

  /** Every `E` cell of an accepted layout has its enemy one tile above it, and every enemy comes from an `E` cell. */
  lemma SpawnPlanEnemies(layout: seq<string>, a: Assets)
    requires SpawnPlan(layout, a).Ok?
    ensures forall r, c :: InGrid(layout, r, c) && layout[r][c] == 'E' ==>
      (c * TileSize, r * TileSize - TileSize) in SpawnPlan(layout, a).value.enemies
    ensures forall e :: e in SpawnPlan(layout, a).value.enemies ==>
      exists r, c :: (InGrid(layout, r, c) && layout[r][c] == 'E' && e == (c * TileSize, r * TileSize - TileSize))
  {
    forall r, c | InGrid(layout, r, c) && layout[r][c] == 'E'
      ensures (c * TileSize, r * TileSize - TileSize) in SpawnPlan(layout, a).value.enemies
    {
      EnemyCellSpawns(layout, a, r, c);
    }
    forall e | e in SpawnPlan(layout, a).value.enemies
      ensures exists r, c :: (InGrid(layout, r, c) && layout[r][c] == 'E' && e == (c * TileSize, r * TileSize - TileSize))
    {
      var r, c := SpawnedEnemyHasCell(layout, a, e);
    }
  }

  // ---------------------------------------------------------------------------
  // Camera
  // ---------------------------------------------------------------------------

  /** The camera's decision: how far the world scrolls this frame, and the player's own speed. */
  datatype CameraMove = CameraMove(worldShift: int, playerSpeed: real)

  /**
   * `handle_horizontal_movement`: walking left in the left quarter of the
   * screen, or right in the right quarter, scrolls the world by twice the
   * player's speed the other way and stops the player; otherwise the world
   * stands still and the player walks at speed 8.
   */
  function Camera(centerX: int, dx: real): CameraMove
  {
    if (centerX as real) < (ScreenWidth as real) / 4.0 && dx < 0.0 then CameraMove(PlayerMovement * 2, 0.0)
    else if (centerX as real) > (ScreenWidth as real) - (ScreenWidth as real) / 4.0 && dx > 0.0 then CameraMove(-PlayerMovement * 2, 0.0)
    else CameraMove(0, PlayerMovement as real)
  }

  /** The camera rule in screen pixels, and its consequences: the world scrolls against the walk, and never while the player moves. */
  lemma CameraRule(centerX: int, dx: real)
    ensures centerX < 300 && dx < 0.0 ==> Camera(centerX, dx) == CameraMove(16, 0.0)
    ensures centerX > 900 && dx > 0.0 ==> Camera(centerX, dx) == CameraMove(-16, 0.0)
    ensures !(centerX < 300 && dx < 0.0) && !(centerX > 900 && dx > 0.0) ==> Camera(centerX, dx) == CameraMove(0, 8.0)
    ensures (Camera(centerX, dx).worldShift == 0) <==> (Camera(centerX, dx).playerSpeed == 8.0)
    ensures Camera(centerX, dx).worldShift as real * dx <= 0.0
  {
  }

  // ---------------------------------------------------------------------------
  // Horizontal pass
  // ---------------------------------------------------------------------------

  /** What the horizontal pass reads and changes of a character. */
  datatype Mover = Mover(rect: Rect, dx: real, speed: real, collisions: set<Collision>)

  /** The horizontal pass's state: the character and the level's shared `current_x`. */
  datatype HState = HState(m: Mover, currentX: int)

  /** A tile that stops a character: it collides, does not kill, and overlaps the rectangle. */
  predicate Blocks(t: TileView, r: Rect)
  {
    t.collides && !t.kills && t.rect.Collides(r)
  }

  /** The character's own move: x advances by direction times speed, truncated to a pixel. */
  function MoveX(m: Mover): Mover
  {
    m.(rect := m.rect.(x := Trunc(m.rect.x as real + m.dx * m.speed)))
  }

  /** An enemy heading right turns round at a tile whose x-span strictly contains its right edge. */
  function Bounce(m: Mover, t: TileView, isEnemy: bool): Mover
  {
    if isEnemy && m.dx > 0.0 && t.rect.Left() < m.rect.Right() < t.rect.Right()
    then m.(dx := -m.dx, speed := EnemyMovement)
    else m
  }

  /** Where a moving character ends up against a tile: flush with its far side, touching it on that side. */
  function SnapAgainst(m: Mover, t: TileView): Mover
  {
    if m.dx < 0.0 then m.(rect := m.rect.WithLeft(t.rect.Right()), collisions := m.collisions + {Collision.Left})
    else m.(rect := m.rect.WithRight(t.rect.Left()), collisions := m.collisions + {Collision.Right})
  }

  /** The `current_x` a snap records: the tile's near edge. */
  function SnapX(m: Mover, t: TileView): int
  {
    if m.dx < 0.0 then t.rect.Left() else t.rect.Right()
  }

  /** One tile of the horizontal pass: the enemy turn, then the snap of a moving character against a blocking tile. */
  function HStep(s: HState, t: TileView, isEnemy: bool): (r: HState)
    ensures !isEnemy && (t.kills || !t.collides) ==> r == s
  {
    var m := Bounce(s.m, t, isEnemy);
    if Blocks(t, m.rect) && m.dx != 0.0 then HState(SnapAgainst(m, t), SnapX(m, t))
    else HState(m, s.currentX)
  }

  /** The tiles visited in group order. */
  function HSweep(s: HState, ts: seq<TileView>, isEnemy: bool): HState
    decreases |ts|
  {
    if ts == [] then s else HStep(HSweep(s, ts[..|ts| - 1], isEnemy), ts[|ts| - 1], isEnemy)
  }

  /** LEFT stays only while moving left and not past `current_x`; RIGHT symmetrically. */
  function ClearSides(s: HState): Mover
  {
    var m := s.m;
    var c1 := if Collision.Left in m.collisions && (m.rect.Left() < s.currentX || m.dx >= 0.0)
      then m.collisions - {Collision.Left} else m.collisions;
    var c2 := if Collision.Right in c1 && (m.rect.Right() > s.currentX || m.dx <= 0.0)
      then c1 - {Collision.Right} else c1;
    m.(collisions := c2)
  }

  /** The sweep only moves a character sideways and only adds LEFT or RIGHT; only enemies change direction or speed. */
  lemma {:induction false} HSweepKeepsVertical(s: HState, ts: seq<TileView>, isEnemy: bool)
    ensures var r := HSweep(s, ts, isEnemy);
      && r.m.rect.y == s.m.rect.y && r.m.rect.Dimensions() == s.m.rect.Dimensions()
      && s.m.collisions <= r.m.collisions <= s.m.collisions + {Collision.Left, Collision.Right}
      && (!isEnemy ==> r.m.dx == s.m.dx && r.m.speed == s.m.speed)
    decreases |ts|
  {
    if ts != [] {
      HSweepKeepsVertical(s, ts[..|ts| - 1], isEnemy);
    }
  }

  /**
   * `horizontal_movement_collision` on values: move, sweep the tiles, then
   * clear the side flags. The rectangle keeps its row and size, TOP and
   * BOTTOM are untouched, and a side flag survives only while the
   * character still moves that way.
   */
  function HorizontalPass(m: Mover, currentX: int, ts: seq<TileView>, isEnemy: bool): (r: HState)
    ensures r.m.dx >= 0.0 ==> Collision.Left !in r.m.collisions
    ensures r.m.dx <= 0.0 ==> Collision.Right !in r.m.collisions
    ensures Collision.Left in r.m.collisions ==> r.m.rect.Left() >= r.currentX
    ensures Collision.Right in r.m.collisions ==> r.m.rect.Right() <= r.currentX
    ensures r.m.rect.y == m.rect.y && r.m.rect.Dimensions() == m.rect.Dimensions()
    ensures (Collision.Top in r.m.collisions <==> Collision.Top in m.collisions)
    ensures (Collision.Bottom in r.m.collisions <==> Collision.Bottom in m.collisions)
    ensures !isEnemy ==> r.m.dx == m.dx && r.m.speed == m.speed
  {
    var s := HSweep(HState(MoveX(m), currentX), ts, isEnemy);
    HSweepKeepsVertical(HState(MoveX(m), currentX), ts, isEnemy);
    HState(ClearSides(s), s.currentX)
  }

  lemma SnapAgainstTwice(m: Mover, t1: TileView, t2: TileView)
    ensures SnapAgainst(SnapAgainst(m, t1), t2) == SnapAgainst(m, t2)
  {
  }

  /** No tile of the group blocks the rectangle. */
  predicate NoneBlock(ts: seq<TileView>, r: Rect)
  {
    forall j :: 0 <= j < |ts| ==> !Blocks(ts[j], r)
  }

  /** The sweep ended snapped against tile k: k blocked when reached, and no later tile blocks the final position. */
  predicate SnappedLastAt(s0: HState, ts: seq<TileView>, k: int)
  {
    && 0 <= k < |ts| && s0.m.dx != 0.0
    && Blocks(ts[k], HSweep(s0, ts[..k], false).m.rect)
    && HSweep(s0, ts, false) == HState(SnapAgainst(s0.m, ts[k]), SnapX(s0.m, ts[k]))
    && NoneBlock(ts[k + 1..], HSweep(s0, ts, false).m.rect)
  }

  /**
   * For the player, the last blocking tile wins: either nothing blocks a
   * moving player and nothing changes, or the result is the snap against
   * some blocking tile k with no later tile blocking the final position.
   * Killing tiles never block.
   */
  lemma {:induction false} LastBlockingTileWins(s0: HState, ts: seq<TileView>)
    ensures || (HSweep(s0, ts, false) == s0 && (s0.m.dx == 0.0 || NoneBlock(ts, s0.m.rect)))
            || (exists k :: SnappedLastAt(s0, ts, k))
    decreases |ts|
  {
    if ts != [] {
      var n := |ts| - 1;
      var init := ts[..n];
      LastBlockingTileWins(s0, init);
      var p := HSweep(s0, init, false);
      if Blocks(ts[n], p.m.rect) && p.m.dx != 0.0 {
        if exists k :: SnappedLastAt(s0, init, k) {
          var k :| SnappedLastAt(s0, init, k);
          SnapAgainstTwice(s0.m, init[k], ts[n]);
        }
        SnapsAtLast(s0, ts);
      } else if exists k :: SnappedLastAt(s0, init, k) {
        var k :| SnappedLastAt(s0, init, k);
        SnapSurvivesLast(s0, ts, k);
      } else if s0.m.dx != 0.0 {
        NothingBlocksLast(s0, ts);
      }
    }
  }

  /** A last tile that blocks the position reached snaps the sweep against it. */
  lemma SnapsAtLast(s0: HState, ts: seq<TileView>)
    requires ts != [] && var p := HSweep(s0, ts[..|ts| - 1], false);
      && Blocks(ts[|ts| - 1], p.m.rect) && p.m.dx != 0.0 && SnapAgainst(p.m, ts[|ts| - 1]) == SnapAgainst(s0.m, ts[|ts| - 1])
      && p.m.dx == s0.m.dx
    ensures SnappedLastAt(s0, ts, |ts| - 1)
  {
    var n := |ts| - 1;
    assert ts[..n + 1] == ts && ts[n + 1..] == [];
  }

  /** A last tile that does not block leaves the earlier snap standing. */
  lemma SnapSurvivesLast(s0: HState, ts: seq<TileView>, k: int)
    requires ts != [] && var p := HSweep(s0, ts[..|ts| - 1], false);
      && !(Blocks(ts[|ts| - 1], p.m.rect) && p.m.dx != 0.0) && SnappedLastAt(s0, ts[..|ts| - 1], k)
    ensures SnappedLastAt(s0, ts, k)
  {
    var n := |ts| - 1;
    var init := ts[..n];
    assert init[..k] == ts[..k] && init[k] == ts[k];
    assert ts[k + 1..] == init[k + 1..] + [ts[n]];
  }

  /** With no snap so far and a last tile that does not block, no tile blocks a moving character. */
  lemma NothingBlocksLast(s0: HState, ts: seq<TileView>)
    requires ts != [] && s0.m.dx != 0.0
    requires HSweep(s0, ts[..|ts| - 1], false) == s0 && NoneBlock(ts[..|ts| - 1], s0.m.rect)
    requires !Blocks(ts[|ts| - 1], s0.m.rect)
    ensures HSweep(s0, ts, false) == s0 && NoneBlock(ts, s0.m.rect)
  {
    var n := |ts| - 1;
    assert HSweep(s0, ts, false) == HStep(s0, ts[n], false);
    forall j | 0 <= j < |ts|
      ensures !Blocks(ts[j], s0.m.rect)
    {
      if j < n {
        assert ts[..n][j] == ts[j] && !Blocks(ts[..n][j], s0.m.rect);
      } else {
        assert j == n;
      }
    }
  }

  /** A character standing still is never moved, turned or snapped by the sweep. */
  lemma {:induction false} SweepAtRest(s: HState, ts: seq<TileView>, isEnemy: bool)
    requires s.m.dx == 0.0
    ensures HSweep(s, ts, isEnemy) == s
    decreases |ts|
  {
    if ts != [] {
      SweepAtRest(s, ts[..|ts| - 1], isEnemy);
    }
  }

  /** An enemy with direction 0 (as every enemy starts) never moves: only its side flags are cleared. */
  lemma EnemyAtRestNeverMoves(m: Mover, currentX: int, ts: seq<TileView>)
    requires m.dx == 0.0
    ensures HorizontalPass(m, currentX, ts, true) ==
      HState(m.(collisions := m.collisions - {Collision.Left, Collision.Right}), currentX)
  {
    TruncOfInteger(m.rect.x);
    assert MoveX(m) == m;
    SweepAtRest(HState(m, currentX), ts, true);
  }

  /**
   * The enemies' horizontal passes, one after another in list order, each
   * starting from the `current_x` the previous one left.
   */
  function EnemiesPass(ms: seq<Mover>, currentX: int, ts: seq<TileView>): (r: (seq<Mover>, int))
    ensures |r.0| == |ms|
    decreases |ms|
  {
    if ms == [] then ([], currentX)
    else
      var p := EnemiesPass(ms[..|ms| - 1], currentX, ts);
      var h := HorizontalPass(ms[|ms| - 1], p.1, ts, true);
      (p.0 + [h.m], h.currentX)
  }

  /** One more enemy is one more horizontal pass, from the `current_x` the earlier ones left. */
  lemma EnemiesPassStep(ms: seq<Mover>, k: nat, currentX: int, ts: seq<TileView>)
    requires k < |ms|
    ensures var p := EnemiesPass(ms[..k], currentX, ts);
      var h := HorizontalPass(ms[k], p.1, ts, true);
      EnemiesPass(ms[..k + 1], currentX, ts) == (p.0 + [h.m], h.currentX)
  {
    assert ms[..k + 1][..k] == ms[..k];
  }

  /** Enemies that all stand still stay where they are and leave `current_x` alone. */
  lemma {:induction false} EnemiesAtRestStay(ms: seq<Mover>, currentX: int, ts: seq<TileView>)
    requires forall i :: 0 <= i < |ms| ==> ms[i].dx == 0.0
    ensures var r := EnemiesPass(ms, currentX, ts);
      && r.1 == currentX
      && forall i :: 0 <= i < |ms| ==> r.0[i] == ms[i].(collisions := ms[i].collisions - {Collision.Left, Collision.Right})
    decreases |ms|
  {
    if ms != [] {
      var n := |ms| - 1;
      EnemiesAtRestStay(ms[..n], currentX, ts);
      EnemyAtRestNeverMoves(ms[n], currentX, ts);
    }
  }

  lemma {:induction false} HSweepAppend(s: HState, xs: seq<TileView>, ys: seq<TileView>, isEnemy: bool)
    ensures HSweep(s, xs + ys, isEnemy) == HSweep(HSweep(s, xs, isEnemy), ys, isEnemy)
    decreases |ys|
  {
    if ys == [] {
      assert xs + ys == xs;
    } else {
      var n := |ys| - 1;
      assert (xs + ys)[..|xs + ys| - 1] == xs + ys[..n];
      HSweepAppend(s, xs, ys[..n], isEnemy);
    }
  }

  /** An enemy heading left or standing keeps its direction and speed for the rest of the sweep. */
  lemma {:induction false} NoTurnWhileNotRight(s: HState, ts: seq<TileView>)
    requires s.m.dx <= 0.0
    ensures HSweep(s, ts, true).m.dx == s.m.dx && HSweep(s, ts, true).m.speed == s.m.speed
    decreases |ts|
  {
    if ts != [] {
      NoTurnWhileNotRight(s, ts[..|ts| - 1]);
    }
  }

  /** An enemy turns round at most once per pass, and a turn always resets its speed to 3.5. */
  lemma {:induction false} EnemyTurnsAtMostOnce(s: HState, ts: seq<TileView>)
    ensures var r := HSweep(s, ts, true);
      || (r.m.dx == s.m.dx && r.m.speed == s.m.speed)
      || (s.m.dx > 0.0 && r.m.dx == -s.m.dx && r.m.speed == EnemyMovement)
    decreases |ts|
  {
    if ts != [] {
      EnemyTurnsAtMostOnce(s, ts[..|ts| - 1]);
    }
  }

  /**
   * When an enemy still heading right reaches a tile whose x-span strictly
   * contains its right edge, whatever the rows, it ends the pass heading
   * left at speed 3.5.
   */
  lemma EnemyTurnsAtInnerEdge(s: HState, ts: seq<TileView>, k: nat)
    requires k < |ts|
    requires var p := HSweep(s, ts[..k], true);
      p.m.dx > 0.0 && ts[k].rect.Left() < p.m.rect.Right() < ts[k].rect.Right()
    ensures var p := HSweep(s, ts[..k], true);
      HSweep(s, ts, true).m.dx == -p.m.dx && HSweep(s, ts, true).m.speed == EnemyMovement
  {
    var p := HSweep(s, ts[..k], true);
    assert ts == ts[..k] + [ts[k]] + ts[k + 1..];
    HSweepAppend(s, ts[..k] + [ts[k]], ts[k + 1..], true);
    HSweepAppend(s, ts[..k], [ts[k]], true);
    var q := HSweep(s, ts[..k] + [ts[k]], true);
    assert q == HStep(p, ts[k], true);
    NoTurnWhileNotRight(q, ts[k + 1..]);
  }

  // ---------------------------------------------------------------------------
  // Vertical pass
  // ---------------------------------------------------------------------------

  /** What the vertical pass reads and changes of the player. */
  datatype Faller = Faller(rect: Rect, dy: real, collisions: set<Collision>, score: int)

  /** The vertical pass's state: the player, which tiles stay in the group so far, and whether it died. */
  datatype VState = VState(f: Faller, keep: seq<bool>, dead: bool)

  /** A tile that ends the game: it collides, kills, and overlaps the rectangle. */
  predicate KillsAt(t: TileView, r: Rect)
  {
    t.collides && t.kills && t.rect.Collides(r)
  }

  /** `apply_gravity` on values. */
  function Gravitate(f: Faller): Faller
  {
    var dy := f.dy + Gravity;
    f.(dy := dy, rect := f.rect.(y := Trunc(f.rect.y as real + dy)))
  }

  /** Landing on a blocking tile when falling, bumping its underside when rising; either stops vertical motion. */
  function Touch(f: Faller, t: TileView): Faller
  {
    if Blocks(t, f.rect) && f.dy > 0.0 then
      f.(rect := f.rect.WithBottom(t.rect.Top()), dy := 0.0, collisions := f.collisions + {Collision.Bottom})
    else if Blocks(t, f.rect) && f.dy < 0.0 then
      f.(rect := f.rect.WithTop(t.rect.Bottom()), dy := 0.0, collisions := f.collisions + {Collision.Top})
    else f
  }

  /**
   * Touching a tile keeps the score, the column and the size; a falling
   * player lands flush on a blocking tile, a rising one bumps flush under
   * it, and a tile that does not block (or a player at rest) changes
   * nothing.
   */
  lemma TouchStops(f: Faller, t: TileView)
    ensures var g := Touch(f, t);
      && g.score == f.score && g.rect.x == f.rect.x && g.rect.Dimensions() == f.rect.Dimensions()
      && (Blocks(t, f.rect) && f.dy > 0.0 ==>
        g.rect.Bottom() == t.rect.Top() && g.dy == 0.0 && g.collisions == f.collisions + {Collision.Bottom})
      && (Blocks(t, f.rect) && f.dy < 0.0 ==>
        g.rect.Top() == t.rect.Bottom() && g.dy == 0.0 && g.collisions == f.collisions + {Collision.Top})
      && (!Blocks(t, f.rect) || f.dy == 0.0 ==> g == f)
  {
  }

  /** A collectable tile is picked up when it overlaps the player after the tile's own landing. */
  predicate Collects(f: Faller, t: TileView)
  {
    t.collectable && t.rect.Collides(Touch(f, t).rect)
  }

  /** One tile of the vertical pass; once dead, the remaining tiles are left alone. */
  function VStep(s: VState, t: TileView): VState
  {
    if s.dead then s.(keep := s.keep + [true])
    else if KillsAt(t, s.f.rect) then VState(s.f, s.keep + [true], true)
    else
      var f := Touch(s.f, t);
      if Collects(s.f, t) then VState(f.(score := f.score + 1), s.keep + [false], false)
      else VState(f, s.keep + [true], false)
  }

  function VSweep(s: VState, ts: seq<TileView>): VState
    decreases |ts|
  {
    if ts == [] then s else VStep(VSweep(s, ts[..|ts| - 1]), ts[|ts| - 1])
  }

  /** BOTTOM stays only while resting (0 <= dy <= 1), TOP only while dy <= 0.1. */
  function ClearVertical(f: Faller): Faller
  {
    var c1 := if Collision.Bottom in f.collisions && (f.dy < 0.0 || f.dy > 1.0)
      then f.collisions - {Collision.Bottom} else f.collisions;
    var c2 := if Collision.Top in c1 && f.dy > 0.1 then c1 - {Collision.Top} else c1;
    f.(collisions := c2)
  }

  /** The number of tiles a pass removed. */
  function Removed(keep: seq<bool>): (n: nat)
    ensures n <= |keep|
  {
    if keep == [] then 0 else Removed(keep[..|keep| - 1]) + (if keep[|keep| - 1] then 0 else 1)
  }

  /** The tiles a pass keeps, in their order. */
  function Select<T>(ts: seq<T>, keep: seq<bool>): (r: seq<T>)
    requires |keep| == |ts|
    ensures |r| == |ts| - Removed(keep)
    ensures forall x :: x in r ==> x in ts
  {
    if ts == [] then []
    else Select(ts[..|ts| - 1], keep[..|keep| - 1]) + (if keep[|keep| - 1] then [ts[|ts| - 1]] else [])
  }

  /** Each tile visited adds one decision, and the score grows by one per tile removed. */
  lemma {:induction false} VSweepScore(s: VState, ts: seq<TileView>)
    ensures var r := VSweep(s, ts);
      |r.keep| == |s.keep| + |ts| && r.keep[..|s.keep|] == s.keep
      && r.f.score == s.f.score + Removed(r.keep) - Removed(s.keep)
      && (s.dead ==> r.f == s.f && r.dead)
    decreases |ts|
  {
    if ts != [] {
      VSweepScore(s, ts[..|ts| - 1]);
      var p := VSweep(s, ts[..|ts| - 1]);
      var r := VSweep(s, ts);
      assert r.keep[..|r.keep| - 1] == p.keep;
      assert r.keep[..|s.keep|] == p.keep[..|s.keep|];
    }
  }

  lemma {:induction false} VSweepAppend(s: VState, xs: seq<TileView>, ys: seq<TileView>)
    ensures VSweep(s, xs + ys) == VSweep(VSweep(s, xs), ys)
    decreases |ys|
  {
    if ys == [] {
      assert xs + ys == xs;
    } else {
      var n := |ys| - 1;
      assert (xs + ys)[..|xs + ys| - 1] == xs + ys[..n];
      VSweepAppend(s, xs, ys[..n]);
    }
  }

  /**
   * The decision about tile k is taken when tile k is visited: it is
   * removed exactly when the player was still alive, tile k does not kill
   * it, and tile k is a collectable it overlaps.
   */
  lemma CollectedExactly(s: VState, ts: seq<TileView>, k: nat)
    requires s.keep == [] && k < |ts|
    ensures |VSweep(s, ts).keep| == |ts|
    ensures var p := VSweep(s, ts[..k]);
      !VSweep(s, ts).keep[k] <==> !p.dead && !KillsAt(ts[k], p.f.rect) && Collects(p.f, ts[k])
  {
    KeepStable(s, ts, k + 1);
    KeepStable(s, ts, k);
    assert ts[..k + 1][..k] == ts[..k];
  }

  /** The decisions about the first n tiles are taken by the time tile n is reached. */
  lemma KeepStable(s: VState, ts: seq<TileView>, n: nat)
    requires n <= |ts|
    ensures |VSweep(s, ts).keep| == |s.keep| + |ts| && |VSweep(s, ts[..n]).keep| == |s.keep| + n
    ensures VSweep(s, ts).keep[..|s.keep| + n] == VSweep(s, ts[..n]).keep
  {
    var q := VSweep(s, ts[..n]);
    assert ts == ts[..n] + ts[n..];
    VSweepAppend(s, ts[..n], ts[n..]);
    VSweepScore(s, ts[..n]);
    VSweepScore(q, ts[n..]);
  }

  /** Tile k kills the player: it is reached with the player alive and overlaps it with a killing tile. */
  predicate DiesAt(s: VState, ts: seq<TileView>, k: int)
  {
    0 <= k < |ts| && !VSweep(s, ts[..k]).dead && KillsAt(ts[k], VSweep(s, ts[..k]).f.rect)
  }

  /** The game ends exactly when, while the player is alive, some tile it overlaps kills. */
  lemma {:induction false} GameOverExactly(s: VState, ts: seq<TileView>)
    requires !s.dead
    ensures VSweep(s, ts).dead <==> exists k :: DiesAt(s, ts, k)
    decreases |ts|
  {
    if ts != [] {
      var n := |ts| - 1;
      var init := ts[..n];
      GameOverExactly(s, init);
      var p := VSweep(s, init);
      if p.dead {
        var k :| DiesAt(s, init, k);
        assert init[..k] == ts[..k];
        assert DiesAt(s, ts, k);
      } else if VSweep(s, ts).dead {
        assert DiesAt(s, ts, n);
      } else {
        forall k | 0 <= k < |ts| ensures !DiesAt(s, ts, k) {
          if k < n {
            assert init[..k] == ts[..k];
            assert !DiesAt(s, init, k);
          }
        }
      }
    }
  }

  /** Once vertical motion has stopped, later tiles neither move the player nor change its flags. */
  lemma {:induction false} RestingStaysPut(s: VState, ts: seq<TileView>)
    requires s.f.dy == 0.0
    ensures var r := VSweep(s, ts);
      r.f.rect == s.f.rect && r.f.dy == 0.0 && r.f.collisions == s.f.collisions
    decreases |ts|
  {
    if ts != [] {
      RestingStaysPut(s, ts[..|ts| - 1]);
    }
  }

  /**
   * The first blocking tile met while the player still moves vertically
   * decides the whole pass: the player stops flush against it.
   */
  lemma FirstLandingWins(s: VState, ts: seq<TileView>, k: nat)
    requires k < |ts|
    requires var p := VSweep(s, ts[..k]); !p.dead && p.f.dy != 0.0 && Blocks(ts[k], p.f.rect)
    ensures var p := VSweep(s, ts[..k]); var r := VSweep(s, ts);
      r.f.rect == Touch(p.f, ts[k]).rect && r.f.dy == 0.0 && r.f.collisions == Touch(p.f, ts[k]).collisions
  {
    var p := VSweep(s, ts[..k]);
    assert ts == ts[..k] + [ts[k]] + ts[k + 1..];
    VSweepAppend(s, ts[..k] + [ts[k]], ts[k + 1..]);
    VSweepAppend(s, ts[..k], [ts[k]]);
    var q := VSweep(s, ts[..k] + [ts[k]]);
    assert q == VStep(p, ts[k]);
    RestingStaysPut(q, ts[k + 1..]);
  }

  /** Once the player is dead, the rest of the pass keeps every tile and changes nothing else. */
  lemma {:induction false} DeadSweepKeepsRest(s: VState, ts: seq<TileView>)
    requires s.dead
    ensures VSweep(s, ts) == s.(keep := s.keep + seq(|ts|, _ => true))
    decreases |ts|
  {
    if ts == [] {
      assert s.keep + seq(0, _ => true) == s.keep;
    } else {
      var n := |ts| - 1;
      DeadSweepKeepsRest(s, ts[..n]);
      assert s.keep + seq(n, _ => true) + [true] == s.keep + seq(|ts|, _ => true);
    }
  }

  /** Keeping every one of the trailing tiles keeps them whole, after what was selected before them. */
  lemma {:induction false} SelectKeepsRest<T>(xs: seq<T>, ys: seq<T>, keep: seq<bool>)
    requires |keep| == |xs|
    ensures Select(xs + ys, keep + seq(|ys|, _ => true)) == Select(xs, keep) + ys
    decreases |ys|
  {
    if ys == [] {
      assert xs + ys == xs && keep + seq(0, _ => true) == keep;
    } else {
      var n := |ys| - 1;
      SelectKeepsRest(xs, ys[..n], keep);
      var k := keep + seq(|ys|, _ => true);
      assert (xs + ys)[..|xs + ys| - 1] == xs + ys[..n];
      assert k[..|k| - 1] == keep + seq(n, _ => true);
      assert ys == ys[..n] + [ys[n]];
    }
  }

  /**
   * `vertical_movement_collision` on values: gravity, the sweep, then (if
   * the player survived) clearing BOTTOM unless resting and TOP unless not
   * falling. The score grows by exactly the number of tiles removed.
   */
  function VerticalPass(f: Faller, ts: seq<TileView>): (r: VState)
    ensures |r.keep| == |ts|
    ensures r.f.score == f.score + Removed(r.keep)
    ensures !r.dead ==> (r.f.dy < 0.0 || r.f.dy > 1.0 ==> Collision.Bottom !in r.f.collisions)
    ensures !r.dead ==> (r.f.dy > 0.1 ==> Collision.Top !in r.f.collisions)
  {
    var s := VSweep(VState(Gravitate(f), [], false), ts);
    VSweepScore(VState(Gravitate(f), [], false), ts);
    if s.dead then s else s.(f := ClearVertical(s.f))
  }

  /** A tile the vertical pass removes is a collectable one. */
  lemma RemovedAreCollectable(f: Faller, ts: seq<TileView>, k: nat)
    requires k < |ts| && !VerticalPass(f, ts).keep[k]
    ensures ts[k].collectable
  {
    CollectedExactly(VState(Gravitate(f), [], false), ts, k);
  }

  /** An element missing from the selection sits at a position the pass did not keep. */
  lemma {:induction false} SelectDropped<T>(ts: seq<T>, keep: seq<bool>, x: T)
    requires |keep| == |ts| && x in ts && x !in Select(ts, keep)
    ensures exists k :: 0 <= k < |ts| && ts[k] == x && !keep[k]
    decreases |ts|
  {
    var n := |ts| - 1;
    if x in ts[..n] {
      SelectDropped(ts[..n], keep[..n], x);
      var k :| 0 <= k < n && ts[..n][k] == x && !keep[..n][k];
      assert ts[k] == x && !keep[k];
    } else {
      assert ts == ts[..n] + [ts[n]];
      assert ts[n] == x;
    }
  }
}
