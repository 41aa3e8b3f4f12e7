/**
 * Level tiles and the tile-sheet arithmetic that cuts sprites out of a sheet
 * image (src/tiles.py).
 */
module Tiles {
  import opened Wrappers
  import opened Geometry

  /** What the collision passes read of a tile: its rectangle and its three capabilities. */
  datatype TileView = TileView(rect: Rect, collides: bool, collectable: bool, kills: bool)

  /**
   * A tile of the level (`Square`). Only its image size and rectangle ever
   * change; the capability flags are fixed when it is made.
   */
  class Square {
    var image: Size
    var rect: Rect
    const collides: bool
    const collectable: bool
    const kills: bool

    /**
     * A tile over the given surface; by default it blocks movement and
     * neither scores nor kills. The source leaves `rect` unset until
     * `with_rect` is called; here it starts as the image's rectangle at the origin.
     */
    constructor (surface: Size, collides: bool := true, collectable: bool := false, kills: bool := false)
      ensures image == surface && rect == AtTopLeft(surface, 0, 0)
      ensures this.collides == collides && this.collectable == collectable && this.kills == kills
    {
      image := surface;
      rect := AtTopLeft(surface, 0, 0);
      this.collides := collides;
      this.collectable := collectable;
      this.kills := kills;
    }

    function View(): (v: TileView)
      reads this
      ensures v.rect == rect && v.collides == collides && v.collectable == collectable && v.kills == kills
    {
      TileView(rect, collides, collectable, kills)
    }

    /** `scaled`: the image is stretched to (w * sx, h * sy); the rectangle is left as it was. */
    method Scaled(sx: nat, sy: nat)
      modifies this
      ensures image == Size(old(image).w * sx, old(image).h * sy)
      ensures rect == old(rect)
    {
      image := Size(image.w * sx, image.h * sy);
    }

    /** `with_rect`: the rectangle becomes the image's, with its top-left corner at (x, y). */
    method WithRect(x: int, y: int)
      modifies this
      ensures rect.Left() == x && rect.Top() == y && rect.Dimensions() == image
      ensures image == old(image)
    {
      rect := AtTopLeft(image, x, y);
    }

    /** `update`: the camera shift moves the tile horizontally only. */
    method Update(shift: int)
      modifies this
      ensures rect == old(rect).(x := old(rect).x + shift)
      ensures image == old(image)
    {
      rect := rect.(x := rect.x + shift);
    }
  }

  /** The views of a group of tiles, in group order. */
  ghost function Views(tiles: seq<Square>): (vs: seq<TileView>)
    reads tiles
    ensures |vs| == |tiles|
    ensures forall i :: 0 <= i < |tiles| ==> vs[i] == tiles[i].View()
  {
    seq(|tiles|, i requires 0 <= i < |tiles| reads tiles => tiles[i].View())
  }

  /**
   * A sheet image cut into a grid of `columns` by `rows` equal tiles
   * (`TileSheet`). The tile size is the sheet size floor-divided by the grid.
   */
  datatype TileSheet = TileSheet(sheet: Size, columns: nat, rows: nat, tileWidth: nat, tileHeight: nat) {

    /** The rectangle `tile_at(x, y, x_off, y_off)` asks `subsurface` for. */
    function Cut(x: int, y: int, xOff: int := 0, yOff: int := 0): Rect
    {
      Rect(x * tileWidth + xOff, y * tileHeight + yOff, tileWidth, tileHeight)
    }

    /** `subsurface` accepts only a rectangle that lies inside the sheet. */
    predicate InSheet(r: Rect)
    {
      0 <= r.Left() && r.Right() <= sheet.w && 0 <= r.Top() && r.Bottom() <= sheet.h
    }

    /**
     * `tile_at(x, y, x_off, y_off)`: the tile in column x, row y, moved by the
     * offset; `subsurface` raises ValueError (None here) when that rectangle
     * leaves the sheet.
     */
    function TileAt(x: int, y: int, xOff: int := 0, yOff: int := 0): (r: Option<Rect>)
      ensures r.Some? <==> 0 <= x * tileWidth + xOff && x * tileWidth + xOff + tileWidth <= sheet.w
                           && 0 <= y * tileHeight + yOff && y * tileHeight + yOff + tileHeight <= sheet.h
      ensures r.Some? ==> r.value.Left() == x * tileWidth + xOff && r.value.Top() == y * tileHeight + yOff
      ensures r.Some? ==> r.value.Dimensions() == Size(tileWidth, tileHeight)
    {
      var c := Cut(x, y, xOff, yOff);
      if InSheet(c) then Some(c) else None
    }

    /**
     * The rectangles `all_tiles` as written asks for: row-major over
     * range(tile_height) x range(tile_width), that is over the tile's size
     * in pixels.
     */
    function PixelWalk(): (cs: seq<Rect>)
      ensures |cs| == tileHeight * tileWidth
    {
      seq(tileHeight * tileWidth, i requires 0 <= i < tileHeight * tileWidth => Cut(i % tileWidth, i / tileWidth))
    }

    /** The walk that was evidently meant: row-major over the grid's rows and columns. */
    function GridWalk(): (cs: seq<Rect>)
      ensures |cs| == rows * columns
    {
      seq(rows * columns, i requires 0 <= i < rows * columns => Cut(i % columns, i / columns))
    }

    /**
     * What a loop over a generator of `tile_at` calls receives: the tiles up
     * to the first rectangle `subsurface` refuses, and whether the generator
     * raised there.
     */
    function Yield(cs: seq<Rect>): (y: Yielded)
      ensures |y.tiles| <= |cs| && y.tiles == cs[..|y.tiles|]
      ensures forall i :: 0 <= i < |y.tiles| ==> InSheet(y.tiles[i])
      ensures y.raised <==> |y.tiles| < |cs|
      ensures y.raised ==> !InSheet(cs[|y.tiles|])
    {
      if cs == [] then Yielded([], false)
      else if !InSheet(cs[0]) then Yielded([], true)
      else
        var rest := Yield(cs[1..]);
        Yielded([cs[0]] + rest.tiles, rest.raised)
    }

    /** `all_tiles` as written. */
    function AllTiles(): Yielded
    {
      Yield(PixelWalk())
    }

    /** `all_tiles` as evidently intended. */
    function GridTiles(): Yielded
    {
      Yield(GridWalk())
    }
  }

  /** The tiles a generator yielded before it stopped, and whether it stopped by raising. */
  datatype Yielded = Yielded(tiles: seq<Rect>, raised: bool)

  /** `TileSheet(filename, columns, rows)`: the tile size is the largest that fits the grid into the sheet. */
  function LoadSheet(sheet: Size, columns: nat, rows: nat): (t: TileSheet)
    requires columns > 0 && rows > 0
    ensures t.sheet == sheet && t.columns == columns && t.rows == rows
    ensures t.tileWidth * columns <= sheet.w < (t.tileWidth + 1) * columns
    ensures t.tileHeight * rows <= sheet.h < (t.tileHeight + 1) * rows
  {
    TileSheet(sheet, columns, rows, sheet.w / columns, sheet.h / rows)
  }

  lemma DivModOfRowMajor(x: nat, y: nat, n: nat)
    requires x < n
    ensures (y * n + x) / n == y && (y * n + x) % n == x
  {
    var a := y * n + x;
    var q, r := a / n, a % n;
    assert a == q * n + r && 0 <= r < n;
    if q < y {
      MulLe(q + 1, y, n);
      assert false;
    }
    if q > y {
      MulLe(y + 1, q, n);
      assert false;
    }
  }

  lemma MulLe(a: nat, b: nat, c: nat)
    requires a <= b
    ensures a * c <= b * c
  {
  }

  /** `all_tiles` asks for tile (x, y) at position y * tile_width + x: row-major, x fastest. */
  lemma AllTilesRowMajor(t: TileSheet, x: nat, y: nat)
    requires x < t.tileWidth && y < t.tileHeight
    ensures y * t.tileWidth + x < |t.PixelWalk()|
    ensures t.PixelWalk()[y * t.tileWidth + x] == t.Cut(x, y)
  {
    DivModOfRowMajor(x, y, t.tileWidth);
    MulLe(y + 1, t.tileHeight, t.tileWidth);
  }

  /**
   * Once a sheet's tiles are wider than its grid has columns, `all_tiles`
   * yields exactly the first row's `columns` tiles and then raises: the
   * next rectangle it asks for, tile (columns, 0), starts inside the sheet
   * but ends beyond its right edge.
   */
  lemma AllTilesLeavesSheet(sheet: Size, columns: nat, rows: nat)
    requires columns > 0 && rows > 0 && sheet.h >= rows
    requires LoadSheet(sheet, columns, rows).tileWidth > columns
    ensures var t := LoadSheet(sheet, columns, rows);
      t.AllTiles().raised && |t.AllTiles().tiles| == columns &&
      (forall i :: 0 <= i < columns ==> t.AllTiles().tiles[i] == t.Cut(i, 0)) &&
      columns < |t.PixelWalk()| && t.PixelWalk()[columns] == t.Cut(columns, 0) &&
      !t.InSheet(t.Cut(columns, 0))
  {
    WalkLeavesSheet(LoadSheet(sheet, columns, rows));
  }

  lemma WalkLeavesSheet(t: TileSheet)
    requires t.columns > 0 && t.rows > 0 && t.sheet.h >= t.rows && t.tileWidth > t.columns
    requires t.tileWidth * t.columns <= t.sheet.w < (t.tileWidth + 1) * t.columns
    requires t.tileHeight * t.rows <= t.sheet.h < (t.tileHeight + 1) * t.rows
    ensures t.AllTiles().raised && |t.AllTiles().tiles| == t.columns
    ensures forall i :: 0 <= i < t.columns ==> t.AllTiles().tiles[i] == t.Cut(i, 0)
    ensures t.columns < |t.PixelWalk()| && t.PixelWalk()[t.columns] == t.Cut(t.columns, 0)
    ensures !t.InSheet(t.Cut(t.columns, 0))
  {
    var columns := t.columns;
    var cs := t.PixelWalk();
    FirstRowBounds(t);
    forall i | 0 <= i <= columns
      ensures i < |cs| && cs[i] == t.Cut(i, 0)
    {
      AllTilesRowMajor(t, i, 0);
    }
    forall i | 0 <= i < columns
      ensures t.InSheet(cs[i])
    {
      CutInSheet(t, i);
    }
    CutPastEdge(t);
    YieldStopsAt(t, cs, columns);
  }

  /** The map sheet's tile height is at least one pixel and fits the sheet. */
  lemma FirstRowBounds(t: TileSheet)
    requires t.rows > 0 && t.sheet.h >= t.rows
    requires t.tileHeight * t.rows <= t.sheet.h < (t.tileHeight + 1) * t.rows
    ensures 1 <= t.tileHeight <= t.sheet.h
  {
    MulLe(1, t.rows, t.tileHeight);
  }

  lemma CutInSheet(t: TileSheet, i: nat)
    requires i < t.columns && t.tileWidth * t.columns <= t.sheet.w && t.tileHeight <= t.sheet.h
    ensures t.InSheet(t.Cut(i, 0))
  {
    MulLe(i + 1, t.columns, t.tileWidth);
  }

  lemma CutPastEdge(t: TileSheet)
    requires t.tileWidth > t.columns && t.sheet.w < (t.tileWidth + 1) * t.columns
    ensures !t.InSheet(t.Cut(t.columns, 0))
  {
    assert (t.tileWidth + 1) * t.columns == t.columns * t.tileWidth + t.columns;
  }

  /** A walk whose first refused rectangle is at n yields the n rectangles before it and raises. */
  lemma YieldStopsAt(t: TileSheet, cs: seq<Rect>, n: nat)
    requires n < |cs| && !t.InSheet(cs[n])
    requires forall i :: 0 <= i < n ==> t.InSheet(cs[i])
    ensures t.Yield(cs).raised && t.Yield(cs).tiles == cs[..n]
  {
  }

  /** Every tile of the corrected walk can be cut from the sheet, so it yields the whole grid. */
  lemma GridTilesInSheet(t: TileSheet)
    requires t.columns > 0 && t.rows > 0
    requires t.tileWidth * t.columns <= t.sheet.w && t.tileHeight * t.rows <= t.sheet.h
    ensures !t.GridTiles().raised && t.GridTiles().tiles == t.GridWalk()
    ensures forall i :: 0 <= i < |t.GridWalk()| ==> t.InSheet(t.GridWalk()[i])
  {
    var cs := t.GridWalk();
    forall i | 0 <= i < |cs|
      ensures t.InSheet(cs[i])
    {
      GridCutInSheet(t, i);
    }
  }

  lemma GridCutInSheet(t: TileSheet, i: nat)
    requires t.columns > 0 && t.rows > 0
    requires t.tileWidth * t.columns <= t.sheet.w && t.tileHeight * t.rows <= t.sheet.h
    requires i < |t.GridWalk()|
    ensures t.InSheet(t.GridWalk()[i])
  {
    var x, y := i % t.columns, i / t.columns;
    GridCellBounds(i, t.columns, t.rows);
    assert t.GridWalk()[i] == t.Cut(x, y);
    CellFits(x, t.columns, t.tileWidth, t.sheet.w);
    CellFits(y, t.rows, t.tileHeight, t.sheet.h);
  }

  lemma GridCellBounds(i: nat, columns: nat, rows: nat)
    requires columns > 0 && i < rows * columns
    ensures i % columns < columns && i / columns < rows
  {
    var y := i / columns;
    assert y * columns <= i;
    if y >= rows {
      MulLe(rows, y, columns);
    }
  }

  lemma CellFits(k: nat, count: nat, size: nat, total: nat)
    requires k < count && size * count <= total
    ensures 0 <= k * size && k * size + size <= total
  {
    MulLe(k + 1, count, size);
  }
}
