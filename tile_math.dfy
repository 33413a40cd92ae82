/**
 * Tile resolution: a world-space point becomes a tile index by dividing by
 * the tile size, truncating to an int as Java's `(int)` cast does, and
 * clamping each axis into the grid.
 */
module TileMath {

  /** Side of one square tile in world units. */
  const TileSize: int := 20
  /** Number of tile columns. */
  const MapWidth: int := 16
  /** Number of tile rows. */
  const MapHeight: int := 9

  /** A tile index (column, row). */
  datatype Tile = Tile(x: int, y: int)

  /** The tile lies inside the MapWidth x MapHeight grid. */
  predicate InGrid(t: Tile) {
    0 <= t.x < MapWidth && 0 <= t.y < MapHeight
  }

  /** libGDX's clamp: the value itself when it lies in [lo, hi], otherwise the nearer bound. */
  function Clamp(v: int, lo: int, hi: int): (r: int)
    requires lo <= hi
    ensures lo <= r <= hi
    ensures lo <= v <= hi ==> r == v
    ensures v < lo ==> r == lo
    ensures hi < v ==> r == hi
  {
    if v < lo then lo else if v > hi then hi else v
  }

  /** Java's narrowing cast `(int) r`: rounds toward zero. */
  function JavaIntCast(r: real): (i: int)
    ensures 0.0 <= r ==> 0 <= i && i as real <= r < i as real + 1.0
    ensures r < 0.0 ==> i <= 0 && i as real - 1.0 < r <= i as real
  {
    if r >= 0.0 then r.Floor else -((-r).Floor)
  }

  /**
   * One axis of the resolution: `clamp((int) (w / tileSize), 0, count - 1)`.
   * Points before the grid give 0, points past it give the last index and
   * points inside it give the index of the cell that contains them.
   */
  function ResolveAxis(w: real, count: int): (r: int)
    requires 0 < count
    ensures 0 <= r <= count - 1
    ensures w < 0.0 ==> r == 0
    ensures (count * TileSize) as real <= w ==> r == count - 1
    ensures 0.0 <= w < (count * TileSize) as real ==>
              (r * TileSize) as real <= w < (r * TileSize + TileSize) as real
  {
    var q := w / TileSize as real;
    var t := JavaIntCast(q);
    assert 0.0 <= w ==> (t * TileSize) as real <= w < (t * TileSize + TileSize) as real;
    Clamp(t, 0, count - 1)
  }

  /** The tile a world point falls on, clamped into the grid. */
  function ResolveTile(worldX: real, worldY: real): (t: Tile)
    ensures InGrid(t)
    ensures t.x == ResolveAxis(worldX, MapWidth) && t.y == ResolveAxis(worldY, MapHeight)
  {
    Tile(ResolveAxis(worldX, MapWidth), ResolveAxis(worldY, MapHeight))
  }

  /** A point inside the cell of (x, y) resolves to exactly (x, y). */
  lemma ResolveTileExact(x: int, y: int, worldX: real, worldY: real)
    requires InGrid(Tile(x, y))
    requires (x * TileSize) as real <= worldX < (x * TileSize + TileSize) as real
    requires (y * TileSize) as real <= worldY < (y * TileSize + TileSize) as real
    ensures ResolveTile(worldX, worldY) == Tile(x, y)
  {
    var t := ResolveTile(worldX, worldY);
    assert (t.x * TileSize) as real <= worldX < (t.x * TileSize + TileSize) as real;
    assert (t.y * TileSize) as real <= worldY < (t.y * TileSize + TileSize) as real;
  }

  /** The centre of every cell resolves to that cell. */
  lemma ResolveCellCentre(t: Tile)
    requires InGrid(t)
    ensures ResolveTile((t.x * TileSize) as real + 10.0, (t.y * TileSize) as real + 10.0) == t
  {
    ResolveTileExact(t.x, t.y, (t.x * TileSize) as real + 10.0, (t.y * TileSize) as real + 10.0);
  }

  /**
   * Clicks off the grid map to the nearest edge tile: left of or below the
   * grid to index 0, right of or above it to the last column or row.
   */
  lemma ResolveTileEdges(worldX: real, worldY: real)
    ensures worldX < 0.0 ==> ResolveTile(worldX, worldY).x == 0
    ensures worldY < 0.0 ==> ResolveTile(worldX, worldY).y == 0
    ensures 320.0 <= worldX ==> ResolveTile(worldX, worldY).x == MapWidth - 1
    ensures 180.0 <= worldY ==> ResolveTile(worldX, worldY).y == MapHeight - 1
  {
  }

  /** The world point (15, 160) lies on tile (0, 8). */
  lemma ResolveExample()
    ensures ResolveTile(15.0, 160.0) == Tile(0, 8)
  {
    ResolveTileExact(0, 8, 15.0, 160.0);
  }
}
