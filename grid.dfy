/**
 * The terrain grid shared by both demos: a `boolean[][]` with true for grass
 * and false for water, seeded cell by cell, and the draw records the render
 * pass emits for it.
 */
module Grid {
  import opened TileMath

  /** The texture regions of the sprite sheet that the render pass draws. */
  datatype Region = GrassRegion | WaterRegion | SelectionRegion

  /** One `batch.draw(region, x, y)` call, at a world position. */
  datatype Draw = Draw(region: Region, x: int, y: int)

  /** The region drawn for a cell: grass for true, water for false. */
  function TerrainRegion(grass: bool): (r: Region)
    ensures r == GrassRegion <==> grass
    ensures r == WaterRegion <==> !grass
  {
    if grass then GrassRegion else WaterRegion
  }

  /** The array has the dimensions of the map. */
  predicate HasMapShape(tiles: array2<bool>) {
    tiles.Length0 == MapWidth && tiles.Length1 == MapHeight
  }

  /**
   * Assigns every cell, column by column, the value the seed gives for it:
   * the nested loops that draw one random boolean per cell.
   */
  method Seed(tiles: array2<bool>, seed: (int, int) -> bool)
    modifies tiles
    ensures forall x, y :: 0 <= x < tiles.Length0 && 0 <= y < tiles.Length1 ==> tiles[x, y] == seed(x, y)
  {
    var x := 0;
    while x < tiles.Length0
      invariant 0 <= x <= tiles.Length0
      invariant forall i, j :: 0 <= i < x && 0 <= j < tiles.Length1 ==> tiles[i, j] == seed(i, j)
    {
      var y := 0;
      while y < tiles.Length1
        invariant 0 <= y <= tiles.Length1
        invariant forall i, j :: 0 <= i < x && 0 <= j < tiles.Length1 ==> tiles[i, j] == seed(i, j)
        invariant forall j :: 0 <= j < y ==> tiles[x, j] == seed(x, j)
      {
        tiles[x, y] := seed(x, y);
        y := y + 1;
      }
      x := x + 1;
    }
  }

  /**
   * The draw calls of one render pass over a map-shaped grid: one per cell,
   * column by column, at (x * tileSize, y * tileSize); then the selection
   * marker at the selected tile when a tile is selected.
   */
  method RenderDraws(tiles: array2<bool>, tileSelected: bool, selectedTileX: int, selectedTileY: int)
    returns (draws: seq<Draw>)
    requires HasMapShape(tiles)
    ensures |draws| == MapWidth * MapHeight + (if tileSelected then 1 else 0)
    ensures forall x, y :: 0 <= x < MapWidth && 0 <= y < MapHeight ==>
              draws[x * MapHeight + y] == Draw(TerrainRegion(tiles[x, y]), x * TileSize, y * TileSize)
    ensures tileSelected ==>
              draws[MapWidth * MapHeight] == Draw(SelectionRegion, selectedTileX * TileSize, selectedTileY * TileSize)
  {
    draws := [];
    var x := 0;
    while x < MapWidth
      invariant 0 <= x <= MapWidth
      invariant |draws| == x * MapHeight
      invariant forall i, j :: 0 <= i < x && 0 <= j < MapHeight ==>
                  draws[i * MapHeight + j] == Draw(TerrainRegion(tiles[i, j]), i * TileSize, j * TileSize)
    {
      var y := 0;
      while y < MapHeight
        invariant 0 <= y <= MapHeight
        invariant |draws| == x * MapHeight + y
        invariant forall i, j :: 0 <= i < x && 0 <= j < MapHeight ==>
                    draws[i * MapHeight + j] == Draw(TerrainRegion(tiles[i, j]), i * TileSize, j * TileSize)
        invariant forall j :: 0 <= j < y ==>
                    draws[x * MapHeight + j] == Draw(TerrainRegion(tiles[x, j]), x * TileSize, j * TileSize)
      {
        var grass := tiles[x, y];
        draws := draws + [Draw(if grass then GrassRegion else WaterRegion, x * TileSize, y * TileSize)];
        y := y + 1;
      }
      x := x + 1;
    }
    if tileSelected {
      draws := draws + [Draw(SelectionRegion, selectedTileX * TileSize, selectedTileY * TileSize)];
    }
  }
}
