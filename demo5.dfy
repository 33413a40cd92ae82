/**
 * The final demo: a 16 x 9 grass/water map, a left-click selection toggle, a
 * right-click that flips the selected tile's terrain, and a restart key that
 * re-seeds the map after rendering.
 */
module Demo5 {
  import opened TileMath
  import opened Selection
  import opened Grid

  /** libGDX's `Buttons.LEFT` and `Buttons.RIGHT`. */
  const LEFT: int := 0
  const RIGHT: int := 1

  class Demo5CleanCode {
    const mapWidth: int := MapWidth
    const mapHeight: int := MapHeight
    const tileSize: int := TileSize

    /** Null until `Create`; true is grass, false is water. */
    var tiles: array2?<bool>

    var tileSelected: bool
    var selectedTileX: int
    var selectedTileY: int

    /** The selection fields as a value. */
    function Sel(): SelState
      reads this
    {
      SelState(tileSelected, selectedTileX, selectedTileY)
    }

    /** The object after `Create`: a map-shaped grid and a selection inside it. */
    predicate Valid()
      reads this
    {
      tiles != null && HasMapShape(tiles) && SelectionInGrid(Sel())
    }

    /** Java object construction: every field at its default. */
    constructor ()
      ensures tiles == null
      ensures Sel() == Initial()
    {
      tiles := null;
      tileSelected := false;
      selectedTileX := 0;
      selectedTileY := 0;
    }

    /** Allocates the mapWidth x mapHeight grid and seeds it; the selection is not touched. */
    method Create(seed: (int, int) -> bool)
      requires SelectionInGrid(Sel())
      modifies this`tiles
      ensures Valid() && fresh(tiles)
      ensures forall x, y :: 0 <= x < mapWidth && 0 <= y < mapHeight ==> tiles[x, y] == seed(x, y)
      ensures Sel() == old(Sel())
    {
      tiles := new bool[mapWidth, mapHeight];
      Reset(seed);
    }

    /**
     * The restart feature: assigns every cell from the seed in place, keeping
     * the array, its dimensions and the selection.
     */
    method Reset(seed: (int, int) -> bool)
      requires tiles != null && HasMapShape(tiles)
      modifies tiles
      ensures tiles == old(tiles) && HasMapShape(tiles)
      ensures forall x, y :: 0 <= x < mapWidth && 0 <= y < mapHeight ==> tiles[x, y] == seed(x, y)
      ensures Sel() == old(Sel())
    {
      Seed(tiles, seed);
    }

    /**
     * One frame: the draw calls of the grid and the selection marker, then a
     * reset when the restart key was pressed this frame.
     */
    method Render(restartPressed: bool, seed: (int, int) -> bool) returns (draws: seq<Draw>)
      requires Valid()
      modifies tiles
      ensures Valid() && tiles == old(tiles) && Sel() == old(Sel())
      ensures |draws| == mapWidth * mapHeight + (if tileSelected then 1 else 0)
      ensures forall x, y :: 0 <= x < mapWidth && 0 <= y < mapHeight ==>
                draws[x * mapHeight + y] == Draw(TerrainRegion(old(tiles[x, y])), x * tileSize, y * tileSize)
      ensures tileSelected ==>
                draws[mapWidth * mapHeight] == Draw(SelectionRegion, selectedTileX * tileSize, selectedTileY * tileSize)
      ensures restartPressed ==>
                forall x, y :: 0 <= x < mapWidth && 0 <= y < mapHeight ==> tiles[x, y] == seed(x, y)
      ensures !restartPressed ==>
                forall x, y :: 0 <= x < mapWidth && 0 <= y < mapHeight ==> tiles[x, y] == old(tiles[x, y])
    {
      draws := RenderDraws(tiles, tileSelected, selectedTileX, selectedTileY);
      if restartPressed {
        Reset(seed);
      }
    }

    /**
     * A pointer press at a world point (already unprojected). Left: toggle or
     * move the selection to the resolved tile. Right: flip the selected
     * tile's terrain when a tile is selected. The event is never consumed.
     */
    method TouchDown(worldX: real, worldY: real, button: int) returns (consumed: bool)
      requires Valid()
      modifies this`tileSelected, this`selectedTileX, this`selectedTileY, tiles
      ensures Valid() && tiles == old(tiles)
      ensures !consumed
      ensures button == LEFT ==> Sel() == Click(old(Sel()), ResolveTile(worldX, worldY))
      ensures button != LEFT ==> Sel() == old(Sel())
      ensures button == RIGHT && old(tileSelected) ==>
                tiles[selectedTileX, selectedTileY] == !old(tiles[selectedTileX, selectedTileY])
      ensures forall x, y :: 0 <= x < mapWidth && 0 <= y < mapHeight ==>
                tiles[x, y] == old(tiles[x, y]) ||
                (button == RIGHT && old(tileSelected) && x == selectedTileX && y == selectedTileY)
    {
      if button == LEFT {
        var tileX := Clamp(JavaIntCast(worldX / tileSize as real), 0, mapWidth - 1);
        var tileY := Clamp(JavaIntCast(worldY / tileSize as real), 0, mapHeight - 1);
        ClickSettles(Sel(), Tile(tileX, tileY));
        if selectedTileX == tileX && selectedTileY == tileY {
          tileSelected := false;
          selectedTileX := -1;
          selectedTileY := -1;
        } else {
          tileSelected := true;
          selectedTileX := tileX;
          selectedTileY := tileY;
        }
      }
      if button == RIGHT {
        if tileSelected {
          tiles[selectedTileX, selectedTileY] := !tiles[selectedTileX, selectedTileY];
        }
      }
      consumed := false;
    }

    method KeyDown(keycode: int) returns (consumed: bool)
      ensures !consumed
    {
      consumed := false;
    }

    method KeyUp(keycode: int) returns (consumed: bool)
      ensures !consumed
    {
      consumed := false;
    }

    method KeyTyped(character: char) returns (consumed: bool)
      ensures !consumed
    {
      consumed := false;
    }

    method TouchUp(screenX: int, screenY: int, pointer: int, button: int) returns (consumed: bool)
      ensures !consumed
    {
      consumed := false;
    }

    method TouchDragged(screenX: int, screenY: int, pointer: int) returns (consumed: bool)
      ensures !consumed
    {
      consumed := false;
    }

    method MouseMoved(screenX: int, screenY: int) returns (consumed: bool)
      ensures !consumed
    {
      consumed := false;
    }

    method Scrolled(amount: int) returns (consumed: bool)
      ensures !consumed
    {
      consumed := false;
    }
  }

  /** Two right clicks on a selected tile give back the grid and the selection. */
  method RightClickTwiceRestores(game: Demo5CleanCode, worldX: real, worldY: real)
    requires game.Valid() && game.tileSelected
    modifies game, game.tiles
    ensures game.Valid() && game.tiles == old(game.tiles) && game.Sel() == old(game.Sel())
    ensures forall x, y :: 0 <= x < MapWidth && 0 <= y < MapHeight ==> game.tiles[x, y] == old(game.tiles[x, y])
  {
    var sx, sy := game.selectedTileX, game.selectedTileY;
    var before := game.tiles[sx, sy];
    var c := game.TouchDown(worldX, worldY, RIGHT);
    assert game.tiles[sx, sy] == !before;
    c := game.TouchDown(worldX, worldY, RIGHT);
  }

  /** A right click with nothing selected changes nothing. */
  method RightClickUnselectedIsNoOp(game: Demo5CleanCode, worldX: real, worldY: real)
    requires game.Valid() && !game.tileSelected
    modifies game, game.tiles
    ensures game.Valid() && game.tiles == old(game.tiles) && game.Sel() == old(game.Sel())
    ensures forall x, y :: 0 <= x < MapWidth && 0 <= y < MapHeight ==> game.tiles[x, y] == old(game.tiles[x, y])
  {
    var c := game.TouchDown(worldX, worldY, RIGHT);
  }

  /**
   * The end-to-end example: on a fresh game a left click at world point
   * (15, 160) selects tile (0, 8).
   */
  method FirstClickScenario(seed: (int, int) -> bool) returns (selection: SelState, consumed: bool)
    ensures selection == SelState(true, 0, 8)
    ensures !consumed
  {
    var game := new Demo5CleanCode();
    game.Create(seed);
    consumed := game.TouchDown(15.0, 160.0, LEFT);
    ResolveExample();
    selection := game.Sel();
  }
}
