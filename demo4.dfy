/**
 * The input-processor demo: a 16 x 9 grass/water map seeded on creation and
 * a left-click selection toggle. Its grid size and tile size are literals in
 * the code; they are the values of the TileMath constants.
 */
module Demo4 {
  import opened TileMath
  import opened Selection
  import opened Grid

  /** libGDX's `Buttons.LEFT`. */
  const LEFT: int := 0

  class Demo4InputProcessor {
    /** Null until `Create`; true is grass, false is water. */
    var tiles: array2?<bool>

    var selectedTileX: int
    var selectedTileY: int
    var tileSelected: bool

    /** The selection fields as a value. */
    function Sel(): SelState
      reads this
    {
      SelState(tileSelected, selectedTileX, selectedTileY)
    }

    /** The object after `Create`: a 16 x 9 grid and a selection inside it. */
    predicate Valid()
      reads this
    {
      tiles != null && HasMapShape(tiles) && SelectionInGrid(Sel())
    }

    /** Java object construction: every field at its default. */
    constructor ()
      ensures tiles == null
      ensures Sel() == Initial()
    {
      tiles := null;
      selectedTileX := 0;
      selectedTileY := 0;
      tileSelected := false;
    }

    /** Allocates the 16 x 9 grid and gives every cell the seed's value for it. */
    method Create(seed: (int, int) -> bool)
      requires SelectionInGrid(Sel())
      modifies this`tiles
      ensures Valid() && fresh(tiles)
      ensures forall x, y :: 0 <= x < 16 && 0 <= y < 9 ==> tiles[x, y] == seed(x, y)
      ensures Sel() == old(Sel())
    {
      tiles := new bool[16, 9];
      Seed(tiles, seed);
    }

    /** One frame: the draw calls of the grid and, when a tile is selected, the marker. */
    method Render() returns (draws: seq<Draw>)
      requires Valid()
      ensures |draws| == 16 * 9 + (if tileSelected then 1 else 0)
      ensures forall x, y :: 0 <= x < 16 && 0 <= y < 9 ==>
                draws[x * 9 + y] == Draw(TerrainRegion(tiles[x, y]), x * 20, y * 20)
      ensures tileSelected ==> draws[16 * 9] == Draw(SelectionRegion, selectedTileX * 20, selectedTileY * 20)
    {
      draws := RenderDraws(tiles, tileSelected, selectedTileX, selectedTileY);
    }

    /**
     * A pointer press at a world point (already unprojected). Left: resolve
     * and clamp the tile, then toggle or move the selection. Other buttons
     * change nothing. The event is never consumed.
     */
    method TouchDown(worldX: real, worldY: real, button: int) returns (consumed: bool)
      requires SelectionInGrid(Sel())
      modifies this`tileSelected, this`selectedTileX, this`selectedTileY
      ensures SelectionInGrid(Sel())
      ensures !consumed
      ensures button == LEFT ==> Sel() == Click(old(Sel()), ResolveTile(worldX, worldY))
      ensures button != LEFT ==> Sel() == old(Sel())
    {
      if button == LEFT {
        var tileX := JavaIntCast(worldX / 20.0);
        var tileY := JavaIntCast(worldY / 20.0);
        tileX := Clamp(tileX, 0, 15);
        tileY := Clamp(tileY, 0, 8);
        ClickSettles(Sel(), Tile(tileX, tileY));
        if selectedTileX == tileX && selectedTileY == tileY {
          tileSelected := false;
          selectedTileX := -1;
          selectedTileY := -1;
        } else {
          tileSelected := true;
          selectedTileX := tileX;
          selectedTileY := tileY;
        }
      }
      consumed := false;
    }

    method KeyDown(keycode: int) returns (consumed: bool)
      ensures !consumed
    {
      consumed := false;
    }

    method KeyUp(keycode: int) returns (consumed: bool)
      ensures !consumed
    {
      consumed := false;
    }

    method KeyTyped(character: char) returns (consumed: bool)
      ensures !consumed
    {
      consumed := false;
    }

    method TouchUp(screenX: int, screenY: int, pointer: int, button: int) returns (consumed: bool)
      ensures !consumed
    {
      consumed := false;
    }

    method TouchDragged(screenX: int, screenY: int, pointer: int) returns (consumed: bool)
      ensures !consumed
    {
      consumed := false;
    }

    method MouseMoved(screenX: int, screenY: int) returns (consumed: bool)
      ensures !consumed
    {
      consumed := false;
    }

    method Scrolled(amount: int) returns (consumed: bool)
      ensures !consumed
    {
      consumed := false;
    }
  }

  /**
   * The quirk of the field defaults: on a fresh object the first left click
   * on tile (0, 0) leaves nothing selected; a second one selects it.
   */
  method FirstClickOnOrigin() returns (afterFirst: SelState, afterSecond: SelState)
    ensures afterFirst == Cleared()
    ensures afterSecond == SelState(true, 0, 0)
  {
    var game := new Demo4InputProcessor();
    var c := game.TouchDown(5.0, 5.0, LEFT);
    afterFirst := game.Sel();
    c := game.TouchDown(5.0, 5.0, LEFT);
    afterSecond := game.Sel();
  }
}
