# Tile-grid interaction model of the libGDX demos

This project models the interactive core of two libGDX demos, `Demo4InputProcessor` and
`Demo5CleanCode`. Each demo shows a 16 x 9 map of 20-unit tiles. Each tile is grass (`true`)
or water (`false`). A left mouse press turns a world-space point into a clamped tile index.
It then toggles the selection or moves it to that tile. In the final demo, a right press
flips the terrain of the selected tile. The R key re-seeds the whole map after the frame
has been drawn.

Modules:

- `TileMath` (tile_math.dfy): the grid constants, libGDX's `clamp`, Java's `(int)` cast on a
  real value, and tile resolution, with the bounds, edge and exact-cell lemmas.
- `Selection` (selection.dfy): the three selection fields as a value `SelState` and the
  left-click transition `Click`. It also holds the invariant that every click establishes
  (`Settled`). The state machine the design describes (`Unselected` / `Selected(x, y)`) is
  given as `Activate`, and lemmas show that the code's transition refines it.
- `Grid` (grid.dfy): the seeding loop over the `boolean[][]` map (`Seed`), and the draw
  calls of one render pass (`RenderDraws`), written as a sequence of `(region, x, y)` records.
- `Demo4` (demo4.dfy) and `Demo5` (demo5.dfy): the two demo classes. Their fields have the
  source's names. Their methods update those fields and the map in place. Each method's
  contract ties the new state to `Click`, `ResolveTile` and the old state.

Where the code and the design disagree, the model follows the code. The design says a
machine in `Unselected` always selects the activated tile. The code compares the clicked
tile with `selectedTileX`/`selectedTileY` and ignores `tileSelected`. Both indices start at
Java's default 0. So a first click on tile (0, 0) in a fresh game leaves nothing selected
and sets both indices to -1. `Selection.FirstClickOnOriginDeselects` and
`Demo4.FirstClickOnOrigin` state this. `Selection.RunFromInitial` and
`Selection.ClicksRefineActivations` show that this is the only divergence.

Inputs the host supplies become parameters:

- The pointer position is passed as the world point that `viewport.unproject` returns.
- `MathUtils.randomBoolean` becomes a seed function from `(x, y)` to the cell's value.
- "R was pressed this frame" becomes a `bool` argument of `Demo5CleanCode.Render`.
- Mouse buttons are passed as ints, with libGDX's values `LEFT = 0` and `RIGHT = 1`.

## Model

| member | source | states |
|---|---|---|
| TileMath.Clamp | src/demo/Demo4InputProcessor.java:128-129 | The result lies in [lo, hi]; it is the value itself inside the range and the nearer bound outside it |
| TileMath.JavaIntCast | src/demo/Demo4InputProcessor.java:124-125 | The `(int)` cast rounds toward zero: for non-negative r the result is the largest integer not above r, for negative r the smallest not below it |
| TileMath.ResolveAxis | src/demo/Demo5CleanCode.java:112-113 | One resolved index lies in [0, count-1]. It is 0 for points before the grid and count-1 for points at or past its far edge. Otherwise the point lies inside that index's cell |
| TileMath.ResolveTile | src/demo/Demo4InputProcessor.java:124-129 | Every world point resolves to a tile inside the 16 x 9 grid, one clamped axis at a time |
| TileMath.ResolveTileExact | src/demo/Demo5CleanCode.java:112-113 | A point in [x*20, x*20+20) x [y*20, y*20+20) of a grid tile resolves to exactly (x, y) |
| TileMath.ResolveCellCentre | src/demo/Demo4InputProcessor.java:122-125 | The centre (x*20+10, y*20+10) of every grid cell resolves to that cell |
| TileMath.ResolveTileEdges | src/demo/Demo4InputProcessor.java:126-129 | Points left of or below the grid map to column or row 0. Points at or beyond x = 320 or y = 180 map to column 15 or row 8 |
| TileMath.ResolveExample | src/demo/Demo5CleanCode.java:110-113 | The world point (15, 160) resolves to tile (0, 8) |
| Selection.Initial | src/demo/Demo4InputProcessor.java:32-33 | The selection fields start at Java's defaults: not selected, indices (0, 0) |
| Selection.Cleared | src/demo/Demo5CleanCode.java:116-118 | A toggle-off leaves nothing selected and both indices at -1 |
| Selection.Click | src/demo/Demo5CleanCode.java:115-123 | A click on the remembered indices clears the selection. A click on any other tile selects it directly, with no intermediate deselect |
| Selection.InitialNotSettled | src/demo/Demo5CleanCode.java:41-42 | The default state is not settled: it is unselected yet its indices name tile (0, 0). It still keeps "a selected tile lies in the grid" |
| Selection.ClickSettles | src/demo/Demo4InputProcessor.java:128-142 | After a click on a clamped tile, `tileSelected` holds iff the indices are in the grid, and fails iff both are -1 |
| Selection.ClicksSettle | src/demo/Demo4InputProcessor.java:132-142 | After one or more clicks on grid tiles, from any state, the state is settled |
| Selection.ClicksKeepSelectionInGrid | src/demo/Demo5CleanCode.java:112-123 | Any run of clicks on grid tiles keeps the selected tile inside the grid, which makes the right-click array access safe |
| Selection.Activate | src/demo/Demo4InputProcessor.java:131-142 | The designed machine: from Unselected select the tile, on the selected tile deselect, on another tile move there |
| Selection.ClickRefinesActivate | src/demo/Demo4InputProcessor.java:132-142 | From a settled state, a click on a grid tile does exactly what the designed machine does |
| Selection.ClicksRefineActivations | src/demo/Demo5CleanCode.java:115-123 | From a settled state, every run of clicks on grid tiles follows the designed machine step for step |
| Selection.FirstClickOnOriginDeselects | src/demo/Demo4InputProcessor.java:132-136 | From the default state a click on (0, 0) deselects to (false, -1, -1); the designed machine would select (0, 0) |
| Selection.FirstClickElsewhereSelects | src/demo/Demo4InputProcessor.java:137-142 | From the default state a click on any tile other than (0, 0) selects it, as designed |
| Selection.RunFromInitial | src/demo/Demo5CleanCode.java:115-123 | From the default state, a run whose first click is not on (0, 0) follows the designed machine |
| Selection.ToggleScenario | src/demo/Demo5CleanCode.java:115-123 | Clicking (3, 4) selects it, clicking it again deselects, and clicking (5, 2) next moves straight there |
| Grid.TerrainRegion | src/demo/Demo5CleanCode.java:85-91 | A cell is drawn with the grass region iff it is true and with the water region iff it is false |
| Grid.Seed | src/demo/Demo5CleanCode.java:62-67 | Every cell of the array is assigned the seed's value for it |
| Grid.RenderDraws | src/demo/Demo5CleanCode.java:80-99 | A render pass emits 16*9 tile draws, cell (x, y) at position x*9+y, drawn at (x*20, y*20) with grass iff the cell is true. When `tileSelected` holds it adds exactly one selection marker at (selectedTileX*20, selectedTileY*20) |
| Demo5.Demo5CleanCode.constructor | src/demo/Demo5CleanCode.java:39-42 | A new object has no grid yet and the default selection fields |
| Demo5.Demo5CleanCode.Create | src/demo/Demo5CleanCode.java:56-58 | Allocates a fresh mapWidth x mapHeight grid, seeds every cell and leaves the selection untouched |
| Demo5.Demo5CleanCode.Reset | src/demo/Demo5CleanCode.java:61-68 | Assigns all mapWidth*mapHeight cells from the seed in the same array. Keeps its dimensions and leaves `tileSelected`, `selectedTileX`, `selectedTileY` untouched |
| Demo5.Demo5CleanCode.Render | src/demo/Demo5CleanCode.java:70-106 | Returns the draw list of the grid as it was before the frame. Then, iff the restart key was pressed, the grid is re-seeded; otherwise it is unchanged. The selection never changes |
| Demo5.Demo5CleanCode.TouchDown | src/demo/Demo5CleanCode.java:108-134 | A left press applies `Click` to the resolved tile and leaves the grid alone. A right press flips exactly the selected cell when something is selected and otherwise changes nothing. Other buttons change nothing. The result is always false |
| Demo5.Demo5CleanCode.KeyDown | src/demo/Demo5CleanCode.java:147-149 | Changes nothing and returns false |
| Demo5.Demo5CleanCode.KeyUp | src/demo/Demo5CleanCode.java:151-153 | Changes nothing and returns false |
| Demo5.Demo5CleanCode.KeyTyped | src/demo/Demo5CleanCode.java:155-157 | Changes nothing and returns false |
| Demo5.Demo5CleanCode.TouchUp | src/demo/Demo5CleanCode.java:159-161 | Changes nothing and returns false |
| Demo5.Demo5CleanCode.TouchDragged | src/demo/Demo5CleanCode.java:163-165 | Changes nothing and returns false |
| Demo5.Demo5CleanCode.MouseMoved | src/demo/Demo5CleanCode.java:167-169 | Changes nothing and returns false |
| Demo5.Demo5CleanCode.Scrolled | src/demo/Demo5CleanCode.java:171-173 | Changes nothing and returns false |
| Demo5.RightClickTwiceRestores | src/demo/Demo5CleanCode.java:127-131 | Two right presses while a tile is selected restore every cell and the selection |
| Demo5.RightClickUnselectedIsNoOp | src/demo/Demo5CleanCode.java:127-131 | A right press with nothing selected leaves the grid and the selection unchanged |
| Demo5.FirstClickScenario | src/demo/Demo5CleanCode.java:108-134 | In a freshly created game, a left press at world point (15, 160) selects tile (0, 8) and is not consumed |
| Demo4.Demo4InputProcessor.constructor | src/demo/Demo4InputProcessor.java:29-33 | A new object has no grid yet and the default selection fields |
| Demo4.Demo4InputProcessor.Create | src/demo/Demo4InputProcessor.java:44-51 | Allocates a fresh 16 x 9 grid, assigns every one of its cells from the seed and leaves the selection untouched |
| Demo4.Demo4InputProcessor.Render | src/demo/Demo4InputProcessor.java:70-93 | Emits the 16*9 tile draws at (x*20, y*20), plus one selection marker iff a tile is selected |
| Demo4.Demo4InputProcessor.TouchDown | src/demo/Demo4InputProcessor.java:115-146 | A left press applies `Click` to the clamped resolved tile. Any other button changes nothing. The selected tile stays in the grid. The result is always false |
| Demo4.Demo4InputProcessor.KeyDown | src/demo/Demo4InputProcessor.java:100-102 | Changes nothing and returns false |
| Demo4.Demo4InputProcessor.KeyUp | src/demo/Demo4InputProcessor.java:104-106 | Changes nothing and returns false |
| Demo4.Demo4InputProcessor.KeyTyped | src/demo/Demo4InputProcessor.java:108-110 | Changes nothing and returns false |
| Demo4.Demo4InputProcessor.TouchUp | src/demo/Demo4InputProcessor.java:148-150 | Changes nothing and returns false |
| Demo4.Demo4InputProcessor.TouchDragged | src/demo/Demo4InputProcessor.java:152-154 | Changes nothing and returns false |
| Demo4.Demo4InputProcessor.MouseMoved | src/demo/Demo4InputProcessor.java:156-158 | Changes nothing and returns false |
| Demo4.Demo4InputProcessor.Scrolled | src/demo/Demo4InputProcessor.java:160-162 | Changes nothing and returns false |
| Demo4.FirstClickOnOrigin | src/demo/Demo4InputProcessor.java:32-33 | On a fresh object the first left press on tile (0, 0) leaves (false, -1, -1). A second press on it selects (0, 0) |

## Left out

- Viewport, camera and unprojection (`FitViewport`, `OrthographicCamera`, `viewport.update`, `viewport.unproject`): these are libGDX internals that work in floating point. `TouchDown` takes the world point they produce. Its screen coordinates and pointer id are not modelled.
- Floating-point arithmetic: world points and `mouseWorld.x / tileSize` are exact reals. Rounding, NaN, infinities and the saturation of `(int)` on huge values are not modelled; after clamping, saturation gives the same tile.
- `MathUtils.randomBoolean`: the seed is an arbitrary function from cell to value, which covers every outcome of the random draws.
- `SpriteBatch`, `Texture`, `TextureRegion`, `Gdx.gl` clearing and `setProjectionMatrix`: GPU and asset I/O. A draw is a `(region, x, y)` record, and the float positions `x * tileSize` are the integers they hold.
- `Gdx.input.isKeyJustPressed(Keys.R)` and `Gdx.input.setInputProcessor`: event delivery belongs to the host. The key check is a parameter of `Render`, and handlers are plain method calls.
- The `main` methods and `LwjglApplication` bootstrap: window and application lifecycle.
- Java's `boolean[][]` is an array of row objects. It is modelled as one two-dimensional array because the demos never share or replace rows.
- src/demo/Demo1DrawTexture.java, src/demo/Demo2DrawTextureRegion.java and src/demo/Demo3ViewportCamera.java hold only grid seeding, draw loops and camera setup, which the two modelled demos already cover. They are not part of this model.
