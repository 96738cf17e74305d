# World creator: a verified model of the maze-to-scene decisions

The world creator turns a maze grid into a simulator scene. Each grid cell says whether it has a floor, which of its
four sides carry an authored wall, and which special-tile markers it holds: checkpoint, trap, goal and swamp. The
creator does two things:

* **Three resolvers.** They decide what a cell needs from its neighbourhood:
  * corner fillers where two neighbours' walls meet (`checkForCorners`);
  * external walls on sides that face open space (`checkForExternalWalls`);
  * a notch in a dead-end tile that borders open space (`checkForNotch`).
* **`makeFile`.** It walks the grid column by column. For every cell it places the authored edge walls first. Then it
  places each set marker's pieces (one tile, or for a goal the start tile, the robot and the game manager), or a white
  tile if the cell has no marker. It counts cells and markers as it goes. Finally it splits the obstacle list into debris and ordinary obstacles, each with its own id counter.

The project is organised like this:

* `maze.dfy` defines the grid. The Python lists become `Tile` and `Sides` datatypes. Lookups off the grid return the
  `Absent` tile.
* Each resolver is modelled twice:
  * a declarative definition (`CornerNeeded`, `ExternalNeeded`, `NotchFor`);
  * a method (`CheckForCorners`, `CheckForExternalWalls`, `CheckForNotch`) that keeps the source's loops, counters
    and bounds tests, and is proved to compute exactly that definition.
* `boundary.dfy` states what the three resolvers decide for a side that faces out of the grid.
* `placement.dfy` models `makeFile` as nested loops (`MakeFile`, `PlaceColumn`, `PlaceCell`, `PlaceEdgeWalls`,
  `PlaceTile`):
  * Each simulator load-and-position call becomes an appended `Directive`: the piece, its cell, and its position.
  * Positions are whole numbers of eighths of a world unit. The source's tile pitch of 0.25 is two eighths. The grid
    offset `-(width * 0.25 / 2)` is `-width` eighths. The wall offsets 0.125 and 0.25 are one and two eighths.
  * The walk is proved equal to a specification function, `Placements`. Ordering, visiting and counting properties
    are then proved about that function.
* `obstacles.dfy` models the obstacle loop.
* `scenarios.dfy` works through small concrete maps.

Two behaviours of the code are worth spelling out:

* **Markers are tested independently** (source lines 298, 311, 325 and 347). Each marker has its own `if`, so a cell
  with several markers gets the pieces of every set marker, and every such counter moves.
  `Scenarios.CheckpointAndTrapBothPlaced` shows this for a checkpoint-and-trap cell.
* **A horizontal corridor's end turns by a quarter turn.** The rotation table (line 164) is indexed by the connection
  direction. An end of a horizontal corridor connects right or left, so its rotation is `rotations[1]` = 1.57079 or
  `rotations[3]` = -1.57079. `Scenarios.HorizontalCorridor` proves this for a 1×3 corridor.

## Model

| member | source | states |
|---|---|---|
| Boundary.OffGridSide | generator/WorldCreator.py:98-196 | All three resolvers treat a neighbour outside the grid as a floorless tile without walls. A floored tile whose side `d` faces out of the grid needs an external wall on `d`, has no connection through `d`, and needs neither of the two corner fillers that side `d` bounds. |
| Corners.CheckForCorners | generator/WorldCreator.py:81-117 | Gives four answers. All are false for a floorless tile. Answer `c` equals `CornerNeeded`: the two neighbours meeting at corner `c` each carry a wall on the side facing the other, and the tile has no wall on either side of that corner. |
| Corners.OffGridNeighbourBlocksCorner | generator/WorldCreator.py:104-115 | A corner next to an off-grid neighbour is never needed, because the absent tile has no walls. |
| Corners.SingleTileHasNoCorners | generator/WorldCreator.py:104-115 | In a 1×1 grid no corner is ever needed. |
| Corners.OwnWallSuppressesCorners | generator/WorldCreator.py:109-115 | A tile with a wall on side `d` needs neither of the two corners that side bounds. |
| ExternalWalls.CheckForExternalWalls | generator/WorldCreator.py:120-151 | Gives four answers. All are false for a floorless tile. Side `d` needs an external wall exactly when the tile has a floor and the neighbour in direction `d` is off the grid or has no floor. |
| ExternalWalls.EdgeWallsPlayNoPart | generator/WorldCreator.py:135-151 | Two grids of the same shape with the same floor flags need the same external walls. Authored walls and markers play no part. |
| ExternalWalls.FullGridWallsOnlyItsBoundary | generator/WorldCreator.py:135-151 | In a grid where every cell has a floor, a tile needs an external wall exactly on the sides that face out of the grid. |
| Notch.CheckForNotch | generator/WorldCreator.py:154-222 | A floorless tile gives `(false, false, 0)`. Otherwise the counting loop and the target checks compute `NotchFor`: for a tile with exactly one connected direction `d`, a notch on each side whose flanking cell is in the grid and floorless, rotated by `Rotations[d]`; `(false, false, 0)` for every other tile. |
| Notch.CountConnections | generator/WorldCreator.py:175-196 | The counting loop visits top, right, bottom and left. Its count is the number of neighbours that are inside the grid and have a floor. The stored direction is -1 exactly when there is none. When the count is 1, the stored direction is the one and only connected direction. |
| Notch.DeadEndNotch | generator/WorldCreator.py:200-219 | A floored tile whose one and only connection is in direction `d` gets the flank checks for `d` and the rotation `Rotations[d]`. |
| Notch.CountOneIffSingleConnection | generator/WorldCreator.py:177-200 | The loop's count of connected neighbours is 1 if and only if exactly one direction is connected. |
| Notch.NotchNeedsSingleConnection | generator/WorldCreator.py:200 | Any count other than 1 (an isolated tile, a corridor middle, a junction) gives no notch. |
| Notch.NotchTableFlanksNeighbour | generator/WorldCreator.py:169-172 | The check-cell table gives, for each direction, the two cells diagonal to the tile on either side of the connected neighbour: the neighbour plus one step clockwise, and the neighbour plus one step counter-clockwise. |
| Notch.SingleTileHasNoNotch | generator/WorldCreator.py:183-200 | A 1×1 grid has no connection and so no notch. |
| Obstacles.ClassifyObstacles | generator/WorldCreator.py:376-392 | Each entry joins the debris stream or the obstacle stream. Its id is the number of earlier entries in that stream. The debris counter ends at the number of debris entries, and the two counters add up to the list length. |
| Obstacles.StreamIdsIncrease | generator/WorldCreator.py:381-392 | Within one stream, ids strictly increase in input order. |
| Obstacles.StreamIdsBounded | generator/WorldCreator.py:381-392 | Each id is below its stream's final count, so a stream of `n` entries uses exactly the ids 0 to n - 1. |
| Placement.PlaceEdgeWalls | generator/WorldCreator.py:268-294 | Places one wall piece per set side flag, in the order top, right, bottom, left, each at its own offset from the cell's base position. |
| Placement.PlaceIfMarked | generator/WorldCreator.py:297-358 | One marker block. When the cell carries the marker, it places the marker's tile at the cell's base position, and the robot there plus the game manager at its fixed spot for a goal, and moves the marker's counter on by one. Otherwise it places nothing and leaves the counter alone. |
| Placement.PlaceTile | generator/WorldCreator.py:265-367 | Places exactly the directives for the cell's tile kinds, `TileKinds`: each set marker's pieces in the order checkpoint, trap, goal, swamp. A goal adds the robot and the game manager. The white tile is placed when no marker is set. The tile counter and the counter of each set marker go up by one. |
| Placement.PlaceCell | generator/WorldCreator.py:238-367 | One pass of the inner loop places the cell's edge walls, then its tile pieces, at `(2x - width, -(2z - height))` eighths. |
| Placement.PlaceColumn | generator/WorldCreator.py:251-367 | The inner loop visits rows 0 to height - 1 of column `x`. It appends each cell's pieces. The marker counters move by the number of marked cells in the column. |
| Placement.MakeFile | generator/WorldCreator.py:225-396 | The output equals `Placements`: column-major, x outer and z inner. The tile counter ends at width × height. Each marker counter ends at the number of cells carrying that marker. The obstacle routes and counters are as in `ClassifyObstacles`. |
| Placement.CellKindsCountOf | generator/WorldCreator.py:268-364 | How often a cell places each piece: once per set side flag for that side's wall, once per set marker for that marker's pieces, and the white tile once when no marker is set. |
| Placement.EdgeWallsFirst | generator/WorldCreator.py:268-358 | Within a cell, every wall piece comes before every tile piece. |
| Placement.EdgeWallPlacedPerFlag | generator/WorldCreator.py:268-294 | A cell places wall piece `d` exactly once if its side flag `d` is set, and never otherwise, whether or not the cell has a floor. |
| Placement.MarkerPlacesItsPiece | generator/WorldCreator.py:297-358 | A set marker places its own piece exactly once, whatever the other markers. An unset marker places none. |
| Placement.WhiteTileIffUnmarked | generator/WorldCreator.py:265-364 | The white tile is placed, once, exactly when the cell carries no marker. |
| Placement.GoalPlacesRobotAndManager | generator/WorldCreator.py:325-345 | The robot and the game manager are each placed once for a goal cell and never for any other cell. |
| Placement.GoalPiecePositions | generator/WorldCreator.py:331-342 | A goal cell's robot sits at the cell's base position. Its game manager sits at the fixed spot (20, 20). |
| Placement.MarkerCounterCountsPieces | generator/WorldCreator.py:243-358 | Each marker's final counter equals the number of that marker's pieces in the whole placement stream. |
| Placement.ColumnCount | generator/WorldCreator.py:251-358 | A column places as many pieces of a marker as it has cells carrying that marker. |
| Placement.ColumnOrder | generator/WorldCreator.py:251 | A column's placements run from the top row down and all belong to that column. |
| Placement.ColumnPiecesAt | generator/WorldCreator.py:251-367 | The placements of column `x` tagged with a cell are that cell's own pieces if the cell is in column `x`, and none otherwise. |
| Placement.PlacementsColumnMajor | generator/WorldCreator.py:250-251 | The placement stream is in column-major order, and every directive belongs to a cell of the grid. |
| Placement.EachCellPlacedOnce | generator/WorldCreator.py:250-367 | The directives tagged with a cell are exactly that cell's own pieces, in their own order. So every cell is visited exactly once. |
| Scenarios.IsolatedTile | generator/WorldCreator.py:81-222 | An isolated floored tile needs all four external walls, no corner filler and no notch. |
| Scenarios.HorizontalCorridor | generator/WorldCreator.py:164-219 | In a 1×3 corridor, the end tiles get rotations 1.57079 and -1.57079 with no notch sides. The middle tile gets no notch. |
| Scenarios.VerticalCorridorInOpenSpace | generator/WorldCreator.py:164-219 | A vertical corridor surrounded by open space: both end tiles need notches on both sides, with rotations 0 and 3.14159. |
| Scenarios.CornerBetweenStubs | generator/WorldCreator.py:109-115 | Two wall stubs meeting at a tile's bottom-right corner make that corner, and only that one, need a filler. |
| Scenarios.GoalOnlyMap | generator/WorldCreator.py:225-367 | A one-cell goal map places exactly the start tile and the robot at (-1, 1) eighths, then the game manager at (20, 20). |
| Scenarios.CheckpointAndTrapBothPlaced | generator/WorldCreator.py:297-364 | A cell marked both checkpoint and trap gets one checkpoint piece, one hole piece and no white tile. |

## Left out

- Simulator connection, scene reset and teardown, model-file paths, platform detection and resource-path lookup:
  these are I/O against a fixed API, with no decisions in them.
- Loading a model and reading back its height: the third coordinate of every placed piece's position except the game
  manager's (see the next line) comes from the simulator. Positions here are the two floor coordinates only.
- ManagerPosition: the game manager is put at the fixed point (20, 20, 0) (line 341). The model keeps (20, 20) and
  drops its height 0, as it drops every height.
- Progress printing, and the `thermal`, `visual`, `startPos` and `uiWindow` parameters of `makeFile`, which the
  code never reads.
- MakeFile: does not call the three resolvers. In the source, their results only set a local notch label that is
  never used.
- The bounding-box and obstacle description strings. Their formatting calls are commented out in the source. The
  model records instead the stream and id each obstacle entry would receive.
- Floating point: rotations are the source's literals as exact reals. Positions are exact integers in eighths.
  Every source position is a multiple of 0.125, so binary floating point computes them exactly for any realistic
  grid size.
- CheckForNotch: the source returns the integer `0` as the rotation in its no-notch cases and `0` (not `0.0`)
  for a downward connection. The model uses the real 0.0 for both.
- Grid shape: the model requires at least one row, and every row at least as long as the first. The source indexes
  rows by the first row's width and fails on an empty grid.
