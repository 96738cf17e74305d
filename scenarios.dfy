/** Small worked maps: what the resolvers and the placement walk decide for them. */
module Scenarios {
  import opened Maze
  import opened Corners
  import opened ExternalWalls
  import opened Notch
  import opened Placement

  const NoWalls := Sides(false, false, false, false)

  /** A plain floored tile: no walls, no markers. */
  const Floor := Tile(true, NoWalls, false, false, false, false)

  /** A cell without a floor. */
  const Hole := Tile(false, NoWalls, false, false, false, false)

  /** An isolated floored tile needs an external wall on every side, no corner
      filler and no notch. */
  lemma IsolatedTile(d: Dir)
    ensures ExternalNeeded([[Floor]], 0, 0, d)
    ensures !CornerNeeded([[Floor]], 0, 0, d)
    ensures NotchFor([[Floor]], 0, 0) == NoNotch
  {
    SingleTileHasNoCorners([[Floor]], d);
    SingleTileHasNoNotch([[Floor]]);
  }

  /** A horizontal corridor of three tiles: each end is a dead end turned towards
      the middle, by a quarter turn one way or the other, with no notch since both
      check cells lie off the grid; the middle tile has two connections and no
      notch. */
  lemma HorizontalCorridor()
    ensures NotchFor([[Floor, Floor, Floor]], 0, 0) == NotchResult(false, false, 1.57079)
    ensures NotchFor([[Floor, Floor, Floor]], 2, 0) == NotchResult(false, false, -1.57079)
    ensures NotchFor([[Floor, Floor, Floor]], 1, 0) == NoNotch
  {
    var w := [[Floor, Floor, Floor]];
    assert Connected(w, 0, 0, 1) && !Connected(w, 0, 0, 0) && !Connected(w, 0, 0, 2) && !Connected(w, 0, 0, 3);
    assert OnlyConnection(w, 0, 0, 1);
    DeadEndNotch(w, 0, 0, 1);
    assert Connected(w, 2, 0, 3) && !Connected(w, 2, 0, 0) && !Connected(w, 2, 0, 1) && !Connected(w, 2, 0, 2);
    assert OnlyConnection(w, 2, 0, 3);
    DeadEndNotch(w, 2, 0, 3);
    assert Connected(w, 1, 0, 1) && Connected(w, 1, 0, 3);
    assert !exists d: Dir :: OnlyConnection(w, 1, 0, d);
  }

  /** A vertical corridor down the middle of a 3×3 map: the top end opens
      downwards and the bottom end upwards, and since both flanking cells are open
      space each end needs a notch on both sides. */
  lemma VerticalCorridorInOpenSpace()
    ensures NotchFor([[Hole, Floor, Hole], [Hole, Floor, Hole], [Hole, Floor, Hole]], 1, 0)
         == NotchResult(true, true, 0.0)
    ensures NotchFor([[Hole, Floor, Hole], [Hole, Floor, Hole], [Hole, Floor, Hole]], 1, 2)
         == NotchResult(true, true, 3.14159)
  {
    var w := [[Hole, Floor, Hole], [Hole, Floor, Hole], [Hole, Floor, Hole]];
    assert Connected(w, 1, 0, 2) && !Connected(w, 1, 0, 0) && !Connected(w, 1, 0, 1) && !Connected(w, 1, 0, 3);
    assert OnlyConnection(w, 1, 0, 2);
    DeadEndNotch(w, 1, 0, 2);
    assert Connected(w, 1, 2, 0) && !Connected(w, 1, 2, 1) && !Connected(w, 1, 2, 2) && !Connected(w, 1, 2, 3);
    assert OnlyConnection(w, 1, 2, 0);
    DeadEndNotch(w, 1, 2, 0);
  }

  /** Two wall stubs meeting at a tile's bottom-right corner: the right neighbour
      has a bottom wall, the lower neighbour a right wall, and the tile has neither,
      so that corner, and only that one, needs a filler. */
  lemma CornerBetweenStubs(c: Dir)
    ensures var w := [[Floor, Tile(true, Sides(false, false, true, false), false, false, false, false)],
                      [Tile(true, Sides(false, true, false, false), false, false, false, false), Floor]];
      CornerNeeded(w, 0, 0, c) <==> c == 1
  {
  }

  /** A one-cell map places exactly that cell's pieces. */
  lemma OneCellMap(w: Grid)
    requires WellFormed(w) && Width(w) == 1 && Height(w) == 1
    ensures Placements(w) == CellPieces(w, 0, 0)
  {
    var cells, cols := ColumnCells(w, 0), GridColumns(w);
    JoinedSnoc(cells, 0);
    JoinedSnoc(cols, 0);
    assert [] + cells[0] == cells[0] && [] + cols[0] == cols[0];
  }

  /** A one-cell map holding only the goal: the start tile and the robot at the
      cell's position (one eighth left of and one eighth above the origin), then
      the game manager at its fixed spot; no wall and no white tile. */
  lemma GoalOnlyMap()
    ensures Placements([[Tile(true, NoWalls, false, false, true, false)]])
         == [Directive(StartTile, 0, 0, Position(-1, 1)), Directive(Robot, 0, 0, Position(-1, 1)),
             Directive(GameManager, 0, 0, ManagerPosition)]
  {
    var t := Tile(true, NoWalls, false, false, true, false);
    var w := [[t]];
    assert CellKinds(t) == [StartTile, Robot, GameManager];
    assert Base(w, 0, 0) == Position(-1, 1);
    PlaceAt(CellKinds(t), 0, 0, Base(w, 0, 0));
    OneCellMap(w);
  }

  /** A tile marked both checkpoint and trap gets both pieces: every set marker is
      tested on its own, and none of them is chosen over another. */
  lemma CheckpointAndTrapBothPlaced()
    ensures var w := [[Tile(true, NoWalls, true, true, false, false)]];
      CountPiece(Placements(w), CheckpointTile) == 1 && CountPiece(Placements(w), HoleTile) == 1
      && CountPiece(Placements(w), WhiteTile) == 0
  {
    var w := [[Tile(true, NoWalls, true, true, false, false)]];
    OneCellMap(w);
    MarkerPlacesItsPiece(w, 0, 0, Checkpoint);
    MarkerPlacesItsPiece(w, 0, 0, Trap);
    WhiteTileIffUnmarked(w, 0, 0);
  }
}
