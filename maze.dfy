/** The maze grid that the world creator reads.

    The grid is indexed `walls[z][x]`: `z` selects a row, `x` a cell in it.
    Every cell records whether it has a floor, which of its four sides carry
    an authored wall, and four special-tile markers. */
module Maze {

  /** A direction index, in the fixed order top, right, bottom, left. */
  type Dir = d: int | 0 <= d < 4

  /** The four edge-wall flags of a tile, in the order top, right, bottom, left. */
  datatype Sides = Sides(top: bool, right: bool, bottom: bool, left: bool)
  {
    /** The flag of side `d`. */
    function Get(d: Dir): bool
    {
      if d == 0 then top else if d == 1 then right else if d == 2 then bottom else left
    }
  }

  /** One cell: floor presence, edge walls, then the checkpoint, trap, goal and swamp markers. */
  datatype Tile = Tile(hasFloor: bool, edgeWalls: Sides, checkpoint: bool, trap: bool, goal: bool, swamp: bool)

  /** What a lookup outside the grid stands for: no floor, no walls, no markers. */
  const Absent := Tile(false, Sides(false, false, false, false), false, false, false, false)

  type Grid = seq<seq<Tile>>

  /** Offsets `(dx, dz)` of the neighbour in each direction: top, right, bottom, left. */
  const Around: seq<(int, int)> := [(0, -1), (1, 0), (0, 1), (-1, 0)]

  /** A grid the creator can read: at least one row, and every row reaches as far as
      row 0, whose length is taken as the width. Cells beyond that width are never read. */
  predicate WellFormed(walls: Grid)
  {
    |walls| > 0 && forall z :: 0 <= z < |walls| ==> |walls[z]| >= |walls[0]|
  }

  function Width(walls: Grid): nat
    requires WellFormed(walls)
  {
    |walls[0]|
  }

  function Height(walls: Grid): nat
  {
    |walls|
  }

  /** The bounds test every resolver applies before reading a cell. */
  predicate InGrid(walls: Grid, x: int, z: int)
    requires WellFormed(walls)
  {
    -1 < x < Width(walls) && -1 < z < Height(walls)
  }

  /** The tile at `(x, z)`, or `Absent` outside the grid. */
  function At(walls: Grid, x: int, z: int): Tile
    requires WellFormed(walls)
  {
    if InGrid(walls, x, z) then walls[z][x] else Absent
  }

  /** The neighbour of `(x, z)` in direction `d`, or `Absent` when it lies outside the grid. */
  function Neighbour(walls: Grid, x: int, z: int, d: Dir): Tile
    requires WellFormed(walls)
  {
    At(walls, x + Around[d].0, z + Around[d].1)
  }

  /** The next direction clockwise (top, right, bottom, left, top). */
  function Clockwise(d: Dir): Dir
  {
    (d + 1) % 4
  }

  /** The next direction counter-clockwise. */
  function CounterClockwise(d: Dir): Dir
  {
    (d + 3) % 4
  }
}
