/** What the three resolvers agree on at the edge of the grid: each of them treats
    a neighbour outside the grid as a floorless tile without walls. */
module Boundary {
  import opened Maze
  import opened Corners
  import opened ExternalWalls
  import opened Notch

  /** A floored tile whose side `d` faces out of the grid needs an external wall on
      that side, has no connection through it, and needs neither of the two corner
      fillers that side bounds. */
  lemma OffGridSide(walls: Grid, x: int, z: int, d: Dir)
    requires WellFormed(walls) && InGrid(walls, x, z)
    requires walls[z][x].hasFloor
    requires !InGrid(walls, x + Around[d].0, z + Around[d].1)
    ensures ExternalNeeded(walls, x, z, d)
    ensures !Connected(walls, x, z, d)
    ensures !CornerNeeded(walls, x, z, d)
    ensures !CornerNeeded(walls, x, z, CounterClockwise(d))
  {
    OffGridNeighbourBlocksCorner(walls, x, z, d);
    assert Clockwise(CounterClockwise(d)) == d;
    OffGridNeighbourBlocksCorner(walls, x, z, CounterClockwise(d));
  }
}
