/** Which of a tile's four corner fillers are needed (`checkForCorners`).

    Corners are numbered top-right, bottom-right, bottom-left, top-left, so
    corner `c` lies between the sides `c` and `Clockwise(c)`. */
module Corners {
  import opened Maze

  /** Corner `c` of the tile at `(x, z)` needs a filler exactly when the tile has a
      floor, each of the two neighbours meeting at the corner carries a wall on the
      side facing the other one, and the tile itself has no wall on either of the
      two sides forming the corner. Off-grid neighbours carry no walls. */
  predicate CornerNeeded(walls: Grid, x: int, z: int, c: Dir)
    requires WellFormed(walls) && InGrid(walls, x, z)
  {
    var a, b := c, Clockwise(c);
    var t := walls[z][x];
    t.hasFloor
    && Neighbour(walls, x, z, a).edgeWalls.Get(b)
    && Neighbour(walls, x, z, b).edgeWalls.Get(a)
    && !t.edgeWalls.Get(a) && !t.edgeWalls.Get(b)
  }

  /** Collects the four neighbours (absent ones as `Absent`), then reads the corner
      rule off their edge-wall flags. */
  method CheckForCorners(walls: Grid, x: int, z: int) returns (corners: seq<bool>)
    requires WellFormed(walls) && InGrid(walls, x, z)
    ensures |corners| == 4
    ensures !walls[z][x].hasFloor ==> corners == [false, false, false, false]
    ensures forall c: Dir :: corners[c] == CornerNeeded(walls, x, z, c)
  {
    corners := [false, false, false, false];
    var thisWall := walls[z][x];
    if !thisWall.hasFloor {
      return;
    }
    var surroundingTiles: seq<Tile> := [];
    var i := 0;
    while i < 4
      invariant 0 <= i <= 4 && |surroundingTiles| == i
      invariant forall k: Dir :: k < i ==> surroundingTiles[k] == Neighbour(walls, x, z, k)
    {
      var xPos := x + Around[i].0;
      var zPos := z + Around[i].1;
      if xPos > -1 && xPos < |walls[0]| && zPos > -1 && zPos < |walls| {
        surroundingTiles := surroundingTiles + [walls[zPos][xPos]];
      } else {
        surroundingTiles := surroundingTiles + [Absent];
      }
      i := i + 1;
    }
    var s := surroundingTiles;
    var w := thisWall.edgeWalls;
    corners := [
      s[0].edgeWalls.right && s[1].edgeWalls.top && !w.top && !w.right,
      s[1].edgeWalls.bottom && s[2].edgeWalls.right && !w.right && !w.bottom,
      s[2].edgeWalls.left && s[3].edgeWalls.bottom && !w.bottom && !w.left,
      s[0].edgeWalls.left && s[3].edgeWalls.top && !w.left && !w.top
    ];
  }

  /** A corner that touches an off-grid neighbour is never needed: the absent
      tile contributes no wall to it. */
  lemma OffGridNeighbourBlocksCorner(walls: Grid, x: int, z: int, c: Dir)
    requires WellFormed(walls) && InGrid(walls, x, z)
    requires !InGrid(walls, x + Around[c].0, z + Around[c].1)
          || !InGrid(walls, x + Around[Clockwise(c)].0, z + Around[Clockwise(c)].1)
    ensures !CornerNeeded(walls, x, z, c)
  {
  }

  /** In a 1×1 grid every neighbour is off the grid, so no corner is ever needed. */
  lemma SingleTileHasNoCorners(walls: Grid, c: Dir)
    requires WellFormed(walls) && Width(walls) == 1 && Height(walls) == 1
    ensures !CornerNeeded(walls, 0, 0, c)
  {
    OffGridNeighbourBlocksCorner(walls, 0, 0, c);
  }

  /** The rule is symmetric in the two sides of a corner: a tile with a wall on a
      side needs neither of the two corners that side bounds. */
  lemma OwnWallSuppressesCorners(walls: Grid, x: int, z: int, d: Dir)
    requires WellFormed(walls) && InGrid(walls, x, z)
    requires walls[z][x].edgeWalls.Get(d)
    ensures !CornerNeeded(walls, x, z, d)
    ensures !CornerNeeded(walls, x, z, CounterClockwise(d))
  {
  }
}
