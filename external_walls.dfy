/** Which sides of a tile face open space and need an external wall
    (`checkForExternalWalls`). */
module ExternalWalls {
  import opened Maze

  /** Side `d` of the tile at `(x, z)` needs an external wall exactly when the tile
      has a floor and its neighbour in direction `d` is off the grid or floorless. */
  predicate ExternalNeeded(walls: Grid, x: int, z: int, d: Dir)
    requires WellFormed(walls) && InGrid(walls, x, z)
  {
    walls[z][x].hasFloor && !Neighbour(walls, x, z, d).hasFloor
  }

  /** Records, with a running direction counter, whether each neighbour is present,
      then negates the four answers. */
  method CheckForExternalWalls(walls: Grid, x: int, z: int) returns (externals: seq<bool>)
    requires WellFormed(walls) && InGrid(walls, x, z)
    ensures |externals| == 4
    ensures !walls[z][x].hasFloor ==> externals == [false, false, false, false]
    ensures forall d: Dir :: externals[d] == ExternalNeeded(walls, x, z, d)
  {
    var thisWall := walls[z][x];
    if !thisWall.hasFloor {
      return [false, false, false, false];
    }
    var otherTiles := [false, false, false, false];
    var d := 0;
    while d < 4
      invariant 0 <= d <= 4 && |otherTiles| == 4
      invariant forall k: Dir :: k < d ==> otherTiles[k] == Neighbour(walls, x, z, k).hasFloor
    {
      var xPos := x + Around[d].0;
      var zPos := z + Around[d].1;
      if xPos > -1 && xPos < |walls[0]| && zPos > -1 && zPos < |walls| {
        otherTiles := otherTiles[d := walls[zPos][xPos].hasFloor];
      } else {
        otherTiles := otherTiles[d := false];
      }
      d := d + 1;
    }
    externals := [!otherTiles[0], !otherTiles[1], !otherTiles[2], !otherTiles[3]];
  }

  /** Two grids of the same shape whose floor flags agree need the same external
      walls everywhere: authored edge walls and markers play no part. */
  lemma EdgeWallsPlayNoPart(w1: Grid, w2: Grid, x: int, z: int, d: Dir)
    requires WellFormed(w1) && WellFormed(w2)
    requires Width(w1) == Width(w2) && Height(w1) == Height(w2)
    requires forall r, c :: 0 <= r < Height(w1) && 0 <= c < Width(w1) ==> w1[r][c].hasFloor == w2[r][c].hasFloor
    requires InGrid(w1, x, z)
    ensures ExternalNeeded(w1, x, z, d) == ExternalNeeded(w2, x, z, d)
  {
    var nx, nz := x + Around[d].0, z + Around[d].1;
    if InGrid(w1, nx, nz) {
      assert w1[nz][nx].hasFloor == w2[nz][nx].hasFloor;
    }
  }

  /** Boundary closure: in a grid whose every cell has a floor, a tile needs an
      external wall on exactly the sides that face out of the grid. */
  lemma FullGridWallsOnlyItsBoundary(walls: Grid, x: int, z: int, d: Dir)
    requires WellFormed(walls)
    requires forall r, c :: 0 <= r < Height(walls) && 0 <= c < Width(walls) ==> walls[r][c].hasFloor
    requires InGrid(walls, x, z)
    ensures ExternalNeeded(walls, x, z, d) <==> !InGrid(walls, x + Around[d].0, z + Around[d].1)
  {
    var nx, nz := x + Around[d].0, z + Around[d].1;
    if InGrid(walls, nx, nz) {
      assert walls[nz][nx].hasFloor;
    }
  }
}
