/** Whether a dead-end tile needs a notch on its left or right, and how the notch
    piece is rotated (`checkForNotch`). */
module Notch {
  import opened Maze

  datatype NotchResult = NotchResult(needLeft: bool, needRight: bool, rotation: real)

  /** The answer for every tile that is not a dead end. */
  const NoNotch := NotchResult(false, false, 0.0)

  /** Rotation of the notch piece for each connection direction, as the source's
      constants (radians, rounded to five places). */
  const Rotations: seq<real> := [3.14159, 1.57079, 0.0, -1.57079]

  /** Offsets of the left and right check cells for each connection direction. */
  const NotchAround: seq<((int, int), (int, int))> :=
    [((1, -1), (-1, -1)), ((1, 1), (1, -1)), ((-1, 1), (1, 1)), ((-1, -1), (-1, 1))]

  /** The neighbour in direction `d` is inside the grid and has a floor. */
  predicate Connected(walls: Grid, x: int, z: int, d: Dir)
    requires WellFormed(walls)
  {
    Neighbour(walls, x, z, d).hasFloor
  }

  /** How many of the first `n` directions are connected. */
  function ConnectionCount(walls: Grid, x: int, z: int, n: nat): nat
    requires WellFormed(walls) && n <= 4
  {
    if n == 0 then 0
    else ConnectionCount(walls, x, z, n - 1) + (if Connected(walls, x, z, n - 1) then 1 else 0)
  }

  /** `d` is the one and only connected direction. */
  predicate OnlyConnection(walls: Grid, x: int, z: int, d: Dir)
    requires WellFormed(walls)
  {
    Connected(walls, x, z, d) && forall e: Dir :: e != d ==> !Connected(walls, x, z, e)
  }

  /** The left check cell for a connection in direction `d`: one step from the
      connected neighbour in the next direction clockwise. */
  function LeftCheck(x: int, z: int, d: Dir): (int, int)
  {
    (x + Around[d].0 + Around[Clockwise(d)].0, z + Around[d].1 + Around[Clockwise(d)].1)
  }

  /** The right check cell: one step from the connected neighbour in the next
      direction counter-clockwise. */
  function RightCheck(x: int, z: int, d: Dir): (int, int)
  {
    (x + Around[d].0 + Around[CounterClockwise(d)].0, z + Around[d].1 + Around[CounterClockwise(d)].1)
  }

  /** A check cell asks for a notch when it is inside the grid and has no floor. */
  predicate OpenCell(walls: Grid, cell: (int, int))
    requires WellFormed(walls)
  {
    InGrid(walls, cell.0, cell.1) && !walls[cell.1][cell.0].hasFloor
  }

  /** The notch a tile needs: none unless it has a floor and exactly one connected
      neighbour; for a dead end connected in direction `d`, a notch on each side
      whose check cell is open space, rotated by `Rotations[d]`. */
  ghost function NotchFor(walls: Grid, x: int, z: int): NotchResult
    requires WellFormed(walls) && InGrid(walls, x, z)
  {
    if walls[z][x].hasFloor && exists d: Dir :: OnlyConnection(walls, x, z, d) then
      var d: Dir :| OnlyConnection(walls, x, z, d);
      NotchResult(OpenCell(walls, LeftCheck(x, z, d)), OpenCell(walls, RightCheck(x, z, d)), Rotations[d])
    else
      NoNotch
  }

  /** A single connection in direction `d` determines the notch. */
  lemma {:induction false} DeadEndNotch(walls: Grid, x: int, z: int, d: Dir)
    requires WellFormed(walls) && InGrid(walls, x, z)
    requires walls[z][x].hasFloor && OnlyConnection(walls, x, z, d)
    ensures NotchFor(walls, x, z)
         == NotchResult(OpenCell(walls, LeftCheck(x, z, d)), OpenCell(walls, RightCheck(x, z, d)), Rotations[d])
  {
    assert forall e: Dir :: OnlyConnection(walls, x, z, e) ==> e == d;
  }

  /** Exactly one connection is what the counter in the source tests for. */
  lemma {:induction false} CountOneIffSingleConnection(walls: Grid, x: int, z: int)
    requires WellFormed(walls)
    ensures ConnectionCount(walls, x, z, 4) == 1 <==> exists d: Dir :: OnlyConnection(walls, x, z, d)
  {
    var c0, c1, c2, c3 := Connected(walls, x, z, 0), Connected(walls, x, z, 1), Connected(walls, x, z, 2), Connected(walls, x, z, 3);
    assert ConnectionCount(walls, x, z, 1) == (if c0 then 1 else 0);
    assert ConnectionCount(walls, x, z, 2) == ConnectionCount(walls, x, z, 1) + (if c1 then 1 else 0);
    assert ConnectionCount(walls, x, z, 3) == ConnectionCount(walls, x, z, 2) + (if c2 then 1 else 0);
    assert ConnectionCount(walls, x, z, 4)
        == (if c0 then 1 else 0) + (if c1 then 1 else 0) + (if c2 then 1 else 0) + (if c3 then 1 else 0);
    if ConnectionCount(walls, x, z, 4) == 1 {
      var d: Dir := if c0 then 0 else if c1 then 1 else if c2 then 2 else 3;
      assert OnlyConnection(walls, x, z, d);
    }
  }

  /** An isolated tile or a corridor middle (any connection count but 1) gets no notch. */
  lemma NotchNeedsSingleConnection(walls: Grid, x: int, z: int)
    requires WellFormed(walls) && InGrid(walls, x, z)
    requires ConnectionCount(walls, x, z, 4) != 1
    ensures NotchFor(walls, x, z) == NoNotch
  {
    CountOneIffSingleConnection(walls, x, z);
  }

  /** The source's table of check-cell offsets names the two cells diagonal to the
      tile that flank the connected neighbour, one perpendicular step away from it
      on either side. */
  lemma NotchTableFlanksNeighbour(x: int, z: int, d: Dir)
    ensures LeftCheck(x, z, d) == (x + NotchAround[d].0.0, z + NotchAround[d].0.1)
    ensures RightCheck(x, z, d) == (x + NotchAround[d].1.0, z + NotchAround[d].1.1)
    ensures LeftCheck(x, z, d).0 - x in {-1, 1} && LeftCheck(x, z, d).1 - z in {-1, 1}
    ensures RightCheck(x, z, d).0 - x in {-1, 1} && RightCheck(x, z, d).1 - z in {-1, 1}
  {
  }

  /** The counting loop of `checkForNotch`: how many neighbours are in the grid
      and floored, and the last such direction, or -1 when there is none. */
  method CountConnections(walls: Grid, x: int, z: int) returns (surround: nat, dire: int)
    requires WellFormed(walls)
    ensures surround == ConnectionCount(walls, x, z, 4)
    ensures -1 <= dire < 4 && (dire == -1 <==> surround == 0)
    ensures surround == 1 ==> 0 <= dire && OnlyConnection(walls, x, z, dire)
  {
    var d := 0;
    surround, dire := 0, -1;
    while d < 4
      invariant 0 <= d <= 4
      invariant surround == ConnectionCount(walls, x, z, d)
      invariant -1 <= dire < d
      invariant dire == -1 <==> surround == 0
      invariant dire >= 0 ==> Connected(walls, x, z, dire)
      invariant forall e: Dir :: dire < e < d ==> !Connected(walls, x, z, e)
      invariant surround == 1 ==> forall e: Dir :: e < d && e != dire ==> !Connected(walls, x, z, e)
    {
      var nx, nz := x + Around[d].0, z + Around[d].1;
      if nx < |walls[0]| && nx > -1 {
        if nz < |walls| && nz > -1 {
          if walls[nz][nx].hasFloor {
            surround := surround + 1;
            dire := d;
          }
        }
      }
      d := d + 1;
    }
  }

  /** Counts the floored neighbours and remembers the last one, then, for a single
      connection, tests the two check cells and looks up the rotation. */
  method CheckForNotch(walls: Grid, x: int, z: int) returns (r: NotchResult)
    requires WellFormed(walls) && InGrid(walls, x, z)
    ensures !walls[z][x].hasFloor ==> r == NoNotch
    ensures r == NotchFor(walls, x, z)
  {
    var needLeft, needRight := false, false;
    if !walls[z][x].hasFloor {
      return NoNotch;
    }
    var surround, dire := CountConnections(walls, x, z);
    var rotation := 0.0;
    if surround == 1 && dire > -1 && dire < |NotchAround| {
      var targetLeft := (x + NotchAround[dire].0.0, z + NotchAround[dire].0.1);
      var targetRight := (x + NotchAround[dire].1.0, z + NotchAround[dire].1.1);
      if targetLeft.0 < |walls[0]| && targetLeft.0 > -1 && targetLeft.1 < |walls| && targetLeft.1 > -1 {
        if !walls[targetLeft.1][targetLeft.0].hasFloor {
          needLeft := true;
        }
      }
      if targetRight.0 < |walls[0]| && targetRight.0 > -1 && targetRight.1 < |walls| && targetRight.1 > -1 {
        if !walls[targetRight.1][targetRight.0].hasFloor {
          needRight := true;
        }
      }
      rotation := Rotations[dire];
      assert OnlyConnection(walls, x, z, dire);
      NotchTableFlanksNeighbour(x, z, dire);
      DeadEndNotch(walls, x, z, dire);
    } else {
      NotchNeedsSingleConnection(walls, x, z);
    }
    r := NotchResult(needLeft, needRight, rotation);
  }

  /** An isolated floored tile in a 1×1 grid has no connection and so no notch. */
  lemma SingleTileHasNoNotch(walls: Grid)
    requires WellFormed(walls) && Width(walls) == 1 && Height(walls) == 1
    ensures NotchFor(walls, 0, 0) == NoNotch
  {
    CountOneIffSingleConnection(walls, 0, 0);
    assert !OnlyConnection(walls, 0, 0, 0) && !OnlyConnection(walls, 0, 0, 1);
    assert !OnlyConnection(walls, 0, 0, 2) && !OnlyConnection(walls, 0, 0, 3);
  }
}
