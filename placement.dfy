/** The placement decisions of `makeFile`: a column-major walk over the grid that,
    for every cell, places its authored edge walls, then one piece per set marker
    (or the white tile when none is set), and keeps a counter per tile category.

    Each simulator load-and-position becomes one appended `Directive`. Positions
    are exact, in eighths of a world unit: a tile is two eighths wide. */
module Placement {
  import opened Maze
  import opened Obstacles

  /** The model files the creator loads, one constructor each. */
  datatype Piece =
    | TopWall | RightWall | BottomWall | LeftWall
    | CheckpointTile | HoleTile | StartTile | Robot | GameManager | SpeedBump | WhiteTile

  /** A point in the floor plane, in eighths of a world unit. */
  datatype Position = Position(px: int, py: int)

  /** One placement: which piece, for which grid cell, and where. */
  datatype Directive = Directive(piece: Piece, x: int, z: int, at: Position)

  /** The four special-tile markers. */
  datatype Marker = Checkpoint | Trap | Goal | Swamp

  /** The per-category id counters of `makeFile`. */
  datatype TileIds = TileIds(tile: nat, checkpoint: nat, trap: nat, goal: nat, swamp: nat)

  /** The fixed spot where the game manager goes, (20, 20) in world units. */
  const ManagerPosition := Position(160, 160)

  predicate Marked(t: Tile, m: Marker)
  {
    match m
    case Checkpoint => t.checkpoint
    case Trap => t.trap
    case Goal => t.goal
    case Swamp => t.swamp
  }

  predicate Unmarked(t: Tile)
  {
    !(t.checkpoint || t.trap || t.goal || t.swamp)
  }

  /** The tile piece each marker places. */
  function MarkerPiece(m: Marker): Piece
  {
    match m
    case Checkpoint => CheckpointTile
    case Trap => HoleTile
    case Goal => StartTile
    case Swamp => SpeedBump
  }

  /** The wall piece for each side. */
  function WallPiece(d: Dir): Piece
  {
    [TopWall, RightWall, BottomWall, LeftWall][d]
  }

  predicate IsWall(p: Piece)
  {
    p in {TopWall, RightWall, BottomWall, LeftWall}
  }

  /** Where the cell `(x, z)` sits: the grid is centred on the origin, `x` grows to
      the right and `z` grows downwards. */
  function Base(walls: Grid, x: int, z: int): Position
    requires WellFormed(walls)
  {
    Position(2 * x - Width(walls), -(2 * z - Height(walls)))
  }

  /** Where a piece of a cell with base position `b` goes: each wall at its own
      offset, the game manager at its fixed spot, every other piece at `b`. */
  function Offset(p: Piece, b: Position): Position
  {
    match p
    case TopWall => Position(b.px, b.py + 1)
    case RightWall => Position(b.px + 2, b.py + 1)
    case BottomWall => Position(b.px + 1, b.py - 2)
    case LeftWall => Position(b.px, b.py + 1)
    case GameManager => ManagerPosition
    case _ => b
  }

  /** The edge walls of a cell, in side order: one for each side whose flag is set. */
  function WallKinds(w: Sides): seq<Piece>
  {
    (if w.top then [TopWall] else []) + (if w.right then [RightWall] else [])
    + (if w.bottom then [BottomWall] else []) + (if w.left then [LeftWall] else [])
  }

  /** What a set marker places: its tile piece; the goal also the robot and the game manager. */
  function MarkerKinds(m: Marker): seq<Piece>
  {
    match m
    case Checkpoint => [CheckpointTile]
    case Trap => [HoleTile]
    case Goal => [StartTile, Robot, GameManager]
    case Swamp => [SpeedBump]
  }

  function IfMarked(t: Tile, m: Marker): seq<Piece>
  {
    if Marked(t, m) then MarkerKinds(m) else []
  }

  /** The tile pieces of a cell: each set marker's pieces, tested independently in
      the order checkpoint, trap, goal, swamp; the white tile when none is set. */
  function TileKinds(t: Tile): seq<Piece>
  {
    IfMarked(t, Checkpoint) + IfMarked(t, Trap) + IfMarked(t, Goal) + IfMarked(t, Swamp)
    + (if Unmarked(t) then [WhiteTile] else [])
  }

  /** Everything a cell places, in order: edge walls, then tile pieces. */
  function CellKinds(t: Tile): seq<Piece>
  {
    WallKinds(t.edgeWalls) + TileKinds(t)
  }

  /** The directives for the pieces `kinds` of cell `(x, z)` with base position `b`. */
  function Place(kinds: seq<Piece>, x: int, z: int, b: Position): (ds: seq<Directive>)
    ensures |ds| == |kinds|
  {
    if kinds == [] then [] else [Directive(kinds[0], x, z, Offset(kinds[0], b))] + Place(kinds[1..], x, z, b)
  }

  /** Everything placed for one cell. */
  function CellPieces(walls: Grid, x: int, z: int): seq<Directive>
    requires WellFormed(walls) && InGrid(walls, x, z)
  {
    Place(CellKinds(walls[z][x]), x, z, Base(walls, x, z))
  }

  /** All streams of `parts`, one after another. */
  function Flatten(parts: seq<seq<Directive>>): seq<Directive>
  {
    if parts == [] then [] else Flatten(parts[..|parts| - 1]) + parts[|parts| - 1]
  }

  /** The first `n` streams of `parts`, one after another. */
  function Joined(parts: seq<seq<Directive>>, n: nat): seq<Directive>
    requires n <= |parts|
  {
    Flatten(parts[..n])
  }

  /** What each cell of column `x` places, top row first. */
  function ColumnCells(walls: Grid, x: int): seq<seq<Directive>>
    requires WellFormed(walls) && 0 <= x < Width(walls)
  {
    seq(Height(walls), z requires 0 <= z < Height(walls) => CellPieces(walls, x, z))
  }

  /** Everything column `x` places. */
  function ColumnPieces(walls: Grid, x: int): seq<Directive>
    requires WellFormed(walls) && 0 <= x < Width(walls)
  {
    Joined(ColumnCells(walls, x), Height(walls))
  }

  /** What each column places, left to right. */
  function GridColumns(walls: Grid): seq<seq<Directive>>
    requires WellFormed(walls)
  {
    seq(Width(walls), x requires 0 <= x < Width(walls) => ColumnPieces(walls, x))
  }

  /** The whole placement stream of a grid. */
  function Placements(walls: Grid): seq<Directive>
    requires WellFormed(walls)
  {
    Joined(GridColumns(walls), Width(walls))
  }

  /** Marked cells among `(x, 0) .. (x, n - 1)`. */
  function ColumnMarked(walls: Grid, m: Marker, x: int, n: nat): nat
    requires WellFormed(walls) && 0 <= x < Width(walls) && n <= Height(walls)
  {
    if n == 0 then 0 else ColumnMarked(walls, m, x, n - 1) + (if Marked(walls[n - 1][x], m) then 1 else 0)
  }

  /** Marked cells in columns `0 .. c - 1`. */
  function MarkedUpTo(walls: Grid, m: Marker, c: nat): nat
    requires WellFormed(walls) && c <= Width(walls)
  {
    if c == 0 then 0 else MarkedUpTo(walls, m, c - 1) + ColumnMarked(walls, m, c - 1, Height(walls))
  }

  /** Number of cells of the grid that carry marker `m`. */
  function MarkedCount(walls: Grid, m: Marker): nat
    requires WellFormed(walls)
  {
    MarkedUpTo(walls, m, Width(walls))
  }

  /** The counters after one more cell: the tile counter always moves, each marker
      counter when the cell carries that marker. */
  function Bump(ids: TileIds, t: Tile): TileIds
  {
    TileIds(ids.tile + 1,
            ids.checkpoint + (if t.checkpoint then 1 else 0),
            ids.trap + (if t.trap then 1 else 0),
            ids.goal + (if t.goal then 1 else 0),
            ids.swamp + (if t.swamp then 1 else 0))
  }

  /** Occurrences of piece `p` in a placement stream. */
  function CountPiece(ds: seq<Directive>, p: Piece): nat
  {
    if ds == [] then 0 else (if ds[0].piece == p then 1 else 0) + CountPiece(ds[1..], p)
  }

  /** The placements that belong to cell `(x, z)`, in stream order. */
  function PiecesAt(ds: seq<Directive>, x: int, z: int): seq<Directive>
  {
    if ds == [] then []
    else (if ds[0].x == x && ds[0].z == z then [ds[0]] else []) + PiecesAt(ds[1..], x, z)
  }

  /** `a` comes no later than `b` in column-major order. */
  predicate Precedes(a: Directive, b: Directive)
  {
    a.x < b.x || (a.x == b.x && a.z <= b.z)
  }

  predicate ColumnMajor(ds: seq<Directive>)
  {
    forall i, j :: 0 <= i < j < |ds| ==> Precedes(ds[i], ds[j])
  }

  /** Every placement of `ds` is tagged with the cell `(x, z)`. */
  predicate AllAt(ds: seq<Directive>, x: int, z: int)
  {
    forall i :: 0 <= i < |ds| ==> ds[i].x == x && ds[i].z == z
  }

  /** Every placement of `ds` lies in columns `xlo .. xhi - 1` and rows `0 .. zhi - 1`. */
  predicate Within(ds: seq<Directive>, xlo: int, xhi: int, zhi: int)
  {
    forall i :: 0 <= i < |ds| ==> xlo <= ds[i].x < xhi && 0 <= ds[i].z < zhi
  }

  /** A cell's directives are its edge walls' followed by its tile pieces'. */
  lemma CellPiecesSplit(walls: Grid, x: int, z: int)
    requires WellFormed(walls) && InGrid(walls, x, z)
    ensures CellPieces(walls, x, z)
         == Place(WallKinds(walls[z][x].edgeWalls), x, z, Base(walls, x, z)) + Place(TileKinds(walls[z][x]), x, z, Base(walls, x, z))
  {
    PlaceAppend(WallKinds(walls[z][x].edgeWalls), TileKinds(walls[z][x]), x, z, Base(walls, x, z));
  }

  /** Placing a cell's tile kinds is placing each marker block's kinds in turn,
      then the white tile's. */
  lemma PlaceTileKinds(t: Tile, x: int, z: int, b: Position)
    ensures Place(TileKinds(t), x, z, b)
         == Place(IfMarked(t, Checkpoint), x, z, b) + Place(IfMarked(t, Trap), x, z, b)
          + Place(IfMarked(t, Goal), x, z, b) + Place(IfMarked(t, Swamp), x, z, b)
          + (if Unmarked(t) then [Directive(WhiteTile, x, z, b)] else [])
  {
    var c, h, g, s, u := IfMarked(t, Checkpoint), IfMarked(t, Trap), IfMarked(t, Goal), IfMarked(t, Swamp),
                         if Unmarked(t) then [WhiteTile] else [];
    PlaceAt(u, x, z, b);
    PlaceAppend(c, h, x, z, b);
    PlaceAppend(c + h, g, x, z, b);
    PlaceAppend(c + h + g, s, x, z, b);
    PlaceAppend(c + h + g + s, u, x, z, b);
  }

  /** Element `i` of a cell's directives is its `i`-th piece, tagged with the cell
      and put at that piece's offset. */
  lemma {:induction false} PlaceAt(kinds: seq<Piece>, x: int, z: int, b: Position)
    ensures forall i :: 0 <= i < |kinds| ==> Place(kinds, x, z, b)[i] == Directive(kinds[i], x, z, Offset(kinds[i], b))
  {
    if kinds != [] {
      PlaceAt(kinds[1..], x, z, b);
      var ds := Place(kinds, x, z, b);
      assert ds == [Directive(kinds[0], x, z, Offset(kinds[0], b))] + Place(kinds[1..], x, z, b);
      forall i | 0 < i < |kinds|
        ensures ds[i] == Directive(kinds[i], x, z, Offset(kinds[i], b))
      {
        assert ds[i] == Place(kinds[1..], x, z, b)[i - 1];
        assert kinds[1..][i - 1] == kinds[i];
      }
    }
  }

  /** Every directive of a cell is tagged with that cell. */
  lemma CellPiecesAllAt(walls: Grid, x: int, z: int)
    requires WellFormed(walls) && InGrid(walls, x, z)
    ensures AllAt(CellPieces(walls, x, z), x, z)
  {
    PlaceAt(CellKinds(walls[z][x]), x, z, Base(walls, x, z));
  }

  lemma {:induction false} PlaceAppend(a: seq<Piece>, b: seq<Piece>, x: int, z: int, base: Position)
    ensures Place(a + b, x, z, base) == Place(a, x, z, base) + Place(b, x, z, base)
  {
    var l, r := Place(a + b, x, z, base), Place(a, x, z, base) + Place(b, x, z, base);
    PlaceAt(a + b, x, z, base);
    PlaceAt(a, x, z, base);
    PlaceAt(b, x, z, base);
    assert |l| == |r|;
    forall i | 0 <= i < |l|
      ensures l[i] == r[i]
    {
      if i < |a| {
        assert (a + b)[i] == a[i];
      } else {
        assert (a + b)[i] == b[i - |a|];
      }
    }
  }

  // The steps of makeFile

  /** The edge-wall part of the step for cell `(x, z)`: a wall piece for each side
      whose flag is set, in side order, whether or not the cell has a floor. `px`
      and `py` are the cell's base position. */
  method PlaceEdgeWalls(cell: Tile, x: int, z: int, px: int, py: int) returns (pieces: seq<Directive>)
    ensures pieces == Place(WallKinds(cell.edgeWalls), x, z, Position(px, py))
  {
    pieces := [];
    if cell.edgeWalls.top {
      pieces := pieces + [Directive(TopWall, x, z, Position(px, py + 1))];
    }
    if cell.edgeWalls.right {
      pieces := pieces + [Directive(RightWall, x, z, Position(px + 2, py + 1))];
    }
    if cell.edgeWalls.bottom {
      pieces := pieces + [Directive(BottomWall, x, z, Position(px + 1, py - 2))];
    }
    if cell.edgeWalls.left {
      pieces := pieces + [Directive(LeftWall, x, z, Position(px, py + 1))];
    }
    var w, b := cell.edgeWalls, Position(px, py);
    var t, r, bo, l := if w.top then [TopWall] else [], if w.right then [RightWall] else [],
                       if w.bottom then [BottomWall] else [], if w.left then [LeftWall] else [];
    PlaceAppend(t, r, x, z, b);
    PlaceAppend(t + r, bo, x, z, b);
    PlaceAppend(t + r + bo, l, x, z, b);
  }

  /** One marker block of the step for cell `(x, z)` with base position `(px, py)`:
      when the cell carries `m`, the marker's tile is loaded there (for the goal
      also the robot there and the game manager at its fixed spot) and the
      marker's counter `id` moves on. */
  method PlaceIfMarked(cell: Tile, m: Marker, x: int, z: int, px: int, py: int, id: nat)
    returns (pieces: seq<Directive>, next: nat)
    ensures pieces == Place(IfMarked(cell, m), x, z, Position(px, py))
    ensures next == id + (if Marked(cell, m) then 1 else 0)
  {
    pieces, next := [], id;
    if Marked(cell, m) {
      pieces := [Directive(MarkerPiece(m), x, z, Position(px, py))];
      if m == Goal {
        pieces := pieces + [Directive(Robot, x, z, Position(px, py))];
        pieces := pieces + [Directive(GameManager, x, z, ManagerPosition)];
      }
      next := id + 1;
    }
    PlaceAt(IfMarked(cell, m), x, z, Position(px, py));
  }

  /** The tile part of the step for cell `(x, z)`: the four marker blocks in the
      order checkpoint, trap, goal, swamp, then the white tile unless one of them
      set `isTile`, and the tile counter moves. */
  method PlaceTile(cell: Tile, x: int, z: int, px: int, py: int, ids: TileIds)
    returns (pieces: seq<Directive>, next: TileIds)
    ensures pieces == Place(TileKinds(cell), x, z, Position(px, py))
    ensures next == Bump(ids, cell)
  {
    var checkpoints, checkId := PlaceIfMarked(cell, Checkpoint, x, z, px, py, ids.checkpoint);
    var traps, trapId := PlaceIfMarked(cell, Trap, x, z, px, py, ids.trap);
    var goals, goalId := PlaceIfMarked(cell, Goal, x, z, px, py, ids.goal);
    var swamps, swampId := PlaceIfMarked(cell, Swamp, x, z, px, py, ids.swamp);
    var isTile := cell.checkpoint || cell.trap || cell.goal || cell.swamp;
    var white := [];
    if !isTile {
      white := [Directive(WhiteTile, x, z, Position(px, py))];
    }
    pieces := checkpoints + traps + goals + swamps + white;
    next := TileIds(ids.tile + 1, checkId, trapId, goalId, swampId);
    PlaceTileKinds(cell, x, z, Position(px, py));
  }

  /** One pass of the inner loop of `makeFile`: the cell's edge walls, then its tile
      pieces, at the base position computed from the grid's offsets. */
  method PlaceCell(walls: Grid, x: int, z: int, startX: int, startZ: int, ids: TileIds)
    returns (pieces: seq<Directive>, next: TileIds)
    requires WellFormed(walls) && InGrid(walls, x, z)
    requires startX + Width(walls) == 0 && startZ + Height(walls) == 0
    ensures pieces == CellPieces(walls, x, z)
    ensures next == Bump(ids, walls[z][x])
  {
    var px, py := 2 * x + startX, -(2 * z + startZ);
    var walled := PlaceEdgeWalls(walls[z][x], x, z, px, py);
    var tiles;
    tiles, next := PlaceTile(walls[z][x], x, z, px, py, ids);
    CellPiecesSplit(walls, x, z);
    pieces := walled + tiles;
  }

  /** The inner loop of `makeFile` for column `x`: every cell from the top row down,
      each placing its edge walls and then its tile pieces. `startX` and `startZ`
      are the grid's offsets from the origin, in eighths. */
  method PlaceColumn(walls: Grid, x: int, startX: int, startZ: int, ids: TileIds)
    returns (pieces: seq<Directive>, next: TileIds)
    requires WellFormed(walls) && 0 <= x < Width(walls)
    requires startX + Width(walls) == 0 && startZ + Height(walls) == 0
    ensures pieces == ColumnPieces(walls, x)
    ensures next == TileIds(ids.tile + Height(walls),
                            ids.checkpoint + ColumnMarked(walls, Checkpoint, x, Height(walls)),
                            ids.trap + ColumnMarked(walls, Trap, x, Height(walls)),
                            ids.goal + ColumnMarked(walls, Goal, x, Height(walls)),
                            ids.swamp + ColumnMarked(walls, Swamp, x, Height(walls)))
  {
    pieces, next := [], ids;
    var z := 0;
    while z < |walls|
      invariant 0 <= z <= Height(walls)
      invariant pieces == Joined(ColumnCells(walls, x), z)
      invariant next.tile == ids.tile + z
      invariant next.checkpoint == ids.checkpoint + ColumnMarked(walls, Checkpoint, x, z)
      invariant next.trap == ids.trap + ColumnMarked(walls, Trap, x, z)
      invariant next.goal == ids.goal + ColumnMarked(walls, Goal, x, z)
      invariant next.swamp == ids.swamp + ColumnMarked(walls, Swamp, x, z)
    {
      var cell;
      cell, next := PlaceCell(walls, x, z, startX, startZ, next);
      JoinedSnoc(ColumnCells(walls, x), z);
      pieces := pieces + cell;
      z := z + 1;
    }
    assert z == Height(walls);
  }

  /** `makeFile`: the grid walk, x outer and z inner, then the obstacle loop. The
      counters end at the number of cells and at the number of cells carrying each
      marker. */
  method MakeFile(walls: Grid, obstacles: seq<Obstacle>)
    returns (placed: seq<Directive>, ids: TileIds, routes: seq<Route>, obstacleId: nat, debrisId: nat)
    requires WellFormed(walls)
    ensures placed == Placements(walls)
    ensures ids.tile == Width(walls) * Height(walls)
    ensures ids.checkpoint == MarkedCount(walls, Checkpoint) && ids.trap == MarkedCount(walls, Trap)
    ensures ids.goal == MarkedCount(walls, Goal) && ids.swamp == MarkedCount(walls, Swamp)
    ensures |routes| == |obstacles| && forall i :: 0 <= i < |obstacles| ==> routes[i] == RouteOf(obstacles, i)
    ensures debrisId == DebrisCount(obstacles) && obstacleId + debrisId == |obstacles|
  {
    var width, height := |walls[0]|, |walls|;
    var startX, startZ := -width, -height;
    placed := [];
    ids := TileIds(0, 0, 0, 0, 0);
    var x := 0;
    while x < width
      invariant 0 <= x <= width
      invariant placed == Joined(GridColumns(walls), x)
      invariant ids.tile == x * height
      invariant ids.checkpoint == MarkedUpTo(walls, Checkpoint, x) && ids.trap == MarkedUpTo(walls, Trap, x)
      invariant ids.goal == MarkedUpTo(walls, Goal, x) && ids.swamp == MarkedUpTo(walls, Swamp, x)
    {
      var column;
      column, ids := PlaceColumn(walls, x, startX, startZ, ids);
      JoinedSnoc(GridColumns(walls), x);
      placed := placed + column;
      assert ids.tile == (x + 1) * height;
      x := x + 1;
    }
    assert x == Width(walls);
    routes, obstacleId, debrisId := ClassifyObstacles(obstacles);
  }

  // Properties of a single cell's placements

  /** Occurrences of piece `q` in a list of kinds. */
  function Occurrences(kinds: seq<Piece>, q: Piece): nat
  {
    if kinds == [] then 0 else (if kinds[0] == q then 1 else 0) + Occurrences(kinds[1..], q)
  }

  lemma {:induction false} OccurrencesAppend(a: seq<Piece>, b: seq<Piece>, q: Piece)
    ensures Occurrences(a + b, q) == Occurrences(a, q) + Occurrences(b, q)
  {
    if a == [] {
      assert a + b == b;
    } else {
      assert (a + b)[1..] == a[1..] + b;
      OccurrencesAppend(a[1..], b, q);
    }
  }

  /** A kind occurs in a list exactly when it is counted there at least once. */
  lemma {:induction false} OccursIff(kinds: seq<Piece>, q: Piece)
    ensures q in kinds <==> Occurrences(kinds, q) > 0
  {
    if kinds != [] {
      OccursIff(kinds[1..], q);
      assert kinds == [kinds[0]] + kinds[1..];
    }
  }

  /** Placing kinds keeps each piece's count. */
  lemma {:induction false} CountPlaced(kinds: seq<Piece>, x: int, z: int, b: Position, p: Piece)
    ensures CountPiece(Place(kinds, x, z, b), p) == Occurrences(kinds, p)
  {
    if kinds != [] {
      CountPlaced(kinds[1..], x, z, b, p);
    }
  }

  /** Four lists one after another count each piece as often as the four do together. */
  lemma OccurrencesOfFour(a: seq<Piece>, b: seq<Piece>, c: seq<Piece>, d: seq<Piece>, q: Piece)
    ensures Occurrences(a + b + c + d, q) == Occurrences(a, q) + Occurrences(b, q) + Occurrences(c, q) + Occurrences(d, q)
  {
    OccurrencesAppend(a, b, q);
    OccurrencesAppend(a + b, c, q);
    OccurrencesAppend(a + b + c, d, q);
  }

  /** A piece list of at most one element counts that element once and nothing else. */
  lemma OptionalCount(flag: bool, p: Piece, q: Piece)
    ensures Occurrences(if flag then [p] else [], q) == if flag && p == q then 1 else 0
  {
    if flag {
      assert [p][1..] == [];
    }
  }

  /** How often piece `q` appears among a cell's edge-wall kinds: once for each
      set side flag whose wall piece it is. */
  lemma WallKindsCountOf(w: Sides, q: Piece)
    ensures Occurrences(WallKinds(w), q)
         == (if w.top && q == TopWall then 1 else 0) + (if w.right && q == RightWall then 1 else 0)
          + (if w.bottom && q == BottomWall then 1 else 0) + (if w.left && q == LeftWall then 1 else 0)
  {
    OccurrencesOfFour(if w.top then [TopWall] else [], if w.right then [RightWall] else [],
                      if w.bottom then [BottomWall] else [], if w.left then [LeftWall] else [], q);
    OptionalCount(w.top, TopWall, q);
    OptionalCount(w.right, RightWall, q);
    OptionalCount(w.bottom, BottomWall, q);
    OptionalCount(w.left, LeftWall, q);
  }

  /** A marker's chunk of a cell's tile kinds: its pieces once when it is set. */
  lemma MarkerChunkCount(t: Tile, m: Marker, q: Piece)
    ensures Occurrences(IfMarked(t, m), q)
         == if Marked(t, m) && (q == MarkerPiece(m) || (m == Goal && (q == Robot || q == GameManager))) then 1 else 0
  {
    OptionalCount(Marked(t, m), MarkerPiece(m), q);
    if Marked(t, m) && m == Goal {
      OptionalCount(true, StartTile, q);
      OptionalCount(true, Robot, q);
      OptionalCount(true, GameManager, q);
      OccurrencesAppend([StartTile], [Robot], q);
      OccurrencesAppend([StartTile, Robot], [GameManager], q);
      assert IfMarked(t, m) == [StartTile, Robot] + [GameManager];
    }
  }

  lemma TileKindsSplit(t: Tile, q: Piece)
    ensures Occurrences(TileKinds(t), q)
         == Occurrences(IfMarked(t, Checkpoint), q) + Occurrences(IfMarked(t, Trap), q) + Occurrences(IfMarked(t, Goal), q)
          + Occurrences(IfMarked(t, Swamp), q) + Occurrences(if Unmarked(t) then [WhiteTile] else [], q)
  {
    var c, h, g, s, w := IfMarked(t, Checkpoint), IfMarked(t, Trap), IfMarked(t, Goal), IfMarked(t, Swamp),
                         if Unmarked(t) then [WhiteTile] else [];
    OccurrencesAppend(c, h, q);
    OccurrencesAppend(c + h, g, q);
    OccurrencesAppend(c + h + g, s, q);
    OccurrencesAppend(c + h + g + s, w, q);
  }

  /** How often piece `q` appears among a cell's tile kinds: once for each set
      marker that places it, once more for the white tile of an unmarked cell. */
  lemma TileKindsCountOf(t: Tile, q: Piece)
    ensures Occurrences(TileKinds(t), q)
         == (if t.checkpoint && q == CheckpointTile then 1 else 0)
          + (if t.trap && q == HoleTile then 1 else 0)
          + (if t.goal && q in {StartTile, Robot, GameManager} then 1 else 0)
          + (if t.swamp && q == SpeedBump then 1 else 0)
          + (if Unmarked(t) && q == WhiteTile then 1 else 0)
  {
    TileKindsSplit(t, q);
    MarkerChunkCount(t, Checkpoint, q);
    MarkerChunkCount(t, Trap, q);
    MarkerChunkCount(t, Goal, q);
    MarkerChunkCount(t, Swamp, q);
    OptionalCount(Unmarked(t), WhiteTile, q);
  }

  /** How often piece `q` is placed for a tile: once for each set side flag whose
      wall it is, once for each set marker that places it, and once more if it is
      the white tile of an unmarked tile. */
  lemma CellKindsCountOf(t: Tile, q: Piece)
    ensures Occurrences(CellKinds(t), q)
         == (if t.edgeWalls.top && q == TopWall then 1 else 0) + (if t.edgeWalls.right && q == RightWall then 1 else 0)
          + (if t.edgeWalls.bottom && q == BottomWall then 1 else 0) + (if t.edgeWalls.left && q == LeftWall then 1 else 0)
          + (if t.checkpoint && q == CheckpointTile then 1 else 0)
          + (if t.trap && q == HoleTile then 1 else 0)
          + (if t.goal && q in {StartTile, Robot, GameManager} then 1 else 0)
          + (if t.swamp && q == SpeedBump then 1 else 0)
          + (if Unmarked(t) && q == WhiteTile then 1 else 0)
  {
    OccurrencesAppend(WallKinds(t.edgeWalls), TileKinds(t), q);
    WallKindsCountOf(t.edgeWalls, q);
    TileKindsCountOf(t, q);
  }

  /** A cell's directives hold each piece as often as its kinds do. */
  lemma CellCount(walls: Grid, x: int, z: int, q: Piece)
    requires WellFormed(walls) && InGrid(walls, x, z)
    ensures CountPiece(CellPieces(walls, x, z), q) == Occurrences(CellKinds(walls[z][x]), q)
  {
    CountPlaced(CellKinds(walls[z][x]), x, z, Base(walls, x, z), q);
  }

  lemma WallKindsAreWalls(w: Sides)
    ensures forall i :: 0 <= i < |WallKinds(w)| ==> IsWall(WallKinds(w)[i])
  {
    forall i | 0 <= i < |WallKinds(w)|
      ensures IsWall(WallKinds(w)[i])
    {
      var k := WallKinds(w)[i];
      OccursIff(WallKinds(w), k);
      WallKindsCountOf(w, k);
    }
  }

  lemma TileKindsAreNoWalls(t: Tile)
    ensures forall i :: 0 <= i < |TileKinds(t)| ==> !IsWall(TileKinds(t)[i])
  {
    forall i | 0 <= i < |TileKinds(t)|
      ensures !IsWall(TileKinds(t)[i])
    {
      var k := TileKinds(t)[i];
      OccursIff(TileKinds(t), k);
      TileKindsCountOf(t, k);
    }
  }

  /** Placing walls followed by non-walls puts every wall before every non-wall. */
  lemma WallsLead(wk: seq<Piece>, tk: seq<Piece>, x: int, z: int, b: Position)
    requires forall i :: 0 <= i < |wk| ==> IsWall(wk[i])
    requires forall i :: 0 <= i < |tk| ==> !IsWall(tk[i])
    ensures var ds := Place(wk + tk, x, z, b);
      forall i, j :: 0 <= i < j < |ds| && IsWall(ds[j].piece) ==> IsWall(ds[i].piece)
  {
    var ds := Place(wk + tk, x, z, b);
    PlaceAt(wk + tk, x, z, b);
    forall i, j | 0 <= i < j < |ds| && IsWall(ds[j].piece)
      ensures IsWall(ds[i].piece)
    {
      assert i < |wk|;
      assert (wk + tk)[i] == wk[i];
    }
  }

  /** A placed kind shows up as a directive at its offset. */
  lemma PlaceMember(kinds: seq<Piece>, k: Piece, x: int, z: int, b: Position)
    requires k in kinds
    ensures Directive(k, x, z, Offset(k, b)) in Place(kinds, x, z, b)
  {
    var i :| 0 <= i < |kinds| && kinds[i] == k;
    PlaceAt(kinds, x, z, b);
    assert Place(kinds, x, z, b)[i] == Directive(k, x, z, Offset(k, b));
  }

  /** A cell's edge walls come before any of its tile pieces; the floor flag plays
      no part. */
  lemma EdgeWallsFirst(walls: Grid, x: int, z: int)
    requires WellFormed(walls) && InGrid(walls, x, z)
    ensures var cp := CellPieces(walls, x, z);
      forall i, j :: 0 <= i < j < |cp| && IsWall(cp[j].piece) ==> IsWall(cp[i].piece)
  {
    var t := walls[z][x];
    WallKindsAreWalls(t.edgeWalls);
    TileKindsAreNoWalls(t);
    WallsLead(WallKinds(t.edgeWalls), TileKinds(t), x, z, Base(walls, x, z));
    assert CellPieces(walls, x, z) == Place(WallKinds(t.edgeWalls) + TileKinds(t), x, z, Base(walls, x, z));
  }

  /** One wall piece for each side whose flag is set and none for the others. */
  lemma EdgeWallPlacedPerFlag(walls: Grid, x: int, z: int, d: Dir)
    requires WellFormed(walls) && InGrid(walls, x, z)
    ensures CountPiece(CellPieces(walls, x, z), WallPiece(d)) == if walls[z][x].edgeWalls.Get(d) then 1 else 0
  {
    var w := walls[z][x].edgeWalls;
    CellCount(walls, x, z, WallPiece(d));
    CellKindsCountOf(walls[z][x], WallPiece(d));
    if d == 0 {
      assert WallPiece(d) == TopWall && w.Get(d) == w.top;
    } else if d == 1 {
      assert WallPiece(d) == RightWall && w.Get(d) == w.right;
    } else if d == 2 {
      assert WallPiece(d) == BottomWall && w.Get(d) == w.bottom;
    } else {
      assert WallPiece(d) == LeftWall && w.Get(d) == w.left;
    }
  }

  /** Each set marker places its own piece once, independently of the other markers;
      an unset one places none. */
  lemma MarkerPlacesItsPiece(walls: Grid, x: int, z: int, m: Marker)
    requires WellFormed(walls) && InGrid(walls, x, z)
    ensures CountPiece(CellPieces(walls, x, z), MarkerPiece(m)) == if Marked(walls[z][x], m) then 1 else 0
  {
    CellCount(walls, x, z, MarkerPiece(m));
    CellKindsCountOf(walls[z][x], MarkerPiece(m));
  }

  /** The white tile is placed exactly when the cell carries no marker. */
  lemma WhiteTileIffUnmarked(walls: Grid, x: int, z: int)
    requires WellFormed(walls) && InGrid(walls, x, z)
    ensures CountPiece(CellPieces(walls, x, z), WhiteTile) == if Unmarked(walls[z][x]) then 1 else 0
  {
    CellCount(walls, x, z, WhiteTile);
    CellKindsCountOf(walls[z][x], WhiteTile);
  }

  /** A goal cell also places the robot and the game manager; no other cell places
      either. */
  lemma GoalPlacesRobotAndManager(walls: Grid, x: int, z: int)
    requires WellFormed(walls) && InGrid(walls, x, z)
    ensures CountPiece(CellPieces(walls, x, z), Robot) == if walls[z][x].goal then 1 else 0
    ensures CountPiece(CellPieces(walls, x, z), GameManager) == if walls[z][x].goal then 1 else 0
  {
    CellCount(walls, x, z, Robot);
    CellCount(walls, x, z, GameManager);
    CellKindsCountOf(walls[z][x], Robot);
    CellKindsCountOf(walls[z][x], GameManager);
  }

  /** The robot goes at the goal cell's base position, the game manager at its
      fixed spot whatever the cell. */
  lemma GoalPiecePositions(walls: Grid, x: int, z: int)
    requires WellFormed(walls) && InGrid(walls, x, z) && walls[z][x].goal
    ensures Directive(Robot, x, z, Base(walls, x, z)) in CellPieces(walls, x, z)
    ensures Directive(GameManager, x, z, ManagerPosition) in CellPieces(walls, x, z)
  {
    var t, b := walls[z][x], Base(walls, x, z);
    CellKindsCountOf(t, Robot);
    CellKindsCountOf(t, GameManager);
    OccursIff(CellKinds(t), Robot);
    OccursIff(CellKinds(t), GameManager);
    PlaceMember(CellKinds(t), Robot, x, z, b);
    PlaceMember(CellKinds(t), GameManager, x, z, b);
  }

  // Properties of the whole walk

  /** Joining one more stream appends it. */
  lemma JoinedSnoc(parts: seq<seq<Directive>>, n: nat)
    requires n < |parts|
    ensures Joined(parts, n + 1) == Joined(parts, n) + parts[n]
  {
    assert parts[..n + 1][..n] == parts[..n];
  }

  lemma {:induction false} CountPieceAppend(a: seq<Directive>, b: seq<Directive>, p: Piece)
    ensures CountPiece(a + b, p) == CountPiece(a, p) + CountPiece(b, p)
  {
    if a == [] {
      assert a + b == b;
    } else {
      assert (a + b)[1..] == a[1..] + b;
      CountPieceAppend(a[1..], b, p);
    }
  }

  lemma {:induction false} ColumnMarkerCount(walls: Grid, m: Marker, x: int, n: nat)
    requires WellFormed(walls) && 0 <= x < Width(walls) && n <= Height(walls)
    ensures CountPiece(Joined(ColumnCells(walls, x), n), MarkerPiece(m)) == ColumnMarked(walls, m, x, n)
  {
    if n > 0 {
      var cells := ColumnCells(walls, x);
      JoinedSnoc(cells, n - 1);
      ColumnMarkerCount(walls, m, x, n - 1);
      CountPieceAppend(Joined(cells, n - 1), cells[n - 1], MarkerPiece(m));
      MarkerPlacesItsPiece(walls, x, n - 1, m);
    }
  }

  /** A column places one marker piece per cell of the column carrying that marker. */
  lemma ColumnCount(walls: Grid, m: Marker, x: int)
    requires WellFormed(walls) && 0 <= x < Width(walls)
    ensures CountPiece(ColumnPieces(walls, x), MarkerPiece(m)) == ColumnMarked(walls, m, x, Height(walls))
  {
    ColumnMarkerCount(walls, m, x, Height(walls));
  }

  /** The sum of the first `n` of `counts`. */
  function Total(counts: seq<nat>, n: nat): nat
    requires n <= |counts|
  {
    if n == 0 then 0 else Total(counts, n - 1) + counts[n - 1]
  }

  /** Counting a piece over a run of streams adds up the counts of each stream. */
  lemma {:induction false} CountJoined(parts: seq<seq<Directive>>, counts: seq<nat>, n: nat, p: Piece)
    requires n <= |parts| == |counts|
    requires forall i :: 0 <= i < |parts| ==> CountPiece(parts[i], p) == counts[i]
    ensures CountPiece(Joined(parts, n), p) == Total(counts, n)
  {
    if n > 0 {
      JoinedSnoc(parts, n - 1);
      CountJoined(parts, counts, n - 1, p);
      CountPieceAppend(Joined(parts, n - 1), parts[n - 1], p);
    }
  }

  /** Adding up the per-column marker counts gives the marked cells of those columns. */
  lemma {:induction false} TotalMarked(walls: Grid, m: Marker, counts: seq<nat>, c: nat)
    requires WellFormed(walls) && c <= Width(walls) == |counts|
    requires forall x :: 0 <= x < |counts| ==> counts[x] == ColumnMarked(walls, m, x, Height(walls))
    ensures Total(counts, c) == MarkedUpTo(walls, m, c)
  {
    if c > 0 {
      TotalMarked(walls, m, counts, c - 1);
    }
  }

  /** The final value of each marker counter is the number of that marker's pieces
      in the placement stream. */
  lemma MarkerCounterCountsPieces(walls: Grid, m: Marker)
    requires WellFormed(walls)
    ensures CountPiece(Placements(walls), MarkerPiece(m)) == MarkedCount(walls, m)
  {
    var cols := GridColumns(walls);
    var counts := seq(Width(walls), x requires 0 <= x < Width(walls) => ColumnMarked(walls, m, x, Height(walls)));
    forall x | 0 <= x < Width(walls)
      ensures CountPiece(cols[x], MarkerPiece(m)) == counts[x]
    {
      ColumnCount(walls, m, x);
    }
    CountJoined(cols, counts, Width(walls), MarkerPiece(m));
    TotalMarked(walls, m, counts, Width(walls));
  }

  /** Joining two column-major streams, the first wholly before the second, keeps the order. */
  lemma JoinColumnMajor(a: seq<Directive>, b: seq<Directive>)
    requires ColumnMajor(a) && ColumnMajor(b)
    requires forall i, j :: 0 <= i < |a| && 0 <= j < |b| ==> Precedes(a[i], b[j])
    ensures ColumnMajor(a + b)
  {
    forall i, j | 0 <= i < j < |a + b|
      ensures Precedes((a + b)[i], (a + b)[j])
    {
      if j < |a| {
        assert (a + b)[i] == a[i] && (a + b)[j] == a[j];
      } else if i >= |a| {
        assert (a + b)[i] == b[i - |a|] && (a + b)[j] == b[j - |a|];
      } else {
        assert (a + b)[i] == a[i] && (a + b)[j] == b[j - |a|];
      }
    }
  }

  lemma JoinWithin(a: seq<Directive>, b: seq<Directive>, xlo: int, xhi: int, zhi: int)
    requires Within(a, xlo, xhi, zhi) && Within(b, xlo, xhi, zhi)
    ensures Within(a + b, xlo, xhi, zhi)
  {
    forall i | 0 <= i < |a + b|
      ensures xlo <= (a + b)[i].x < xhi && 0 <= (a + b)[i].z < zhi
    {
      if i < |a| {
        assert (a + b)[i] == a[i];
      } else {
        assert (a + b)[i] == b[i - |a|];
      }
    }
  }

  /** Streams that are each in column-major order, every one wholly before the
      next, join into a column-major stream. */
  lemma {:induction false} JoinedColumnMajor(parts: seq<seq<Directive>>, n: nat)
    requires n <= |parts|
    requires forall i :: 0 <= i < |parts| ==> ColumnMajor(parts[i])
    requires forall i, j, a, b :: 0 <= i < j < |parts| && 0 <= a < |parts[i]| && 0 <= b < |parts[j]|
               ==> Precedes(parts[i][a], parts[j][b])
    ensures ColumnMajor(Joined(parts, n))
  {
    if n > 0 {
      var a, b := Joined(parts, n - 1), parts[n - 1];
      JoinedSnoc(parts, n - 1);
      JoinedColumnMajor(parts, n - 1);
      forall j | 0 <= j < |b|
        ensures forall i :: 0 <= i < |a| ==> Precedes(a[i], b[j])
      {
        JoinedPrecedes(parts, n - 1, b[j]);
      }
      JoinColumnMajor(a, b);
    }
  }

  /** A directive that every element of the first `n` streams precedes is
      preceded by every element of their join. */
  lemma {:induction false} JoinedPrecedes(parts: seq<seq<Directive>>, n: nat, d: Directive)
    requires n <= |parts|
    requires forall k, e :: 0 <= k < n && 0 <= e < |parts[k]| ==> Precedes(parts[k][e], d)
    ensures forall i :: 0 <= i < |Joined(parts, n)| ==> Precedes(Joined(parts, n)[i], d)
  {
    if n > 0 {
      var a, b := Joined(parts, n - 1), parts[n - 1];
      JoinedSnoc(parts, n - 1);
      JoinedPrecedes(parts, n - 1, d);
      forall i | 0 <= i < |a + b|
        ensures Precedes((a + b)[i], d)
      {
        if i < |a| {
          assert (a + b)[i] == a[i];
        } else {
          assert (a + b)[i] == b[i - |a|];
        }
      }
    }
  }

  /** A run of streams that each lie within a box lies within it too. */
  lemma {:induction false} JoinedWithin(parts: seq<seq<Directive>>, n: nat, xlo: int, xhi: int, zhi: int)
    requires n <= |parts|
    requires forall i :: 0 <= i < |parts| ==> Within(parts[i], xlo, xhi, zhi)
    ensures Within(Joined(parts, n), xlo, xhi, zhi)
  {
    if n > 0 {
      JoinedSnoc(parts, n - 1);
      JoinedWithin(parts, n - 1, xlo, xhi, zhi);
      JoinWithin(Joined(parts, n - 1), parts[n - 1], xlo, xhi, zhi);
    }
  }

  /** A column's placements run from the top row down and stay in that column. */
  lemma ColumnOrder(walls: Grid, x: int)
    requires WellFormed(walls) && 0 <= x < Width(walls)
    ensures ColumnMajor(ColumnPieces(walls, x))
    ensures Within(ColumnPieces(walls, x), x, x + 1, Height(walls))
  {
    var cells := ColumnCells(walls, x);
    forall i | 0 <= i < |cells|
      ensures AllAt(cells[i], x, i)
    {
      CellPiecesAllAt(walls, x, i);
    }
    assert forall i :: 0 <= i < |cells| ==> ColumnMajor(cells[i]) && Within(cells[i], x, x + 1, Height(walls));
    JoinedColumnMajor(cells, |cells|);
    JoinedWithin(cells, |cells|, x, x + 1, Height(walls));
  }

  /** The placement stream runs in column-major order (x outer, z inner) and only
      over cells of the grid. */
  lemma PlacementsColumnMajor(walls: Grid)
    requires WellFormed(walls)
    ensures ColumnMajor(Placements(walls))
    ensures forall i :: 0 <= i < |Placements(walls)| ==> InGrid(walls, Placements(walls)[i].x, Placements(walls)[i].z)
  {
    var cols := GridColumns(walls);
    forall i | 0 <= i < |cols|
      ensures ColumnMajor(cols[i]) && Within(cols[i], i, i + 1, Height(walls))
    {
      ColumnOrder(walls, i);
    }
    assert forall i :: 0 <= i < |cols| ==> Within(cols[i], 0, Width(walls), Height(walls));
    JoinedColumnMajor(cols, |cols|);
    JoinedWithin(cols, |cols|, 0, Width(walls), Height(walls));
  }

  lemma {:induction false} PiecesAtAppend(a: seq<Directive>, b: seq<Directive>, x: int, z: int)
    ensures PiecesAt(a + b, x, z) == PiecesAt(a, x, z) + PiecesAt(b, x, z)
  {
    if a == [] {
      assert a + b == b;
    } else {
      assert (a + b)[1..] == a[1..] + b;
      PiecesAtAppend(a[1..], b, x, z);
    }
  }

  /** Picking the placements of one cell keeps a stream that wholly belongs to it
      and drops one that wholly belongs to another cell. */
  lemma {:induction false} PiecesAtUniform(ds: seq<Directive>, x: int, z: int, cx: int, cz: int)
    requires AllAt(ds, x, z)
    ensures PiecesAt(ds, cx, cz) == if cx == x && cz == z then ds else []
  {
    if ds != [] {
      PiecesAtUniform(ds[1..], x, z, cx, cz);
      assert ds == [ds[0]] + ds[1..];
    }
  }

  lemma EmptyUnit(s: seq<Directive>)
    ensures s + [] == s && [] + s == s
  {
  }

  /** Picking one cell's placements out of a run of streams none of which holds
      any yields nothing. */
  lemma {:induction false} PickNone(parts: seq<seq<Directive>>, n: nat, cx: int, cz: int)
    requires n <= |parts|
    requires forall i :: 0 <= i < n ==> PiecesAt(parts[i], cx, cz) == []
    ensures PiecesAt(Joined(parts, n), cx, cz) == []
  {
    if n > 0 {
      JoinedSnoc(parts, n - 1);
      PickNone(parts, n - 1, cx, cz);
      PiecesAtAppend(Joined(parts, n - 1), parts[n - 1], cx, cz);
    }
  }

  /** Picking one cell's placements out of a run of streams, only the `k`-th of
      which holds any, yields exactly those of the `k`-th. */
  lemma {:induction false} PickOne(parts: seq<seq<Directive>>, n: nat, cx: int, cz: int, k: nat)
    requires k < n <= |parts|
    requires forall i :: 0 <= i < n && i != k ==> PiecesAt(parts[i], cx, cz) == []
    ensures PiecesAt(Joined(parts, n), cx, cz) == PiecesAt(parts[k], cx, cz)
  {
    var a, b := Joined(parts, n - 1), parts[n - 1];
    JoinedSnoc(parts, n - 1);
    PiecesAtAppend(a, b, cx, cz);
    if k == n - 1 {
      PickNone(parts, n - 1, cx, cz);
      EmptyUnit(PiecesAt(b, cx, cz));
    } else {
      PickOne(parts, n - 1, cx, cz, k);
      EmptyUnit(PiecesAt(a, cx, cz));
    }
  }

  /** A column holds the placements of its own cells and of no other. */
  lemma ColumnPiecesAt(walls: Grid, x: int, cx: int, cz: int)
    requires WellFormed(walls) && 0 <= x < Width(walls) && InGrid(walls, cx, cz)
    ensures PiecesAt(ColumnPieces(walls, x), cx, cz) == if cx == x then CellPieces(walls, cx, cz) else []
  {
    var cells := ColumnCells(walls, x);
    forall i | 0 <= i < |cells|
      ensures PiecesAt(cells[i], cx, cz) == if cx == x && i == cz then cells[i] else []
    {
      CellPiecesAllAt(walls, x, i);
      PiecesAtUniform(cells[i], x, i, cx, cz);
    }
    if cx == x {
      PickOne(cells, |cells|, cx, cz, cz);
    } else {
      PickNone(cells, |cells|, cx, cz);
    }
  }

  /** Every cell is visited exactly once: the placements tagged with a cell are
      precisely that cell's pieces, in their own order. */
  lemma EachCellPlacedOnce(walls: Grid, x: int, z: int)
    requires WellFormed(walls) && InGrid(walls, x, z)
    ensures PiecesAt(Placements(walls), x, z) == CellPieces(walls, x, z)
  {
    var cols := GridColumns(walls);
    forall i | 0 <= i < |cols|
      ensures PiecesAt(cols[i], x, z) == if i == x then CellPieces(walls, x, z) else []
    {
      ColumnPiecesAt(walls, i, x, z);
    }
    PickOne(cols, |cols|, x, z, x);
  }
}
