/** The maze sketch's grid of walls (src/bin/maze/maze.rs): one wall per
    cell in row-major order, a hover highlight that follows the mouse, and a
    click that flips the wall under the mouse. The walls are cells of a
    vector updated in place; every method is proved against the value-level
    functions on `WallState` sequences below. */
module Mazes {
  import opened Geometry
  import opened MazeParameters
  import opened Walls
  import Seqs

  // ---- the grid ------------------------------------------------------------

  /** The cell positions in the order `new` visits them: row `y` from 0 to
      `rows`, and within it column `x` from 0 to `columns`. */
  function GridPositions(rows: nat, columns: nat): seq<Vec2> {
    Seqs.Flatten(GridRows(rows, columns))
  }

  function GridRows(rows: nat, columns: nat): (r: seq<seq<Vec2>>)
    ensures |r| == rows
    ensures forall y :: 0 <= y < rows ==> |r[y]| == columns
  {
    seq(rows, y requires 0 <= y < rows => seq(columns, x requires 0 <= x < columns => Vec2(x as real, y as real)))
  }

  /** Row-major layout: position `k` is column `k mod columns` of row
      `k div columns`. */
  lemma GridPositionAt(rows: nat, columns: nat, k: nat)
    requires k < rows * columns
    ensures |GridPositions(rows, columns)| == rows * columns
    ensures GridPositions(rows, columns)[k] == Vec2((k % columns) as real, (k / columns) as real)
  {
    RowOf(rows, columns, k);
    Seqs.FlattenAt(GridRows(rows, columns), columns, k / columns, k % columns);
  }

  /** Index `k` of a `rows` by `columns` grid lies in row `k div columns`,
      below `rows`. */
  lemma RowOf(rows: nat, columns: nat, k: nat)
    requires k < rows * columns
    ensures columns > 0 && k / columns < rows
    ensures k == (k / columns) * columns + k % columns
  {
    assert columns > 0;
    MulMonotone(rows, k / columns, columns);
  }

  lemma MulMonotone(a: nat, b: nat, c: nat)
    ensures a <= b ==> a * c <= b * c
  {
  }

  /** No two walls of a fresh grid share a cell. */
  lemma GridPositionsDistinct(rows: nat, columns: nat, i: nat, j: nat)
    requires i < j < rows * columns
    ensures |GridPositions(rows, columns)| == rows * columns
    ensures GridPositions(rows, columns)[i] != GridPositions(rows, columns)[j]
  {
    GridPositionAt(rows, columns, i);
    GridPositionAt(rows, columns, j);
    RowOf(rows, columns, i);
    RowOf(rows, columns, j);
  }

  /** The walls `new` and `new_walls_from_rng` build: one per position, with
      the generator's kind for it, none hovered. */
  function Fresh(p: MazeParams, kinds: seq<WallKind>): (r: seq<WallState>)
    requires |kinds| == p.rows * p.columns
    ensures |r| == p.rows * p.columns
  {
    Seqs.FlattenLength(GridRows(p.rows, p.columns), p.columns);
    var positions := GridPositions(p.rows, p.columns);
    seq(|positions|, k requires 0 <= k < |positions| => WallState(positions[k], kinds[k], false))
  }

  /** Wall `k` of a fresh maze sits at `(k mod columns, k div columns)` with
      the `k`-th kind and is not hovered. */
  lemma FreshWall(p: MazeParams, kinds: seq<WallKind>, k: nat)
    requires |kinds| == p.rows * p.columns && k < p.rows * p.columns
    ensures Fresh(p, kinds)[k]
         == WallState(Vec2((k % p.columns) as real, (k / p.columns) as real), kinds[k], false)
  {
    GridPositionAt(p.rows, p.columns, k);
  }

  /** Every wall of a fresh maze has its cell inside the maze's `width()` by
      `height()`. */
  lemma FreshWallInsideMaze(p: MazeParams, kinds: seq<WallKind>, k: nat)
    requires |kinds| == p.rows * p.columns && k < p.rows * p.columns
    ensures CellInside(p, Fresh(p, kinds)[k].xy)
  {
    var column, row := k % p.columns, k / p.columns;
    RowOf(p.rows, p.columns, k);
    CellWithinMaze(p, column, row);
    FreshWall(p, kinds, k);
  }

  // ---- hover and flip, on values -------------------------------------------

  /** The first wall at `xy`, if any: the one `iter_mut().filter(..).next()`
      finds. */
  function FirstAt(ws: seq<WallState>, xy: Vec2): (r: Option<nat>)
    ensures r.Some? ==> r.value < |ws| && ws[r.value].xy == xy
    ensures r.Some? ==> forall j :: 0 <= j < r.value ==> ws[j].xy != xy
    ensures r.None? <==> forall j :: 0 <= j < |ws| ==> ws[j].xy != xy
  {
    if |ws| == 0 then None
    else if ws[0].xy == xy then Some(0)
    else
      match FirstAt(ws[1..], xy)
      case None => None
      case Some(i) => Some(i + 1)
  }

  /** `flip_wall_at` on values: the first wall at `xy` takes the other kind. */
  function FlipFirst(ws: seq<WallState>, xy: Vec2): seq<WallState> {
    match FirstAt(ws, xy)
    case None => ws
    case Some(i) => ws[i := ws[i].(kind := Flipped(ws[i].kind))]
  }

  /** Only the first wall at `xy` changes, and only in its kind; with no wall
      at `xy` nothing changes. */
  lemma FlipFirstChangesOne(ws: seq<WallState>, xy: Vec2)
    ensures |FlipFirst(ws, xy)| == |ws|
    ensures (forall j :: 0 <= j < |ws| ==> ws[j].xy != xy) ==> FlipFirst(ws, xy) == ws
    ensures forall j :: 0 <= j < |ws| && ws[j].xy == xy ==>
      exists i :: 0 <= i <= j && ws[i].xy == xy
        && FlipFirst(ws, xy)[i] == ws[i].(kind := Flipped(ws[i].kind))
        && (forall m :: 0 <= m < |ws| && m != i ==> FlipFirst(ws, xy)[m] == ws[m])
  {
  }

  /** Clicking the same cell twice restores the maze. */
  lemma FlipFirstTwice(ws: seq<WallState>, xy: Vec2)
    ensures FlipFirst(FlipFirst(ws, xy), xy) == ws
  {
    match FirstAt(ws, xy)
    case None =>
    case Some(i) =>
      var ws' := FlipFirst(ws, xy);
      assert forall j :: 0 <= j < |ws| ==> ws'[j].xy == ws[j].xy;
      FirstAtSamePositions(ws, ws', xy);
      FlippedInvolution(ws[i].kind);
      assert ws'[i := ws'[i].(kind := Flipped(ws'[i].kind))] == ws;
  }

  /** `FirstAt` only looks at positions. */
  lemma {:induction false} FirstAtSamePositions(ws: seq<WallState>, vs: seq<WallState>, xy: Vec2)
    requires |ws| == |vs| && forall j :: 0 <= j < |ws| ==> ws[j].xy == vs[j].xy
    ensures FirstAt(ws, xy) == FirstAt(vs, xy)
  {
    if |ws| > 0 && ws[0].xy != xy {
      FirstAtSamePositions(ws[1..], vs[1..], xy);
    }
  }

  /** The hover pass of `update`: a wall is hovered exactly when it sits at
      the mouse's cell. */
  function Hovered(ws: seq<WallState>, xy: Vec2): (r: seq<WallState>)
    ensures |r| == |ws|
  {
    seq(|ws|, k requires 0 <= k < |ws| => ws[k].(isHovered := ws[k].xy == xy))
  }

  /** Hovering changes only the hover flags, sets exactly the walls at the
      mouse's cell, and over distinct positions leaves at most one wall
      hovered. */
  lemma HoveredMarksCell(ws: seq<WallState>, xy: Vec2)
    ensures forall k :: 0 <= k < |ws| ==>
      Hovered(ws, xy)[k].isHovered == (ws[k].xy == xy)
      && Hovered(ws, xy)[k].xy == ws[k].xy && Hovered(ws, xy)[k].kind == ws[k].kind
    ensures DistinctPositions(ws) ==>
      forall i, j :: 0 <= i < j < |ws| ==> !(Hovered(ws, xy)[i].isHovered && Hovered(ws, xy)[j].isHovered)
  {
  }

  predicate DistinctPositions(ws: seq<WallState>) {
    forall i, j :: 0 <= i < j < |ws| ==> ws[i].xy != ws[j].xy
  }

  /** `update` on values: with no mouse cell nothing changes; otherwise the
      hover pass, then a flip at the mouse's cell if the button was just
      pressed. */
  function Updated(ws: seq<WallState>, mouse: Option<Vec2>, justPressed: bool): seq<WallState> {
    match mouse
    case None => ws
    case Some(xy) =>
      var hovered := Hovered(ws, xy);
      if justPressed then FlipFirst(hovered, xy) else hovered
  }

  /** After an update with the mouse over a cell, the walls at that cell are
      the hovered ones whatever the button did, positions never move, and a
      maze of distinct positions keeps at most one hovered wall. */
  lemma UpdatedHover(ws: seq<WallState>, xy: Vec2, justPressed: bool)
    ensures var r := Updated(ws, Some(xy), justPressed);
      && |r| == |ws|
      && (forall k :: 0 <= k < |ws| ==> r[k].xy == ws[k].xy && r[k].isHovered == (ws[k].xy == xy))
    ensures DistinctPositions(ws) ==> DistinctPositions(Updated(ws, Some(xy), justPressed))
  {
    var h := Hovered(ws, xy);
    HoveredMarksCell(ws, xy);
    FlipFirstChangesOne(h, xy);
    match FirstAt(h, xy)
    case None =>
    case Some(i) =>
  }

  // ---- the maze object ------------------------------------------------------

  ghost predicate Distinct(ws: seq<Wall>) {
    forall i, j :: 0 <= i < j < |ws| ==> ws[i] != ws[j]
  }

  /** The current states of a sequence of walls, in order. */
  function States(ws: seq<Wall>): (r: seq<WallState>)
    reads ws
    ensures |r| == |ws|
    ensures forall k :: 0 <= k < |ws| ==> r[k] == ws[k].State()
  {
    if |ws| == 0 then [] else States(ws[..|ws| - 1]) + [ws[|ws| - 1].State()]
  }

  /** The iterator build shared by `new` and `new_walls_from_rng`: one new
      wall per grid position, with the generator's kind for it. */
  method BuildWalls(p: MazeParams, kinds: seq<WallKind>) returns (walls: seq<Wall>)
    requires |kinds| == p.rows * p.columns
    ensures Distinct(walls) && forall k :: 0 <= k < |walls| ==> fresh(walls[k])
    ensures States(walls) == Fresh(p, kinds)
  {
    var positions := GridPositions(p.rows, p.columns);
    Seqs.FlattenLength(GridRows(p.rows, p.columns), p.columns);
    ghost var target := Fresh(p, kinds);
    walls := [];
    for k := 0 to |positions|
      invariant |walls| == k && Distinct(walls)
      invariant forall m :: 0 <= m < k ==> fresh(walls[m])
      invariant forall m :: 0 <= m < k ==> walls[m].State() == target[m]
    {
      var wall := new Wall(positions[k], kinds[k]);
      walls := walls + [wall];
    }
  }

  class Maze {
    var walls: seq<Wall>

    /** Each wall is its own cell of the vector. */
    ghost predicate Valid()
      reads this, walls
    {
      Distinct(walls)
    }

    /** `Maze::new`: `rows * columns` walls in row-major order, with the
        kinds the generator draws (one per wall, in order). */
    constructor (p: MazeParams, kinds: seq<WallKind>)
      requires |kinds| == p.rows * p.columns
      ensures Valid() && forall k :: 0 <= k < |walls| ==> fresh(walls[k])
      ensures States(walls) == Fresh(p, kinds)
    {
      var ws := BuildWalls(p, kinds);
      walls := ws;
    }

    /** `Default`: a maze without walls. */
    constructor Default()
      ensures Valid() && walls == []
    {
      walls := [];
    }

    /** `new_walls_from_rng`: the walls are replaced by a freshly built
        grid. */
    method NewWallsFromRng(p: MazeParams, kinds: seq<WallKind>)
      requires |kinds| == p.rows * p.columns
      modifies this
      ensures Valid() && forall k :: 0 <= k < |walls| ==> fresh(walls[k])
      ensures States(walls) == Fresh(p, kinds)
    {
      walls := BuildWalls(p, kinds);
    }

    /** `walls()`. */
    function Walls(): seq<Wall>
      reads this
    {
      walls
    }

    /** `flip_wall_at`: the first wall at `xy` flips; the vector keeps its
        cells. */
    method FlipWallAt(xy: Vec2)
      requires Valid()
      modifies walls
      ensures walls == old(walls)
      ensures States(walls) == FlipFirst(old(States(walls)), xy)
    {
      ghost var s0 := States(walls);
      var i := 0;
      while i < |walls| && walls[i].xy != xy
        invariant 0 <= i <= |walls|
        invariant forall j :: 0 <= j < i ==> s0[j].xy != xy
      {
        i := i + 1;
      }
      if i < |walls| {
        assert FirstAt(s0, xy) == Some(i);
        walls[i].Flip();
        assert States(walls) == s0[i := s0[i].(kind := Flipped(s0[i].kind))];
      } else {
        assert FirstAt(s0, xy) == None;
      }
    }

    /** `update`: with the mouse over a cell, every wall's hover flag is
        set to whether it sits there, and a fresh click flips the wall
        there. The sketch parameters the source also passes are unused. */
    method Update(mouse: Option<Vec2>, justPressed: bool)
      requires Valid()
      modifies walls
      ensures walls == old(walls)
      ensures States(walls) == Updated(old(States(walls)), mouse, justPressed)
    {
      if mouse.Some? {
        var xy := mouse.value;
        ghost var s0 := States(walls);
        for k := 0 to |walls|
          invariant forall m :: 0 <= m < k ==> walls[m].State() == Hovered(s0, xy)[m]
          invariant forall m :: k <= m < |walls| ==> walls[m].State() == s0[m]
        {
          walls[k].SetIsHovered(walls[k].xy == xy);
        }
        assert States(walls) == Hovered(s0, xy);
        if justPressed {
          FlipWallAt(xy);
        }
      }
    }
  }
}
