/** The maze sketch's parameters (src/bin/maze/params.rs): the size of one
    grid cell in pixels, the number of columns and rows, and the seed of
    the random generator. */
module MazeParameters {
  import opened Geometry

  datatype MazeParams = MazeParams(
    gridCellWidth: nat,
    gridCellHeight: nat,
    columns: nat,
    rows: nat,
    rngSeed: nat)

  const DefaultParams: MazeParams := MazeParams(
    gridCellWidth := 20, gridCellHeight := 20, columns := 55, rows := 40, rngSeed := 0)

  /** `width()`: the maze spans `columns` cells of `grid_cell_width`. */
  function Width(p: MazeParams): real {
    (p.gridCellWidth * p.columns) as real
  }

  /** `height()`: the maze spans `rows` cells of `grid_cell_height`. */
  function Height(p: MazeParams): real {
    (p.gridCellHeight * p.rows) as real
  }

  /** The defaults give a 1100 by 800 maze of 55 by 40 = 2200 cells. */
  lemma DefaultSize()
    ensures Width(DefaultParams) == 1100.0 && Height(DefaultParams) == 800.0
    ensures DefaultParams.rows * DefaultParams.columns == 2200
  {
  }

  /** The cell whose lower-left grid corner is `xy` lies inside the maze:
      `[x * gcw, (x + 1) * gcw]` within `[0, width()]` and
      `[y * gch, (y + 1) * gch]` within `[0, height()]`. */
  predicate CellInside(p: MazeParams, xy: Vec2) {
    && 0.0 <= xy.x * p.gridCellWidth as real
    && (xy.x + 1.0) * p.gridCellWidth as real <= Width(p)
    && 0.0 <= xy.y * p.gridCellHeight as real
    && (xy.y + 1.0) * p.gridCellHeight as real <= Height(p)
  }

  /** Every cell of the grid lies inside the maze. */
  lemma CellWithinMaze(p: MazeParams, column: nat, row: nat)
    requires column < p.columns && row < p.rows
    ensures CellInside(p, Vec2(column as real, row as real))
  {
    CellFits(column, p.columns, p.gridCellWidth);
    CellFits(row, p.rows, p.gridCellHeight);
  }

  lemma CellFits(i: nat, n: nat, size: nat)
    requires i < n
    ensures 0.0 <= i as real * size as real
    ensures (i as real + 1.0) * size as real <= (size * n) as real
  {
    assert (i + 1) * size <= n * size by {
      assert (n - (i + 1)) * size >= 0;
    }
    assert (i as real + 1.0) * size as real == ((i + 1) * size) as real;
    assert i as real * size as real == (i * size) as real;
  }
}
