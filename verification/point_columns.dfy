/** The point-columns sketch of the main binary: the layout of the
    line-groups sketch without smoothing, whose section widths are 125 times
    a draw from `[0.3, 1.2)`. The draws are an input sequence, consumed
    column by column and, within a column, height by height. */
module PointColumns {
  import opened Geometry
  import LineGroups
  import Seqs

  /** `PointColumnParams` of the main binary (`noise_seed` only seeds the
      random draws, which are an input here). */
  datatype Params = Params(
    columnSpacing: real,
    height: real,
    linesPerColumn: nat,
    noiseSeed: nat,
    numberOfColumns: nat,
    pointsPerLine: nat,
    verticalJitter: real,
    width: real,
    columnAlignment: real)

  /** `PointColumnParams::default()`. */
  const Default: Params := Params(80.0, 1000.0, 16, 0, 8, 16, 0.0, 1000.0, 0.0)

  /** The width of one section: 125 times its draw. */
  function SectionWidth(draw: real): real { 125.0 * draw }

  /** A draw in `[0.3, 1.2)`, as `gen_range(0.3..1.2)` yields it, gives a
      section between 37.5 and 150 wide. */
  lemma SectionWidthRange(draw: real)
    requires 0.3 <= draw < 1.2
    ensures 37.5 <= SectionWidth(draw) < 150.0
  {
  }

  /** The section widths of one column, one per draw. */
  function SectionWidths(draws: seq<real>): seq<real> {
    seq(|draws|, k requires 0 <= k < |draws| => SectionWidth(draws[k]))
  }

  /** The layout of a column's lines. */
  function Layout(originX: real, originY: real, p: Params): LineGroups.Layout {
    LineGroups.Layout(originX, originY, LineGroups.VerticalSpacing(p.height, p.pointsPerLine),
                      p.linesPerColumn, p.columnAlignment)
  }

  /** The lines of one column, from its origin and its `points_per_line`
      draws. */
  function Column(originX: real, originY: real, p: Params, draws: seq<real>): seq<seq<Vec2>>
    requires |draws| == p.pointsPerLine
  {
    seq(p.linesPerColumn, l requires 0 <= l < p.linesPerColumn =>
      LineGroups.Line(SectionWidths(draws), l, Layout(originX, originY, p)))
  }

  /** `generate_point_column`: first one section width per height, from the
      draws, then the lines, point by point. */
  method GeneratePointColumn(originX: real, originY: real, params: Params, draws: seq<real>)
    returns (lines: seq<seq<Vec2>>)
    requires |draws| == params.pointsPerLine
    ensures lines == Column(originX, originY, params, draws)
  {
    var verticalSpacing := LineGroups.VerticalSpacing(params.height, params.pointsPerLine);
    var columnSectionWidths: seq<real> := [];
    for i := 0 to params.pointsPerLine
      invariant |columnSectionWidths| == i
      invariant forall k :: 0 <= k < i ==> columnSectionWidths[k] == SectionWidth(draws[k])
    {
      var columnSectionWidth := 125.0 * draws[i];
      columnSectionWidths := columnSectionWidths + [columnSectionWidth];
    }
    assert columnSectionWidths == SectionWidths(draws);
    ghost var lay := Layout(originX, originY, params);
    lines := [];
    for lineIndex := 0 to params.linesPerColumn
      invariant |lines| == lineIndex
      invariant forall l :: 0 <= l < lineIndex ==> lines[l] == LineGroups.Line(columnSectionWidths, l, lay)
    {
      var line: seq<Vec2> := [];
      for pointIndex := 0 to params.pointsPerLine
        invariant |line| == pointIndex
        invariant forall k :: 0 <= k < pointIndex ==>
          line[k] == LineGroups.LinePoint(columnSectionWidths, lineIndex, k, lay)
      {
        var columnWidth := columnSectionWidths[pointIndex];
        var lineSpacing := lineIndex as real * (columnWidth / params.linesPerColumn as real);
        var halfWidth := (columnWidth / 2.0) * (params.columnAlignment - 1.0);
        var x := lineSpacing + originX + halfWidth;
        var y := pointIndex as real * verticalSpacing + originY;
        assert Vec2(x, y) == LineGroups.LinePoint(columnSectionWidths, lineIndex, pointIndex, lay);
        line := line + [Vec2(x, y)];
      }
      assert line == LineGroups.Line(columnSectionWidths, lineIndex, lay);
      lines := lines + [line];
    }
  }

  /** Every column of the sketch, in order. */
  function AllColumns(p: Params, draws: seq<real>): (r: seq<seq<seq<Vec2>>>)
    requires |draws| == p.numberOfColumns * p.pointsPerLine
    ensures |r| == p.numberOfColumns
  {
    seq(p.numberOfColumns, c requires 0 <= c < p.numberOfColumns =>
      Column(LineGroups.ColumnOrigin(p.width, p.columnSpacing, p.numberOfColumns, c), p.height * -0.5, p,
             LineGroups.ColumnDraws(draws, p.pointsPerLine, p.numberOfColumns, c)))
  }

  /** The lines `generate_point_columns` returns. */
  function PointColumns(p: Params, draws: seq<real>): seq<seq<Vec2>>
    requires |draws| == p.numberOfColumns * p.pointsPerLine
  {
    Seqs.Flatten(AllColumns(p, draws))
  }

  /** `generate_point_columns`: the columns left to right, each from its own
      run of draws, appended into one list of lines. */
  method GeneratePointColumns(params: Params, draws: seq<real>) returns (lines: seq<seq<Vec2>>)
    requires |draws| == params.numberOfColumns * params.pointsPerLine
    ensures lines == PointColumns(params, draws)
  {
    ghost var columns := AllColumns(params, draws);
    lines := [];
    var originX, originY := params.width * -0.5, params.height * -0.5;
    var countOfSpaces := LineGroups.CountOfSpaces(params.numberOfColumns);
    var spaceTakenUpBySpaces := countOfSpaces as real * params.columnSpacing;
    var spaceTakenUpByColumns := params.width - spaceTakenUpBySpaces;
    var columnWidth := if params.numberOfColumns == 0 then 0.0
                       else spaceTakenUpByColumns / params.numberOfColumns as real;
    var widthOfAColumnAndASpace := columnWidth + params.columnSpacing;
    assert params.numberOfColumns > 0 ==>
      columnWidth == LineGroups.ColumnWidth(params.width, params.columnSpacing, params.numberOfColumns);
    for c := 0 to params.numberOfColumns
      invariant Seqs.Built(lines, columns, c)
    {
      var columnOriginX := c as real * widthOfAColumnAndASpace + originX;
      assert columnOriginX == LineGroups.ColumnOrigin(params.width, params.columnSpacing, params.numberOfColumns, c);
      var column := GeneratePointColumn(columnOriginX, originY, params,
                                        LineGroups.ColumnDraws(draws, params.pointsPerLine, params.numberOfColumns, c));
      Seqs.BuiltNext(lines, columns, c, column);
      lines := lines + column;
    }
    Seqs.BuiltAll(lines, columns);
  }

  /** The sketch draws `number_of_columns · lines_per_column` lines; line `l`
      of column `c` comes at position `c · lines_per_column + l` and is laid
      out from column `c`'s origin and its run of draws. */
  lemma PointColumnsLayout(p: Params, draws: seq<real>, c: nat, l: nat)
    requires |draws| == p.numberOfColumns * p.pointsPerLine
    requires c < p.numberOfColumns && l < p.linesPerColumn
    ensures |PointColumns(p, draws)| == p.numberOfColumns * p.linesPerColumn
    ensures c * p.linesPerColumn + l < |PointColumns(p, draws)|
      && PointColumns(p, draws)[c * p.linesPerColumn + l]
         == LineGroups.Line(SectionWidths(LineGroups.ColumnDraws(draws, p.pointsPerLine, p.numberOfColumns, c)), l,
                            Layout(LineGroups.ColumnOrigin(p.width, p.columnSpacing, p.numberOfColumns, c), p.height * -0.5, p))
  {
    Seqs.FlattenAt(AllColumns(p, draws), p.linesPerColumn, c, l);
  }

  /** Point `k` of line `l` of column `c`: every line has `points_per_line`
      points; the point lies `k / points_per_line` of the canvas height above
      the bottom edge; its section is 125 times draw `c · points_per_line + k`,
      and it lies `l / lines_per_column` of the way across that section, from
      the section's start at the column's origin shifted by the alignment. */
  lemma PointPosition(p: Params, draws: seq<real>, lines: seq<seq<Vec2>>, c: nat, l: nat, k: nat)
    requires |draws| == p.numberOfColumns * p.pointsPerLine && lines == PointColumns(p, draws)
    requires c < p.numberOfColumns && l < p.linesPerColumn && k < p.pointsPerLine
    ensures c * p.linesPerColumn + l < |lines| && |lines[c * p.linesPerColumn + l]| == p.pointsPerLine
    ensures c * p.pointsPerLine + k < |draws|
    ensures var point := lines[c * p.linesPerColumn + l][k];
      var w := 125.0 * draws[c * p.pointsPerLine + k];
      point.y == k as real * (p.height / p.pointsPerLine as real) - p.height / 2.0
      && point.x == l as real * (w / p.linesPerColumn as real)
                    + LineGroups.ColumnOrigin(p.width, p.columnSpacing, p.numberOfColumns, c)
                    + (w / 2.0) * (p.columnAlignment - 1.0)
  {
    PointColumnsLayout(p, draws, c, l);
    ColumnPoint(p, draws, lines[c * p.linesPerColumn + l], c, l, k);
  }

  /** `PointPosition` for one line of column `c`, given as the line itself. */
  lemma ColumnPoint(p: Params, draws: seq<real>, line: seq<Vec2>, c: nat, l: nat, k: nat)
    requires |draws| == p.numberOfColumns * p.pointsPerLine
    requires c < p.numberOfColumns && l < p.linesPerColumn && k < p.pointsPerLine
    requires line == LineGroups.Line(SectionWidths(LineGroups.ColumnDraws(draws, p.pointsPerLine, p.numberOfColumns, c)), l,
                                     Layout(LineGroups.ColumnOrigin(p.width, p.columnSpacing, p.numberOfColumns, c), p.height * -0.5, p))
    ensures |line| == p.pointsPerLine
    ensures c * p.pointsPerLine + k < |draws|
    ensures var w := 125.0 * draws[c * p.pointsPerLine + k];
      line[k].y == k as real * (p.height / p.pointsPerLine as real) - p.height / 2.0
      && line[k].x == l as real * (w / p.linesPerColumn as real)
                      + LineGroups.ColumnOrigin(p.width, p.columnSpacing, p.numberOfColumns, c)
                      + (w / 2.0) * (p.columnAlignment - 1.0)
  {
    var columnDraws := LineGroups.ColumnDraws(draws, p.pointsPerLine, p.numberOfColumns, c);
    var origin := LineGroups.ColumnOrigin(p.width, p.columnSpacing, p.numberOfColumns, c);
    var widths := SectionWidths(columnDraws);
    var j := c * p.pointsPerLine + k;
    assert j < |draws| && columnDraws[k] == draws[j];
    assert line[k] == LineGroups.LinePoint(widths, l, k, Layout(origin, p.height * -0.5, p));
    PointFormula(widths, l, k, p, origin, draws[j]);
  }

  /** The coordinates of one point of a column line, in terms of its draw. */
  lemma PointFormula(widths: seq<real>, l: nat, k: nat, p: Params, origin: real, draw: real)
    requires k < |widths| && p.linesPerColumn > 0 && p.pointsPerLine > 0 && widths[k] == 125.0 * draw
    ensures var point := LineGroups.LinePoint(widths, l, k, Layout(origin, p.height * -0.5, p));
      var w := 125.0 * draw;
      point.y == k as real * (p.height / p.pointsPerLine as real) - p.height / 2.0
      && point.x == l as real * (w / p.linesPerColumn as real) + origin + (w / 2.0) * (p.columnAlignment - 1.0)
  {
  }

  /** With every draw in `[0.3, 1.2)`, every section of every column is
      between 37.5 and 150 wide. */
  lemma ColumnSectionsRange(p: Params, draws: seq<real>, c: nat)
    requires |draws| == p.numberOfColumns * p.pointsPerLine && c < p.numberOfColumns
    requires forall i :: 0 <= i < |draws| ==> 0.3 <= draws[i] < 1.2
    ensures forall k :: 0 <= k < p.pointsPerLine ==>
      37.5 <= SectionWidths(LineGroups.ColumnDraws(draws, p.pointsPerLine, p.numberOfColumns, c))[k] < 150.0
  {
    var columnDraws := LineGroups.ColumnDraws(draws, p.pointsPerLine, p.numberOfColumns, c);
    forall k | 0 <= k < p.pointsPerLine
      ensures 37.5 <= SectionWidths(columnDraws)[k] < 150.0
    {
      SectionWidthRange(columnDraws[k]);
    }
  }

  /** With the default parameters the sketch draws 8 columns of 16 lines of
      16 points each. */
  lemma DefaultCounts(draws: seq<real>, lines: seq<seq<Vec2>>)
    requires |draws| == Default.numberOfColumns * Default.pointsPerLine && lines == PointColumns(Default, draws)
    ensures |lines| == 128
    ensures forall i :: 0 <= i < 128 ==> |lines[i]| == 16
  {
    var cols := AllColumns(Default, draws);
    Seqs.FlattenLength(cols, 16);
    forall i | 0 <= i < 128
      ensures |lines[i]| == 16
    {
      Seqs.FlattenAt(cols, 16, i / 16, i % 16);
    }
  }
}
