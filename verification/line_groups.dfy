/** The line-groups sketch: side-by-side columns, each a bundle of polylines
    that run from the bottom of the canvas to the top. Every point of a line
    sits at one of `points_per_line` evenly spaced heights. Horizontally, the
    lines of a column fan out across a section width drawn at random for
    that height. Chaikin's corner cutting can optionally smooth each line.
    The random draws are an input sequence, consumed in the order the
    generator asks for them. */
module LineGroups {
  import opened Geometry
  import opened PlotLib
  import opened Seqs

  /** `PointColumnParams` of the line-groups sketch (`noise_seed` only seeds
      the random draws, which are an input here). */
  datatype Params = Params(
    chaikinSmoothing: bool,
    chaikinSmoothingIterations: u8,
    chaikinSmoothingRatio: real,
    columnAlignment: real,
    columnSpacing: real,
    columnWidth: real,
    height: real,
    linesPerColumn: nat,
    noiseSeed: nat,
    numberOfColumns: nat,
    pointsPerLine: nat,
    verticalJitter: real,
    width: real)

  /** `PointColumnParams::default()`. */
  const Default: Params := Params(false, 4, 0.25, 0.0, 80.0, 125.0, 1000.0, 16, 0, 8, 16, 0.0, 1000.0)

  // ---- column layout ------------------------------------------------------

  /** `number_of_columns.saturating_sub(1)`: the gaps between columns. */
  function CountOfSpaces(numberOfColumns: nat): nat {
    if numberOfColumns == 0 then 0 else numberOfColumns - 1
  }

  /** The width left to each column once the gaps are taken out of the
      canvas width. */
  function ColumnWidth(width: real, columnSpacing: real, numberOfColumns: nat): real
    requires numberOfColumns > 0
  {
    (width - CountOfSpaces(numberOfColumns) as real * columnSpacing) / numberOfColumns as real
  }

  /** The left edge of column `c`: `c` columns and `c` gaps to the right of
      the canvas's left edge. */
  function ColumnOrigin(width: real, columnSpacing: real, numberOfColumns: nat, c: nat): real
    requires c < numberOfColumns
  {
    c as real * (ColumnWidth(width, columnSpacing, numberOfColumns) + columnSpacing) + width * -0.5
  }

  /** The columns and the gaps between them tile the canvas width exactly:
      the first column starts at the left edge, each next one a column width
      and a gap further right, and the last one ends at the right edge. */
  lemma ColumnsFillWidth(width: real, columnSpacing: real, numberOfColumns: nat)
    requires numberOfColumns > 0
    ensures ColumnOrigin(width, columnSpacing, numberOfColumns, 0) == -width / 2.0
    ensures forall c :: 0 <= c < numberOfColumns - 1 ==>
      ColumnOrigin(width, columnSpacing, numberOfColumns, c + 1)
        == ColumnOrigin(width, columnSpacing, numberOfColumns, c) + ColumnWidth(width, columnSpacing, numberOfColumns) + columnSpacing
    ensures ColumnOrigin(width, columnSpacing, numberOfColumns, numberOfColumns - 1)
      + ColumnWidth(width, columnSpacing, numberOfColumns) == width / 2.0
  {
    var n := numberOfColumns as real;
    var k := (numberOfColumns - 1) as real;
    var cw := ColumnWidth(width, columnSpacing, numberOfColumns);
    assert cw * n == width - k * columnSpacing;
    assert k * (cw + columnSpacing) + cw == cw * n + k * columnSpacing;
  }

  /** Height between consecutive points (`height / points_per_line`); a line
      with no points never uses it. */
  function VerticalSpacing(height: real, pointsPerLine: nat): real {
    if pointsPerLine == 0 then 0.0 else height / pointsPerLine as real
  }

  /** The values one line is laid out by: the column's origin, the vertical
      spacing, the number of lines sharing the column and the alignment. */
  datatype Layout = Layout(originX: real, originY: real, verticalSpacing: real, linesPerColumn: nat, columnAlignment: real)

  /** Point `k` of line `lineIndex`: it sits `lineIndex / lines_per_column`
      of the way across section `k` (whose start the alignment shifts by a
      multiple of half the section width) and `k` spacings above the
      origin. */
  function LinePoint(widths: seq<real>, lineIndex: nat, k: nat, lay: Layout): Vec2
    requires k < |widths| && lay.linesPerColumn > 0
  {
    var w := widths[k];
    Vec2(lineIndex as real * (w / lay.linesPerColumn as real) + lay.originX + (w / 2.0) * (lay.columnAlignment - 1.0),
         k as real * lay.verticalSpacing + lay.originY)
  }

  /** The line `generate_line` builds: one point per section width. */
  function Line(widths: seq<real>, lineIndex: nat, lay: Layout): seq<Vec2>
    requires lay.linesPerColumn > 0
  {
    seq(|widths|, k requires 0 <= k < |widths| => LinePoint(widths, lineIndex, k, lay))
  }

  /** A line has one point per section, and point `k` lies `k` vertical
      spacings above the origin. */
  lemma LineHeight(widths: seq<real>, lineIndex: nat, lay: Layout, k: nat)
    requires lay.linesPerColumn > 0 && k < |widths|
    ensures |Line(widths, lineIndex, lay)| == |widths|
    ensures Line(widths, lineIndex, lay)[k].y == k as real * lay.verticalSpacing + lay.originY
  {
  }

  /** With a positive vertical spacing a line climbs: each point lies
      strictly above the ones before it. */
  lemma LineRises(widths: seq<real>, lineIndex: nat, lay: Layout, i: nat, j: nat)
    requires lay.linesPerColumn > 0 && lay.verticalSpacing > 0.0
    requires i < j < |widths|
    ensures Line(widths, lineIndex, lay)[i].y < Line(widths, lineIndex, lay)[j].y
  {
    assert (j as real - i as real) * lay.verticalSpacing > 0.0;
  }

  /** The lines of a column never cross: at every height, over a section of
      positive width, a line with a smaller index lies strictly to the left
      of one with a larger index. */
  lemma LinesDoNotCross(widths: seq<real>, l1: nat, l2: nat, lay: Layout, k: nat)
    requires lay.linesPerColumn > 0 && l1 < l2
    requires k < |widths| && widths[k] > 0.0
    ensures Line(widths, l1, lay)[k].y == Line(widths, l2, lay)[k].y
    ensures Line(widths, l1, lay)[k].x < Line(widths, l2, lay)[k].x
  {
    var step := widths[k] / lay.linesPerColumn as real;
    assert step > 0.0;
    assert (l2 as real - l1 as real) * step > 0.0;
  }

  /** The lines of a column spread over exactly one section width: at height
      `k`, line `l < lines_per_column` lies in `[s, s + w)`, with `w` the
      section width and `s` the section's start set by the alignment. */
  lemma LineWithinSection(widths: seq<real>, lineIndex: nat, lay: Layout, k: nat)
    requires lineIndex < lay.linesPerColumn
    requires k < |widths| && widths[k] > 0.0
    ensures var s := lay.originX + (widths[k] / 2.0) * (lay.columnAlignment - 1.0);
      s <= Line(widths, lineIndex, lay)[k].x < s + widths[k]
  {
    var w := widths[k];
    var n := lay.linesPerColumn as real;
    var step := w / n;
    assert step * n == w;
    assert 0.0 <= lineIndex as real * step;
    assert (n - lineIndex as real) * step > 0.0;
  }

  // ---- Chaikin corner cutting ---------------------------------------------

  /** The ratio `chaikin_cut` really uses: a ratio above one half is
      mirrored, so that the cut never passes the midpoint of the edge. */
  function CutRatio(ratio: real): (r: real)
    ensures r <= 0.5
    ensures r == ratio || r == 1.0 - ratio
    ensures 0.0 <= ratio <= 1.0 ==> 0.0 <= r
  {
    if ratio > 0.5 then 1.0 - ratio else ratio
  }

  /** `chaikin_cut`: the two points that cut the corner of edge `a`–`b`, the
      first at the fraction `CutRatio(ratio)` of the way from `a` to `b`,
      the second at the same fraction of the way back from `b` to `a`. */
  function ChaikinCut(a: Vec2, b: Vec2, ratio: real): (r: (Vec2, Vec2))
    ensures r.0 == Add(a, Scale(Sub(b, a), CutRatio(ratio)))
    ensures r.1 == Add(b, Scale(Sub(a, b), CutRatio(ratio)))
  {
    var t := CutRatio(ratio);
    InterpolateAffine(a.x, b.x, t);
    InterpolateAffine(a.y, b.y, t);
    InterpolateAffine(b.x, a.x, t);
    InterpolateAffine(b.y, a.y, t);
    (Vec2(InterpolateReal(a.x, b.x, t), InterpolateReal(a.y, b.y, t)),
     Vec2(InterpolateReal(b.x, a.x, t), InterpolateReal(b.y, a.y, t)))
  }

  /** Cutting the edge from the other end gives the same two points in the
      opposite order. */
  lemma ChaikinCutReversed(a: Vec2, b: Vec2, ratio: real)
    ensures ChaikinCut(b, a, ratio) == (ChaikinCut(a, b, ratio).1, ChaikinCut(a, b, ratio).0)
  {
  }

  /** For a ratio in `[0, 1]` both points lie on the edge, the first no
      further from `a` than the second: they sit at the fractions `t` and
      `1 - t` of the way from `a`, with `0 <= t <= 1/2`. */
  lemma ChaikinCutOnEdge(a: Vec2, b: Vec2, ratio: real)
    requires 0.0 <= ratio <= 1.0
    ensures var t := CutRatio(ratio);
      0.0 <= t <= 0.5 <= 1.0 - t <= 1.0
      && ChaikinCut(a, b, ratio).0 == Add(a, Scale(Sub(b, a), t))
      && ChaikinCut(a, b, ratio).1 == Add(a, Scale(Sub(b, a), 1.0 - t))
  {
  }

  /** The two points `generate_smooth_line` pushes for edge `i` of an open
      line: the first edge keeps its start `a` in place of the first cut,
      the last edge keeps its end `b` in place of the second cut, and every
      other edge contributes both cuts. The first test wins when a line has
      a single edge. */
  function Piece(line: seq<Vec2>, i: nat, ratio: real): seq<Vec2>
    requires i + 1 < |line|
  {
    var a := line[i];
    var b := line[i + 1];
    var cut := ChaikinCut(a, b, ratio);
    if i == 0 then [a, cut.1]
    else if i == |line| - 2 then [cut.0, b]
    else [cut.0, cut.1]
  }

  /** The points one smoothing pass has pushed after its first `k` edges. */
  function Pass(line: seq<Vec2>, ratio: real, k: nat): (r: seq<Vec2>)
    requires k < |line|
    ensures |r| == 2 * k
  {
    if k == 0 then [] else Pass(line, ratio, k - 1) + Piece(line, k - 1, ratio)
  }

  /** A whole smoothing pass over a non-empty line. */
  function SmoothPass(line: seq<Vec2>, ratio: real): (r: seq<Vec2>)
    requires |line| >= 1
    ensures |r| == 2 * (|line| - 1)
  {
    Pass(line, ratio, |line| - 1)
  }

  /** Smoothing a line of `n` points `iterations` times reaches no
      `line.len() - 1` on an empty line: no passes at all, at least two
      points, or one point and a single pass (which leaves no points). */
  predicate CanSmooth(n: nat, iterations: nat) {
    iterations == 0 || n >= 2 || (n == 1 && iterations == 1)
  }

  /** The same condition, step by step: every pass starts from a non-empty
      line. */
  ghost predicate NoUnderflow(n: nat, iterations: nat)
    decreases iterations
  {
    iterations == 0 || (n >= 1 && NoUnderflow(2 * (n - 1), iterations - 1))
  }

  lemma {:induction false} CanSmoothIff(n: nat, iterations: nat)
    ensures CanSmooth(n, iterations) <==> NoUnderflow(n, iterations)
    decreases iterations
  {
    if iterations > 0 && n >= 1 {
      CanSmoothIff(2 * (n - 1), iterations - 1);
    }
  }

  /** A line smoothed `iterations` times: `iterations` single passes. */
  function Smoothed(line: seq<Vec2>, iterations: nat, ratio: real): seq<Vec2>
    requires CanSmooth(|line|, iterations)
    decreases iterations
  {
    if iterations == 0 then line else Smoothed(SmoothPass(line, ratio), iterations - 1, ratio)
  }

  /** Pass `k` places edge `i`'s two points at positions `2i` and `2i + 1`. */
  lemma {:induction false} PassPiece(line: seq<Vec2>, ratio: real, k: nat, i: nat)
    requires i < k < |line|
    ensures Pass(line, ratio, k)[2 * i] == Piece(line, i, ratio)[0]
    ensures Pass(line, ratio, k)[2 * i + 1] == Piece(line, i, ratio)[1]
  {
    if i < k - 1 {
      PassPiece(line, ratio, k - 1, i);
    }
  }

  /** One pass keeps the first point of a line of two or more points, keeps
      the last point when there are three or more, and on a line of exactly
      two points replaces the last point by the second cut. */
  lemma PassEnds(line: seq<Vec2>, ratio: real)
    requires |line| >= 2
    ensures SmoothPass(line, ratio)[0] == line[0]
    ensures |line| >= 3 ==> SmoothPass(line, ratio)[2 * (|line| - 1) - 1] == line[|line| - 1]
    ensures |line| == 2 ==> SmoothPass(line, ratio) == [line[0], ChaikinCut(line[0], line[1], ratio).1]
  {
    var n := |line|;
    PassPiece(line, ratio, n - 1, 0);
    PassPiece(line, ratio, n - 1, n - 2);
    if n == 2 {
      assert SmoothPass(line, ratio) == Pass(line, ratio, 0) + Piece(line, 0, ratio);
    }
  }

  /** Smoothing any number of times keeps a line's first point, and keeps
      its last point as well when the line has three or more points. */
  lemma {:induction false} SmoothedKeepsEnds(line: seq<Vec2>, iterations: nat, ratio: real)
    requires |line| >= 2
    ensures |Smoothed(line, iterations, ratio)| >= 2
    ensures Smoothed(line, iterations, ratio)[0] == line[0]
    ensures |line| >= 3 ==> Smoothed(line, iterations, ratio)[|Smoothed(line, iterations, ratio)| - 1] == line[|line| - 1]
    decreases iterations
  {
    if iterations > 0 {
      var p := SmoothPass(line, ratio);
      PassEnds(line, ratio);
      SmoothedKeepsEnds(p, iterations - 1, ratio);
    }
  }

  function Pow2(k: nat): (r: nat)
    ensures r >= 1
  {
    if k == 0 then 1 else 2 * Pow2(k - 1)
  }

  /** The number of points `iterations` passes leave of `n`: each pass
      turns `n` points into `2 (n - 1)`. */
  function SmoothedCount(n: nat, iterations: nat): nat
    requires CanSmooth(n, iterations)
    decreases iterations
  {
    if iterations == 0 then n else SmoothedCount(2 * (n - 1), iterations - 1)
  }

  lemma {:induction false} SmoothedHasCount(line: seq<Vec2>, iterations: nat, ratio: real)
    requires CanSmooth(|line|, iterations)
    ensures |Smoothed(line, iterations, ratio)| == SmoothedCount(|line|, iterations)
    decreases iterations
  {
    if iterations > 0 {
      SmoothedHasCount(SmoothPass(line, ratio), iterations - 1, ratio);
    }
  }

  /** For `n >= 2` the count has the closed form `2^k (n - 2) + 2`. */
  lemma {:induction false} SmoothedCountClosedForm(n: nat, iterations: nat)
    requires n >= 2
    ensures SmoothedCount(n, iterations) == Pow2(iterations) * (n - 2) + 2
    decreases iterations
  {
    if iterations > 0 {
      SmoothedCountClosedForm(2 * (n - 1), iterations - 1);
      assert Pow2(iterations - 1) * (2 * (n - 1) - 2) == Pow2(iterations) * (n - 2);
    }
  }

  /** Each pass doubles the number of edges less one, so `k` passes turn
      `n >= 2` points into `2^k (n - 2) + 2`. */
  lemma SmoothedLength(line: seq<Vec2>, iterations: nat, ratio: real)
    requires |line| >= 2
    ensures |Smoothed(line, iterations, ratio)| == Pow2(iterations) * (|line| - 2) + 2
  {
    SmoothedHasCount(line, iterations, ratio);
    SmoothedCountClosedForm(|line|, iterations);
  }

  /** Smoothing `a + b` times is smoothing `a` times and then `b` more. */
  lemma {:induction false} SmoothedCompose(line: seq<Vec2>, a: nat, b: nat, ratio: real)
    requires CanSmooth(|line|, a + b)
    ensures CanSmooth(|Smoothed(line, a, ratio)|, b)
    ensures Smoothed(line, a + b, ratio) == Smoothed(Smoothed(line, a, ratio), b, ratio)
    decreases a
  {
    if a > 0 {
      SmoothedCompose(SmoothPass(line, ratio), a - 1, b, ratio);
    }
  }

  /** `generate_smooth_line`: with no iterations the line is returned as it
      is; otherwise one pass pushes two points per edge and the result is
      smoothed `iterations - 1` more times. The section widths, line index,
      origin, spacing and parameters are passed along and never used. */
  method GenerateSmoothLine(line: seq<Vec2>, columnSectionWidths: seq<real>, lineIndex: nat,
                            originX: real, originY: real, verticalSpacing: real, params: Params,
                            iterations: u8, ratio: real) returns (r: seq<Vec2>)
    requires CanSmooth(|line|, iterations as nat)
    ensures r == Smoothed(line, iterations as nat, ratio)
    decreases iterations
  {
    if iterations == 0 {
      return line;
    }
    var numCorners := |line| - 1;
    var smoothedLine: seq<Vec2> := [];
    for i := 0 to numCorners
      invariant smoothedLine == Pass(line, ratio, i)
    {
      var a := line[i];
      var b := line[i + 1];
      var cut := ChaikinCut(a, b, ratio);
      if i == 0 {
        smoothedLine := smoothedLine + [a, cut.1];
      } else if i == numCorners - 1 {
        smoothedLine := smoothedLine + [cut.0, b];
      } else {
        smoothedLine := smoothedLine + [cut.0, cut.1];
      }
    }
    r := GenerateSmoothLine(smoothedLine, columnSectionWidths, lineIndex, originX, originY,
                            verticalSpacing, params, iterations - 1, ratio);
  }

  // ---- the generators -----------------------------------------------------

  /** `generate_line`: point by point, as `Line` lays them out. */
  method GenerateLine(columnSectionWidths: seq<real>, lineIndex: nat, originX: real, originY: real,
                      verticalSpacing: real, params: Params) returns (line: seq<Vec2>)
    requires params.pointsPerLine <= |columnSectionWidths| && lineIndex < params.linesPerColumn
    ensures line == Line(columnSectionWidths[..params.pointsPerLine], lineIndex,
                         Layout(originX, originY, verticalSpacing, params.linesPerColumn, params.columnAlignment))
  {
    ghost var lay := Layout(originX, originY, verticalSpacing, params.linesPerColumn, params.columnAlignment);
    ghost var widths := columnSectionWidths[..params.pointsPerLine];
    line := [];
    for pointIndex := 0 to params.pointsPerLine
      invariant |line| == pointIndex
      invariant forall k :: 0 <= k < pointIndex ==> line[k] == LinePoint(widths, lineIndex, k, lay)
    {
      var columnWidth := columnSectionWidths[pointIndex];
      var lineSpacing := lineIndex as real * (columnWidth / params.linesPerColumn as real);
      var halfWidth := (columnWidth / 2.0) * (params.columnAlignment - 1.0);
      var x := lineSpacing + originX + halfWidth;
      var y := pointIndex as real * verticalSpacing + originY;
      line := line + [Vec2(x, y)];
    }
  }

  /** The widths of one column's sections: the column width scaled by each
      draw. */
  function SectionWidths(columnWidth: real, draws: seq<real>): seq<real> {
    seq(|draws|, k requires 0 <= k < |draws| => columnWidth * draws[k])
  }

  /** Draws in `[0.3, 1.0)`, as `gen_range(0.3..1.0)` yields them, give
      sections between 30% of the column width and the full width. */
  lemma SectionWidthsRange(columnWidth: real, draws: seq<real>)
    requires columnWidth > 0.0
    requires forall k :: 0 <= k < |draws| ==> 0.3 <= draws[k] < 1.0
    ensures forall k :: 0 <= k < |draws| ==>
      0.3 * columnWidth <= SectionWidths(columnWidth, draws)[k] < columnWidth
  {
    forall k | 0 <= k < |draws|
      ensures 0.3 * columnWidth <= SectionWidths(columnWidth, draws)[k] < columnWidth
    {
      assert SectionWidths(columnWidth, draws)[k] == columnWidth * draws[k];
      NonNegativeProduct(columnWidth, draws[k] - 0.3);
      assert columnWidth * (1.0 - draws[k]) > 0.0;
    }
  }

  /** Smoothing panics on no line of the column: smoothing is off, the
      column has no lines, or its lines can be smoothed that many times. */
  predicate Smoothable(p: Params) {
    !p.chaikinSmoothing || p.linesPerColumn == 0
    || CanSmooth(p.pointsPerLine, p.chaikinSmoothingIterations as nat)
  }

  /** A line as the column keeps it: smoothed when smoothing is on. */
  function Shaped(p: Params, line: seq<Vec2>): seq<Vec2>
    requires !p.chaikinSmoothing || CanSmooth(|line|, p.chaikinSmoothingIterations as nat)
  {
    if p.chaikinSmoothing then Smoothed(line, p.chaikinSmoothingIterations as nat, p.chaikinSmoothingRatio)
    else line
  }

  /** The lines of one column, from its origin and its `points_per_line`
      draws. */
  function Column(originX: real, originY: real, p: Params, draws: seq<real>): seq<seq<Vec2>>
    requires |draws| == p.pointsPerLine && Smoothable(p)
  {
    var widths := SectionWidths(p.columnWidth, draws);
    var lay := Layout(originX, originY, VerticalSpacing(p.height, p.pointsPerLine), p.linesPerColumn, p.columnAlignment);
    seq(p.linesPerColumn, l requires 0 <= l < p.linesPerColumn => Shaped(p, Line(widths, l, lay)))
  }

  /** `generate_point_column`: first one section width per height, from the
      draws, then the lines, each smoothed when smoothing is on. */
  method GeneratePointColumn(originX: real, originY: real, params: Params, draws: seq<real>)
    returns (lines: seq<seq<Vec2>>)
    requires |draws| == params.pointsPerLine && Smoothable(params)
    ensures lines == Column(originX, originY, params, draws)
  {
    var verticalSpacing := VerticalSpacing(params.height, params.pointsPerLine);
    var columnSectionWidths: seq<real> := [];
    for i := 0 to params.pointsPerLine
      invariant |columnSectionWidths| == i
      invariant forall k :: 0 <= k < i ==> columnSectionWidths[k] == params.columnWidth * draws[k]
    {
      var columnSectionWidth := params.columnWidth * draws[i];
      columnSectionWidths := columnSectionWidths + [columnSectionWidth];
    }
    assert |SectionWidths(params.columnWidth, draws)| == |draws|;
    assert forall k :: 0 <= k < |draws| ==> SectionWidths(params.columnWidth, draws)[k] == params.columnWidth * draws[k];
    assert columnSectionWidths == SectionWidths(params.columnWidth, draws);
    assert columnSectionWidths[..params.pointsPerLine] == columnSectionWidths;
    ghost var lay := Layout(originX, originY, verticalSpacing, params.linesPerColumn, params.columnAlignment);
    lines := [];
    for lineIndex := 0 to params.linesPerColumn
      invariant |lines| == lineIndex
      invariant forall l :: 0 <= l < lineIndex ==> lines[l] == Shaped(params, Line(columnSectionWidths, l, lay))
    {
      var line := GenerateLine(columnSectionWidths, lineIndex, originX, originY, verticalSpacing, params);
      if params.chaikinSmoothing {
        line := GenerateSmoothLine(line, columnSectionWidths, lineIndex, originX, originY, verticalSpacing,
                                   params, params.chaikinSmoothingIterations, params.chaikinSmoothingRatio);
      }
      lines := lines + [line];
    }
  }

  /** The draws column `c` takes: the `c`-th run of `points_per_line`. */
  function ColumnDraws(draws: seq<real>, pointsPerLine: nat, numberOfColumns: nat, c: nat): (r: seq<real>)
    requires c < numberOfColumns && |draws| == numberOfColumns * pointsPerLine
    ensures |r| == pointsPerLine
    ensures forall k :: 0 <= k < pointsPerLine ==> c * pointsPerLine + k < |draws| && r[k] == draws[c * pointsPerLine + k]
  {
    MulLeftMonotone(c + 1, numberOfColumns, pointsPerLine);
    assert (c + 1) * pointsPerLine == c * pointsPerLine + pointsPerLine;
    draws[c * pointsPerLine .. (c + 1) * pointsPerLine]
  }

  /** Every column of the sketch, in order. */
  function AllColumns(p: Params, draws: seq<real>): (r: seq<seq<seq<Vec2>>>)
    requires |draws| == p.numberOfColumns * p.pointsPerLine && Smoothable(p)
    ensures |r| == p.numberOfColumns
  {
    seq(p.numberOfColumns, c requires 0 <= c < p.numberOfColumns =>
      Column(ColumnOrigin(p.width, p.columnSpacing, p.numberOfColumns, c), p.height * -0.5, p,
             ColumnDraws(draws, p.pointsPerLine, p.numberOfColumns, c)))
  }

  /** The lines `generate_point_columns` returns. */
  function PointColumns(p: Params, draws: seq<real>): seq<seq<Vec2>>
    requires |draws| == p.numberOfColumns * p.pointsPerLine && Smoothable(p)
  {
    Flatten(AllColumns(p, draws))
  }

  /** Column `c`'s section widths. */
  function ColumnWidths(p: Params, draws: seq<real>, c: nat): seq<real>
    requires |draws| == p.numberOfColumns * p.pointsPerLine && c < p.numberOfColumns
  {
    SectionWidths(p.columnWidth, ColumnDraws(draws, p.pointsPerLine, p.numberOfColumns, c))
  }

  /** Column `c`'s layout: its origin at the bottom of the canvas. */
  function ColumnLayout(p: Params, c: nat): Layout
    requires c < p.numberOfColumns
  {
    Layout(ColumnOrigin(p.width, p.columnSpacing, p.numberOfColumns, c), p.height * -0.5,
           VerticalSpacing(p.height, p.pointsPerLine), p.linesPerColumn, p.columnAlignment)
  }

  /** `generate_point_columns`: the columns left to right, each from its own
      run of draws, appended into one list of lines. */
  method GeneratePointColumns(params: Params, draws: seq<real>) returns (lines: seq<seq<Vec2>>)
    requires |draws| == params.numberOfColumns * params.pointsPerLine && Smoothable(params)
    ensures lines == PointColumns(params, draws)
  {
    ghost var columns := AllColumns(params, draws);
    lines := [];
    var originX, originY := params.width * -0.5, params.height * -0.5;
    var countOfSpaces := CountOfSpaces(params.numberOfColumns);
    var spaceTakenUpBySpaces := countOfSpaces as real * params.columnSpacing;
    var spaceTakenUpByColumns := params.width - spaceTakenUpBySpaces;
    var columnWidth := if params.numberOfColumns == 0 then 0.0
                       else spaceTakenUpByColumns / params.numberOfColumns as real;
    var widthOfAColumnAndASpace := columnWidth + params.columnSpacing;
    assert params.numberOfColumns > 0 ==> columnWidth == ColumnWidth(params.width, params.columnSpacing, params.numberOfColumns);
    for c := 0 to params.numberOfColumns
      invariant Built(lines, columns, c)
    {
      var columnOriginX := c as real * widthOfAColumnAndASpace + originX;
      assert columnOriginX == ColumnOrigin(params.width, params.columnSpacing, params.numberOfColumns, c);
      var column := GeneratePointColumn(columnOriginX, originY, params,
                                        ColumnDraws(draws, params.pointsPerLine, params.numberOfColumns, c));
      BuiltNext(lines, columns, c, column);
      lines := lines + column;
    }
    BuiltAll(lines, columns);
  }

  /** The sketch draws `number_of_columns · lines_per_column` lines. Line `l`
      of column `c` comes at position `c · lines_per_column + l`; it is laid
      out from column `c`'s origin and draws, and smoothed when smoothing is
      on. */
  lemma PointColumnsLayout(p: Params, draws: seq<real>, c: nat, l: nat)
    requires |draws| == p.numberOfColumns * p.pointsPerLine && Smoothable(p)
    requires c < p.numberOfColumns && l < p.linesPerColumn
    ensures |PointColumns(p, draws)| == p.numberOfColumns * p.linesPerColumn
    ensures c * p.linesPerColumn + l < |PointColumns(p, draws)|
      && PointColumns(p, draws)[c * p.linesPerColumn + l] == Shaped(p, Line(ColumnWidths(p, draws, c), l, ColumnLayout(p, c)))
  {
    FlattenAt(AllColumns(p, draws), p.linesPerColumn, c, l);
  }

  /** Point `k` of a column's unsmoothed line `l` lies `k / points_per_line`
      of the canvas height above the canvas's bottom edge. */
  lemma ColumnPointHeight(p: Params, draws: seq<real>, c: nat, l: nat, k: nat)
    requires |draws| == p.numberOfColumns * p.pointsPerLine
    requires c < p.numberOfColumns && l < p.linesPerColumn && k < p.pointsPerLine
    ensures |Line(ColumnWidths(p, draws, c), l, ColumnLayout(p, c))| == p.pointsPerLine
    ensures Line(ColumnWidths(p, draws, c), l, ColumnLayout(p, c))[k].y
      == k as real * (p.height / p.pointsPerLine as real) - p.height / 2.0
  {
    LineHeight(ColumnWidths(p, draws, c), l, ColumnLayout(p, c), k);
  }

  /** Without smoothing, line `l` of column `c` is exactly the line laid out
      from the column's section widths, with `points_per_line` points. */
  lemma UnsmoothedLines(p: Params, draws: seq<real>, lines: seq<seq<Vec2>>, c: nat, l: nat)
    requires |draws| == p.numberOfColumns * p.pointsPerLine && Smoothable(p) && !p.chaikinSmoothing
    requires lines == PointColumns(p, draws)
    requires c < p.numberOfColumns && l < p.linesPerColumn
    ensures c * p.linesPerColumn + l < |lines|
    ensures lines[c * p.linesPerColumn + l] == Line(ColumnWidths(p, draws, c), l, ColumnLayout(p, c))
    ensures |lines[c * p.linesPerColumn + l]| == p.pointsPerLine
  {
    PointColumnsLayout(p, draws, c, l);
  }

  /** With smoothing on and at least two points per line, every smoothed line
      has `2^iterations (points_per_line - 2) + 2` points, starts at the
      first point of its unsmoothed line and, with three or more points per
      line, ends at its last point. */
  lemma SmoothedLineEnds(p: Params, draws: seq<real>, lines: seq<seq<Vec2>>, c: nat, l: nat)
    requires |draws| == p.numberOfColumns * p.pointsPerLine && Smoothable(p) && p.chaikinSmoothing
    requires lines == PointColumns(p, draws)
    requires c < p.numberOfColumns && l < p.linesPerColumn && p.pointsPerLine >= 2
    ensures c * p.linesPerColumn + l < |lines|
    ensures var line := lines[c * p.linesPerColumn + l];
      var plain := Line(ColumnWidths(p, draws, c), l, ColumnLayout(p, c));
      |plain| == p.pointsPerLine && |line| >= 2
      && |line| == Pow2(p.chaikinSmoothingIterations as nat) * (p.pointsPerLine - 2) + 2
      && line[0] == plain[0]
      && (p.pointsPerLine >= 3 ==> line[|line| - 1] == plain[p.pointsPerLine - 1])
  {
    PointColumnsLayout(p, draws, c, l);
    var plain := Line(ColumnWidths(p, draws, c), l, ColumnLayout(p, c));
    SmoothedKeepsEnds(plain, p.chaikinSmoothingIterations as nat, p.chaikinSmoothingRatio);
    SmoothedLength(plain, p.chaikinSmoothingIterations as nat, p.chaikinSmoothingRatio);
  }

  /** With the default parameters the sketch draws 8 columns of 16 lines of
      16 points each. */
  lemma DefaultCounts(draws: seq<real>)
    requires |draws| == Default.numberOfColumns * Default.pointsPerLine
    ensures Smoothable(Default)
    ensures |PointColumns(Default, draws)| == 128
    ensures forall i :: 0 <= i < 128 ==> |PointColumns(Default, draws)[i]| == 16
  {
    var cols := AllColumns(Default, draws);
    FlattenLength(cols, 16);
    forall i | 0 <= i < 128
      ensures |Flatten(cols)[i]| == 16
    {
      FlattenAt(cols, 16, i / 16, i % 16);
    }
  }
}
