/** The line-noise sketch: `line_count + 1` evenly spaced columns, each
    sampled from the bottom up every `min_line_length`; at every sample a
    dice roll against a noise value decides whether the pen goes down (a
    vertical line starts) or comes up (the line ends). The random generator
    and the noise function are inputs: the generator as the values it yields
    for each column, the noise as a function. */
module Pasta {
  import opened Geometry
  import Seqs

  /** `Line`: a segment from `start` to `end`; its constructor is `Line::new`. */
  datatype Line = Line(start: Vec2, end: Vec2)

  /** The fields of the sketch's `State` that shape the lines. */
  datatype Params = Params(
    height: real,
    noiseSeed: nat,
    noiseScale: real,
    lineCount: nat,
    verticalJitter: real,
    width: real,
    minLineLength: real)

  /** What the random generator yields for one column, in the order it is
      asked: the column's vertical jitter, then one dice roll per sample. */
  datatype ColumnDraws = ColumnDraws(yJitter: real, dice: seq<real>)

  /** The noise function, at `(seed, x, y)`. */
  type Noise = (real, real, real) -> real

  // ---- Sampling heights ----------------------------------------------------

  /** The height of sample `k`: `k` steps of `m` up from the bottom. */
  function Height(m: real, k: nat): real { k as real * m }

  /** How many heights `0, m, 2m, …` do not exceed `height`. */
  function Samples(height: real, m: real): nat
    requires m > 0.0
  {
    if height < 0.0 then 0 else (height / m).Floor + 1
  }

  /** A column is sampled at `k · m` exactly for the `k` below `Samples`:
      the loop stops at the first height above the canvas. */
  lemma SampleBound(height: real, m: real, k: nat)
    requires m > 0.0
    ensures k < Samples(height, m) <==> Height(m, k) <= height
  {
    if height >= 0.0 {
      var q := height / m;
      var f := q.Floor;
      assert q * m == height;
      if k <= f {
        ScaleMonotone(k as real, q, m);
      } else {
        ScaleMonotone(q, k as real, m);
      }
    } else {
      ScaleMonotone(0.0, k as real, m);
    }
  }

  // ---- the H key of the line-noise sketch ------------------------------

  /** The H key as written: five off `min_line_length` whenever it is still
      positive, so the default 10 goes to 5 and then to 0. */
  function ShortenAsWritten(m: real): real {
    if m > 0.0 then m - 5.0 else m
  }

  /** Two presses from the default leave a step of 0. With that step every
      sampling height is 0, never above a non-negative canvas height, so the
      sampling loop that the key press triggers never ends. */
  lemma ShortenAsWrittenStalls(height: real, k: nat)
    requires 0.0 <= height
    ensures ShortenAsWritten(ShortenAsWritten(10.0)) == 0.0
    ensures !(Height(ShortenAsWritten(ShortenAsWritten(10.0)), k) > height)
  {
  }

  /** The H key with its guard corrected so that it keeps the step positive:
      a step of five or less is left alone. */
  function Shorten(m: real): real {
    if m > 5.0 then m - 5.0 else m
  }

  /** The corrected key never takes a positive step to zero or below, so
      sampling always reaches a height above the canvas and stops. */
  lemma ShortenKeepsSampling(height: real, m: real)
    requires m > 0.0
    ensures Shorten(m) > 0.0 && Shorten(m) <= m
    ensures Height(Shorten(m), Samples(height, Shorten(m))) > height
  {
    SampleBound(height, Shorten(m), Samples(height, Shorten(m)));
  }

  /** Scaling by a positive factor keeps order, strict and not. */
  lemma ScaleMonotone(a: real, b: real, m: real)
    requires m > 0.0
    ensures a <= b ==> a * m <= b * m
    ensures a < b ==> a * m < b * m
  {
    assert b * m - a * m == (b - a) * m;
  }

  /** The next sampling height is one `min_line_length` up. */
  lemma NextHeight(k: nat, m: real)
    ensures Height(m, k + 1) == Height(m, k) + m
  {
  }

  /** The x of column `index`: the width split into `line_count` spaces. */
  function ColumnX(p: Params, index: nat): real
    requires p.lineCount > 0
  {
    index as real * (p.width / p.lineCount as real)
  }

  /** The noise value at height `y` of the column at `x`: the chance of a
      change of state. */
  function Chance(p: Params, noise: Noise, x: real, y: real): real {
    noise(p.noiseSeed as real, x * p.noiseScale, y * p.noiseScale)
  }

  // ---- The pen as a state machine over sample indices -----------------------

  /** The pen after sample `k`: it goes down when up and the dice roll is
      below the chance, comes up when down and the roll is above it, and
      otherwise stays as it is. `Some(a)` is a pen down since sample `a`. */
  function Next(open: Option<nat>, k: nat, dice: real, chance: real): Option<nat> {
    match open
    case None => if dice < chance then Some(k) else None
    case Some(_) => if dice > chance then None else open
  }

  /** The segment sample `k` completes, as its first and last sample: one
      exactly when the pen comes up. */
  function Emitted(open: Option<nat>, k: nat, dice: real, chance: real): seq<(nat, nat)> {
    match open
    case None => []
    case Some(a) => if dice > chance then [(a, k)] else []
  }

  /** The chance at every sampling height of the column at `x`. */
  function Chances(p: Params, noise: Noise, x: real, n: nat): (r: seq<real>)
    ensures |r| == n
  {
    seq(n, k requires 0 <= k < n => Chance(p, noise, x, Height(p.minLineLength, k)))
  }

  /** The segments, as sample pairs, a column draws from sample `k` on with
      the pen in state `open`, given the dice roll and the chance at every
      sample. A segment still open after the last sample is never
      completed. */
  function Segments(dice: seq<real>, chances: seq<real>, k: nat, open: Option<nat>): seq<(nat, nat)>
    requires |chances| == |dice|
    decreases |dice| - k
  {
    if k >= |dice| then []
    else Emitted(open, k, dice[k], chances[k]) + Segments(dice, chances, k + 1, Next(open, k, dice[k], chances[k]))
  }

  /** The point of the column at `x` for sample `k`: at height `k · m`,
      shifted by the column's jitter. */
  function Point(x: real, m: real, yJitter: real, k: nat): Vec2 {
    Vec2(x, Height(m, k) + yJitter)
  }

  /** The lines of a list of segments. */
  function ToLines(x: real, m: real, yJitter: real, segments: seq<(nat, nat)>): (r: seq<Line>)
    ensures |r| == |segments|
  {
    seq(|segments|, i requires 0 <= i < |segments| =>
      Line(Point(x, m, yJitter, segments[i].0), Point(x, m, yJitter, segments[i].1)))
  }

  lemma ToLinesAppend(x: real, m: real, yJitter: real, s: seq<(nat, nat)>, t: seq<(nat, nat)>)
    ensures ToLines(x, m, yJitter, s + t) == ToLines(x, m, yJitter, s) + ToLines(x, m, yJitter, t)
  {
  }

  /** The lines one sample emits: the completed segment's line, if any. */
  lemma EmittedLines(x: real, m: real, yJitter: real, open: Option<nat>, k: nat, dice: real, chance: real)
    ensures ToLines(x, m, yJitter, Emitted(open, k, dice, chance))
         == if open.Some? && dice > chance then [Line(Point(x, m, yJitter, open.value), Point(x, m, yJitter, k))] else []
  {
  }

  /** The segments of column `index`: the pen starts up at sample 0. */
  function ColumnSegments(p: Params, noise: Noise, index: nat, d: ColumnDraws): seq<(nat, nat)>
    requires p.lineCount > 0
  {
    Segments(d.dice, Chances(p, noise, ColumnX(p, index), |d.dice|), 0, None)
  }

  /** The lines of column `index`. */
  function ColumnLines(p: Params, noise: Noise, index: nat, d: ColumnDraws): seq<Line>
    requires p.lineCount > 0
  {
    ToLines(ColumnX(p, index), p.minLineLength, d.yJitter, ColumnSegments(p, noise, index, d))
  }

  /** Every column, left to right. */
  function AllColumns(p: Params, noise: Noise, draws: seq<ColumnDraws>): (r: seq<seq<Line>>)
    requires p.lineCount > 0
    ensures |r| == |draws|
  {
    seq(|draws|, c requires 0 <= c < |draws| => ColumnLines(p, noise, c, draws[c]))
  }

  /** What the generator can yield: a jitter drawn from
      `[-vertical_jitter, vertical_jitter)` for each of the `line_count + 1`
      columns, and one dice roll per sampling height. */
  predicate WellDrawn(p: Params, draws: seq<ColumnDraws>)
    requires p.minLineLength > 0.0
  {
    && |draws| == p.lineCount + 1
    && forall c :: 0 <= c < |draws| ==>
         && -p.verticalJitter <= draws[c].yJitter < p.verticalJitter
         && |draws[c].dice| == Samples(p.height, p.minLineLength)
  }

  // ---- What the columns look like ----------------------------------------

  /** The columns span the canvas evenly: the first at `x = 0`, the last
      at `x = width`, one `width / line_count` apart. */
  lemma ColumnSpacing(p: Params, index: nat)
    requires p.lineCount > 0
    ensures ColumnX(p, 0) == 0.0 && ColumnX(p, p.lineCount) == p.width
    ensures ColumnX(p, index + 1) - ColumnX(p, index) == p.width / p.lineCount as real
  {
  }

  /** Segments that each run from a sample at or after `lo` where the pen
      went down (the roll below the chance) to a later sample, at or after
      `k` and within the samples taken, where it came up (the roll above
      the chance), each ending before the next one starts. */
  predicate SegmentsWithin(segs: seq<(nat, nat)>, dice: seq<real>, chances: seq<real>, lo: nat, k: nat)
    requires |chances| == |dice|
  {
    && (forall i :: 0 <= i < |segs| ==>
          && lo <= segs[i].0 < segs[i].1 < |dice| && k <= segs[i].1
          && dice[segs[i].0] < chances[segs[i].0] && dice[segs[i].1] > chances[segs[i].1])
    && (forall i :: 0 <= i < |segs| - 1 ==> segs[i].1 < segs[i + 1].0)
  }

  /** The segments drawn from sample `k` on are well placed: with the pen up
      at `k` none starts before `k`; a segment already open at `k` is the
      first one completed. */
  lemma {:induction false} SegmentsShape(dice: seq<real>, chances: seq<real>, k: nat, open: Option<nat>)
    requires |chances| == |dice| && k <= |dice|
    requires open.Some? ==> open.value < k && dice[open.value] < chances[open.value]
    ensures SegmentsWithin(Segments(dice, chances, k, open), dice, chances, if open.Some? then open.value else k, k)
    ensures open.Some? && |Segments(dice, chances, k, open)| > 0 ==> Segments(dice, chances, k, open)[0].0 == open.value
    decreases |dice| - k
  {
    if k < |dice| {
      var next := Next(open, k, dice[k], chances[k]);
      SegmentsShape(dice, chances, k + 1, next);
      var e := Emitted(open, k, dice[k], chances[k]);
      var rest := Segments(dice, chances, k + 1, next);
      assert Segments(dice, chances, k, open) == e + rest;
      SegmentsWithinCons(e, rest, dice, chances, if open.Some? then open.value else k,
                         if next.Some? then next.value else k + 1, k);
    }
  }

  /** One step of `SegmentsShape`: a segment completed at sample `k`, then
      segments placed from `k + 1` on. */
  lemma SegmentsWithinCons(e: seq<(nat, nat)>, rest: seq<(nat, nat)>, dice: seq<real>, chances: seq<real>,
                           lo: nat, loNext: nat, k: nat)
    requires |chances| == |dice| && k < |dice| && lo <= loNext
    requires SegmentsWithin(rest, dice, chances, loNext, k + 1)
    requires |e| <= 1
    requires |e| == 1 ==> && lo <= e[0].0 < e[0].1 == k && k < loNext
                          && dice[e[0].0] < chances[e[0].0] && dice[k] > chances[k]
    ensures SegmentsWithin(e + rest, dice, chances, lo, k)
  {
    var segs := e + rest;
    forall i | 0 <= i < |segs|
      ensures && lo <= segs[i].0 < segs[i].1 < |dice| && k <= segs[i].1
              && dice[segs[i].0] < chances[segs[i].0] && dice[segs[i].1] > chances[segs[i].1]
    {
      if i >= |e| {
        assert segs[i] == rest[i - |e|];
      }
    }
    forall i | 0 <= i < |segs| - 1
      ensures segs[i].1 < segs[i + 1].0
    {
      if i >= |e| {
        assert segs[i] == rest[i - |e|] && segs[i + 1] == rest[i + 1 - |e|];
      } else {
        assert segs[i + 1] == rest[0];
      }
    }
  }

  /** A segment still open when the samples run out is dropped: with the
      pen down at `k` and no later roll above its chance, nothing more is
      drawn. */
  lemma {:induction false} OpenSegmentDropped(dice: seq<real>, chances: seq<real>, k: nat, a: nat)
    requires |chances| == |dice| && k <= |dice|
    requires forall j :: k <= j < |dice| ==> !(dice[j] > chances[j])
    ensures Segments(dice, chances, k, Some(a)) == []
    decreases |dice| - k
  {
    if k < |dice| {
      OpenSegmentDropped(dice, chances, k + 1, a);
    }
  }

  lemma HeightDifference(m: real, a: nat, b: nat)
    requires m > 0.0 && a < b
    ensures Height(m, b) - Height(m, a) == (b - a) as real * m
    ensures Height(m, b) - Height(m, a) >= m
  {
    assert Height(m, b) - Height(m, a) == (b - a) as real * m;
    assert ((b - a) as real - 1.0) * m >= 0.0;
  }

  /** Line `i` of column `index` is vertical at the column's x, runs from
      the height of the sample where the pen went down to that of the
      sample where it came up, both shifted by the column's jitter, and is
      a positive multiple of `min_line_length` long. */
  lemma ColumnLine(p: Params, noise: Noise, index: nat, d: ColumnDraws, i: nat)
    requires p.lineCount > 0 && p.minLineLength > 0.0
    requires i < |ColumnLines(p, noise, index, d)|
    ensures var line := ColumnLines(p, noise, index, d)[i];
      var seg := ColumnSegments(p, noise, index, d)[i];
      && seg.0 < seg.1 < |d.dice|
      && line.start == Vec2(ColumnX(p, index), Height(p.minLineLength, seg.0) + d.yJitter)
      && line.end == Vec2(ColumnX(p, index), Height(p.minLineLength, seg.1) + d.yJitter)
      && line.end.y - line.start.y == (seg.1 - seg.0) as real * p.minLineLength
      && line.end.y - line.start.y >= p.minLineLength
  {
    var x := ColumnX(p, index);
    var chances := Chances(p, noise, x, |d.dice|);
    SegmentsShape(d.dice, chances, 0, None);
    var seg := ColumnSegments(p, noise, index, d)[i];
    HeightDifference(p.minLineLength, seg.0, seg.1);
  }

  /** Within a column the lines come bottom to top, each starting at least
      one `min_line_length` above the end of the one before. */
  lemma ColumnLinesInOrder(p: Params, noise: Noise, index: nat, d: ColumnDraws, i: nat)
    requires p.lineCount > 0 && p.minLineLength > 0.0
    requires i + 1 < |ColumnLines(p, noise, index, d)|
    ensures var lines := ColumnLines(p, noise, index, d);
      lines[i + 1].start.y - lines[i].end.y >= p.minLineLength
  {
    var x := ColumnX(p, index);
    var chances := Chances(p, noise, x, |d.dice|);
    SegmentsShape(d.dice, chances, 0, None);
    var segs := ColumnSegments(p, noise, index, d);
    HeightDifference(p.minLineLength, segs[i].1, segs[i + 1].0);
  }

  // ---- The generator ---------------------------------------------------------

  /** The loop of a column has built `subline` up to sample `k`, with the
      pen in state `open`. */
  ghost predicate Scanned(subline: seq<Line>, x: real, m: real, yJitter: real, dice: seq<real>, chances: seq<real>,
                          k: nat, open: Option<nat>)
    requires |chances| == |dice|
  {
    subline + ToLines(x, m, yJitter, Segments(dice, chances, k, open))
      == ToLines(x, m, yJitter, Segments(dice, chances, 0, None))
  }

  lemma ScannedNext(subline: seq<Line>, x: real, m: real, yJitter: real, dice: seq<real>, chances: seq<real>,
                    k: nat, open: Option<nat>)
    requires |chances| == |dice| && k < |dice| && Scanned(subline, x, m, yJitter, dice, chances, k, open)
    ensures Scanned(subline + ToLines(x, m, yJitter, Emitted(open, k, dice[k], chances[k])),
                    x, m, yJitter, dice, chances, k + 1, Next(open, k, dice[k], chances[k]))
  {
    ToLinesAppend(x, m, yJitter, Emitted(open, k, dice[k], chances[k]),
                  Segments(dice, chances, k + 1, Next(open, k, dice[k], chances[k])));
  }

  /** The pen of the loop: `is_drawing` and `line_start` as the state
      machine's `open` says, the start being the point where the pen went
      down. */
  ghost predicate Pen(isDrawing: bool, lineStart: Option<Vec2>, open: Option<nat>, x: real, m: real, yJitter: real) {
    && (isDrawing <==> open.Some?)
    && lineStart == if open.Some? then Some(Point(x, m, yJitter, open.value)) else None
  }

  /** One pass of the loop body keeps the loop's invariants: whatever the
      roll, the new pen and lines are those of the state machine's step. */
  lemma SampleStep(subline: seq<Line>, isDrawing: bool, lineStart: Option<Vec2>, open: Option<nat>,
                   x: real, m: real, yJitter: real, dice: seq<real>, chances: seq<real>, k: nat, y: real,
                   subline': seq<Line>, isDrawing': bool, lineStart': Option<Vec2>)
    requires |chances| == |dice| && k < |dice| && y == Height(m, k)
    requires Pen(isDrawing, lineStart, open, x, m, yJitter) && Scanned(subline, x, m, yJitter, dice, chances, k, open)
    requires isDrawing && dice[k] > chances[k] ==>
      !isDrawing' && lineStart' == None && lineStart.Some? && subline' == subline + [Line(lineStart.value, Vec2(x, y + yJitter))]
    requires isDrawing && !(dice[k] > chances[k]) ==> isDrawing' && lineStart' == lineStart && subline' == subline
    requires !isDrawing && dice[k] < chances[k] ==> isDrawing' && lineStart' == Some(Vec2(x, y + yJitter)) && subline' == subline
    requires !isDrawing && !(dice[k] < chances[k]) ==> !isDrawing' && lineStart' == lineStart && subline' == subline
    ensures Pen(isDrawing', lineStart', Next(open, k, dice[k], chances[k]), x, m, yJitter)
    ensures Scanned(subline', x, m, yJitter, dice, chances, k + 1, Next(open, k, dice[k], chances[k]))
  {
    ScannedNext(subline, x, m, yJitter, dice, chances, k, open);
    EmittedLines(x, m, yJitter, open, k, dice[k], chances[k]);
  }

  /** The body of the `flat_map` closure: walk up column `index`, one dice
      roll per height, and collect the lines the pen completes. */
  method SampleColumn(params: Params, noise: Noise, index: nat, d: ColumnDraws) returns (subline: seq<Line>)
    requires params.lineCount > 0 && params.minLineLength > 0.0
    requires |d.dice| == Samples(params.height, params.minLineLength)
    ensures subline == ColumnLines(params, noise, index, d)
  {
    var m := params.minLineLength;
    subline := [];
    var y := 0.0;
    var x := index as real * (params.width / params.lineCount as real);
    var isDrawing := false;
    var lineStart: Option<Vec2> := None;
    var k: nat := 0;  // how many rolls the generator has yielded
    ghost var open: Option<nat> := None;
    ghost var chances := Chances(params, noise, x, |d.dice|);
    while y <= params.height
      invariant k <= |d.dice| && y == Height(m, k)
      invariant Pen(isDrawing, lineStart, open, x, m, d.yJitter)
      invariant Scanned(subline, x, m, d.yJitter, d.dice, chances, k, open)
      decreases |d.dice| - k
    {
      SampleBound(params.height, m, k);
      var diceRoll := d.dice[k];
      var chanceOfStateChange := Chance(params, noise, x, y);
      assert chanceOfStateChange == chances[k];
      ghost var wasDrawing, oldStart, before := isDrawing, lineStart, subline;
      if isDrawing {
        if diceRoll > chanceOfStateChange {
          isDrawing := false;
          var start := lineStart.value;
          lineStart := None;
          var end := Vec2(x, y + d.yJitter);
          subline := subline + [Line(start, end)];
        }
      } else {
        if diceRoll < chanceOfStateChange {
          isDrawing := true;
          lineStart := Some(Vec2(x, y + d.yJitter));
        }
      }
      SampleStep(before, wasDrawing, oldStart, open, x, m, d.yJitter, d.dice, chances, k, y,
                 subline, isDrawing, lineStart);
      open := Next(open, k, diceRoll, chanceOfStateChange);
      NextHeight(k, m);
      y := y + m;
      k := k + 1;
    }
    SampleBound(params.height, m, k);
    assert k == |d.dice|;
    assert x == ColumnX(params, index);
  }

  /** `new_lines_from_noise`: the lines of columns `0..=line_count`, left to
      right, appended into one list. */
  method NewLinesFromNoise(params: Params, noise: Noise, draws: seq<ColumnDraws>) returns (lines: seq<Line>)
    requires params.lineCount > 0 && params.minLineLength > 0.0 && params.verticalJitter > 0.0
    requires WellDrawn(params, draws)
    ensures lines == Seqs.Flatten(AllColumns(params, noise, draws))
  {
    ghost var columns := AllColumns(params, noise, draws);
    lines := [];
    for index := 0 to params.lineCount + 1
      invariant Seqs.Built(lines, columns, index)
    {
      var subline := SampleColumn(params, noise, index, draws[index]);
      Seqs.BuiltNext(lines, columns, index, subline);
      lines := lines + subline;
    }
    Seqs.BuiltAll(lines, columns);
  }
}
