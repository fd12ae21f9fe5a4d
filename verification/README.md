# plotlings, modelled in Dafny

plotlings is a set of small generative-art sketches for pen plotters. Each
sketch builds a drawing from a handful of parameters, a seeded random
generator and, in some of them, a noise function. This project models the
computational core of those sketches and proves properties of it:

- **Circle packing** (`Circle`, `Packer`). Circles of random radii start
  near the origin and push each other apart, tick by tick. In one tick,
  every index in ascending order:
  - has its velocity reflected at the canvas edges;
  - stops dead when no later circle overlaps it;
  - exchanges equal and opposite separation forces with every later circle;
  - averages its accumulated force and turns it into a steering force
    bounded by `max_force`;
  - is integrated at once.
- **Shared helpers** (`src/lib.rs`). Toroidal grid indexing, the affine map
  between two ranges, and linear interpolation of reals, bytes and RGBA
  colours.
- **Line groups and point columns** (`src/bin/line_groups.rs`,
  `src/main.rs`). Columns of polylines whose points sit at evenly spaced
  heights, fanned out across randomly drawn section widths. The line-groups
  sketch can smooth them with Chaikin's corner cutting.
- **Line noise** (`src/bin/line_noise/pasta.rs`). One vertical column per
  x position. Each column is walked upward in fixed steps, and a pen goes
  down or comes up whenever a dice roll beats a noise value.
- **Dune** (`src/bin/dune/triangle.rs`). A column of triangles whose sizes
  rise and fall along the column, plus the bounding boxes of a triangle and
  of the whole dune.
- **Maze** (`src/bin/maze`). A grid of cells, each crossed by one of its two
  diagonals. Hovering highlights a cell's wall and a click flips it.
- **Orbiter** (`src/bin/orbiter`). Orbiters queue the gravitational pull of
  fixed bodies and of each other, taken from a snapshot, then drain the
  queue into their velocity, move, and keep a bounded trail.

State the source changes in place is modelled in place:

| Dafny class | fields | what reads them |
|---|---|---|
| `Circles.Circle`, `Walls.Wall`, `Orbiters.Orbiter` | the source's fields | a `State()` function returning a value |
| `Packing.Packer`, `Mazes.Maze`, `Systems.System` | a sequence of those objects | `reads` on the sequence |

The packer's two per-tick buffers are arrays. Every method is proved
against a value-level function of the old state (`Tick`, `Updated`, `Step`,
`Stepped`, …), and the properties are proved about those functions.

- Circle positions are drawn from the half-open range
  `[-variance, variance)`, as `gen_range(-v..v)` does.
- `Packer::new` panics when a draw range is empty (`gen_range`) or a
  drawn radius is zero (`Circle::new`); the constructor's requires exclude
  both.

`f32` values are reals. The square root behind glam's `length`, `distance`
and `normalize` is a parameter `sqrt`, and the proofs use only that it is
the non-negative square root (`Geometry.IsSqrt`). Random draws, noise
values, the clock's tick and the mouse are inputs.

## Model

| member | source | states |
|---|---|---|
| Circles.OverlapsSymmetric | src/bin/circle_packing/circle.rs:26-30 | overlap (squared centre distance below the squared radius sum) does not depend on the order of the two circles |
| Circles.OverlapsConcentric | src/bin/circle_packing/circle.rs:63-66 | two unit circles on the same centre overlap |
| Circles.OverlapsLargeNeighbour | src/bin/circle_packing/circle.rs:68-71 | a unit circle at (10,0) overlaps a radius-10 circle at (10,10) |
| Circles.NotOverlapsDiagonal | src/bin/circle_packing/circle.rs:76-79 | unit circles at (0,0) and (2,2) do not overlap |
| Circles.AppliedTwice | src/bin/circle_packing/circle.rs:32-34 | applying f1 then f2 is applying f1+f2, and applying a force changes only the acceleration |
| Circles.IntegratedMoves | src/bin/circle_packing/circle.rs:36-43 | integration keeps the radius, clears the acceleration, adds the acceleration to the velocity and moves the centre by the new velocity |
| Circles.IntegratedAtRest | src/bin/circle_packing/circle.rs:36-43 | with zero acceleration, integration keeps the velocity and moves the centre by exactly it |
| Circles.ApplyThenIntegrate | src/bin/circle_packing/circle.rs:32-43 | a force applied to a circle with no acceleration, then integrated, changes its velocity by exactly that force |
| Circles.AtRestStays | src/bin/circle_packing/circle.rs:32-43 | a circle with no velocity and no acceleration, given no force, is unchanged by an update |
| Circles.Circle.constructor | src/bin/circle_packing/circle.rs:13-24 | a zero radius is refused; otherwise position and radius are stored, with zero velocity and acceleration |
| Circles.Circle.ApplyForce | src/bin/circle_packing/circle.rs:32-34 | the new state is the old one with the force added to the acceleration |
| Circles.Circle.Update | src/bin/circle_packing/circle.rs:36-43 | the new state is the integrated old state |
| PackerForces.SeparationForceShape | src/bin/circle_packing/packer.rs:190-203 | inside the half-radius zone the force is the centre difference over the squared distance, of squared length 1/d²; outside it the force is zero |
| PackerForces.SeparationZoneSymmetric | src/bin/circle_packing/packer.rs:194 | the separation zone does not depend on the order of the pair |
| PackerForces.SeparationForceAntisymmetric | src/bin/circle_packing/packer.rs:190-203 | the force on the second circle of a pair is the opposite of the force on the first |
| PackerForces.SeparationForceActiveIff | src/bin/circle_packing/packer.rs:190-203 | the force has positive length exactly when the pair is in the separation zone (both directions) |
| PackerForces.SeparationZoneOverlaps | src/bin/circle_packing/packer.rs:194 | a pair in the half-radius separation zone also overlaps under the full-radius test |
| PackerForces.SetMagLength | src/bin/circle_packing/packer.rs:205-210 | `set_mag` yields a vector of squared length mag² along v: v scaled by mag over its positive length |
| PackerForces.LimitBound | src/bin/circle_packing/packer.rs:212-218 | `limit` returns v unchanged when v² ≤ limit², otherwise v scaled by limit over its positive length, so it keeps v's direction and has squared length limit²; either way the result is within the limit |
| PackerForces.OverLimitHasLength | src/bin/circle_packing/packer.rs:213-214 | a vector over the limit has non-zero length, so the `normalize` in `limit` is defined |
| PackerSweep.Gather | src/bin/circle_packing/packer.rs:151-172 | the pair scan keeps the circles and the buffer sizes |
| PackerSweep.GatherNext | src/bin/circle_packing/packer.rs:151-172 | the scan up to j+1 is the scan up to j followed by the pair (i, j) |
| PackerSweep.GatherAt | src/bin/circle_packing/packer.rs:151-172 | after the scan, entry i holds its old value plus the sum of its active pair forces, and its old count plus the count of active pairs; each scanned j lost that pair's force and gained one neighbour when active; entries below i are untouched |
| PackerSweep.AddPairEffect | src/bin/circle_packing/packer.rs:158-171 | an active pair adds the force to i and subtracts it from j, increments both counts, and changes no other entry |
| PackerSweep.ActiveNext | src/bin/circle_packing/packer.rs:151-172 | the sum and the count of active pairs one pair further |
| PackerSweep.GatherConserves | src/bin/circle_packing/packer.rs:167-168 | the scan never changes the total force in the buffer: pair forces are equal and opposite |
| PackerSweep.AddPairConserves | src/bin/circle_packing/packer.rs:167-168 | one pair's exchange keeps the buffer's total force |
| PackerSweep.TotalUpdate | src/bin/circle_packing/packer.rs:167-168 | the total of a buffer after one entry is replaced |
| PackerSweep.Steps | src/bin/circle_packing/packer.rs:78-89 | processing the first k indices keeps the buffer sizes and the number of circles |
| PackerSweep.After | src/bin/circle_packing/packer.rs:78-89 | the sweep just after index i keeps the buffer sizes and the number of circles |
| PackerSweep.StepAt | src/bin/circle_packing/packer.rs:79-88 | borders, the neighbour check, then the scan and finish are exactly one step for index i |
| PackerSweep.StepsNext | src/bin/circle_packing/packer.rs:78-89 | the indices are processed in ascending order, one step each |
| PackerSweep.Start | src/bin/circle_packing/packer.rs:66-74 | the tick starts from the given circles with both buffers as long as the circle vector |
| PackerSweep.StepFrame | src/bin/circle_packing/packer.rs:78-89 | processing index i changes no other circle and no buffer entry below i; it keeps circle i's radius and clears its acceleration |
| PackerSweep.StepKeepsOther | src/bin/circle_packing/packer.rs:78-89 | processing index i leaves every other circle as it was |
| PackerSweep.StepsFrame | src/bin/circle_packing/packer.rs:78-89 | after k indices, circles from k on are untouched; processed circles keep their radius and have no acceleration left |
| PackerSweep.StepsKeepDone | src/bin/circle_packing/packer.rs:78-89 | a circle is final once its index has been processed |
| PackerSweep.StepsLast | src/bin/circle_packing/packer.rs:78-89 | the last index changes no earlier circle |
| PackerSweep.TickKeepsShape | src/bin/circle_packing/packer.rs:64-90 | a tick keeps the number of circles and every radius, and leaves no acceleration pending |
| PackerSweep.SteerBound | src/bin/circle_packing/packer.rs:174-182 | the force applied to a circle is never longer than `max_force` |
| PackerSweep.StepVelocityBound | src/bin/circle_packing/packer.rs:174-187 | processing index i moves circle i by its new velocity, which differs from the velocity left by the border and neighbour checks by at most `max_force` |
| PackerSweep.ActiveOverlaps | src/bin/circle_packing/packer.rs:158-160 | pairs that exchange a force overlap |
| PackerSweep.BorderedKeepsNeighbours | src/bin/circle_packing/packer.rs:94-138 | reversing velocity components changes no neighbour test |
| PackerSweep.NoNeighbourNoActivePair | src/bin/circle_packing/packer.rs:119-172 | a circle with no overlapping later circle has no active pair |
| PackerSweep.SteerNothing | src/bin/circle_packing/packer.rs:174-182 | with nothing accumulated and no neighbours there is no steering force |
| PackerSweep.StepIsolated | src/bin/circle_packing/packer.rs:119-187 | a circle that nothing after it overlaps, with an empty accumulator and no acceleration, stops dead where it is |
| PackerSweep.GatherQuiet | src/bin/circle_packing/packer.rs:151-172 | a scan with no active pair changes nothing |
| PackerSweep.FinishAtRest | src/bin/circle_packing/packer.rs:174-187 | a circle at rest with nothing accumulated stays where it is |
| PackerSweep.NeighboursIgnoreVelocity | src/bin/circle_packing/packer.rs:119-130 | only positions and radii decide the neighbour check |
| PackerSweep.TickFirstIsolated | src/bin/circle_packing/packer.rs:64-90 | in a tick, the first circle ends at rest in its place when nothing overlaps it and it has no acceleration |
| Packing.States | src/bin/circle_packing/packer.rs:13 | the state sequence has one entry per circle, in vector order |
| Packing.CheckBorders | src/bin/circle_packing/packer.rs:94-117 | circle `index` has each velocity component negated exactly when its half-radius extent crosses that axis's edges; every other circle is unchanged |
| Packing.CheckCirclePosition | src/bin/circle_packing/packer.rs:119-138 | circle `index`'s velocity is zeroed exactly when no later circle overlaps it; nothing else changes |
| Packing.ExchangeSeparationForces | src/bin/circle_packing/packer.rs:151-172 | the buffers end as the pair scan over j > index says; the circles are only read |
| Packing.ExchangePair | src/bin/circle_packing/packer.rs:167-170 | i gains the force, j loses it, and both counts go up by one |
| Packing.SteeringForce | src/bin/circle_packing/packer.rs:174-182 | the force is averaged over a positive neighbour count, then set to `max_speed`, relative to the velocity, and limited to `max_force` when non-zero |
| Packing.ApplyAndIntegrate | src/bin/circle_packing/packer.rs:186-187 | circle `index` takes the force and is integrated; no other circle changes |
| Packing.ApplySeparationForcesToCircle | src/bin/circle_packing/packer.rs:140-188 | circle `index` and both buffers end as the scan followed by the finish says |
| Packing.UpdateCircle | src/bin/circle_packing/packer.rs:79-88 | one pass of the loop is one step of the tick |
| Packing.UpdateAll | src/bin/circle_packing/packer.rs:78-89 | the loop processes every index once, in ascending order |
| Packing.GatherNextAt | src/bin/circle_packing/packer.rs:158-171 | one more pair of the scan, for a force already computed |
| Packing.FinishAt | src/bin/circle_packing/packer.rs:174-187 | the finish, for a steering force already computed |
| Packing.Packer.constructor | src/bin/circle_packing/packer.rs:19-44 | one circle per draw, `circle_count + 1` of them, each at rest at its drawn centre with its drawn radius; both speed limits are 10 |
| Packing.Packer.AddCircle | src/bin/circle_packing/packer.rs:46-48 | the circle is appended at the end, with the others unchanged |
| Packing.Packer.IsEmpty | src/bin/circle_packing/packer.rs:50-56 | `is_empty` holds exactly when `len` is zero |
| Packing.Packer.Update | src/bin/circle_packing/packer.rs:64-90 | the circles end as `Tick` of their old states, with the boundary from width and height; the vector is not changed |
| PlotLib.AsUsize | src/lib.rs:5 | the `as usize` cast gives a value below 2^64: the value itself when it fits, and the value plus 2^64 for negatives down to -2^64 |
| PlotLib.TruncRem | src/lib.rs:5 | Rust's signed `%` takes the sign of the dividend and is smaller than the divisor in magnitude |
| PlotLib.WrappingIndexInGrid | src/lib.rs:3-6 | inside the grid the index is y·w + x |
| PlotLib.WrappedCoordinate | src/lib.rs:5 | `(c + n) % n` folds [-n, n) onto [0, n) |
| PlotLib.RowMajorBound | src/lib.rs:5 | a row-major cell index is below w·h |
| PlotLib.WrappingIndexBound | src/lib.rs:3-6 | for offsets within one grid size the index is below w·h |
| PlotLib.WrapsHorizontally | src/lib.rs:5 | a column one grid width to the left is the same cell |
| PlotLib.WrapsVertically | src/lib.rs:5 | a row one grid height below is the same cell |
| PlotLib.LeftOfFirstColumn | src/lib.rs:5 | column -1 is the last column of the same row |
| PlotLib.FarOffsetLeavesGrid | src/lib.rs:5 | an offset beyond one grid size gives a negative remainder, which the cast turns into 2^64 - 1 |
| PlotLib.MapRangeEnds | src/lib.rs:8-14 | the start and end of the first range go to the start and end of the second |
| PlotLib.MapRangeRoundTrip | src/lib.rs:8-14 | mapping back with the ranges swapped returns the original value |
| PlotLib.InterpolateRealFacts | src/lib.rs:54-62 | equal ends give that value; t=0 gives self and t=1 gives other; for t in [0,1] the result lies between the ends |
| PlotLib.InterpolateAffine | src/lib.rs:54-62 | whatever the ends, the result is self + t·(other - self), so the equal-ends shortcut agrees with the sum |
| PlotLib.InterpolateByteFacts | src/lib.rs:44-52 | the byte version gives self for equal ends and at t=0, other at t=1, and a value between the ends for t in [0,1] |
| PlotLib.SaturateWhole | src/lib.rs:49 | a whole byte value survives the cast to `u8` |
| PlotLib.SaturateBetween | src/lib.rs:49 | a real between two bytes casts to a byte between them |
| PlotLib.InterpolateRgbaFacts | src/lib.rs:30-42 | each channel is interpolated on its own: t=0 and t=1 give the two colours, equal colours stay, and for t in [0,1] each channel lies between the two colours' channels |
| Seqs.BuiltAll | src/bin/line_groups.rs:130-137 | appending the columns one per step builds their concatenation |
| Seqs.FlattenAt | src/bin/line_groups.rs:130-137 | columns of m lines each concatenate to |xss|·m lines, and line j of column i lands at i·m + j |
| Seqs.FlattenLength | src/bin/line_groups.rs:130-137 | the concatenation of columns of m lines has |xss|·m lines |
| LineGroups.ColumnsFillWidth | src/bin/line_groups.rs:123-131 | the first column starts at -width/2, each next one a column width and a gap further, and the last ends at width/2 (gap count is saturating `number_of_columns - 1`) |
| LineGroups.LineHeight | src/bin/line_groups.rs:199-206 | a line has one point per section, and point k has y = k·spacing + origin_y |
| LineGroups.LineRises | src/bin/line_groups.rs:204 | with positive spacing each point lies strictly above the earlier ones |
| LineGroups.LinesDoNotCross | src/bin/line_groups.rs:199-206 | at each height a lower-indexed line lies strictly left of a higher-indexed one |
| LineGroups.LineWithinSection | src/bin/line_groups.rs:200-203 | the lines of a column spread over exactly one section width, starting where the alignment puts the section |
| LineGroups.CutRatio | src/bin/line_groups.rs:272-274 | a ratio above one half is replaced by its complement, so the used ratio is at most one half |
| LineGroups.ChaikinCut | src/bin/line_groups.rs:269-289 | the first cut lies the used ratio of the way from a to b, the second the same ratio back from b to a |
| LineGroups.ChaikinCutReversed | src/bin/line_groups.rs:269-289 | cutting b–a gives the two points of a–b in swapped order |
| LineGroups.ChaikinCutOnEdge | src/bin/line_groups.rs:269-289 | for a ratio in [0,1] both points lie on the edge, the first no further from a than the second |
| LineGroups.Pass | src/bin/line_groups.rs:231-254 | after k edges a pass has pushed 2k points |
| LineGroups.SmoothPass | src/bin/line_groups.rs:227-254 | a pass over n ≥ 1 points yields 2(n-1) points |
| LineGroups.CanSmoothIff | src/bin/line_groups.rs:223-227 | the closed-form no-underflow condition holds exactly when no pass starts from an empty line |
| LineGroups.PassPiece | src/bin/line_groups.rs:239-253 | edge i's two points land at positions 2i and 2i+1 |
| LineGroups.PassEnds | src/bin/line_groups.rs:239-246 | a pass keeps the first point, keeps the last point when n ≥ 3, and for n = 2 drops b for the second cut |
| LineGroups.SmoothedKeepsEnds | src/bin/line_groups.rs:212-266 | any number of passes keeps the first point, and the last too when n ≥ 3 |
| LineGroups.Pow2 | src/bin/line_groups.rs:212-266 | powers of two are at least one |
| LineGroups.SmoothedHasCount | src/bin/line_groups.rs:212-266 | a smoothed line has the point count the recurrence n ↦ 2(n-1) gives |
| LineGroups.SmoothedCountClosedForm | src/bin/line_groups.rs:212-266 | that count is 2^k(n-2) + 2 for n ≥ 2 |
| LineGroups.SmoothedLength | src/bin/line_groups.rs:212-266 | k passes turn n ≥ 2 points into 2^k(n-2) + 2 |
| LineGroups.SmoothedCompose | src/bin/line_groups.rs:256-266 | smoothing a+b times is smoothing a times and then b more |
| LineGroups.GenerateSmoothLine | src/bin/line_groups.rs:212-267 | the result is the line smoothed `iterations` times; the other parameters are unused |
| LineGroups.GenerateLine | src/bin/line_groups.rs:189-210 | the result is the line laid out from the section widths, one point per height |
| LineGroups.SectionWidthsRange | src/bin/line_groups.rs:151-155 | draws in [0.3, 1.0) give sections between 30% and 100% of the column width |
| LineGroups.GeneratePointColumn | src/bin/line_groups.rs:140-187 | the column's lines, each laid out from its section widths and smoothed when smoothing is on |
| LineGroups.ColumnDraws | src/bin/line_groups.rs:130-135 | column c takes the c-th run of `points_per_line` draws |
| LineGroups.AllColumns | src/bin/line_groups.rs:130-135 | one column per `number_of_columns` |
| LineGroups.GeneratePointColumns | src/bin/line_groups.rs:120-138 | the columns left to right, appended into one list of lines |
| LineGroups.PointColumnsLayout | src/bin/line_groups.rs:120-184 | there are `number_of_columns · lines_per_column` lines, and line l of column c is at c·lines_per_column + l, laid out from column c's origin and draws |
| LineGroups.ColumnPointHeight | src/bin/line_groups.rs:199-206 | point k lies k/points_per_line of the height above the bottom edge |
| LineGroups.UnsmoothedLines | src/bin/line_groups.rs:159-184 | without smoothing, every line is the plain laid-out line with `points_per_line` points |
| LineGroups.SmoothedLineEnds | src/bin/line_groups.rs:169-181 | with smoothing, each line has 2^k(p-2) + 2 points and keeps the plain line's first point, and its last when p ≥ 3 |
| LineGroups.DefaultCounts | src/bin/line_groups.rs:39-57 | the defaults give 128 lines of 16 points |
| PointColumns.SectionWidthRange | src/main.rs:190-194 | a draw in [0.3, 1.2) gives a section between 37.5 and 150 wide |
| PointColumns.GeneratePointColumn | src/main.rs:181-215 | the column's lines, point by point, from its section widths |
| PointColumns.AllColumns | src/main.rs:171-176 | one column per `number_of_columns` |
| PointColumns.GeneratePointColumns | src/main.rs:161-179 | the columns left to right, appended into one list of lines |
| PointColumns.PointColumnsLayout | src/main.rs:161-215 | there are `number_of_columns · lines_per_column` lines, and line l of column c is at c·lines_per_column + l |
| PointColumns.PointPosition | src/main.rs:187-208 | every line has `points_per_line` points; point k has y = k·height/points_per_line - height/2 and x = l·(w/lines_per_column) + origin_x + (w/2)(alignment - 1), where w is 125 times its draw |
| PointColumns.ColumnPoint | src/main.rs:201-208 | the same coordinates for one line given as the line itself |
| PointColumns.PointFormula | src/main.rs:203-206 | one point's coordinates in terms of its draw |
| PointColumns.ColumnSectionsRange | src/main.rs:190-194 | with every draw in [0.3, 1.2), every section of every column is between 37.5 and 150 wide |
| PointColumns.DefaultCounts | src/main.rs:92-105 | the defaults give 128 lines of 16 points |
| Pasta.SampleBound | src/bin/line_noise/pasta.rs:50-78 | a column is sampled at k·m exactly while k·m ≤ height |
| Pasta.NextHeight | src/bin/line_noise/pasta.rs:78 | each sample is one `min_line_length` above the previous one |
| Pasta.Chances | src/bin/line_noise/pasta.rs:56-59 | one noise value per sample |
| Pasta.ToLines | src/bin/line_noise/pasta.rs:61-69 | one line per completed segment |
| Pasta.ToLinesAppend | src/bin/line_noise/pasta.rs:68 | the lines of two segment lists appended are the two line lists appended |
| Pasta.EmittedLines | src/bin/line_noise/pasta.rs:61-69 | a sample emits a line exactly when the pen is down and the roll beats the chance, from the pen-down point to the current point |
| Pasta.AllColumns | src/bin/line_noise/pasta.rs:41-42 | one line list per column draw |
| Pasta.ColumnSpacing | src/bin/line_noise/pasta.rs:40-45 | the first column is at x = 0, the last at x = width, consecutive ones width/line_count apart |
| Pasta.SegmentsShape | src/bin/line_noise/pasta.rs:61-78 | segments start where a roll fell below the chance and end later where one rose above it, in order; an open segment is the first one completed |
| Pasta.SegmentsWithinCons | src/bin/line_noise/pasta.rs:61-78 | one completed segment followed by well-placed later ones is well placed |
| Pasta.OpenSegmentDropped | src/bin/line_noise/pasta.rs:50-81 | a segment still open when the samples run out is never emitted |
| Pasta.HeightDifference | src/bin/line_noise/pasta.rs:78 | heights b and a > b apart differ by a positive multiple of `min_line_length` |
| Pasta.ShortenAsWrittenStalls | src/bin/line_noise/main.rs:118-123 | two presses of H take the default step 10 to 0, and with step 0 no sampling height ever exceeds a non-negative canvas height |
| Pasta.ShortenKeepsSampling | src/bin/line_noise/main.rs:118-123 | the corrected H key keeps a positive step positive and no larger, and sampling with it then reaches a height above the canvas |
| Pasta.ColumnLine | src/bin/line_noise/pasta.rs:45-78 | every line is vertical at the column's x, both ends carry the column's jitter, and its length is a positive multiple of `min_line_length` |
| Pasta.ColumnLinesInOrder | src/bin/line_noise/pasta.rs:61-78 | lines of a column come bottom to top, each starting at least one step above the end of the one before |
| Pasta.ScannedNext | src/bin/line_noise/pasta.rs:50-79 | one sample extends the lines and the pen as the state machine says |
| Pasta.SampleStep | src/bin/line_noise/pasta.rs:61-78 | whatever the roll, the loop body's pen and lines are those of the state machine's step |
| Pasta.SampleColumn | src/bin/line_noise/pasta.rs:43-81 | the loop's lines are the column's lines from the state machine |
| Pasta.NewLinesFromNoise | src/bin/line_noise/pasta.rs:37-84 | the lines of columns 0..=line_count, left to right, appended into one list |
| Triangles.New | src/bin/dune/triangle.rs:26-30 | the triangle's points are the generated corners |
| Triangles.TriangleShape | src/bin/dune/triangle.rs:82-95 | the base is horizontal with length `width`, the apex is `height` above it at `width·skew` from its left end, centred on `xy` |
| Triangles.SkewPlacesApex | src/bin/dune/triangle.rs:82-95 | skew 0 puts the apex above p0, skew 1 above p2, and skew in [0,1] above the base |
| Triangles.Cycle | src/bin/dune/triangle.rs:73-74 | cycling and taking n yields n points |
| Triangles.SvgPoints | src/bin/dune/triangle.rs:67-79 | the outline is the three corners followed by the first one again |
| Triangles.FromCorners | src/bin/dune/triangle.rs:64 | the rectangle spans the two corners, in either order |
| Triangles.MinFoldIsMinimum | src/bin/dune/triangle.rs:42-60 | the `f32::MAX`-seeded minimum fold is below every value and, on a non-empty list, equals one of them |
| Triangles.MaxFoldIsMaximum | src/bin/dune/triangle.rs:42-60 | the `f32::MIN`-seeded maximum fold is above every value and, on a non-empty list, equals one of them |
| Triangles.Xs | src/bin/dune/triangle.rs:42-60 | one x per point |
| Triangles.Ys | src/bin/dune/triangle.rs:42-60 | one y per point |
| Triangles.FoldPointsExtents | src/bin/dune/triangle.rs:42-60 | component by component, the corrected fold gives min x, max x, min y, max y; the as-written fold gives min x in place of min y |
| Triangles.BoundingRectIsTight | src/bin/dune/triangle.rs:41-65 | the corrected per-triangle box contains every corner and each edge touches one |
| Triangles.BoundingRectAsWrittenExtents | src/bin/dune/triangle.rs:41-65 | as written, the horizontal extent is right but the vertical extent runs from Min(min x, max y) to Max(min x, max y) |
| Triangles.BoundingRectAsWrittenMissesBottom | src/bin/dune/triangle.rs:51 | a triangle at (0,100) of size 2 has all corners at y ≥ 99, yet the as-written box reaches down to -1 |
| Triangles.BoundingRectAsWrittenMissesBase | src/bin/dune/triangle.rs:41-65 | a triangle centred at (100, 0) gets an as-written box from y = 1 to 99, with both base corners below it, where the corrected box spans y = -1 to 1 |
| Triangles.FoldThree | src/bin/dune/triangle.rs:42-60 | both point folds over the three corners, unrolled |
| Triangles.Rects | src/bin/dune/triangle.rs:102 | one corrected rectangle per triangle |
| Triangles.RectsAsWritten | src/bin/dune/triangle.rs:102 | one as-written rectangle per triangle, as the source maps them |
| Triangles.FoldRectsExtents | src/bin/dune/triangle.rs:104-124 | the dune fold gives min left, max right, min bottom, max top |
| Triangles.RectsInF32 | src/bin/dune/triangle.rs:102 | boxes of triangles with `f32` coordinates have `f32` edges |
| Triangles.BoundingRectFromTrianglesCovers | src/bin/dune/triangle.rs:99-128 | on a non-empty list the dune box over the corrected per-triangle boxes covers every one of them and each edge equals one of theirs |
| Triangles.FoldRectsCover | src/bin/dune/triangle.rs:104-127 | folding a non-empty list of proper boxes with `f32` edges gives a box covering all of them, each edge taken from one of them |
| Triangles.RectsAsWrittenInF32 | src/bin/dune/triangle.rs:102 | the as-written boxes of triangles with `f32` coordinates have `f32` edges |
| Triangles.BoundingRectFromTrianglesAsWrittenCovers | src/bin/dune/triangle.rs:99-128 | the dune box as written covers every as-written triangle box, and its left and right edges agree with the corrected dune box |
| Triangles.DuneAsWrittenMissesBottom | src/bin/dune/triangle.rs:99-128 | a one-triangle dune at y = 100 gets bottom -1 as written but 99 when corrected |
| Triangles.EmptyDuneSpansEverything | src/bin/dune/triangle.rs:99-128 | with no triangles the seeds survive and the box spans all of `f32` |
| Triangles.SizeTRange | src/bin/dune/triangle.rs:132-141 | t is never negative and never above its value at count/2, which is (count + count mod 2)/count; it is 0 at the last index, 0 at index 0 exactly when count ≥ 2, and within [0,1] for even counts |
| Triangles.SizeTIsFraction | src/bin/dune/triangle.rs:137-141 | both branches are (n/count)·2 |
| Triangles.FractionMonotone | src/bin/dune/triangle.rs:137-141 | (n/count)·2 grows with n, 0 at n = 0 and 2 at n = count |
| Triangles.FractionPeak | src/bin/dune/triangle.rs:137-141 | the falling branch at count/2 is (count + count mod 2)/count, 1 for even counts |
| Triangles.NewTrianglesFromNoise | src/bin/dune/triangle.rs:130-151 | count + 1 triangles, indices 0 to count |
| Triangles.NoiseTriangleShape | src/bin/dune/triangle.rs:144-148 | triangle i is centred at y = -i·spacing, its height is `map_range` of its size parameter, and its width that height times the ratio |
| Walls.FlippedInvolution | src/bin/maze/wall.rs:35-40 | flipping changes the kind, and flipping twice restores it |
| Walls.Wall.constructor | src/bin/maze/wall.rs:17-25 | the given position and kind, not hovered |
| Walls.Wall.Flip | src/bin/maze/wall.rs:35-40 | only the kind changes, to the other one |
| Walls.Wall.SetIsHovered | src/bin/maze/wall.rs:42-49 | afterwards `is_hovered` returns the flag; kind and position are unchanged |
| Walls.SvgLineEndpoints | src/bin/maze/wall.rs:84-104 | kind A runs from (X, Y+gch) to (X+gcw, Y) and kind B from (X, Y) to (X+gcw, Y+gch); each spans exactly one cell |
| Walls.SvgKindsAreDiagonals | src/bin/maze/wall.rs:90-103 | the two kinds' endpoints are the cell's four corners, and flipping moves every endpoint |
| MazeParameters.DefaultSize | src/bin/maze/params.rs:10-29 | the defaults give width 1100, height 800 and 2200 cells |
| MazeParameters.CellWithinMaze | src/bin/maze/params.rs:10-16 | every grid cell lies within `width()` by `height()` |
| Mazes.GridRows | src/bin/maze/maze.rs:14-15 | `rows` rows of `columns` positions |
| Mazes.GridPositionAt | src/bin/maze/maze.rs:14-15 | position k is (k mod columns, k div columns) |
| Mazes.GridPositionsDistinct | src/bin/maze/maze.rs:14-15 | no two grid positions coincide |
| Mazes.Fresh | src/bin/maze/maze.rs:14-17 | rows·columns walls |
| Mazes.FreshWall | src/bin/maze/maze.rs:14-17 | wall k is at (k mod columns, k div columns) with the k-th drawn kind, not hovered |
| Mazes.FreshWallInsideMaze | src/bin/maze/maze.rs:14-17 | every fresh wall's cell lies within the maze |
| Mazes.FirstAt | src/bin/maze/maze.rs:48 | the first wall at xy, or none exactly when no wall is there |
| Mazes.FlipFirstChangesOne | src/bin/maze/maze.rs:47-51 | only the first wall at xy changes, only in its kind; with no wall there nothing changes |
| Mazes.FlipFirstTwice | src/bin/maze/maze.rs:47-51 | clicking the same cell twice restores the maze |
| Mazes.FirstAtSamePositions | src/bin/maze/maze.rs:48 | the search looks only at positions |
| Mazes.Hovered | src/bin/maze/maze.rs:29-31 | the hover pass keeps the number of walls |
| Mazes.HoveredMarksCell | src/bin/maze/maze.rs:29-31 | a wall is hovered exactly when it is at the mouse's cell; with distinct positions at most one is |
| Mazes.UpdatedHover | src/bin/maze/maze.rs:28-37 | after an update with the mouse over a cell, exactly the walls there are hovered, positions stay, and distinct positions stay distinct |
| Mazes.States | src/bin/maze/maze.rs:9 | one state per wall, in vector order |
| Mazes.BuildWalls | src/bin/maze/maze.rs:14-17 | new distinct walls whose states are the fresh grid |
| Mazes.Maze.constructor | src/bin/maze/maze.rs:13-20 | rows·columns walls in row-major order with the drawn kinds, none hovered |
| Mazes.Maze.Default | src/bin/maze/maze.rs:86-90 | a maze with no walls |
| Mazes.Maze.NewWallsFromRng | src/bin/maze/maze.rs:40-45 | the walls are replaced by a freshly built grid |
| Mazes.Maze.FlipWallAt | src/bin/maze/maze.rs:47-51 | the walls end as the first wall at xy flipped; the vector is unchanged |
| Mazes.Maze.Update | src/bin/maze/maze.rs:22-38 | no mouse cell: nothing changes; otherwise the hover pass, then a flip there when the button was just pressed |
| Geometry.TryNormalize | src/bin/orbiter/orbiter.rs:55-56 | `None` exactly when the vector has zero length, otherwise a unit vector |
| Geometry.NormalizeIsUnit | src/bin/circle_packing/packer.rs:206 | a normalised vector has length one |
| Geometry.LengthFacts | src/bin/circle_packing/packer.rs:192 | a length is non-negative, squares to the squared length, and is zero exactly when the squared length is |
| Geometry.DistanceSymmetric | src/bin/circle_packing/packer.rs:192 | the distance from a to b equals the distance from b to a |
| Geometry.NormalizeNeg | src/bin/circle_packing/packer.rs:195 | normalising the reversed vector gives the reversed unit vector |
| Orbiters.PullAtSamePoint | src/bin/orbiter/orbiter.rs:47-56 | a body at the orbiter's own position is at squared distance 0 and, with the zero-distance magnitude taken as 0, exerts no pull |
| Orbiters.MagnitudeFacts | src/bin/orbiter/orbiter.rs:50-52 | the pull is symmetric in the two masses, positive between positive masses apart, and falls with the square of the distance |
| Orbiters.ForceWithoutDirection | src/bin/orbiter/orbiter.rs:54-56 | a body with no direction from the orbiter pulls with zero force |
| Orbiters.ForceAlongDirection | src/bin/orbiter/orbiter.rs:50-56 | otherwise the pull is the unit vector towards the body times the gravity magnitude |
| Orbiters.ForcesOpposite | src/bin/orbiter/orbiter.rs:47-61 | two bodies pull on each other with opposite forces (Newton's third law) |
| Orbiters.DirectionNeg | src/bin/orbiter/orbiter.rs:54-56 | reversing a vector reverses its direction |
| Orbiters.Forces | src/bin/orbiter/orbiter.rs:47-61 | one pull per body |
| Orbiters.QueuedAllSnoc | src/bin/orbiter/orbiter.rs:60 | queueing one body more after a list is queueing the longer list |
| Orbiters.QueuedAllConcat | src/bin/orbiter/orbiter.rs:60 | queueing two lists in turn is queueing their concatenation |
| Orbiters.AddAllConcat | src/bin/orbiter/orbiter.rs:64-66 | draining two queues in turn is draining their concatenation |
| Orbiters.AddAllSums | src/bin/orbiter/orbiter.rs:64-66 | the drained velocity is the old one plus the sum of the forces |
| Orbiters.SteppedFacts | src/bin/orbiter/orbiter.rs:63-77 | the queue ends empty, every queued force is in the velocity, the orbiter moves by the new velocity, mass/radius/start stay, the trail moves only on a tick, a trail within `max_trail_dots` stays within it and ends at the new position |
| Orbiters.Orbiter.constructor | src/bin/orbiter/orbiter.rs:26-36 | current and start position are xy, with an empty queue and trail |
| Orbiters.Orbiter.NewFromParams | src/bin/orbiter/orbiter.rs:38-45 | the orbiter starts in the middle of the canvas with velocity (-0.2, -1.0) and the drawn mass and radius |
| Orbiters.Orbiter.QueueForceUpdate | src/bin/orbiter/orbiter.rs:47-61 | exactly one force more at the back of the queue, the pull of `other`; nothing else changes |
| Orbiters.Orbiter.Update | src/bin/orbiter/orbiter.rs:63-77 | the new state is the old one drained, moved, and on a tick with the position pushed on the bounded trail |
| Systems.Bodies | src/bin/orbiter/orbiter.rs:126-134 | each orbiter of a snapshot pulls with its mass from its current position |
| Systems.FixedBodies | src/bin/orbiter/fixed_body.rs:31-39 | each fixed body pulls with its mass from its position |
| Systems.Sources | src/bin/orbiter/system.rs:51-65 | an orbiter's sources are every fixed body, then every other orbiter of the snapshot in order, |fixed| + |orbiters| - 1 in all |
| Systems.QueuingAll | src/bin/orbiter/system.rs:51-65 | one queued state per orbiter |
| Systems.SteppedAll | src/bin/orbiter/system.rs:67-70 | one stepped state per orbiter |
| Systems.Step | src/bin/orbiter/system.rs:33-71 | an update keeps the number of orbiters |
| Systems.StepFacts | src/bin/orbiter/system.rs:48-70 | each orbiter queues one pull per fixed body and per other orbiter, drains them all into its velocity, ends with an empty queue, moves by its new velocity, keeps mass/radius/start, and keeps a bounded trail bounded |
| Systems.PullsOpposite | src/bin/orbiter/system.rs:48-65 | the pull orbiter i queues from j is the opposite of the pull j queues from i |
| Systems.SourcesFromPositions | src/bin/orbiter/system.rs:48 | snapshots agreeing on masses and positions give the same sources, so queueing order does not matter |
| Systems.Initial | src/bin/orbiter/system.rs:18-21 | one orbiter per draw |
| Systems.InitialCoincide | src/bin/orbiter/system.rs:17-21 | all orbiters built from the parameters share the canvas centre, so the pull between any two of them in the first update is the zero vector |
| Systems.States | src/bin/orbiter/system.rs:11 | one state per orbiter, in vector order |
| Systems.OthersUpToNext | src/bin/orbiter/system.rs:58-64 | the inner loop skips its own index and otherwise queues the next orbiter |
| Systems.QueueForces | src/bin/orbiter/system.rs:52-64 | the orbiter ends with the pulls of its sources queued |
| Systems.QueueFixed | src/bin/orbiter/system.rs:53-55 | the pulls of the fixed bodies are queued in order |
| Systems.QueueOthers | src/bin/orbiter/system.rs:58-64 | the pulls of the other orbiters of the snapshot are queued in order |
| Systems.QueueAllForces | src/bin/orbiter/system.rs:51-65 | every orbiter ends with its sources' pulls from the snapshot queued |
| Systems.UpdateAll | src/bin/orbiter/system.rs:68-70 | every orbiter is stepped with the same tick |
| Systems.System.NewFromParams | src/bin/orbiter/system.rs:17-31 | `orbiter_count` orbiters built from the draws and exactly one fixed body, the default one |
| Systems.System.Update | src/bin/orbiter/system.rs:33-71 | the orbiters end as `Step` of their old states: all pulls queued from the snapshot, then all stepped; the mouse changes nothing |

## Left out

- IEEE `f32`/`f64` arithmetic (rounding, NaN, infinities) is replaced by exact reals.
- Some requires rule out inputs where the source produces NaN or infinity rather than panicking:
  - a zero `line_count` in line noise;
  - a zero `count` for the dune;
  - a degenerate first range in `PlotLib.MapRange` (`range_a.end == range_a.start`), where the `f32` division gives infinity or NaN.
- Integer overflow is left out: `isize` in `get_wrapping_index` for coordinates near the type's limits, `usize` products in `MazeParams`, and the `u8` orbiter count. The `usize` cast itself is modelled.
- `Geometry.IsSqrt`: the square root is a parameter known only to be the non-negative root, so no particular `f32` `sqrt` rounding is modelled.
- nannou's `map_range` is a parameter in the dune, since its code is not part of this model.
- `Orbiters.Magnitude`: at zero distance the source divides by zero, and the model takes 0. In `f32` the magnitude is infinite and the force is NaN, or 0·inf when the direction is also zero. This is not only an edge case: every orbiter starts at the canvas centre, so with two or more orbiters the first update takes every orbiter-to-orbiter pull at distance zero. In `f32` every orbiter's velocity and position are then NaN after one frame; in the model those pulls are zero (`Systems.InitialCoincide`), and the orbiters feel only the fixed body.
- Random generators, `SuperSimplex` noise, the `Interval` clock and `MouseButtonState` are inputs: sequences of draws, functions, and booleans. Their distributions are not modelled. The 50/50 `WallKind` sampler is a sequence of kinds.
- Line noise requires `min_line_length > 0`. Otherwise the source loops forever, since `y` never passes `height`; the H key can reach that state (see "## Findings").
- `Packing.Packer.constructor` requires every draw to lie in its range, which needs `start_position_variance > 0` and `min_radius < max_radius`. Otherwise `gen_range` panics on an empty range.
- `Orbiters.Orbiter.NewFromParams` and `Systems.System.NewFromParams` require every draw to lie in its range, which needs `mass_range.start < mass_range.end` and `radius_range.start < radius_range.end`. Otherwise `gen_range` panics on an empty range.
- Line noise requires `vertical_jitter > 0`. Otherwise `gen_range` panics on an empty range.
- The trail's `VecDeque` capacity (`Orbiter::new`'s `max_trail_dots` argument) only reserves memory, so it is not modelled.
- The coordinates of the dune are assumed to be finite `f32` values. This makes the `f32::MAX`/`f32::MIN` fold seeds neutral.
- All window, UI, event, drawing and SVG-export code is left out, as are `src/lib/svg.rs` and the formatting of SVG strings. Only the point order of `Triangle::as_svg` and the endpoint arithmetic of `Wall::svg` are kept.
- `RefCell` borrows in the packer are left out: circles are objects and the buffers are arrays. The `j == circles.len()` wrap and the `assert_ne!` in the pair loop are modelled, and `Packing.ExchangeSeparationForces` proves that neither can fire.
- `Mazes.Maze.Update` does not take the sketch parameters, which the source passes but never reads. The call in the maze binary's main file with a different argument list is not part of this model.
- `Systems.System.Update` takes the mouse position and button state, which only feed a trace log in the source.
- Logging (`trace!`, `debug!`) is left out.
- `Circle::draw`, `Packer::draw`, `Triangle::draw` and the params files of the circle-packing binary are not part of this model, except as literals where the core reads them.
- `Packing.Packer.Len` carries no contract of its own. It is `|circles|`, and `Packing.Packer.IsEmpty` states that `is_empty` holds exactly when `len` is zero.
- Some loops are split into helper methods, each proved against the same value-level functions:
  - the loops of `System::update`: `QueueFixed`, `QueueOthers`, `QueueForces`, `QueueAllForces`, `UpdateAll`;
  - the middle of `apply_separation_forces_to_circle`: `SteeringForce`, `ApplyAndIntegrate`.

## Findings

| source | as written | input that shows it | evidently intended | confidence | as-written member | corrected member |
|---|---|---|---|---|---|---|
| src/bin/dune/triangle.rs:51 | the bottom accumulator of `Triangle::bounding_rect` is compared with and set to `xy.x`, so the box's vertical extent runs from Min(min x, max y) to Max(min x, max y), after `from_corners` orders the two | `Triangle::new((0, 100), 0.5, 2, 2)`: the corners lie at y = 99 and y = 101, but the box's bottom is -1; `Triangle::new((100, 0), 0.5, 2, 2)` gets a box from y = 1 to 99 while its base corners sit at y = -1 | compare and set with `xy.y`, giving the tight box [min x, max x] × [min y, max y] | not executed | Triangles.BoundingRectAsWrittenMissesBottom, Triangles.BoundingRectAsWrittenMissesBase, Triangles.DuneAsWrittenMissesBottom, Triangles.BoundingRectFromTrianglesAsWrittenCovers | Triangles.BoundingRectIsTight, Triangles.BoundingRectFromTrianglesCovers |
| src/bin/line_noise/main.rs:118-123 | the H key subtracts 5 from `min_line_length` whenever it is positive, so from the default 10 two presses leave 0 | two presses of H at start-up: `new_lines_from_noise` then adds 0 to `y` each step and never passes `height` | keep the step positive | not executed | Pasta.ShortenAsWrittenStalls | Pasta.ShortenKeepsSampling |
