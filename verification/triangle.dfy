/**
 * The dune sketch's triangles (src/bin/dune/triangle.rs): the three corner
 * points built from a centre, a skew, a width and a height, the axis-aligned
 * bounding rectangle of one triangle and of a whole dune, the noise-driven
 * column of triangles, and the closed point order of the SVG polyline.
 *
 * `f32::MAX`/`f32::MIN` are the fold seeds; coordinates are reals assumed to
 * lie in the finite `f32` range, which is what makes the seeds neutral.
 */
module Triangles {
  import opened Geometry

  // ---- points -----------------------------------------------------------

  type Points3 = s: seq<Vec2> | |s| == 3
    witness [Vec2(0.0, 0.0), Vec2(0.0, 0.0), Vec2(0.0, 0.0)]

  /** A triangle is its three corners: bottom-left, apex, bottom-right. */
  datatype Triangle = Triangle(points: Points3)

  /** `generate_triangle_points_from_attributes`. */
  function GeneratePoints(xy: Vec2, skew: real, width: real, height: real): Points3 {
    var originX := xy.x - width / 2.0;
    var originY := xy.y - height / 2.0;
    [Vec2(originX, originY),
     Vec2(originX + width * skew, originY + height),
     Vec2(originX + width, originY)]
  }

  /** `Triangle::new`. */
  function New(xy: Vec2, skew: real, width: real, height: real): (t: Triangle)
    ensures t.points == GeneratePoints(xy, skew, width, height)
  {
    Triangle(GeneratePoints(xy, skew, width, height))
  }

  /** The corners describe a triangle with a horizontal base of length
      `width`, an apex `height` above the base at `width * skew` from its
      left end, centred on `xy`. */
  lemma TriangleShape(xy: Vec2, skew: real, width: real, height: real)
    ensures var ps := New(xy, skew, width, height).points;
      && ps[0].y == ps[2].y
      && ps[2].x - ps[0].x == width
      && ps[1].y - ps[0].y == height
      && ps[1].x - ps[0].x == width * skew
      && ps[0].x + width / 2.0 == xy.x
      && ps[0].y + height / 2.0 == xy.y
  {
  }

  /** Skew 0 gives a right angle on the left (apex above p0), skew 1 a right
      angle on the right (apex above p2), and any skew in between puts the
      apex above the base. */
  lemma SkewPlacesApex(xy: Vec2, skew: real, width: real, height: real)
    ensures var ps := New(xy, skew, width, height).points;
      && (skew == 0.0 ==> ps[1].x == ps[0].x)
      && (skew == 1.0 ==> ps[1].x == ps[2].x)
      && (0.0 <= skew <= 1.0 && 0.0 <= width ==> ps[0].x <= ps[1].x <= ps[2].x)
  {
    var ps := New(xy, skew, width, height).points;
    if 0.0 <= skew <= 1.0 && 0.0 <= width {
      assert 0.0 <= width * skew;
      assert width * skew <= width * 1.0 by {
        assert 0.0 <= width * (1.0 - skew);
      }
    }
  }

  /** `as_svg` walks the points cyclically and takes four, closing the
      outline on the first point again. */
  function Cycle(s: seq<Vec2>, n: nat): (r: seq<Vec2>)
    requires |s| > 0
    ensures |r| == n
  {
    seq(n, i requires 0 <= i < n => s[i % |s|])
  }

  function SvgPoints(t: Triangle): (r: seq<Vec2>)
    ensures |r| == 4 && r[..3] == t.points && r[3] == r[0]
  {
    var r := Cycle(t.points, 4);
    assert r[..3] == t.points by {
      forall i | 0 <= i < 3 ensures r[i] == t.points[i] {
        assert i % 3 == i;
      }
    }
    r
  }

  // ---- the fold accumulators ----------------------------------------------

  const F32Max: real := 340282346638528859811704183484516925440.0
  const F32Min: real := -F32Max

  predicate InF32(v: real) { F32Min <= v <= F32Max }

  /** The `(l, r, b, t)` accumulator threaded through both folds. */
  datatype Bounds = Bounds(l: real, r: real, b: real, t: real)

  const Seed: Bounds := Bounds(F32Max, F32Min, F32Max, F32Min)

  /** The two corners built from the fold result, after the destructuring
      `let (l, r, t, b)` that names the third component `t` and the fourth
      `b`: `a = (l, acc.b)`, `b = (r, acc.t)`. */
  function CornerRect(acc: Bounds): Rect {
    FromCorners(Vec2(acc.l, acc.b), Vec2(acc.r, acc.t))
  }

  /** nannou's `Rect::from_corners`: the rectangle spanned by two opposite
      corners, in either order. */
  function FromCorners(a: Vec2, b: Vec2): (r: Rect)
    ensures r.left <= r.right && r.bottom <= r.top
    ensures (r.left == a.x && r.right == b.x) || (r.left == b.x && r.right == a.x)
    ensures (r.bottom == a.y && r.top == b.y) || (r.bottom == b.y && r.top == a.y)
  {
    var (left, right) := if a.x < b.x then (a.x, b.x) else (b.x, a.x);
    var (bottom, top) := if a.y < b.y then (a.y, b.y) else (b.y, a.y);
    Rect(left, right, bottom, top)
  }

  /** Running minimum and maximum seeded with the `f32` extremes, the shape
      of each component of the folds. */
  function MinFold(xs: seq<real>): real {
    if |xs| == 0 then F32Max
    else
      var m := MinFold(xs[..|xs| - 1]);
      if xs[|xs| - 1] < m then xs[|xs| - 1] else m
  }

  function MaxFold(xs: seq<real>): real {
    if |xs| == 0 then F32Min
    else
      var m := MaxFold(xs[..|xs| - 1]);
      if xs[|xs| - 1] > m then xs[|xs| - 1] else m
  }

  predicate AllInF32(xs: seq<real>) {
    forall i :: 0 <= i < |xs| ==> InF32(xs[i])
  }

  /** The minimum of a non-empty list of `f32` values is below each of them
      and equal to one of them. */
  lemma {:induction false} MinFoldIsMinimum(xs: seq<real>)
    requires AllInF32(xs)
    ensures forall i :: 0 <= i < |xs| ==> MinFold(xs) <= xs[i]
    ensures |xs| > 0 ==> exists i :: 0 <= i < |xs| && MinFold(xs) == xs[i]
    ensures MinFold(xs) <= F32Max
  {
    if |xs| > 0 {
      var init := xs[..|xs| - 1];
      assert AllInF32(init) by {
        forall i | 0 <= i < |init| ensures InF32(init[i]) {
          assert init[i] == xs[i];
        }
      }
      MinFoldIsMinimum(init);
      var last := |xs| - 1;
      assert InF32(xs[last]);
      forall i | 0 <= i < |xs| ensures MinFold(xs) <= xs[i] {
        if i < last {
          assert init[i] == xs[i];
        }
      }
      if MinFold(xs) == xs[last] {
      } else {
        assert |init| > 0;
        var j :| 0 <= j < |init| && MinFold(init) == init[j];
        assert MinFold(xs) == xs[j];
      }
    }
  }

  lemma {:induction false} MaxFoldIsMaximum(xs: seq<real>)
    requires AllInF32(xs)
    ensures forall i :: 0 <= i < |xs| ==> xs[i] <= MaxFold(xs)
    ensures |xs| > 0 ==> exists i :: 0 <= i < |xs| && MaxFold(xs) == xs[i]
    ensures F32Min <= MaxFold(xs)
  {
    if |xs| > 0 {
      var init := xs[..|xs| - 1];
      assert AllInF32(init) by {
        forall i | 0 <= i < |init| ensures InF32(init[i]) {
          assert init[i] == xs[i];
        }
      }
      MaxFoldIsMaximum(init);
      var last := |xs| - 1;
      assert InF32(xs[last]);
      forall i | 0 <= i < |xs| ensures xs[i] <= MaxFold(xs) {
        if i < last {
          assert init[i] == xs[i];
        }
      }
      if MaxFold(xs) == xs[last] {
      } else {
        assert |init| > 0;
        var j :| 0 <= j < |init| && MaxFold(init) == init[j];
        assert MaxFold(xs) == xs[j];
      }
    }
  }

  // ---- one triangle: Triangle::bounding_rect -----------------------------

  function Xs(ps: seq<Vec2>): (r: seq<real>)
    ensures |r| == |ps|
  {
    seq(|ps|, i requires 0 <= i < |ps| => ps[i].x)
  }

  function Ys(ps: seq<Vec2>): (r: seq<real>)
    ensures |r| == |ps|
  {
    seq(|ps|, i requires 0 <= i < |ps| => ps[i].y)
  }

  /** The fold step as written: the third accumulator compares the x
      coordinate. */
  function PointStepAsWritten(acc: Bounds, xy: Vec2): Bounds {
    Bounds(if xy.x < acc.l then xy.x else acc.l,
           if xy.x > acc.r then xy.x else acc.r,
           if xy.x < acc.b then xy.x else acc.b,
           if xy.y > acc.t then xy.y else acc.t)
  }

  /** The fold step as intended: the third accumulator is the lowest y. */
  function PointStep(acc: Bounds, xy: Vec2): Bounds {
    Bounds(if xy.x < acc.l then xy.x else acc.l,
           if xy.x > acc.r then xy.x else acc.r,
           if xy.y < acc.b then xy.y else acc.b,
           if xy.y > acc.t then xy.y else acc.t)
  }

  function FoldPointsAsWritten(ps: seq<Vec2>): Bounds {
    if |ps| == 0 then Seed
    else PointStepAsWritten(FoldPointsAsWritten(ps[..|ps| - 1]), ps[|ps| - 1])
  }

  function FoldPoints(ps: seq<Vec2>): Bounds {
    if |ps| == 0 then Seed
    else PointStep(FoldPoints(ps[..|ps| - 1]), ps[|ps| - 1])
  }

  /** The point folds, component by component: the as-written one keeps the
      minimum x where the minimum y belongs. */
  lemma {:induction false} FoldPointsExtents(ps: seq<Vec2>)
    ensures FoldPoints(ps)
         == Bounds(MinFold(Xs(ps)), MaxFold(Xs(ps)), MinFold(Ys(ps)), MaxFold(Ys(ps)))
    ensures FoldPointsAsWritten(ps)
         == Bounds(MinFold(Xs(ps)), MaxFold(Xs(ps)), MinFold(Xs(ps)), MaxFold(Ys(ps)))
  {
    if |ps| > 0 {
      var init := ps[..|ps| - 1];
      FoldPointsExtents(init);
      assert Xs(ps)[..|ps| - 1] == Xs(init);
      assert Ys(ps)[..|ps| - 1] == Ys(init);
    }
  }

  /** `Triangle::bounding_rect` as written (line 51 compares `xy.x` with the
      bottom accumulator). */
  function BoundingRectAsWritten(tri: Triangle): Rect {
    CornerRect(FoldPointsAsWritten(tri.points))
  }

  /** `Triangle::bounding_rect` with the bottom accumulator tracking y. */
  function BoundingRect(tri: Triangle): Rect {
    CornerRect(FoldPoints(tri.points))
  }

  predicate CoordsInF32(ps: seq<Vec2>) {
    forall i :: 0 <= i < |ps| ==> InF32(ps[i].x) && InF32(ps[i].y)
  }

  /** `r` is the tightest axis-aligned box around `ps`: every point is
      inside and every edge touches a point. */
  predicate Tight(r: Rect, ps: seq<Vec2>) {
    && (forall i :: 0 <= i < |ps| ==>
          r.left <= ps[i].x <= r.right && r.bottom <= ps[i].y <= r.top)
    && (exists i :: 0 <= i < |ps| && r.left == ps[i].x)
    && (exists i :: 0 <= i < |ps| && r.right == ps[i].x)
    && (exists i :: 0 <= i < |ps| && r.bottom == ps[i].y)
    && (exists i :: 0 <= i < |ps| && r.top == ps[i].y)
  }

  lemma Coordinates(ps: seq<Vec2>)
    ensures forall i :: 0 <= i < |ps| ==> Xs(ps)[i] == ps[i].x && Ys(ps)[i] == ps[i].y
  {
  }

  lemma ExtentsOfPoints(ps: seq<Vec2>)
    requires CoordsInF32(ps)
    ensures AllInF32(Xs(ps)) && AllInF32(Ys(ps))
  {
  }

  /** The corrected bounding rectangle is the tight box of the corners. */
  lemma BoundingRectIsTight(tri: Triangle)
    requires CoordsInF32(tri.points)
    ensures Tight(BoundingRect(tri), tri.points)
  {
    var ps := tri.points;
    FoldPointsExtents(ps);
    ExtentsOfPoints(ps);
    MinFoldIsMinimum(Xs(ps));
    MaxFoldIsMaximum(Xs(ps));
    MinFoldIsMinimum(Ys(ps));
    MaxFoldIsMaximum(Ys(ps));
    var r := BoundingRect(tri);
    Coordinates(ps);
    assert MinFold(Xs(ps)) <= ps[0].x <= MaxFold(Xs(ps));
    assert MinFold(Ys(ps)) <= ps[0].y <= MaxFold(Ys(ps));
    assert r == Rect(MinFold(Xs(ps)), MaxFold(Xs(ps)), MinFold(Ys(ps)), MaxFold(Ys(ps)));
  }

  /** As written, the horizontal extent is still right, but the vertical
      extent runs between the lowest x and the highest y. */
  lemma BoundingRectAsWrittenExtents(tri: Triangle)
    requires CoordsInF32(tri.points)
    ensures var r := BoundingRectAsWritten(tri);
      var lowX := BoundingRect(tri).left;
      var highY := BoundingRect(tri).top;
      && r.left == BoundingRect(tri).left
      && r.right == BoundingRect(tri).right
      && r.bottom == Min(lowX, highY) && r.top == Max(lowX, highY)
  {
    var ps := tri.points;
    FoldPointsExtents(ps);
    ExtentsOfPoints(ps);
    MinFoldIsMinimum(Xs(ps));
    MaxFoldIsMaximum(Xs(ps));
    MinFoldIsMinimum(Ys(ps));
    MaxFoldIsMaximum(Ys(ps));
    Coordinates(ps);
    assert MinFold(Xs(ps)) <= ps[0].x <= MaxFold(Xs(ps));
    assert MinFold(Ys(ps)) <= ps[0].y <= MaxFold(Ys(ps));
  }

  function Min(a: real, b: real): real { if a <= b then a else b }
  function Max(a: real, b: real): real { if a <= b then b else a }

  /** A triangle centred at (0, 100), width and height 2: its corners lie at
      y = 99 and y = 101, yet the as-written box reaches down to y = -1. */
  lemma BoundingRectAsWrittenMissesBottom()
    ensures var tri := New(Vec2(0.0, 100.0), 0.5, 2.0, 2.0);
      && (forall i :: 0 <= i < 3 ==> 99.0 <= tri.points[i].y)
      && BoundingRectAsWritten(tri).bottom == -1.0
      && BoundingRect(tri).bottom == 99.0
  {
    var tri := New(Vec2(0.0, 100.0), 0.5, 2.0, 2.0);
    assert tri.points == [Vec2(-1.0, 99.0), Vec2(0.0, 101.0), Vec2(1.0, 99.0)];
    FoldThree(tri.points);
  }

  /** A triangle centred at (100, 0), width and height 2: min x = 99 lies
      above max y = 1, so `from_corners` swaps them and the as-written box
      spans y from 1 to 99, leaving both base corners (at y = -1) outside. */
  lemma BoundingRectAsWrittenMissesBase()
    ensures var tri := New(Vec2(100.0, 0.0), 0.5, 2.0, 2.0);
      var r := BoundingRectAsWritten(tri);
      && r.bottom == 1.0 && r.top == 99.0
      && tri.points[0].y < r.bottom && tri.points[2].y < r.bottom
      && BoundingRect(tri).bottom == -1.0 && BoundingRect(tri).top == 1.0
  {
    var tri := New(Vec2(100.0, 0.0), 0.5, 2.0, 2.0);
    assert tri.points == [Vec2(99.0, -1.0), Vec2(100.0, 1.0), Vec2(101.0, -1.0)];
    FoldThree(tri.points);
  }

  /** Both point folds over three corners, unrolled. */
  lemma FoldThree(ps: Points3)
    ensures FoldPoints(ps) == PointStep(PointStep(PointStep(Seed, ps[0]), ps[1]), ps[2])
    ensures FoldPointsAsWritten(ps)
         == PointStepAsWritten(PointStepAsWritten(PointStepAsWritten(Seed, ps[0]), ps[1]), ps[2])
  {
    var two := ps[..2];
    var one := two[..1];
    assert one[..0] == [];
    assert one[0] == ps[0] && two[1] == ps[1];
    assert FoldPoints(one) == PointStep(Seed, ps[0]);
    assert FoldPointsAsWritten(one) == PointStepAsWritten(Seed, ps[0]);
    assert FoldPoints(two) == PointStep(FoldPoints(one), ps[1]);
    assert FoldPointsAsWritten(two) == PointStepAsWritten(FoldPointsAsWritten(one), ps[1]);
  }

  // ---- a dune: bounding_rect_from_triangles ------------------------------

  function RectStep(acc: Bounds, rect: Rect): Bounds {
    Bounds(if rect.left < acc.l then rect.left else acc.l,
           if rect.right > acc.r then rect.right else acc.r,
           if rect.bottom < acc.b then rect.bottom else acc.b,
           if rect.top > acc.t then rect.top else acc.t)
  }

  function FoldRects(rects: seq<Rect>): Bounds {
    if |rects| == 0 then Seed
    else RectStep(FoldRects(rects[..|rects| - 1]), rects[|rects| - 1])
  }

  /** The corrected per-triangle rectangles. */
  function Rects(tris: seq<Triangle>): (r: seq<Rect>)
    ensures |r| == |tris|
  {
    seq(|tris|, i requires 0 <= i < |tris| => BoundingRect(tris[i]))
  }

  /** `bounding_rect_from_triangles` over the corrected per-triangle box
      `BoundingRect`; `BoundingRectFromTrianglesAsWritten` below folds the
      as-written one, as the source does. */
  function BoundingRectFromTriangles(tris: seq<Triangle>): Rect {
    CornerRect(FoldRects(Rects(tris)))
  }

  function Lefts(rs: seq<Rect>): (r: seq<real>)
    ensures |r| == |rs|
  {
    seq(|rs|, i requires 0 <= i < |rs| => rs[i].left)
  }

  function Rights(rs: seq<Rect>): (r: seq<real>)
    ensures |r| == |rs|
  {
    seq(|rs|, i requires 0 <= i < |rs| => rs[i].right)
  }

  function Bottoms(rs: seq<Rect>): (r: seq<real>)
    ensures |r| == |rs|
  {
    seq(|rs|, i requires 0 <= i < |rs| => rs[i].bottom)
  }

  function Tops(rs: seq<Rect>): (r: seq<real>)
    ensures |r| == |rs|
  {
    seq(|rs|, i requires 0 <= i < |rs| => rs[i].top)
  }

  lemma {:induction false} FoldRectsExtents(rs: seq<Rect>)
    ensures FoldRects(rs)
         == Bounds(MinFold(Lefts(rs)), MaxFold(Rights(rs)), MinFold(Bottoms(rs)), MaxFold(Tops(rs)))
  {
    if |rs| > 0 {
      var init := rs[..|rs| - 1];
      FoldRectsExtents(init);
      assert Lefts(rs)[..|rs| - 1] == Lefts(init);
      assert Rights(rs)[..|rs| - 1] == Rights(init);
      assert Bottoms(rs)[..|rs| - 1] == Bottoms(init);
      assert Tops(rs)[..|rs| - 1] == Tops(init);
    }
  }

  predicate TrianglesInF32(tris: seq<Triangle>) {
    forall i :: 0 <= i < |tris| ==> CoordsInF32(tris[i].points)
  }

  /** `r` covers every rectangle of `rs`, and each of its edges is the
      matching edge of one of them. */
  predicate Covers(r: Rect, rs: seq<Rect>) {
    && (forall i :: 0 <= i < |rs| ==>
          r.left <= rs[i].left && rs[i].right <= r.right
          && r.bottom <= rs[i].bottom && rs[i].top <= r.top)
    && (exists i :: 0 <= i < |rs| && r.left == rs[i].left)
    && (exists i :: 0 <= i < |rs| && r.right == rs[i].right)
    && (exists i :: 0 <= i < |rs| && r.bottom == rs[i].bottom)
    && (exists i :: 0 <= i < |rs| && r.top == rs[i].top)
  }

  lemma RectsInF32(tris: seq<Triangle>)
    requires TrianglesInF32(tris)
    ensures AllInF32(Lefts(Rects(tris))) && AllInF32(Rights(Rects(tris)))
    ensures AllInF32(Bottoms(Rects(tris))) && AllInF32(Tops(Rects(tris)))
  {
    var rs := Rects(tris);
    forall i | 0 <= i < |tris|
      ensures InF32(rs[i].left) && InF32(rs[i].right)
      ensures InF32(rs[i].bottom) && InF32(rs[i].top)
    {
      BoundingRectIsTight(tris[i]);
    }
  }

  /** The fold over a non-empty list of proper boxes with `f32` edges yields a box
      that covers every one of them, each edge taken from one of them. */
  lemma {:induction false} FoldRectsCover(rs: seq<Rect>)
    requires |rs| > 0
    requires AllInF32(Lefts(rs)) && AllInF32(Rights(rs)) && AllInF32(Bottoms(rs)) && AllInF32(Tops(rs))
    requires forall i :: 0 <= i < |rs| ==> rs[i].left <= rs[i].right && rs[i].bottom <= rs[i].top
    ensures Covers(CornerRect(FoldRects(rs)), rs)
  {
    var ls, rts, bs, ts := Lefts(rs), Rights(rs), Bottoms(rs), Tops(rs);
    FoldRectsExtents(rs);
    var acc := FoldRects(rs);
    assert acc == Bounds(MinFold(ls), MaxFold(rts), MinFold(bs), MaxFold(ts));
    MinFoldIsMinimum(ls);
    MaxFoldIsMaximum(rts);
    MinFoldIsMinimum(bs);
    MaxFoldIsMaximum(ts);
    assert acc.l <= ls[0] && rts[0] <= acc.r && acc.b <= bs[0] && ts[0] <= acc.t;
    assert ls[0] == rs[0].left && rts[0] == rs[0].right && bs[0] == rs[0].bottom && ts[0] == rs[0].top;
    assert acc.l <= acc.r && acc.b <= acc.t;
    var r := CornerRect(acc);
    assert r == Rect(acc.l, acc.r, acc.b, acc.t);
    forall i | 0 <= i < |rs|
      ensures r.left <= rs[i].left && rs[i].right <= r.right && r.bottom <= rs[i].bottom && rs[i].top <= r.top
    {
      assert ls[i] == rs[i].left && rts[i] == rs[i].right && bs[i] == rs[i].bottom && ts[i] == rs[i].top;
    }
    var il :| 0 <= il < |ls| && acc.l == ls[il];
    var ir :| 0 <= ir < |rts| && acc.r == rts[ir];
    var ib :| 0 <= ib < |bs| && acc.b == bs[ib];
    var it :| 0 <= it < |ts| && acc.t == ts[it];
    assert r.left == rs[il].left && r.right == rs[ir].right && r.bottom == rs[ib].bottom && r.top == rs[it].top;
  }

  /** The dune's box, over the corrected per-triangle boxes, covers every
      triangle's box and each edge comes from one of them. */
  lemma BoundingRectFromTrianglesCovers(tris: seq<Triangle>)
    requires |tris| > 0 && TrianglesInF32(tris)
    ensures Covers(BoundingRectFromTriangles(tris), Rects(tris))
  {
    RectsInF32(tris);
    FoldRectsCover(Rects(tris));
  }

  /** With no triangles the seeds survive and the box spans all of `f32`. */
  lemma EmptyDuneSpansEverything()
    ensures BoundingRectFromTriangles([]) == Rect(F32Min, F32Max, F32Min, F32Max)
  {
  }

  /** The per-triangle boxes `bounding_rect_from_triangles` actually folds:
      `Triangle::bounding_rect` as written. */
  function RectsAsWritten(tris: seq<Triangle>): (r: seq<Rect>)
    ensures |r| == |tris|
  {
    seq(|tris|, i requires 0 <= i < |tris| => BoundingRectAsWritten(tris[i]))
  }

  /** `bounding_rect_from_triangles` as written: the fold over the
      as-written per-triangle boxes. */
  function BoundingRectFromTrianglesAsWritten(tris: seq<Triangle>): Rect {
    CornerRect(FoldRects(RectsAsWritten(tris)))
  }

  /** As-written boxes of triangles with `f32` coordinates have `f32` edges. */
  lemma RectsAsWrittenInF32(tris: seq<Triangle>)
    requires TrianglesInF32(tris)
    ensures AllInF32(Lefts(RectsAsWritten(tris))) && AllInF32(Rights(RectsAsWritten(tris)))
    ensures AllInF32(Bottoms(RectsAsWritten(tris))) && AllInF32(Tops(RectsAsWritten(tris)))
  {
    var rs := RectsAsWritten(tris);
    forall i | 0 <= i < |tris|
      ensures InF32(rs[i].left) && InF32(rs[i].right)
      ensures InF32(rs[i].bottom) && InF32(rs[i].top)
    {
      BoundingRectIsTight(tris[i]);
      BoundingRectAsWrittenExtents(tris[i]);
    }
  }

  /** As written, the dune's box covers every as-written triangle box, each
      edge taken from one of them, and its left and right edges are those of
      the corrected dune box: only the vertical extent inherits the defect. */
  lemma BoundingRectFromTrianglesAsWrittenCovers(tris: seq<Triangle>)
    requires |tris| > 0 && TrianglesInF32(tris)
    ensures Covers(BoundingRectFromTrianglesAsWritten(tris), RectsAsWritten(tris))
    ensures BoundingRectFromTrianglesAsWritten(tris).left == BoundingRectFromTriangles(tris).left
    ensures BoundingRectFromTrianglesAsWritten(tris).right == BoundingRectFromTriangles(tris).right
  {
    RectsAsWrittenInF32(tris);
    FoldRectsCover(RectsAsWritten(tris));
    var ws := RectsAsWritten(tris);
    var rs := Rects(tris);
    forall i | 0 <= i < |tris|
      ensures Lefts(ws)[i] == Lefts(rs)[i] && Rights(ws)[i] == Rights(rs)[i]
    {
      BoundingRectAsWrittenExtents(tris[i]);
    }
    assert Lefts(ws) == Lefts(rs);
    assert Rights(ws) == Rights(rs);
    FoldRectsExtents(ws);
    FoldRectsExtents(rs);
  }

  /** The defect of line 51 reaches the dune: a dune of the one triangle
      centred at (0, 100) with width and height 2 gets a box reaching down
      to y = -1, while the corrected box starts at y = 99. */
  lemma DuneAsWrittenMissesBottom()
    ensures var tris := [New(Vec2(0.0, 100.0), 0.5, 2.0, 2.0)];
      && BoundingRectFromTrianglesAsWritten(tris).bottom == -1.0
      && BoundingRectFromTriangles(tris).bottom == 99.0
  {
    var tri := New(Vec2(0.0, 100.0), 0.5, 2.0, 2.0);
    var tris := [tri];
    BoundingRectAsWrittenMissesBottom();
    BoundingRectIsTight(tri);
    assert tri.points == [Vec2(-1.0, 99.0), Vec2(0.0, 101.0), Vec2(1.0, 99.0)];
    assert RectsAsWritten(tris) == [BoundingRectAsWritten(tri)];
    assert Rects(tris) == [BoundingRect(tri)];
    assert [BoundingRectAsWritten(tri)][..0] == [];
    assert [BoundingRect(tri)][..0] == [];
  }

  // ---- new_triangles_from_noise ------------------------------------------

  datatype TriangleParams = TriangleParams(
    count: nat,
    whRatio: real,
    skew: real,
    verticalSpacing: real,
    minHeight: real,
    maxHeight: real,
    noiseSeed: real,
    noiseScale: real)

  const DefaultParams: TriangleParams := TriangleParams(
    count := 120, whRatio := 1.61803398875, skew := 0.5, verticalSpacing := 5.0,
    minHeight := 10.0, maxHeight := 200.0, noiseSeed := 0.0, noiseScale := 0.02)

  /** Two-dimensional noise, `noise_fn.get([seed, x])`. */
  type Noise2 = (real, real) -> real

  /** nannou's `map_range(value, in_lo, in_hi, out_lo, out_hi)`. */
  type MapRange = (real, real, real, real, real) -> real

  /** The size parameter of triangle `index`: rising for the first half
      (`count / 2` in integer arithmetic), falling for the rest. */
  function SizeT(count: nat, index: nat): real
    requires count > 0
  {
    if index < count / 2 then (index as real / count as real) * 2.0
    else ((count as real - index as real) / count as real) * 2.0
  }

  /** The size parameter starts at 0 (once there are two triangles per half),
      ends at 0, and peaks at `count / 2`; for an odd count the peak is
      `(count + 1) / count`, past the `[0, 1]` range `map_range` is given. */
  lemma SizeTRange(count: nat, index: nat)
    requires count > 0 && index <= count
    ensures 0.0 <= SizeT(count, index)
         <= (count + count % 2) as real / count as real == SizeT(count, count / 2)
    ensures SizeT(count, count) == 0.0
    ensures SizeT(count, 0) == 0.0 <==> count >= 2
    ensures count % 2 == 0 ==> SizeT(count, index) <= 1.0
  {
    var h := count / 2;
    SizeTIsFraction(count, index);
    SizeTIsFraction(count, h);
    SizeTIsFraction(count, count);
    SizeTIsFraction(count, 0);
    FractionMonotone(if index < h then index else count - index, count - h, count);
    FractionMonotone(0, 0, count);
    FractionMonotone(count, count, count);
    FractionPeak(count);
  }

  /** `(n / count) * 2`, the two branches of `SizeT` in one shape. */
  function Fraction(n: nat, count: nat): real
    requires count > 0
  {
    (n as real / count as real) * 2.0
  }

  lemma SizeTIsFraction(count: nat, index: nat)
    requires count > 0 && index <= count
    ensures SizeT(count, index)
         == Fraction(if index < count / 2 then index else count - index, count)
  {
  }

  lemma FractionMonotone(n: nat, m: nat, count: nat)
    requires n <= m && count > 0
    ensures 0.0 <= Fraction(n, count) <= Fraction(m, count)
    ensures n == 0 ==> Fraction(n, count) == 0.0
    ensures n == count ==> Fraction(n, count) == 2.0
  {
    DivMonotone(n as real, m as real, count as real);
    DivMonotone(0.0, n as real, count as real);
    if n == count {
      DivSelf(count as real);
    }
  }

  lemma FractionPeak(count: nat)
    requires count > 0
    ensures Fraction(count - count / 2, count) == (count + count % 2) as real / count as real
    ensures count % 2 == 0 ==> Fraction(count - count / 2, count) == 1.0
  {
    var half := count - count / 2;
    assert 2 * half == count + count % 2;
    DivScale(half as real, count as real);
    assert half as real * 2.0 == (count + count % 2) as real;
    if count % 2 == 0 {
      DivSelf(count as real);
    }
  }

  lemma DivMonotone(a: real, b: real, c: real)
    requires 0.0 < c && a <= b
    ensures a / c <= b / c
  {
  }

  lemma DivSelf(c: real)
    requires 0.0 < c
    ensures c / c == 1.0
  {
  }

  lemma DivScale(a: real, c: real)
    requires 0.0 < c
    ensures (a / c) * 2.0 == (a * 2.0) / c
  {
    var q := a / c;
    var r := (a * 2.0) / c;
    assert q * c == a;
    assert r * c == a * 2.0;
    assert (q * 2.0 - r) * c == 0.0;
  }

  /** Triangle `index` of the column. */
  function NoiseTriangle(p: TriangleParams, noise: Noise2, mapRange: MapRange, index: nat): Triangle
    requires p.count > 0
  {
    var t := SizeT(p.count, index);
    var x := noise(p.noiseSeed, index as real * p.noiseScale) * 200.0;
    var xy := Vec2(x, index as real * -p.verticalSpacing);
    var height := mapRange(t, 0.0, 1.0, p.minHeight, p.maxHeight);
    var width := height * p.whRatio;
    New(xy, p.skew, width, height)
  }

  /** `new_triangles_from_noise`: indices 0 to `count` inclusive. */
  function NewTrianglesFromNoise(p: TriangleParams, noise: Noise2, mapRange: MapRange): (r: seq<Triangle>)
    requires p.count > 0
    ensures |r| == p.count + 1
  {
    seq(p.count + 1, i requires 0 <= i <= p.count => NoiseTriangle(p, noise, mapRange, i))
  }

  /** Triangle `i` is centred at height `-i * vertical_spacing`, its height
      is `map_range` of its size parameter and its width that height times
      the width/height ratio. */
  lemma NoiseTriangleShape(p: TriangleParams, noise: Noise2, mapRange: MapRange, i: nat)
    requires p.count > 0 && i <= p.count
    ensures var ps := NewTrianglesFromNoise(p, noise, mapRange)[i].points;
      var h := mapRange(SizeT(p.count, i), 0.0, 1.0, p.minHeight, p.maxHeight);
      && ps[0].y + h / 2.0 == -(i as real * p.verticalSpacing)
      && ps[1].y - ps[0].y == h
      && ps[2].x - ps[0].x == h * p.whRatio
  {
    var tri := NewTrianglesFromNoise(p, noise, mapRange)[i];
    assert tri == NoiseTriangle(p, noise, mapRange, i);
    var h := mapRange(SizeT(p.count, i), 0.0, 1.0, p.minHeight, p.maxHeight);
    var x := noise(p.noiseSeed, i as real * p.noiseScale) * 200.0;
    TriangleShape(Vec2(x, i as real * -p.verticalSpacing), p.skew, h * p.whRatio, h);
  }
}
