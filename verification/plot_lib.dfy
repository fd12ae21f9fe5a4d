/** The shared helpers of the sketches: toroidal grid indexing, mapping a
    value between two ranges, and linear interpolation of reals, bytes and
    RGBA colours. */
module PlotLib {

  /** Rust's `u8`. */
  newtype u8 = x: int | 0 <= x < 256

  /** The number of `usize` values on a 64-bit target. */
  const UsizeModulus: int := 0x1_0000_0000_0000_0000

  /** `v as usize` for an `isize` value: two's-complement reinterpretation. */
  function AsUsize(v: int): (r: nat)
    ensures r < UsizeModulus
    ensures 0 <= v < UsizeModulus ==> r == v
    ensures v < 0 && -UsizeModulus <= v ==> r == v + UsizeModulus
  {
    v % UsizeModulus
  }

  /** Rust's `%` on signed integers: the remainder of division truncated
      toward zero, so it takes the sign of the dividend. */
  function TruncRem(a: int, b: int): (r: int)
    requires b != 0
    ensures 0 <= a ==> 0 <= r < (if b < 0 then -b else b)
    ensures a < 0 ==> -(if b < 0 then -b else b) < r <= 0
  {
    var m := if b < 0 then -b else b;
    if a >= 0 then a % m else -((-a) % m)
  }

  /** `get_wrapping_index`: the row-major index of cell `(x, y)` of a
      `width` × `height` grid, where one step past an edge comes back in at
      the opposite edge. A zero width or height is a remainder by zero, which
      panics. */
  function WrappingIndex(x: int, y: int, width: nat, height: nat): nat
    requires width > 0 && height > 0
  {
    AsUsize(TruncRem(y + height, height) * width + TruncRem(x + width, width))
  }

  /** Inside the grid the index is the plain row-major one. */
  lemma WrappingIndexInGrid(x: int, y: int, width: nat, height: nat)
    requires width > 0 && height > 0
    requires 0 <= x < width && 0 <= y < height
    requires width * height <= UsizeModulus
    ensures WrappingIndex(x, y, width, height) == y * width + x
  {
    WrappedCoordinate(x, width);
    WrappedCoordinate(y, height);
    RowMajorBound(x, y, width, height);
  }

  /** `(c + n) % n` folds `[-n, n)` onto `[0, n)`: it is `c` for `c ≥ 0` and
      `c + n` below zero. */
  lemma WrappedCoordinate(c: int, n: nat)
    requires n > 0 && -(n as int) <= c < n
    ensures TruncRem(c + n, n) == (if c < 0 then c + n else c)
  {
    if c >= 0 {
      assert n <= c + n < 2 * n;
      ModInSecondBand(c + n, n);
    } else {
      assert 0 <= c + n < n;
    }
  }

  lemma ModInSecondBand(a: int, n: nat)
    requires n > 0 && n <= a < 2 * n
    ensures a % n == a - n
  {
    assert a == 1 * n + (a - n);
  }

  /** A row-major index of a cell of the grid lies below `width · height`. */
  lemma RowMajorBound(x: int, y: int, width: nat, height: nat)
    requires 0 <= x < width && 0 <= y < height
    ensures 0 <= y * width + x < width * height
  {
    assert y * width <= (height - 1) * width by {
      MulLeftMonotone(y, height - 1, width);
    }
    assert (height - 1) * width == height * width - width;
    assert 0 <= y * width;
  }

  lemma MulLeftMonotone(a: int, b: int, k: nat)
    requires a <= b
    ensures a * k <= b * k
  {
    assert b * k - a * k == (b - a) * k;
  }

  /** For offsets of at most one grid size in each direction the index stays
      inside the grid: a one-step neighbour of an edge cell is a real cell. */
  lemma WrappingIndexBound(x: int, y: int, width: nat, height: nat)
    requires width > 0 && height > 0
    requires -(width as int) <= x < width && -(height as int) <= y < height
    requires width * height <= UsizeModulus
    ensures WrappingIndex(x, y, width, height) < width * height
  {
    var cx := if x < 0 then x + width else x;
    var cy := if y < 0 then y + height else y;
    WrappedCoordinate(x, width);
    WrappedCoordinate(y, height);
    RowMajorBound(cx, cy, width, height);
  }

  /** Wrap-around: a column (row) one grid size to the left (below) is the
      same cell. */
  lemma WrapsHorizontally(x: int, y: int, width: nat, height: nat)
    requires width > 0 && height > 0
    requires -(width as int) <= x < 0
    ensures WrappingIndex(x, y, width, height) == WrappingIndex(x + width, y, width, height)
  {
    WrappedCoordinate(x, width);
    WrappedCoordinate(x + width, width);
  }

  lemma WrapsVertically(x: int, y: int, width: nat, height: nat)
    requires width > 0 && height > 0
    requires -(height as int) <= y < 0
    ensures WrappingIndex(x, y, width, height) == WrappingIndex(x, y + height, width, height)
  {
    WrappedCoordinate(y, height);
    WrappedCoordinate(y + height, height);
  }

  /** Column `-1` is the last column of the same row. */
  lemma LeftOfFirstColumn(y: int, width: nat, height: nat)
    requires width > 0 && height > 0 && 0 <= y < height
    requires width * height <= UsizeModulus
    ensures WrappingIndex(-1, y, width, height) == y * width + (width - 1)
  {
    WrapsHorizontally(-1, y, width, height);
    WrappingIndexInGrid(width - 1, y, width, height);
  }

  /** Offsets beyond one grid size are not folded back: for `x < -width`
      the truncating remainder can be negative, and the cast to `usize` then
      wraps to a value far outside the grid. */
  lemma FarOffsetLeavesGrid()
    ensures WrappingIndex(-5, 0, 2, 1) == UsizeModulus - 1
  {
    assert TruncRem(0 + 1, 1) == 0;
    assert TruncRem(-5 + 2, 2) == -1;
  }

  // ---- ranges -------------------------------------------------------------

  /** Rust's half-open `Range<f32>`, by its two ends. */
  datatype Range = Range(start: real, end: real)

  /** `map_t_of_range_a_to_range_b`: the affine map taking `rangeA` onto
      `rangeB`. Over `f32` a degenerate `rangeA` divides by zero. */
  function MapRange(t: real, rangeA: Range, rangeB: Range): real
    requires rangeA.end != rangeA.start
  {
    var slope := (rangeB.end - rangeB.start) / (rangeA.end - rangeA.start);
    rangeB.start + slope * (t - rangeA.start)
  }

  /** The ends of the first range go to the ends of the second. */
  lemma MapRangeEnds(rangeA: Range, rangeB: Range)
    requires rangeA.end != rangeA.start
    ensures MapRange(rangeA.start, rangeA, rangeB) == rangeB.start
    ensures MapRange(rangeA.end, rangeA, rangeB) == rangeB.end
  {
    var d := rangeA.end - rangeA.start;
    var slope := (rangeB.end - rangeB.start) / d;
    assert slope * d == rangeB.end - rangeB.start;
  }

  /** Mapping back with the ranges swapped returns the original value. */
  lemma MapRangeRoundTrip(t: real, rangeA: Range, rangeB: Range)
    requires rangeA.end != rangeA.start && rangeB.end != rangeB.start
    ensures MapRange(MapRange(t, rangeA, rangeB), rangeB, rangeA) == t
  {
    var da := rangeA.end - rangeA.start;
    var db := rangeB.end - rangeB.start;
    var s1 := db / da;
    var s2 := da / db;
    assert s2 * s1 == 1.0 by {
      assert s1 * da == db;
      assert s2 * db == da;
      assert s2 * s1 * da == s2 * db;
    }
    var u := MapRange(t, rangeA, rangeB);
    assert u - rangeB.start == s1 * (t - rangeA.start);
    assert s2 * (s1 * (t - rangeA.start)) == (s2 * s1) * (t - rangeA.start);
  }

  // ---- interpolation ------------------------------------------------------

  /** `f32::interpolate`: `self` when both ends are equal, otherwise the
      weighted sum `self · (1 − t) + other · t`. */
  function InterpolateReal(self: real, other: real, t: real): real {
    if self == other then self else self * (1.0 - t) + other * t
  }

  function Min(a: real, b: real): real { if a <= b then a else b }

  function Max(a: real, b: real): real { if a <= b then b else a }

  /** Equal ends give that value for every `t`; `t = 0` gives `self`,
      `t = 1` gives `other`; for `t` in `[0, 1]` the result lies between the
      two ends. */
  lemma InterpolateRealFacts(self: real, other: real, t: real)
    ensures self == other ==> InterpolateReal(self, other, t) == self
    ensures InterpolateReal(self, other, 0.0) == self
    ensures InterpolateReal(self, other, 1.0) == other
    ensures 0.0 <= t <= 1.0 ==>
      Min(self, other) <= InterpolateReal(self, other, t) <= Max(self, other)
  {
    if 0.0 <= t <= 1.0 && self != other {
      WeightedBetween(self, other, t);
    }
  }

  /** Whatever the ends, the result is `self` moved by the fraction `t` of
      the way to `other`: the equal-ends shortcut agrees with the sum. */
  lemma InterpolateAffine(self: real, other: real, t: real)
    ensures InterpolateReal(self, other, t) == self + t * (other - self)
  {
    if self != other {
      assert self * (1.0 - t) + other * t == self + t * (other - self);
    }
  }

  lemma WeightedBetween(a: real, b: real, t: real)
    requires 0.0 <= t <= 1.0
    ensures Min(a, b) <= a * (1.0 - t) + b * t <= Max(a, b)
  {
    var v := a * (1.0 - t) + b * t;
    assert v == a + (b - a) * t;
    if a <= b {
      NonNegativeProduct(b - a, t);
      NonNegativeProduct(b - a, 1.0 - t);
    } else {
      NonNegativeProduct(a - b, t);
      NonNegativeProduct(a - b, 1.0 - t);
    }
  }

  lemma NonNegativeProduct(p: real, q: real)
    requires 0.0 <= p && 0.0 <= q
    ensures 0.0 <= p * q
  {
  }

  /** `value as u8` for an `f32` value: rounded toward zero and saturated
      at the ends of `u8`. */
  function SaturateToU8(v: real): u8 {
    if v <= 0.0 then 0 else if v >= 255.0 then 255 else v.Floor as u8
  }

  /** `u8::interpolate`: `self` when both ends are equal, otherwise the real
      weighted sum cast back to `u8`. */
  function InterpolateByte(self: u8, other: u8, t: real): u8 {
    if self == other then self
    else SaturateToU8(self as real * (1.0 - t) + other as real * t)
  }

  /** The byte version keeps the real version's guarantees: equal ends, the
      two ends at `t = 0` and `t = 1`, and a result between the ends for `t`
      in `[0, 1]`. */
  lemma InterpolateByteFacts(self: u8, other: u8, t: real)
    ensures self == other ==> InterpolateByte(self, other, t) == self
    ensures InterpolateByte(self, other, 0.0) == self
    ensures InterpolateByte(self, other, 1.0) == other
    ensures 0.0 <= t <= 1.0 ==>
      (self <= InterpolateByte(self, other, t) <= other || other <= InterpolateByte(self, other, t) <= self)
  {
    var a := self as real;
    var b := other as real;
    var v := a * (1.0 - t) + b * t;
    assert a * (1.0 - 0.0) + b * 0.0 == a;
    assert a * (1.0 - 1.0) + b * 1.0 == b;
    SaturateWhole(self);
    SaturateWhole(other);
    if 0.0 <= t <= 1.0 && self != other {
      WeightedBetween(a, b, t);
      if self <= other {
        SaturateBetween(v, self, other);
      } else {
        SaturateBetween(v, other, self);
      }
    }
  }

  /** A whole byte value survives the cast unchanged. */
  lemma SaturateWhole(b: u8)
    ensures SaturateToU8(b as real) == b
  {
  }

  /** A real between two bytes is cast to a byte between them. */
  lemma SaturateBetween(v: real, lo: u8, hi: u8)
    requires lo as real <= v <= hi as real
    ensures lo <= SaturateToU8(v) <= hi
  {
    if 0.0 < v < 255.0 {
      assert (lo as int) as real <= v;
      assert lo as int <= v.Floor;
      assert v.Floor as real <= v;
    }
  }

  /** Rust's `[u8; 4]` colour. */
  datatype Rgba = Rgba(r: u8, g: u8, b: u8, a: u8)

  /** `Rgba::interpolate`: each channel on its own. */
  function InterpolateRgba(self: Rgba, other: Rgba, t: real): Rgba {
    Rgba(InterpolateByte(self.r, other.r, t), InterpolateByte(self.g, other.g, t),
         InterpolateByte(self.b, other.b, t), InterpolateByte(self.a, other.a, t))
  }

  predicate ByteBetween(x: u8, a: u8, b: u8) {
    a <= x <= b || b <= x <= a
  }

  /** For `t` in `[0, 1]` each channel lies between the two colours'
      channels; `t = 0` and `t = 1` give the two colours. */
  lemma InterpolateRgbaFacts(self: Rgba, other: Rgba, t: real)
    ensures InterpolateRgba(self, other, 0.0) == self
    ensures InterpolateRgba(self, other, 1.0) == other
    ensures InterpolateRgba(self, self, t) == self
    ensures 0.0 <= t <= 1.0 ==>
      var c := InterpolateRgba(self, other, t);
      ByteBetween(c.r, self.r, other.r) && ByteBetween(c.g, self.g, other.g) &&
      ByteBetween(c.b, self.b, other.b) && ByteBetween(c.a, self.a, other.a)
  {
    InterpolateByteFacts(self.r, other.r, t);
    InterpolateByteFacts(self.g, other.g, t);
    InterpolateByteFacts(self.b, other.b, t);
    InterpolateByteFacts(self.a, other.a, t);
    InterpolateByteFacts(self.r, self.r, t);
    InterpolateByteFacts(self.g, self.g, t);
    InterpolateByteFacts(self.b, self.b, t);
    InterpolateByteFacts(self.a, self.a, t);
  }
}
