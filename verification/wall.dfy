/** One wall of the maze sketch (src/bin/maze/wall.rs): a grid position that
    never changes, one of the two diagonals of its cell, and whether the
    mouse is over it. `flip` and `set_is_hovered` update the wall in place. */
module Walls {
  import opened Geometry
  import opened MazeParameters

  /** `A` runs from the top-left to the bottom-right corner of its cell, `B`
      from the bottom-left to the top-right. */
  datatype WallKind = A | B

  function Flipped(k: WallKind): WallKind {
    match k
    case A => B
    case B => A
  }

  /** Flipping swaps the kind, and flipping twice restores it. */
  lemma FlippedInvolution(k: WallKind)
    ensures Flipped(k) != k
    ensures Flipped(Flipped(k)) == k
  {
  }

  /** The values of a wall's fields at one moment. */
  datatype WallState = WallState(xy: Vec2, kind: WallKind, isHovered: bool)

  class Wall {
    const xy: Vec2
    var kind: WallKind
    var isHovered: bool

    function State(): WallState
      reads this
    {
      WallState(xy, kind, isHovered)
    }

    /** `Wall::new`: the kind is the generator's draw; a new wall is not
        hovered. */
    constructor (xy: Vec2, kind: WallKind)
      ensures State() == WallState(xy, kind, false)
    {
      this.xy := xy;
      this.kind := kind;
      this.isHovered := false;
    }

    /** `flip`: the other diagonal; position and hover flag stay. */
    method Flip()
      modifies this
      ensures State() == old(State()).(kind := Flipped(old(kind)))
    {
      kind := match kind
        case A => B
        case B => A;
    }

    /** `set_is_hovered`: afterwards `is_hovered` reports the new flag; kind
        and position stay. */
    method SetIsHovered(isHovered: bool)
      modifies this
      ensures State() == old(State()).(isHovered := isHovered)
      ensures IsHovered() == isHovered
    {
      this.isHovered := isHovered;
    }

    function IsHovered(): bool
      reads this
    {
      isHovered
    }
  }

  /** The line `svg` emits for a wall: `(x1, y1)` to `(x2, y2)`. The cell's
      corner is `(x * gcw, y * gch)`; the per-kind start and end offsets are
      those `draw` uses, shifted up by one cell height. */
  function SvgLine(w: WallState, p: MazeParams): (Vec2, Vec2) {
    var gcw := p.gridCellWidth as real;
    var gch := p.gridCellHeight as real;
    var x := w.xy.x * gcw;
    var y := w.xy.y * gch;
    var start := match w.kind
      case A => Vec2(0.0, 0.0)
      case B => Vec2(0.0, -gch);
    var end := match w.kind
      case A => Vec2(gcw, -gch)
      case B => Vec2(gcw, 0.0);
    (Vec2(x + start.x, y + start.y + gch), Vec2(x + end.x, y + end.y + gch))
  }

  /** The four corners of a wall's cell, from its lower-left corner
      `(x * gcw, y * gch)`. */
  function CellCorners(xy: Vec2, p: MazeParams): set<Vec2> {
    var x := xy.x * p.gridCellWidth as real;
    var y := xy.y * p.gridCellHeight as real;
    var gcw := p.gridCellWidth as real;
    var gch := p.gridCellHeight as real;
    {Vec2(x, y), Vec2(x + gcw, y), Vec2(x, y + gch), Vec2(x + gcw, y + gch)}
  }

  /** Kind `A` runs from the cell's upper-left to its lower-right corner and
      kind `B` from its lower-left to its upper-right corner: each spans
      exactly one cell, left to right. */
  lemma SvgLineEndpoints(w: WallState, p: MazeParams)
    ensures var (s, e) := SvgLine(w, p);
      var x := w.xy.x * p.gridCellWidth as real;
      var y := w.xy.y * p.gridCellHeight as real;
      && (w.kind == A ==>
            s == Vec2(x, y + p.gridCellHeight as real) && e == Vec2(x + p.gridCellWidth as real, y))
      && (w.kind == B ==>
            s == Vec2(x, y) && e == Vec2(x + p.gridCellWidth as real, y + p.gridCellHeight as real))
      && e.x - s.x == p.gridCellWidth as real
      && (e.y - s.y == p.gridCellHeight as real || s.y - e.y == p.gridCellHeight as real)
  {
  }

  /** The two kinds are the two diagonals of the same cell: between them
      their endpoints are the cell's four corners, and flipping a wall moves
      every endpoint. */
  lemma SvgKindsAreDiagonals(w: WallState, p: MazeParams)
    requires p.gridCellWidth > 0 && p.gridCellHeight > 0
    ensures var (s, e) := SvgLine(w, p);
      var (s', e') := SvgLine(w.(kind := Flipped(w.kind)), p);
      && {s, e, s', e'} == CellCorners(w.xy, p)
      && s' != s && s' != e && e' != s && e' != e
  {
  }
}
