/** The eight octants around an origin and the table that maps a local
    (column, depth) pair of one octant to world coordinates.  The same enum
    and table appear in src/lib.rs and src/my.rs; src/new.rs reuses the tags. */
module Octants {

  /** A grid cell. */
  type Pos = (int, int)

  /** An optional value, as Rust's `Option`. */
  datatype Option<T> = None | Some(value: T)

  /** The octant tags, in the order of the source's `octants()` array:
      1 = TopLeft, 2 = TopRight, 3 = RightTop, 4 = RightBottom,
      5 = BottomRight, 6 = BottomLeft, 7 = LeftBottom, 8 = LeftTop. */
  datatype Octant = TopLeft | TopRight | RightTop | RightBottom
                  | BottomRight | BottomLeft | LeftBottom | LeftTop

  /** The coefficients (xx, xy, yx, yy) of one octant. */
  datatype Diffs = Diffs(xx: int, xy: int, yx: int, yy: int)

  function Abs(n: int): (r: nat)
    ensures r == n || r == -n
  {
    if n < 0 then -n else n
  }

  function Max(a: int, b: int): (r: int)
    ensures r >= a && r >= b && (r == a || r == b)
  {
    if a < b then b else a
  }

  /** Chebyshev (king-move) distance between two cells. */
  function Chebyshev(a: Pos, b: Pos): (r: nat)
    ensures r == 0 <==> a == b
    ensures Abs(a.0 - b.0) <= r && Abs(a.1 - b.1) <= r
  {
    Max(Abs(a.0 - b.0), Abs(a.1 - b.1))
  }

  /** A 2x2 matrix (xx xy; yx yy) with exactly one non-zero entry, 1 or -1,
      in each row and each column. */
  predicate IsSignedPermutation(d: Diffs)
  {
    var unit := (n: int) => n == 1 || n == -1;
    (d.xx == 0 && d.yy == 0 && unit(d.xy) && unit(d.yx)) ||
    (d.xy == 0 && d.yx == 0 && unit(d.xx) && unit(d.yy))
  }

  /** All eight octants, each once. */
  function AllOctants(): (r: seq<Octant>)
    ensures |r| == 8
    ensures forall o: Octant :: r[Label(o) - 1] == o
    ensures forall i, j :: 0 <= i < j < |r| ==> r[i] != r[j]
  {
    var r := [TopLeft, TopRight, RightTop, RightBottom, BottomRight, BottomLeft, LeftBottom, LeftTop];
    r
  }

  /** The 1-based label of an octant in the diagram of the source. */
  function Label(o: Octant): (k: int)
    ensures 1 <= k <= 8
  {
    match o
    case TopLeft => 1
    case TopRight => 2
    case RightTop => 3
    case RightBottom => 4
    case BottomRight => 5
    case BottomLeft => 6
    case LeftBottom => 7
    case LeftTop => 8
  }

  /** The coefficient table of `get_diffs`. */
  function GetDiffs(o: Octant): (d: Diffs)
    ensures IsSignedPermutation(d)
  {
    match o
    case TopLeft => Diffs(-1, 0, 0, 1)
    case TopRight => Diffs(1, 0, 0, 1)
    case RightTop => Diffs(0, 1, 1, 0)
    case RightBottom => Diffs(0, 1, -1, 0)
    case BottomRight => Diffs(1, 0, 0, -1)
    case BottomLeft => Diffs(-1, 0, 0, -1)
    case LeftBottom => Diffs(0, -1, -1, 0)
    case LeftTop => Diffs(0, -1, 1, 0)
  }

  /** `get_world_coordinate`: origin + i*(xx, yx) + depth*(xy, yy). */
  function WorldCoordinate(o: Octant, origin: Pos, i: int, depth: int): Pos
  {
    var d := GetDiffs(o);
    (origin.0 + i * d.xx + depth * d.xy, origin.1 + i * d.yx + depth * d.yy)
  }

  /** Distinct octants have distinct coefficient rows. */
  lemma DiffsInjective(o1: Octant, o2: Octant)
    ensures GetDiffs(o1) == GetDiffs(o2) <==> o1 == o2
  {
  }

  /** Within one octant, distinct (column, depth) pairs name distinct cells. */
  lemma WorldCoordinateInjective(o: Octant, origin: Pos, i1: int, d1: int, i2: int, d2: int)
    ensures WorldCoordinate(o, origin, i1, d1) == WorldCoordinate(o, origin, i2, d2)
        <==> i1 == i2 && d1 == d2
  {
  }

  /** A cell 0 <= i <= depth of an octant lies at Chebyshev distance depth. */
  lemma WorldCoordinateDistance(o: Octant, origin: Pos, i: int, depth: int)
    requires 0 <= i <= depth
    ensures Chebyshev(origin, WorldCoordinate(o, origin, i, depth)) == depth
  {
  }

  /** The eight octants cover every cell around the origin: a cell at
      Chebyshev distance d is column i <= d at depth d of some octant. */
  lemma OctantsCover(origin: Pos, p: Pos)
    ensures exists o: Octant, i :: 0 <= i <= Chebyshev(origin, p)
              && WorldCoordinate(o, origin, i, Chebyshev(origin, p)) == p
  {
    var d: int := Chebyshev(origin, p);
    var dx, dy := p.0 - origin.0, p.1 - origin.1;
    if dy == d && dx <= 0 {
      assert WorldCoordinate(TopLeft, origin, -dx, d) == p;
    } else if dy == d {
      assert WorldCoordinate(TopRight, origin, dx, d) == p;
    } else if dx == d && dy >= 0 {
      assert WorldCoordinate(RightTop, origin, dy, d) == p;
    } else if dx == d {
      assert WorldCoordinate(RightBottom, origin, -dy, d) == p;
    } else if dy == -d && dx >= 0 {
      assert WorldCoordinate(BottomRight, origin, dx, d) == p;
    } else if dy == -d {
      assert WorldCoordinate(BottomLeft, origin, -dx, d) == p;
    } else if dy <= 0 {
      assert dx == -d;
      assert WorldCoordinate(LeftBottom, origin, -dy, d) == p;
    } else {
      assert dx == -d;
      assert WorldCoordinate(LeftTop, origin, dy, d) == p;
    }
  }
}
