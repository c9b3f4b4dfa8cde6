/** The clubsandwich port of src/other.rs: `get_visible_points` casts light
    into eight regions, each given by one column of the `MULT` table.

    `CastLight` and `GetVisiblePoints` mirror the source's loops; each is
    proved equal to the functional model below, and the properties are proved
    about that model. */
module Other {
  import opened Octants
  import Lib
  import LibProperties

  /** The `MULT` table: row 0 holds xx, row 1 xy, row 2 yx, row 3 yy. */
  const MULT: seq<seq<int>> := [
    [1, 0, 0, -1, -1, 0, 0, 1],
    [0, 1, -1, 0, 0, -1, 1, 0],
    [0, 1, 1, 0, 0, -1, -1, 0],
    [1, 0, 0, 1, -1, 0, 0, -1]
  ]

  /** Region k uses column k of `MULT` as (xx, xy, yx, yy). */
  function RegionDiffs(region: nat): (d: Diffs)
    requires region < 8
    ensures IsSignedPermutation(d)
  {
    Diffs(MULT[0][region], MULT[1][region], MULT[2][region], MULT[3][region])
  }

  /** The eight columns of `MULT` are pairwise distinct. */
  lemma RegionsDistinct(j: nat, k: nat)
    requires j < 8 && k < 8
    ensures RegionDiffs(j) == RegionDiffs(k) <==> j == k
  {
  }

  /** The octant of src/lib.rs that region k scans. */
  function RegionOctant(region: nat): Octant
    requires region < 8
  {
    [BottomLeft, LeftBottom, RightBottom, BottomRight, TopRight, RightTop, LeftTop, TopLeft][region]
  }

  /** Cell (dx, dy) of a region is the octant cell at column -dx, depth -dy:
      the eight regions are the eight octants. */
  lemma RegionIsOctant(region: nat, origin: Pos, dx: int, dy: int)
    requires region < 8
    ensures Point(origin, RegionDiffs(region), dx, dy) == WorldCoordinate(RegionOctant(region), origin, -dx, -dy)
  {
  }

  /** Distinct regions scan distinct octants, so every octant is scanned. */
  lemma RegionOctantsDistinct(j: nat, k: nat)
    requires j < 8 && k < 8
    ensures RegionOctant(j) == RegionOctant(k) <==> j == k
  {
  }

  // ---------------------------------------------------------------------
  // `radius ^ 2`: bitwise exclusive or, not a square
  // ---------------------------------------------------------------------

  /** Bitwise exclusive or of two non-negative integers. */
  function Xor(a: nat, b: nat): nat
    decreases a + b
  {
    if a == 0 && b == 0 then 0
    else 2 * Xor(a / 2, b / 2) + (if a % 2 != b % 2 then 1 else 0)
  }

  /** Bitwise and of two non-negative integers. */
  function And(a: nat, b: nat): nat
    decreases a + b
  {
    if a == 0 && b == 0 then 0
    else 2 * And(a / 2, b / 2) + (if a % 2 == 1 && b % 2 == 1 then 1 else 0)
  }

  /** Exclusive or is the sum less twice the bitwise and. */
  lemma {:induction false} XorSum(a: nat, b: nat)
    ensures Xor(a, b) + 2 * And(a, b) == a + b
    decreases a + b
  {
    if a != 0 || b != 0 {
      XorSum(a / 2, b / 2);
      assert a == 2 * (a / 2) + a % 2 && b == 2 * (b / 2) + b % 2;
    }
  }

  lemma {:induction false} XorZero(a: nat)
    ensures Xor(a, 0) == a
  {
    if a != 0 {
      XorZero(a / 2);
    }
  }

  /** Exclusive or with 2 flips bit 1: it adds 2 or subtracts 2. */
  lemma XorTwo(n: nat)
    ensures Xor(n, 2) == if (n / 2) % 2 == 0 then n + 2 else n - 2
  {
    var m := n / 2;
    XorZero(m / 2);
    assert Xor(m, 1) == 2 * Xor(m / 2, 0) + (if m % 2 != 1 then 1 else 0);
    assert Xor(n, 2) == 2 * Xor(m, 1) + (if n % 2 != 0 then 1 else 0);
  }

  /** `let radius_squared = radius ^ 2;` as written. */
  function RadiusSquared(radius: nat): (r: nat)
    ensures r == if (radius / 2) % 2 == 0 then radius + 2 else radius - 2
  {
    XorTwo(radius);
    Xor(radius, 2)
  }

  /** With the playground's radius 120 the cell 12 steps straight ahead is
      scanned (12 <= 120) but dropped, because 12^2 = 144 is not below 120 ^ 2 = 122. */
  lemma RadiusSquaredIsNotSquare()
    ensures RadiusSquared(120) == 122
    ensures !(0 * 0 + 12 * 12 < RadiusSquared(120))
    ensures 0 * 0 + 12 * 12 < 120 * 120
  {
  }

  /** What `radius ^ 2` was meant to be: the square of the radius. */
  function IntendedRadiusSquared(radius: nat): nat
  {
    radius * radius
  }

  /** With the square, a cell passes the distance test only inside the
      scanned square, and every cell straight ahead closer than the radius
      passes. */
  lemma IntendedDiskTest(radius: nat, dx: int, dy: int)
    ensures dx * dx + dy * dy < IntendedRadiusSquared(radius) ==> Abs(dx) < radius && Abs(dy) < radius
    ensures dy == 0 && Abs(dx) < radius ==> dx * dx + dy * dy < IntendedRadiusSquared(radius)
  {
    var a, b := Abs(dx), Abs(dy);
    assert dx * dx == a * a && dy * dy == b * b;
    if a >= radius {
      assert a * a >= radius * radius by { MulMonotone(radius, a); }
    }
    if b >= radius {
      assert b * b >= radius * radius by { MulMonotone(radius, b); }
    }
    if dy == 0 && a < radius {
      assert a * a < radius * radius by { MulStrict(a, radius); }
    }
  }

  lemma MulMonotone(a: nat, b: nat)
    requires a <= b
    ensures a * a <= b * b
  {
    assert a * a <= a * b <= b * b;
  }

  lemma MulStrict(a: nat, b: nat)
    requires a < b
    ensures a * a < b * b
  {
    assert a * a <= a * b < b * b;
  }

  // ---------------------------------------------------------------------
  // Geometry and slopes of one region
  // ---------------------------------------------------------------------

  /** The world cell of (dx, dy): origin + dx*(xx, yx) + dy*(xy, yy). */
  function Point(origin: Pos, d: Diffs, dx: int, dy: int): Pos
  {
    (origin.0 + dx * d.xx + dy * d.xy, origin.1 + dx * d.yx + dy * d.yy)
  }

  /** `l_slope` = (dx - 0.5) / (dy + 0.5). */
  function LSlope(dx: int, dy: int): (r: real)
    ensures r * (dy as real + 0.5) == dx as real - 0.5
  {
    (dx as real - 0.5) / (dy as real + 0.5)
  }

  /** `r_slope` = (dx + 0.5) / (dy - 0.5). */
  function RSlope(dx: int, dy: int): (r: real)
    ensures r * (dy as real - 0.5) == dx as real + 0.5
  {
    (dx as real + 0.5) / (dy as real - 0.5)
  }

  /** The squared Euclidean distance between two cells. */
  function EuclidSq(a: Pos, b: Pos): nat
  {
    (b.0 - a.0) * (b.0 - a.0) + (b.1 - a.1) * (b.1 - a.1)
  }

  /** In row r (dy = -r), the slopes are those of src/lib.rs at column -dx, depth r. */
  lemma SlopesAgreeWithLib(dx: int, r: int)
    ensures LSlope(dx, -r) == Lib.LeftSlope(-dx, r)
    ensures RSlope(dx, -r) == Lib.RightSlope(-dx, r)
  {
    DivNegate(dx as real - 0.5, -r as real + 0.5);
    DivNegate(dx as real + 0.5, -r as real - 0.5);
  }

  /** Negating both sides of a quotient leaves it unchanged. */
  lemma DivNegate(a: real, b: real)
    requires b != 0.0
    ensures a / b == (-a) / (-b)
  {
    var q := a / b;
    assert q * b == a;
    assert q * (-b) == -a;
  }

  /** For r >= 1 and dx <= 0, `l_slope` >= `r_slope`. */
  lemma SlopeOrder(dx: int, r: int)
    requires r >= 1 && dx <= 0
    ensures RSlope(dx, -r) <= LSlope(dx, -r)
  {
    SlopesAgreeWithLib(dx, r);
    LibProperties.SlopeOrder(-dx, r);
  }

  /** The extra cell dx = 1 that the row loop reaches has a negative left
      slope, so a scan with end >= 0 stops there. */
  lemma LSlopePastRow(r: int)
    requires r >= 1
    ensures LSlope(1, -r) < 0.0
  {
    var q := LSlope(1, -r);
    var den := -r as real + 0.5;
    assert q * den == 0.5 && den < 0.0;
  }

  /** A signed permutation keeps Chebyshev and Euclidean distances. */
  lemma PointDistance(origin: Pos, d: Diffs, dx: int, dy: int)
    requires IsSignedPermutation(d)
    ensures Chebyshev(origin, Point(origin, d, dx, dy)) == Max(Abs(dx), Abs(dy))
    ensures EuclidSq(origin, Point(origin, d, dx, dy)) == dx * dx + dy * dy
  {
    var p := Point(origin, d, dx, dy);
    if d.xx == 0 {
      UnitFactor(dy, d.xy);
      UnitFactor(dx, d.yx);
      assert p.0 - origin.0 == dy * d.xy && p.1 - origin.1 == dx * d.yx;
    } else {
      UnitFactor(dx, d.xx);
      UnitFactor(dy, d.yy);
      assert p.0 - origin.0 == dx * d.xx && p.1 - origin.1 == dy * d.yy;
    }
  }

  /** Multiplying by 1 or -1 keeps the absolute value and the square. */
  lemma UnitFactor(a: int, s: int)
    requires s == 1 || s == -1
    ensures Abs(a * s) == Abs(a) && (a * s) * (a * s) == a * a
  {
    if s == -1 {
      assert a * s == -a;
    }
  }

  // ---------------------------------------------------------------------
  // Functional model of `cast_light`
  // ---------------------------------------------------------------------

  /** The inputs that stay fixed through one region's recursion; `bound`
      is the value `radius_squared` that squared distances are tested against. */
  datatype Light = Light(origin: Pos, allowsLight: Pos -> bool, radius: nat, bound: nat, d: Diffs)

  /** What one row carries from cell to cell: `start`, `new_start`,
      `blocked` and the cache. */
  datatype RowScan = RowScan(start: real, newStart: real, blocked: bool, cache: set<Pos>)

  /** `cast_light(row, start, end)`: nothing when start < end. */
  function CastLightResult(g: Light, row: int, start: real, end: real, cache: set<Pos>): (r: set<Pos>)
    ensures cache <= r
    decreases g.radius + 1 - row, 2, 0
  {
    if start < end then cache else LightRows(g, row, start, end, cache)
  }

  /** The loop `for r in row..=radius` from row r on. */
  function LightRows(g: Light, r: int, start: real, end: real, cache: set<Pos>): (res: set<Pos>)
    ensures cache <= res
    decreases g.radius + 1 - r, 1, 0
  {
    if r > g.radius then cache
    else AfterLightRow(g, r, end, LightRow(g, r, -r, end, RowScan(start, 0.0, false, cache)))
  }

  /** `if blocked { break; }` at the end of row r. */
  function AfterLightRow(g: Light, r: int, end: real, st: RowScan): (res: set<Pos>)
    requires r <= g.radius
    ensures st.cache <= res
    decreases g.radius + 1 - r, 0, 0
  {
    if st.blocked then st.cache else LightRows(g, r + 1, st.start, end, st.cache)
  }

  /** The body of `while dx <= 0 { dx += 1; ... }` for the cells dx, dx + 1, ...
      of row r.  The loop reaches dx = 1 as well. */
  function LightRow(g: Light, r: int, dx: int, end: real, st: RowScan): (res: RowScan)
    requires r <= g.radius
    ensures st.cache <= res.cache
    decreases g.radius + 1 - r, 0, 2 - dx
  {
    if dx > 1 then st
    else
      var dy := -r;
      var point := Point(g.origin, g.d, dx, dy);
      var lSlope, rSlope := LSlope(dx, dy), RSlope(dx, dy);
      if st.start < rSlope then LightRow(g, r, dx + 1, end, st)
      else if end > lSlope then st
      else
        var cache := if dx * dx + dy * dy < g.bound then st.cache + {point} else st.cache;
        if st.blocked then
          if !g.allowsLight(point) then LightRow(g, r, dx + 1, end, st.(newStart := rSlope, cache := cache))
          else LightRow(g, r, dx + 1, end, st.(blocked := false, start := st.newStart, cache := cache))
        else if !g.allowsLight(point) && r < g.radius then
          var cache' := CastLightResult(g, r + 1, st.start, lSlope, cache);
          LightRow(g, r, dx + 1, end, st.(blocked := true, cache := cache', newStart := rSlope))
        else LightRow(g, r, dx + 1, end, st.(cache := cache))
  }

  /** Regions k, k + 1, ..., 7 in turn. */
  function CastRegions(origin: Pos, allowsLight: Pos -> bool, maxDistance: nat, bound: nat, k: nat,
                       cache: set<Pos>): (r: set<Pos>)
    requires k <= 8
    ensures cache <= r
    decreases 8 - k
  {
    if k == 8 then cache
    else
      var g := Light(origin, allowsLight, maxDistance, bound, RegionDiffs(k));
      CastRegions(origin, allowsLight, maxDistance, bound, k + 1, CastLightResult(g, 1, 1.0, 0.0, cache))
  }

  /** `get_visible_points` as written: the origin, then the eight regions,
      with distances tested against `max_distance ^ 2`. */
  function VisiblePoints(origin: Pos, allowsLight: Pos -> bool, maxDistance: nat): (r: set<Pos>)
    ensures origin in r
  {
    CastRegions(origin, allowsLight, maxDistance, RadiusSquared(maxDistance), 0, {origin})
  }

  /** `get_visible_points` with the square of the radius in place of
      `radius ^ 2`. */
  function IntendedVisiblePoints(origin: Pos, allowsLight: Pos -> bool, maxDistance: nat): (r: set<Pos>)
    ensures origin in r
  {
    CastRegions(origin, allowsLight, maxDistance, IntendedRadiusSquared(maxDistance), 0, {origin})
  }

  // ---------------------------------------------------------------------
  // Where the cached points lie
  // ---------------------------------------------------------------------

  /** Every point added between `before` and `after` lies at Chebyshev
      distance lo..radius and passes the distance test against `bound`. */
  ghost predicate Bounded(g: Light, lo: int, before: set<Pos>, after: set<Pos>)
  {
    forall p :: p in after && p !in before ==>
      lo <= Chebyshev(g.origin, p) <= g.radius && EuclidSq(g.origin, p) < g.bound
  }

  lemma {:induction false} CastLightBound(g: Light, row: int, start: real, end: real, cache: set<Pos>)
    requires IsSignedPermutation(g.d) && row >= 1 && end >= 0.0
    ensures Bounded(g, row, cache, CastLightResult(g, row, start, end, cache))
    decreases g.radius + 1 - row, 2, 0
  {
    if start >= end {
      LightRowsBound(g, row, start, end, cache);
    }
  }

  lemma {:induction false} LightRowsBound(g: Light, r: int, start: real, end: real, cache: set<Pos>)
    requires IsSignedPermutation(g.d) && r >= 1 && end >= 0.0
    ensures Bounded(g, r, cache, LightRows(g, r, start, end, cache))
    decreases g.radius + 1 - r, 1, 0
  {
    if r <= g.radius {
      var st := RowScan(start, 0.0, false, cache);
      LightRowBound(g, r, -r, end, st);
      AfterLightRowBound(g, r, end, LightRow(g, r, -r, end, st));
    }
  }

  lemma {:induction false} AfterLightRowBound(g: Light, r: int, end: real, st: RowScan)
    requires IsSignedPermutation(g.d) && 1 <= r <= g.radius && end >= 0.0
    ensures Bounded(g, r + 1, st.cache, AfterLightRow(g, r, end, st))
    decreases g.radius + 1 - r, 0, 0
  {
    if !st.blocked {
      LightRowsBound(g, r + 1, st.start, end, st.cache);
    }
  }

  /** Only cells -r <= dx <= 0 of row r are cached: the extra cell dx = 1
      always stops the row when end >= 0. */
  lemma {:induction false} LightRowBound(g: Light, r: int, dx: int, end: real, st: RowScan)
    requires IsSignedPermutation(g.d) && 1 <= r <= g.radius && -r <= dx && end >= 0.0
    ensures Bounded(g, r, st.cache, LightRow(g, r, dx, end, st).cache)
    decreases g.radius + 1 - r, 0, 2 - dx
  {
    if dx <= 1 {
      var dy := -r;
      var point := Point(g.origin, g.d, dx, dy);
      var lSlope, rSlope := LSlope(dx, dy), RSlope(dx, dy);
      if dx == 1 {
        LSlopePastRow(r);
      }
      if st.start < rSlope {
        LightRowBound(g, r, dx + 1, end, st);
      } else if end > lSlope {
      } else {
        var cache := if dx * dx + dy * dy < g.bound then st.cache + {point} else st.cache;
        CellBound(g, r, dx, st.cache);
        if st.blocked {
          if !g.allowsLight(point) {
            LightRowBound(g, r, dx + 1, end, st.(newStart := rSlope, cache := cache));
          } else {
            LightRowBound(g, r, dx + 1, end, st.(blocked := false, start := st.newStart, cache := cache));
          }
        } else if !g.allowsLight(point) && r < g.radius {
          var cache' := CastLightResult(g, r + 1, st.start, lSlope, cache);
          CastLightBound(g, r + 1, st.start, lSlope, cache);
          LightRowBound(g, r, dx + 1, end, st.(blocked := true, cache := cache', newStart := rSlope));
        } else {
          LightRowBound(g, r, dx + 1, end, st.(cache := cache));
        }
      }
    }
  }

  /** The one cell (dx, -r) of row r, -r <= dx <= 0, that the row may cache. */
  lemma CellBound(g: Light, r: int, dx: int, cache: set<Pos>)
    requires IsSignedPermutation(g.d) && 1 <= r <= g.radius && -r <= dx <= 0
    ensures Bounded(g, r, cache,
                    if dx * dx + -r * -r < g.bound then cache + {Point(g.origin, g.d, dx, -r)} else cache)
  {
    PointDistance(g.origin, g.d, dx, -r);
  }

  lemma {:induction false} CastRegionsBound(origin: Pos, allowsLight: Pos -> bool, maxDistance: nat,
                                          bound: nat, k: nat, cache: set<Pos>)
    requires k <= 8
    ensures forall p :: p in CastRegions(origin, allowsLight, maxDistance, bound, k, cache) && p !in cache ==>
              1 <= Chebyshev(origin, p) <= maxDistance && EuclidSq(origin, p) < bound
    decreases 8 - k
  {
    if k < 8 {
      var g := Light(origin, allowsLight, maxDistance, bound, RegionDiffs(k));
      CastLightBound(g, 1, 1.0, 0.0, cache);
      CastRegionsBound(origin, allowsLight, maxDistance, bound, k + 1, CastLightResult(g, 1, 1.0, 0.0, cache));
    }
  }

  /** Besides the origin, every visible point lies at Chebyshev distance
      1..max_distance and strictly inside the `radius ^ 2` disk. */
  lemma VisiblePointsBound(origin: Pos, allowsLight: Pos -> bool, maxDistance: nat, p: Pos)
    requires p in VisiblePoints(origin, allowsLight, maxDistance)
    ensures p == origin ||
            (1 <= Chebyshev(origin, p) <= maxDistance && EuclidSq(origin, p) < RadiusSquared(maxDistance))
  {
    CastRegionsBound(origin, allowsLight, maxDistance, RadiusSquared(maxDistance), 0, {origin});
  }

  /** With the square, every visible point besides the origin lies in the
      open disk of radius max_distance, and so strictly inside the square. */
  lemma IntendedVisiblePointsInDisk(origin: Pos, allowsLight: Pos -> bool, maxDistance: nat, p: Pos)
    requires p in IntendedVisiblePoints(origin, allowsLight, maxDistance)
    ensures p == origin ||
            (1 <= Chebyshev(origin, p) < maxDistance && EuclidSq(origin, p) < maxDistance * maxDistance)
  {
    var bound := IntendedRadiusSquared(maxDistance);
    CastRegionsBound(origin, allowsLight, maxDistance, bound, 0, {origin});
    if p != origin {
      assert 1 <= Chebyshev(origin, p) && EuclidSq(origin, p) < bound;
      assert bound == maxDistance * maxDistance;
      InsideDisk(origin, p, maxDistance);
    }
  }

  /** A cell strictly inside the disk of radius k is strictly inside the square. */
  lemma InsideDisk(origin: Pos, p: Pos, k: nat)
    requires EuclidSq(origin, p) < k * k
    ensures Chebyshev(origin, p) < k
  {
    var dx, dy := p.0 - origin.0, p.1 - origin.1;
    SquareAtLeast(dx, k);
    SquareAtLeast(dy, k);
  }

  /** The playground calls with max_distance 120, yet then sees no point more
      than 11 cells away in either axis: 120 ^ 2 is 122. */
  lemma PlaygroundSeesElevenCells(origin: Pos, allowsLight: Pos -> bool, p: Pos)
    requires p in VisiblePoints(origin, allowsLight, 120)
    ensures Chebyshev(origin, p) <= 11
  {
    VisiblePointsBound(origin, allowsLight, 120, p);
    if p != origin {
      RadiusSquaredIsNotSquare();
      assert EuclidSq(origin, p) < 12 * 12;
      InsideDisk(origin, p, 12);
    }
  }

  /** With max_distance 2, `2 ^ 2` is 0: no point passes the distance test,
      and only the origin is visible, whatever the obstacles. */
  lemma RadiusTwoSeesOnlyOrigin(origin: Pos, allowsLight: Pos -> bool)
    ensures VisiblePoints(origin, allowsLight, 2) == {origin}
  {
    assert RadiusSquared(2) == 0;
    forall p | p in VisiblePoints(origin, allowsLight, 2) ensures p == origin {
      VisiblePointsBound(origin, allowsLight, 2, p);
    }
  }

  /** With the square the same call sees the diagonal neighbour (-1, -1),
      the first cell region 0 scans, whatever the obstacles. */
  lemma IntendedRadiusTwoSeesNeighbour(origin: Pos, allowsLight: Pos -> bool)
    ensures (origin.0 - 1, origin.1 - 1) in IntendedVisiblePoints(origin, allowsLight, 2)
  {
    var bound := IntendedRadiusSquared(2);
    var g := Light(origin, allowsLight, 2, bound, RegionDiffs(0));
    var p := (origin.0 - 1, origin.1 - 1);
    assert Point(origin, g.d, -1, -1) == p;
    assert RSlope(-1, -1) == 1.0 / 3.0 && LSlope(-1, -1) == 3.0;
    var row := LightRow(g, 1, -1, 0.0, RowScan(1.0, 0.0, false, {origin}));
    assert p in row.cache;
    assert row.cache <= CastLightResult(g, 1, 1.0, 0.0, {origin});
    assert CastLightResult(g, 1, 1.0, 0.0, {origin}) <= CastRegions(origin, allowsLight, 2, bound, 1, CastLightResult(g, 1, 1.0, 0.0, {origin}));
  }

  lemma SquareAtLeast(n: int, k: nat)
    ensures n * n >= 0
    ensures Abs(n) >= k ==> n * n >= k * k
  {
    MulMonotone(0, Abs(n));
    if Abs(n) >= k {
      MulMonotone(k, Abs(n));
      assert Abs(n) * Abs(n) == n * n;
    }
  }

  // ---------------------------------------------------------------------
  // The imperative implementation
  // ---------------------------------------------------------------------

  method GetVisiblePoints(origin: Pos, allowsLight: Pos -> bool, maxDistance: nat) returns (losCache: set<Pos>)
    ensures losCache == VisiblePoints(origin, allowsLight, maxDistance)
    ensures origin in losCache
    ensures forall p :: p in losCache ==>
              (p == origin ||
               (1 <= Chebyshev(origin, p) <= maxDistance && EuclidSq(origin, p) < RadiusSquared(maxDistance)))
  {
    losCache := {};
    losCache := losCache + {origin};
    assert losCache == {origin};
    for region := 0 to 8
      invariant CastRegions(origin, allowsLight, maxDistance, RadiusSquared(maxDistance), region, losCache)
                == VisiblePoints(origin, allowsLight, maxDistance)
    {
      losCache := CastLight(losCache, allowsLight, origin, 1, 1.0, 0.0, maxDistance,
                            MULT[0][region], MULT[1][region], MULT[2][region], MULT[3][region]);
    }
    forall p | p in losCache
      ensures p == origin ||
              (1 <= Chebyshev(origin, p) <= maxDistance && EuclidSq(origin, p) < RadiusSquared(maxDistance))
    {
      VisiblePointsBound(origin, allowsLight, maxDistance, p);
    }
  }

  /** `cast_light`, with the `&mut HashSet` passed in and handed back. */
  method CastLight(losCache: set<Pos>, allowsLight: Pos -> bool, origin: Pos, row: int,
                   start: real, end: real, radius: nat, xx: int, xy: int, yx: int, yy: int)
    returns (cache: set<Pos>)
    ensures cache == CastLightResult(Light(origin, allowsLight, radius, RadiusSquared(radius), Diffs(xx, xy, yx, yy)),
                                     row, start, end, losCache)
    ensures start < end ==> cache == losCache
    ensures losCache <= cache
    decreases radius + 1 - row
  {
    ghost var g := Light(origin, allowsLight, radius, RadiusSquared(radius), Diffs(xx, xy, yx, yy));
    cache := losCache;
    if start < end {
      return;
    }
    var radiusSquared := RadiusSquared(radius);
    var curStart := start;
    var r := row;
    while r <= radius
      invariant row <= r
      invariant LightRows(g, r, curStart, end, cache) == CastLightResult(g, row, start, end, losCache)
      decreases radius + 1 - r
    {
      var newStart: real := 0.0;
      var dx, dy := -r - 1, -r;
      var blocked := false;
      while dx <= 0
        invariant -r - 1 <= dx
        invariant AfterLightRow(g, r, end, LightRow(g, r, dx + 1, end, RowScan(curStart, newStart, blocked, cache)))
                  == CastLightResult(g, row, start, end, losCache)
        decreases 1 - dx
      {
        dx := dx + 1;
        var point := Point(origin, Diffs(xx, xy, yx, yy), dx, dy);
        var lSlope, rSlope := LSlope(dx, dy), RSlope(dx, dy);
        if curStart < rSlope {
          continue;
        } else if end > lSlope {
          break;
        } else {
          if dx * dx + dy * dy < radiusSquared {
            cache := cache + {point};
          }
          if blocked {
            if !allowsLight(point) {
              newStart := rSlope;
              continue;
            } else {
              blocked := false;
              curStart := newStart;
            }
          } else {
            if !allowsLight(point) && r < radius {
              blocked := true;
              cache := CastLight(cache, allowsLight, origin, r + 1, curStart, lSlope, radius, xx, xy, yx, yy);
              newStart := rSlope;
            }
          }
        }
      }
      if blocked {
        break;
      }
      r := r + 1;
    }
  }
}
