/** The draft of symmetric shadowcasting in src/alternate.rs: four quadrants
    (North, East, South, West), each scanned row by row from depth 1 between
    a start and an end slope, over a map of tile states.

    `ShadowCasting` mirrors the source's struct and methods; `Scan` is proved
    equal to the functional model `Revealed`, which has no state of its own:
    only the keys and the `blocking` flags of the map steer the scan, and the
    scan only sets `visible` flags. */
module Alternate {
  import opened Octants

  /** The state of one tile of the map. */
  datatype TileState = TileState(visible: bool, blocking: bool)

  datatype Sector = North | East | South | West

  datatype Quadrant = Quadrant(sector: Sector, origin: Pos)

  /** A row of a quadrant: its depth and the slope interval it spans. */
  datatype Row = Row(depth: nat, startSlope: real, endSlope: real)
  {
    /** `Row::next`: one deeper, same slopes. */
    function Next(): (r: Row)
      ensures r.depth == depth + 1
      ensures r.startSlope == startSlope && r.endSlope == endSlope
    {
      Row(depth + 1, startSlope, endSlope)
    }
  }

  // ---------------------------------------------------------------------
  // Quadrant geometry
  // ---------------------------------------------------------------------

  /** `Quadrant::transform` of a local tile (depth, col). */
  function Transform(q: Quadrant, pos: Pos): (r: Pos)
    ensures Abs(pos.1) <= pos.0 ==> Chebyshev(q.origin, r) == pos.0
  {
    var (ox, oy) := q.origin;
    match q.sector
    case North => (ox + pos.1, oy - pos.0)
    case South => (ox + pos.1, oy + pos.0)
    case East => (ox + pos.0, oy + pos.1)
    case West => (ox - pos.0, oy + pos.1)
  }

  /** The local tile (depth, col) of a world cell in a quadrant. */
  function Untransform(q: Quadrant, p: Pos): Pos
  {
    var (ox, oy) := q.origin;
    match q.sector
    case North => (oy - p.1, p.0 - ox)
    case South => (p.1 - oy, p.0 - ox)
    case East => (p.0 - ox, p.1 - oy)
    case West => (ox - p.0, p.1 - oy)
  }

  /** `Transform` is a bijection of the plane, with `Untransform` as inverse. */
  lemma TransformInverse(q: Quadrant, pos: Pos, p: Pos)
    ensures Untransform(q, Transform(q, pos)) == pos
    ensures Transform(q, Untransform(q, p)) == p
  {
  }

  // ---------------------------------------------------------------------
  // Rounding, slopes and the columns of a row
  // ---------------------------------------------------------------------

  /** `round_ties_up` = floor(v + 0.5): the nearest integer, the upper one at a tie. */
  function RoundTiesUp(v: real): (r: int)
    ensures v - 0.5 < r as real <= v + 0.5
  {
    (v + 0.5).Floor
  }

  /** `round_ties_down` = ceil(v - 0.5): the nearest integer, the lower one at a tie. */
  function RoundTiesDown(v: real): (r: int)
    ensures v - 0.5 <= r as real < v + 0.5
  {
    -((0.5 - v).Floor)
  }

  /** Each rounding is the unique integer in its half-open window. */
  lemma RoundingUnique(v: real, n: int)
    ensures v - 0.5 < n as real <= v + 0.5 ==> n == RoundTiesUp(v)
    ensures v - 0.5 <= n as real < v + 0.5 ==> n == RoundTiesDown(v)
  {
  }

  /** The two roundings agree except at an exact half-integer, where the
      upper one is one more. */
  lemma RoundingsAgree(v: real)
    ensures (v + 0.5).Floor as real == v + 0.5 ==> RoundTiesUp(v) == RoundTiesDown(v) + 1
    ensures (v + 0.5).Floor as real != v + 0.5 ==> RoundTiesUp(v) == RoundTiesDown(v)
  {
    var u, d := RoundTiesUp(v), RoundTiesDown(v);
    if (v + 0.5).Floor as real == v + 0.5 {
      RoundingUnique(v, u - 1);
    } else {
      RoundingUnique(v, u);
    }
  }

  lemma RoundingMonotone(v: real, w: real)
    requires v <= w
    ensures RoundTiesUp(v) <= RoundTiesUp(w)
    ensures RoundTiesDown(v) <= RoundTiesDown(w)
  {
  }

  /** The first and the last column of a row. */
  function MinCol(row: Row): int
  {
    RoundTiesUp(row.depth as real * row.startSlope)
  }

  function MaxCol(row: Row): int
  {
    RoundTiesDown(row.depth as real * row.endSlope)
  }

  /** The tiles (depth, lo), (depth, lo + 1), ..., (depth, hi). */
  function Columns(depth: int, lo: int, hi: int): (r: seq<Pos>)
    ensures |r| == if lo <= hi then hi - lo + 1 else 0
    ensures forall j :: 0 <= j < |r| ==> r[j] == (depth, lo + j)
    decreases if lo <= hi then hi - lo + 1 else 0
  {
    if lo > hi then [] else [(depth, lo)] + Columns(depth, lo + 1, hi)
  }

  /** `Row::positions`: the tiles of the row, column ascending. */
  function Positions(row: Row): (r: seq<Pos>)
    ensures |r| == if MinCol(row) <= MaxCol(row) then MaxCol(row) - MinCol(row) + 1 else 0
    ensures forall j :: 0 <= j < |r| ==> r[j] == (row.depth, MinCol(row) + j)
  {
    Columns(row.depth, MinCol(row), MaxCol(row))
  }

  /** A tile is among the positions of a row exactly when it has the row's
      depth and a column between the two roundings. */
  lemma PositionsMembership(row: Row, p: Pos)
    ensures p in Positions(row) <==> p.0 == row.depth && MinCol(row) <= p.1 <= MaxCol(row)
  {
    var r := Positions(row);
    if p.0 == row.depth && MinCol(row) <= p.1 <= MaxCol(row) {
      assert r[p.1 - MinCol(row)] == p;
    }
  }

  /** Over an interval around slope 0, a deeper row spans at least the
      columns of the row above. */
  lemma NextRowWider(row: Row)
    requires row.startSlope <= 0.0 <= row.endSlope
    ensures MinCol(row.Next()) <= MinCol(row)
    ensures MaxCol(row) <= MaxCol(row.Next())
  {
    var d := row.depth as real;
    assert (d + 1.0) * row.startSlope == d * row.startSlope + row.startSlope;
    assert (d + 1.0) * row.endSlope == d * row.endSlope + row.endSlope;
    RoundingMonotone((d + 1.0) * row.startSlope, d * row.startSlope);
    RoundingMonotone(d * row.endSlope, (d + 1.0) * row.endSlope);
  }

  /** `slope`: (2 col - 1) / (2 depth), the slope of the tile's lower edge. */
  function Slope(pos: Pos): (r: real)
    requires pos.0 != 0
    ensures r * pos.0 as real == pos.1 as real - 0.5
  {
    (2 * pos.1 - 1) as real / (2 * pos.0) as real
  }

  /** `is_symmetric`: depth * start <= col <= depth * end. */
  predicate IsSymmetric(row: Row, pos: Pos)
  {
    pos.1 as real >= row.depth as real * row.startSlope &&
    pos.1 as real <= row.depth as real * row.endSlope
  }

  /** A symmetric tile of the row's depth is one of the row's positions. */
  lemma SymmetricIsPosition(row: Row, pos: Pos)
    requires pos.0 == row.depth && IsSymmetric(row, pos)
    ensures pos in Positions(row)
  {
    PositionsMembership(row, pos);
  }

  // ---------------------------------------------------------------------
  // The map of tile states
  // ---------------------------------------------------------------------

  /** The `blocking` flag of every key: all that steers a scan. */
  function Layout(m: map<Pos, TileState>): (b: map<Pos, bool>)
    ensures b.Keys == m.Keys
    ensures forall p :: p in m ==> b[p] == m[p].blocking
  {
    map p | p in m :: m[p].blocking
  }

  /** The map after `mark_visible` of every cell of `s`: absent cells are
      left out, nothing else changes. */
  function MarkAll(m: map<Pos, TileState>, s: set<Pos>): (r: map<Pos, TileState>)
    ensures r.Keys == m.Keys
    ensures forall p :: p in m ==> r[p].blocking == m[p].blocking
    ensures forall p :: p in m ==> (r[p].visible <==> m[p].visible || p in s)
  {
    map p | p in m :: if p in s then m[p].(visible := true) else m[p]
  }

  /** The keys whose `visible` flag is set. */
  function VisibleKeys(m: map<Pos, TileState>): (r: set<Pos>)
    ensures forall p :: p in r <==> p in m && m[p].visible
  {
    set p | p in m && m[p].visible
  }

  lemma MarkAllTwice(m: map<Pos, TileState>, a: set<Pos>, b: set<Pos>)
    ensures MarkAll(MarkAll(m, a), b) == MarkAll(m, a + b)
  {
  }

  lemma MarkAllLayout(m: map<Pos, TileState>, s: set<Pos>)
    ensures Layout(MarkAll(m, s)) == Layout(m)
  {
  }

  /** After marking `s`, the visible keys are the old ones and the keys in `s`. */
  lemma MarkAllVisible(m: map<Pos, TileState>, s: set<Pos>)
    ensures VisibleKeys(MarkAll(m, s)) == VisibleKeys(m) + (s * m.Keys)
  {
  }

  /** `new` inserting ps one by one, each in-range position with state
      (visible: false, blocking). */
  function InsertAll(m: map<Pos, TileState>, ps: seq<Pos>, inRange: set<Pos>, blocking: bool)
    : (r: map<Pos, TileState>)
    ensures forall p :: p in r <==> p in m || (p in ps && p in inRange)
    ensures forall p :: p in r ==>
              r[p] == if p in ps && p in inRange then TileState(false, blocking) else m[p]
  {
    if |ps| == 0 then m
    else
      var m' := InsertAll(m, ps[..|ps| - 1], inRange, blocking);
      var p := ps[|ps| - 1];
      assert forall x :: x in ps <==> x in ps[..|ps| - 1] || x == p;
      if p in inRange then m'[p := TileState(false, blocking)] else m'
  }

  /** The map `new` builds: tiles first, then obstacles, so an obstacle
      overwrites a tile at the same position; every state starts invisible. */
  function InitialStates(tiles: seq<Pos>, obstacles: seq<Pos>, inRange: set<Pos>)
    : (r: map<Pos, TileState>)
    ensures forall p :: p in r <==> p in inRange && (p in tiles || p in obstacles)
    ensures forall p :: p in r ==> !r[p].visible && (r[p].blocking <==> p in obstacles)
  {
    InsertAll(InsertAll(map[], tiles, inRange, false), obstacles, inRange, true)
  }

  // ---------------------------------------------------------------------
  // Functional model of `scan`
  // ---------------------------------------------------------------------

  /** Which cell `is_floor` looks up in the map: the untransformed tile, as
      written, or its world cell, as evidently intended. */
  datatype FloorCheck = AsWritten | Intended

  function FloorKey(q: Quadrant, check: FloorCheck, tile: Pos): Pos
  {
    if check == AsWritten then tile else Transform(q, tile)
  }

  /** The depth a key stands for in the floor test of `check`. */
  function KeyDepth(q: Quadrant, check: FloorCheck, k: Pos): int
  {
    if check == AsWritten then k.0 else Untransform(q, k).0
  }

  /** `is_blocking`: an absent cell does not block. */
  predicate Blocks(b: map<Pos, bool>, p: Pos)
  {
    p in b && b[p]
  }

  /** `is_wall`: a tile whose world cell blocks; no tile is not a wall. */
  predicate WallAt(b: map<Pos, bool>, q: Quadrant, t: Option<Pos>)
  {
    t.Some? && Blocks(b, Transform(q, t.value))
  }

  /** `is_floor`: a tile whose floor key is in the map and whose world cell
      does not block; no tile is not a floor. */
  predicate FloorAt(b: map<Pos, bool>, q: Quadrant, check: FloorCheck, t: Option<Pos>)
  {
    t.Some? && FloorKey(q, check, t.value) in b && !Blocks(b, Transform(q, t.value))
  }

  /** The keys standing for depth `d` or deeper.  Each recursion to row
      d + 1 needs a floor tile of depth d, so this set shrinks. */
  ghost function Deeper(keys: set<Pos>, q: Quadrant, check: FloorCheck, d: int): set<Pos>
  {
    set k | k in keys && KeyDepth(q, check, k) >= d
  }

  lemma DeeperShrinks(b: map<Pos, bool>, q: Quadrant, check: FloorCheck, t: Option<Pos>, d: int)
    requires FloorAt(b, q, check, t) && t.value.0 == d
    ensures |Deeper(b.Keys, q, check, d + 1)| < |Deeper(b.Keys, q, check, d)|
  {
    var k := FloorKey(q, check, t.value);
    assert KeyDepth(q, check, k) == d;
    var big, small := Deeper(b.Keys, q, check, d), Deeper(b.Keys, q, check, d + 1);
    assert small <= big - {k};
    SubsetCard(small, big - {k});
  }

  lemma {:induction false} SubsetCard(a: set<Pos>, b: set<Pos>)
    requires a <= b
    ensures |a| <= |b|
    decreases |b|
  {
    if a != {} {
      var x :| x in a;
      SubsetCard(a - {x}, b - {x});
    }
  }

  /** The cells one `scan(quadrant, row)` passes to `reveal`, including
      those of the scans it starts. */
  function Revealed(b: map<Pos, bool>, q: Quadrant, check: FloorCheck, row: Row): set<Pos>
    requires row.depth >= 1
    decreases |Deeper(b.Keys, q, check, row.depth)|, 1, 0
  {
    ScanTiles(b, q, check, row, Positions(row), 0, None)
  }

  /** The loop over the row's tiles from tiles[i] on, `prev` being the
      tile before; `row` carries the current `start_slope`. */
  function ScanTiles(b: map<Pos, bool>, q: Quadrant, check: FloorCheck, row: Row, tiles: seq<Pos>,
                     i: nat, prev: Option<Pos>): set<Pos>
    requires row.depth >= 1 && i <= |tiles|
    requires forall j :: 0 <= j < |tiles| ==> tiles[j].0 == row.depth
    requires prev.Some? ==> prev.value.0 == row.depth
    decreases |Deeper(b.Keys, q, check, row.depth)|, 0, |tiles| - i
  {
    if i == |tiles| then
      if FloorAt(b, q, check, prev) then
        DeeperShrinks(b, q, check, prev, row.depth);
        Revealed(b, q, check, row.Next())
      else {}
    else
      var tile := tiles[i];
      var row' := StartAfter(b, q, check, row, prev, tile);
      TileShown(b, q, row, tile) + ChildRevealed(b, q, check, row', tile, prev)
        + ScanTiles(b, q, check, row', tiles, i + 1, Some(tile))
  }

  /** The row after a tile: a floor that follows a wall moves the start
      slope to that floor's slope. */
  function StartAfter(b: map<Pos, bool>, q: Quadrant, check: FloorCheck, row: Row, prev: Option<Pos>,
                      tile: Pos): (r: Row)
    requires tile.0 != 0
    ensures r.depth == row.depth && r.endSlope == row.endSlope
  {
    if WallAt(b, q, prev) && FloorAt(b, q, check, Some(tile))
    then row.(startSlope := Slope(tile)) else row
  }

  /** One tile of `ScanTiles`. */
  lemma ScanTilesStep(b: map<Pos, bool>, q: Quadrant, check: FloorCheck, row: Row, tiles: seq<Pos>,
                      i: nat, prev: Option<Pos>)
    requires row.depth >= 1 && i < |tiles|
    requires forall j :: 0 <= j < |tiles| ==> tiles[j].0 == row.depth
    requires prev.Some? ==> prev.value.0 == row.depth
    ensures ScanTiles(b, q, check, row, tiles, i, prev)
            == TileShown(b, q, row, tiles[i])
               + ChildRevealed(b, q, check, StartAfter(b, q, check, row, prev, tiles[i]), tiles[i], prev)
               + ScanTiles(b, q, check, StartAfter(b, q, check, row, prev, tiles[i]), tiles, i + 1, Some(tiles[i]))
  {
  }

  /** The cell the tile reveals itself: its world cell, when it is a wall
      or symmetric. */
  function TileShown(b: map<Pos, bool>, q: Quadrant, row: Row, tile: Pos): set<Pos>
  {
    if WallAt(b, q, Some(tile)) || IsSymmetric(row, tile) then {Transform(q, tile)} else {}
  }

  /** What the scan started at a wall that follows a floor reveals: the next
      row, ending at the wall's slope. */
  function ChildRevealed(b: map<Pos, bool>, q: Quadrant, check: FloorCheck, row: Row, tile: Pos,
                         prev: Option<Pos>): set<Pos>
    requires row.depth >= 1 && tile.0 == row.depth
    requires prev.Some? ==> prev.value.0 == row.depth
    decreases |Deeper(b.Keys, q, check, row.depth)|, 0, 0
  {
    if FloorAt(b, q, check, prev) && WallAt(b, q, Some(tile)) then
      DeeperShrinks(b, q, check, prev, row.depth);
      Revealed(b, q, check, row.Next().(endSlope := Slope(tile)))
    else {}
  }

  /** `compute_fov`: the origin, then the quadrants of `sectors` in turn,
      each from row 1 over the slopes [-1, 1]. */
  function SectorsRevealed(b: map<Pos, bool>, origin: Pos, check: FloorCheck, sectors: seq<Sector>): set<Pos>
  {
    if |sectors| == 0 then {origin}
    else
      SectorsRevealed(b, origin, check, sectors[..|sectors| - 1])
        + Revealed(b, Quadrant(sectors[|sectors| - 1], origin), check, Row(1, -1.0, 1.0))
  }

  const AllSectors: seq<Sector> := [North, East, South, West]

  // ---------------------------------------------------------------------
  // What a scan reveals
  // ---------------------------------------------------------------------

  /** Some tile of local depth d is a floor: the scan can go on from row d
      to row d + 1. */
  ghost predicate FloorRow(b: map<Pos, bool>, q: Quadrant, check: FloorCheck, d: int)
  {
    exists u: Pos :: u.0 == d && FloorAt(b, q, check, Some(u))
  }

  /** A cell revealed by a scan from row `depth` has a local depth t of at
      least that row's, and every row from `depth` up to t - 1 holds a
      floor tile: the scan goes one row deeper only from a floor tile. */
  ghost predicate Reached(b: map<Pos, bool>, q: Quadrant, check: FloorCheck, depth: int, s: set<Pos>)
  {
    forall p :: p in s ==>
      var t := Untransform(q, p);
      t.0 >= depth && forall d :: depth <= d < t.0 ==> FloorRow(b, q, check, d)
  }

  lemma {:induction false} RevealedReach(b: map<Pos, bool>, q: Quadrant, check: FloorCheck, row: Row)
    requires row.depth >= 1
    ensures Reached(b, q, check, row.depth, Revealed(b, q, check, row))
    decreases |Deeper(b.Keys, q, check, row.depth)|, 1, 0
  {
    ScanTilesReach(b, q, check, row, Positions(row), 0, None);
  }

  lemma {:induction false} ScanTilesReach(b: map<Pos, bool>, q: Quadrant, check: FloorCheck, row: Row,
                                        tiles: seq<Pos>, i: nat, prev: Option<Pos>)
    requires row.depth >= 1 && i <= |tiles|
    requires forall j :: 0 <= j < |tiles| ==> tiles[j].0 == row.depth
    requires prev.Some? ==> prev.value.0 == row.depth
    ensures Reached(b, q, check, row.depth, ScanTiles(b, q, check, row, tiles, i, prev))
    decreases |Deeper(b.Keys, q, check, row.depth)|, 0, |tiles| - i
  {
    if i == |tiles| {
      if FloorAt(b, q, check, prev) {
        DeeperShrinks(b, q, check, prev, row.depth);
        RevealedReach(b, q, check, row.Next());
        ReachedFromFloor(b, q, check, prev.value, Revealed(b, q, check, row.Next()));
      }
    } else {
      var tile := tiles[i];
      var row' := StartAfter(b, q, check, row, prev, tile);
      ScanTilesReach(b, q, check, row', tiles, i + 1, Some(tile));
      ChildReach(b, q, check, row', tile, prev);
      TileReach(b, q, check, row, tile);
      ReachedUnion(b, q, check, row.depth, TileShown(b, q, row, tile), ChildRevealed(b, q, check, row', tile, prev),
                   ScanTiles(b, q, check, row', tiles, i + 1, Some(tile)));
    }
  }

  lemma TileReach(b: map<Pos, bool>, q: Quadrant, check: FloorCheck, row: Row, tile: Pos)
    requires tile.0 == row.depth
    ensures Reached(b, q, check, row.depth, TileShown(b, q, row, tile))
  {
    TransformInverse(q, tile, tile);
  }

  lemma {:induction false} ChildReach(b: map<Pos, bool>, q: Quadrant, check: FloorCheck, row: Row, tile: Pos,
                                    prev: Option<Pos>)
    requires row.depth >= 1 && tile.0 == row.depth
    requires prev.Some? ==> prev.value.0 == row.depth
    ensures Reached(b, q, check, row.depth, ChildRevealed(b, q, check, row, tile, prev))
    decreases |Deeper(b.Keys, q, check, row.depth)|, 0, 0
  {
    if FloorAt(b, q, check, prev) && WallAt(b, q, Some(tile)) {
      DeeperShrinks(b, q, check, prev, row.depth);
      RevealedReach(b, q, check, row.Next().(endSlope := Slope(tile)));
      ReachedFromFloor(b, q, check, prev.value, ChildRevealed(b, q, check, row, tile, prev));
    }
  }

  lemma ReachedUnion(b: map<Pos, bool>, q: Quadrant, check: FloorCheck, depth: int, s1: set<Pos>, s2: set<Pos>,
                     s3: set<Pos>)
    requires Reached(b, q, check, depth, s1) && Reached(b, q, check, depth, s2) && Reached(b, q, check, depth, s3)
    ensures Reached(b, q, check, depth, s1 + s2 + s3)
  {
  }

  /** What a scan started one row below a floor tile reveals is reached
      from the tile's row. */
  lemma ReachedFromFloor(b: map<Pos, bool>, q: Quadrant, check: FloorCheck, tile: Pos, s: set<Pos>)
    requires FloorAt(b, q, check, Some(tile))
    requires Reached(b, q, check, tile.0 + 1, s)
    ensures Reached(b, q, check, tile.0, s)
  {
    assert FloorRow(b, q, check, tile.0);
  }

  lemma {:induction false} OriginRevealed(b: map<Pos, bool>, origin: Pos, check: FloorCheck, sectors: seq<Sector>)
    ensures origin in SectorsRevealed(b, origin, check, sectors)
    decreases |sectors|
  {
    if |sectors| > 0 {
      OriginRevealed(b, origin, check, sectors[..|sectors| - 1]);
    }
  }

  /** On a map whose states are all invisible, as `new` leaves them,
      `compute_fov` returns exactly the revealed cells that are keys; the
      origin is among them exactly when it is a key. */
  lemma FreshFov(m: map<Pos, TileState>, origin: Pos)
    requires forall p :: p in m ==> !m[p].visible
    ensures VisibleKeys(MarkAll(m, SectorsRevealed(Layout(m), origin, AsWritten, AllSectors)))
            == SectorsRevealed(Layout(m), origin, AsWritten, AllSectors) * m.Keys
    ensures origin in VisibleKeys(MarkAll(m, SectorsRevealed(Layout(m), origin, AsWritten, AllSectors)))
            <==> origin in m
  {
    var s := SectorsRevealed(Layout(m), origin, AsWritten, AllSectors);
    MarkAllVisible(m, s);
    assert VisibleKeys(m) == {};
    OriginRevealed(Layout(m), origin, AsWritten, AllSectors);
  }

  // ---------------------------------------------------------------------
  // `is_floor` looks up the untransformed tile
  // ---------------------------------------------------------------------

  /** A 5 x 5 block of open tiles around (5, 5). */
  function OpenBlock(): (b: map<Pos, bool>)
    ensures forall p :: p in b <==> 3 <= p.0 <= 7 && 3 <= p.1 <= 7
    ensures forall p :: p in b ==> !b[p]
  {
    var cells := set x, y | 3 <= x <= 7 && 3 <= y <= 7 :: (x, y);
    assert forall p: Pos :: p in cells <==> 3 <= p.0 <= 7 && 3 <= p.1 <= 7 by {
      forall p: Pos | 3 <= p.0 <= 7 && 3 <= p.1 <= 7
        ensures p in cells
      {
        var (x, y) := p;
        assert (x, y) in cells;
      }
    }
    map p | p in cells :: false
  }

  /** As written, the North scan from (5, 5) over the open block never
      reveals (5, 3), two tiles north: no key has the local depth 1 that
      the untransformed lookup of row 1's tiles needs. */
  lemma AsWrittenMissesOpenTile()
    ensures (5, 3) !in Revealed(OpenBlock(), Quadrant(North, (5, 5)), AsWritten, Row(1, -1.0, 1.0))
  {
    var q := Quadrant(North, (5, 5));
    RevealedReach(OpenBlock(), q, AsWritten, Row(1, -1.0, 1.0));
    assert Untransform(q, (5, 3)) == (2, 0);
    assert !FloorRow(OpenBlock(), q, AsWritten, 1);
  }

  /** Without walls, a tile's step of the row loop keeps the slopes and
      reveals at least what the rest of the row reveals. */
  lemma OpenStep(b: map<Pos, bool>, q: Quadrant, check: FloorCheck, row: Row, tiles: seq<Pos>, i: nat,
                 prev: Option<Pos>)
    requires forall p :: p in b ==> !b[p]
    requires row.depth >= 1 && i < |tiles|
    requires forall j :: 0 <= j < |tiles| ==> tiles[j].0 == row.depth
    requires prev.Some? ==> prev.value.0 == row.depth
    ensures TileShown(b, q, row, tiles[i]) <= ScanTiles(b, q, check, row, tiles, i, prev)
    ensures ScanTiles(b, q, check, row, tiles, i + 1, Some(tiles[i])) <= ScanTiles(b, q, check, row, tiles, i, prev)
  {
    assert !WallAt(b, q, prev);
  }

  /** Looking up the world cell instead, the same scan goes on to row 2 and
      reveals (5, 3). */
  lemma IntendedRevealsOpenTile()
    ensures (5, 3) in Revealed(OpenBlock(), Quadrant(North, (5, 5)), Intended, Row(1, -1.0, 1.0))
  {
    IntendedRowTwo();
    IntendedRowOne();
  }

  lemma IntendedRowTwo()
    ensures (5, 3) in Revealed(OpenBlock(), Quadrant(North, (5, 5)), Intended, Row(2, -1.0, 1.0))
  {
    var b, q := OpenBlock(), Quadrant(North, (5, 5));
    var row2 := Row(2, -1.0, 1.0);
    var t2 := Positions(row2);
    assert MinCol(row2) == -2 && MaxCol(row2) == 2;
    assert t2[2] == (2, 0) && Transform(q, (2, 0)) == (5, 3);
    assert TileShown(b, q, row2, t2[2]) == {(5, 3)};
    OpenStep(b, q, Intended, row2, t2, 0, None);
    OpenStep(b, q, Intended, row2, t2, 1, Some(t2[0]));
    OpenStep(b, q, Intended, row2, t2, 2, Some(t2[1]));
  }

  lemma IntendedRowOne()
    ensures Revealed(OpenBlock(), Quadrant(North, (5, 5)), Intended, Row(2, -1.0, 1.0))
         <= Revealed(OpenBlock(), Quadrant(North, (5, 5)), Intended, Row(1, -1.0, 1.0))
  {
    var b, q := OpenBlock(), Quadrant(North, (5, 5));
    var row1 := Row(1, -1.0, 1.0);
    var t1 := Positions(row1);
    RowOneTiles();
    OpenStep(b, q, Intended, row1, t1, 0, None);
    OpenStep(b, q, Intended, row1, t1, 1, Some(t1[0]));
    OpenStep(b, q, Intended, row1, t1, 2, Some(t1[1]));
    RowOneEnd();
  }

  /** Row 1 over [-1, 1] holds the tiles (1, -1), (1, 0) and (1, 1). */
  lemma RowOneTiles()
    ensures Positions(Row(1, -1.0, 1.0)) == [(1, -1), (1, 0), (1, 1)]
  {
    var row1 := Row(1, -1.0, 1.0);
    assert MinCol(row1) == -1 && MaxCol(row1) == 1;
  }

  /** In the open map, the last tile of row 1 is a floor once looked up by
      its world cell, so row 1 ends by scanning row 2. */
  lemma RowOneEnd()
    ensures ScanTiles(OpenBlock(), Quadrant(North, (5, 5)), Intended, Row(1, -1.0, 1.0), [(1, -1), (1, 0), (1, 1)],
                      3, Some((1, 1)))
         == Revealed(OpenBlock(), Quadrant(North, (5, 5)), Intended, Row(2, -1.0, 1.0))
  {
    var b, q := OpenBlock(), Quadrant(North, (5, 5));
    assert Transform(q, (1, 1)) == (6, 4);
    assert FloorAt(b, q, Intended, Some((1, 1)));
  }

  // ---------------------------------------------------------------------
  // The imperative implementation
  // ---------------------------------------------------------------------

  class ShadowCasting {
    const origin: Pos
    var positionStateMap: map<Pos, TileState>

    /** `new`, with the in-range set that the source takes from
        `origin.circle_filled(15)` passed in. */
    constructor (origin: Pos, tilePositions: seq<Pos>, obstaclePositions: seq<Pos>, tilesInRange: set<Pos>)
      ensures this.origin == origin
      ensures positionStateMap == InitialStates(tilePositions, obstaclePositions, tilesInRange)
    {
      var tileStateMap: map<Pos, TileState> := map[];
      for i := 0 to |tilePositions|
        invariant tileStateMap == InsertAll(map[], tilePositions[..i], tilesInRange, false)
      {
        assert tilePositions[..i + 1][..i] == tilePositions[..i];
        var pos := tilePositions[i];
        if pos in tilesInRange {
          tileStateMap := tileStateMap[pos := TileState(false, false)];
        }
      }
      assert tilePositions[..|tilePositions|] == tilePositions;
      ghost var afterTiles := tileStateMap;
      for i := 0 to |obstaclePositions|
        invariant tileStateMap == InsertAll(afterTiles, obstaclePositions[..i], tilesInRange, true)
      {
        assert obstaclePositions[..i + 1][..i] == obstaclePositions[..i];
        var pos := obstaclePositions[i];
        if pos in tilesInRange {
          tileStateMap := tileStateMap[pos := TileState(false, true)];
        }
      }
      assert obstaclePositions[..|obstaclePositions|] == obstaclePositions;
      this.origin := origin;
      positionStateMap := tileStateMap;
    }

    /** `compute_fov`: marks the origin, scans the four quadrants and
        returns the keys whose `visible` flag is set. */
    method ComputeFov() returns (r: set<Pos>)
      modifies this
      ensures positionStateMap
        == MarkAll(old(positionStateMap), SectorsRevealed(Layout(old(positionStateMap)), origin, AsWritten, AllSectors))
      ensures r == VisibleKeys(positionStateMap)
    {
      ghost var m0 := positionStateMap;
      ghost var b := Layout(m0);
      MarkVisible(origin);
      var sectors := AllSectors;
      for k := 0 to |sectors|
        invariant positionStateMap == MarkAll(m0, SectorsRevealed(b, origin, AsWritten, sectors[..k]))
      {
        assert sectors[..k + 1][..k] == sectors[..k];
        var quadrant := Quadrant(sectors[k], origin);
        var firstRow := Row(1, -1.0, 1.0);
        MarkAllLayout(m0, SectorsRevealed(b, origin, AsWritten, sectors[..k]));
        Scan(quadrant, firstRow);
        MarkAllTwice(m0, SectorsRevealed(b, origin, AsWritten, sectors[..k]),
                     Revealed(b, quadrant, AsWritten, firstRow));
      }
      assert sectors[..|sectors|] == sectors;
      r := set pos | pos in positionStateMap && positionStateMap[pos].visible;
    }

    /** `scan(quadrant, row)`: the map afterwards has every cell of
        `Revealed` marked visible and is otherwise unchanged. */
    method Scan(quadrant: Quadrant, row: Row)
      requires row.depth >= 1
      modifies this
      ensures positionStateMap
        == MarkAll(old(positionStateMap), Revealed(Layout(old(positionStateMap)), quadrant, AsWritten, row))
      decreases |Deeper(positionStateMap.Keys, quadrant, AsWritten, row.depth)|, 1
    {
      ghost var m0 := positionStateMap;
      ghost var b := Layout(m0);
      ghost var done: set<Pos> := {};
      var tiles := Positions(row);
      var cur := row;
      var prevTile: Option<Pos> := None;
      for i := 0 to |tiles|
        invariant cur.depth == row.depth
        invariant prevTile.Some? ==> prevTile.value.0 == row.depth
        invariant positionStateMap == MarkAll(m0, done)
        invariant done + ScanTiles(b, quadrant, AsWritten, cur, tiles, i, prevTile)
                  == Revealed(b, quadrant, AsWritten, row)
      {
        MarkAllLayout(m0, done);
        var tile := tiles[i];
        ScanTilesStep(b, quadrant, AsWritten, cur, tiles, i, prevTile);
        ghost var step := TileShown(b, quadrant, cur, tile)
          + ChildRevealed(b, quadrant, AsWritten, StartAfter(b, quadrant, AsWritten, cur, prevTile, tile), tile, prevTile);
        cur := ScanTile(quadrant, cur, tile, prevTile);
        MarkAllTwice(m0, done, step);
        done := done + step;
        prevTile := Some(tile);
      }
      MarkAllLayout(m0, done);
      if IsFloor(quadrant, prevTile) {
        DeeperShrinks(b, quadrant, AsWritten, prevTile, row.depth);
        Scan(quadrant, cur.Next());
        MarkAllTwice(m0, done, Revealed(b, quadrant, AsWritten, cur.Next()));
      }
    }

    /** The body of the loop of `scan` for one tile: reveal it when it is a
        wall or symmetric, move the start slope at a floor after a wall, and
        scan the next row at a wall after a floor.  Returns the row with its
        new start slope. */
    method ScanTile(quadrant: Quadrant, row: Row, tile: Pos, prevTile: Option<Pos>) returns (cur: Row)
      requires row.depth >= 1 && tile.0 == row.depth
      requires prevTile.Some? ==> prevTile.value.0 == row.depth
      modifies this
      ensures cur == StartAfter(Layout(old(positionStateMap)), quadrant, AsWritten, row, prevTile, tile)
      ensures positionStateMap
        == MarkAll(old(positionStateMap),
                   TileShown(Layout(old(positionStateMap)), quadrant, row, tile)
                   + ChildRevealed(Layout(old(positionStateMap)), quadrant, AsWritten, cur, tile, prevTile))
      decreases |Deeper(positionStateMap.Keys, quadrant, AsWritten, row.depth)|, 0
    {
      ghost var m0 := positionStateMap;
      ghost var b := Layout(m0);
      cur := row;
      if IsWall(quadrant, Some(tile)) || IsSymmetric(cur, tile) {
        Reveal(quadrant, tile);
      }
      ghost var shown := TileShown(b, quadrant, row, tile);
      assert positionStateMap == MarkAll(m0, shown);
      MarkAllLayout(m0, shown);
      if IsWall(quadrant, prevTile) && IsFloor(quadrant, Some(tile)) {
        cur := cur.(startSlope := Slope(tile));
      }
      if IsFloor(quadrant, prevTile) && IsWall(quadrant, Some(tile)) {
        var nextRow := cur.Next();
        nextRow := nextRow.(endSlope := Slope(tile));
        DeeperShrinks(b, quadrant, AsWritten, prevTile, row.depth);
        Scan(quadrant, nextRow);
        MarkAllTwice(m0, shown, Revealed(b, quadrant, AsWritten, nextRow));
      }
    }

    /** `reveal`: marks the world cell of a local tile. */
    method Reveal(quadrant: Quadrant, pos: Pos)
      modifies this
      ensures positionStateMap == MarkAll(old(positionStateMap), {Transform(quadrant, pos)})
    {
      MarkVisible(Transform(quadrant, pos));
    }

    /** `is_wall`: no tile is not a wall. */
    function IsWall(quadrant: Quadrant, posOpt: Option<Pos>): (r: bool)
      reads this
      ensures r == WallAt(Layout(positionStateMap), quadrant, posOpt)
      ensures posOpt.None? ==> !r
    {
      match posOpt
      case Some(tile) => IsBlocking(Transform(quadrant, tile))
      case None => false
    }

    /** `is_floor`: looks the untransformed tile up in the map. */
    function IsFloor(quadrant: Quadrant, posOpt: Option<Pos>): (r: bool)
      reads this
      ensures r == FloorAt(Layout(positionStateMap), quadrant, AsWritten, posOpt)
      ensures r ==> posOpt.Some? && posOpt.value in positionStateMap
    {
      match posOpt
      case Some(tile) => tile in positionStateMap && !IsBlocking(Transform(quadrant, tile))
      case None => false
    }

    /** `is_blocking`: an absent position does not block. */
    function IsBlocking(pos: Pos): (r: bool)
      reads this
      ensures r == Blocks(Layout(positionStateMap), pos)
      ensures r ==> pos in positionStateMap
    {
      if pos in positionStateMap then positionStateMap[pos].blocking else false
    }

    /** `mark_visible`: sets the flag of a present position; never adds one. */
    method MarkVisible(pos: Pos)
      modifies this
      ensures positionStateMap == MarkAll(old(positionStateMap), {pos})
    {
      if pos in positionStateMap {
        positionStateMap := positionStateMap[pos := positionStateMap[pos].(visible := true)];
      }
    }
  }
}
