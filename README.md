# Recursive shadowcasting, modelled in Dafny

The repository computes the field of view on a grid: the cells an observer
at an origin cell can see, given a predicate that says which cells block
light. Its library holds five attempts at recursive shadowcasting, one per
source file, and this project models each of them in its own module:

- `Octants` (`octants.dfy`): the eight-octant table that `src/lib.rs` and
  `src/my.rs` share. It holds the `(xx, xy, yx, yy)` coefficients, the map
  from a column/depth pair to a world cell, and the Chebyshev distance.
- `Lib` (`lib.dfy`, properties in `lib_properties.dfy`): `src/lib.rs`, the
  public entry point `shadow_cast`. The `ShadowCasting` class keeps the
  visible set as a field. `Cast` walks rows and cells with the same
  `continue`/`break` tests and keeps the saved right slope. `Cast` is proved
  equal to the recursive model `CastRows`/`ScanRow`/`AfterRow`. Lemmas about
  that model give:
  - origin inclusion;
  - the radius bound;
  - radius zero;
  - the open field;
  - the full ring enclosure;
  - visibility of the eight neighbours.
- `LibSymmetry` (`lib_symmetry.dfy`): the eight-fold symmetry of
  `shadow_cast`. The eight octant tables are the eight symmetries of the
  square. When the obstacles are invariant under one of them, a cell is
  visible exactly when its image is. The proof shows two things:
  - the cells already visible never steer a cast;
  - a symmetry carries each octant's cast onto the cast of the composite
    octant.
- `Other` (`other.dfy`): `src/other.rs`, the port of a Python
  implementation. It has the sign table `MULT` and `cast_light` with its
  `while dx <= 0` loop and its distance test. The methods are proved equal
  to the functional model `CastLightResult`. Bound lemmas show every visible
  cell lies within the radius and passes the distance test.
- `Alternate` (`alternate.dfy`): `src/alternate.rs`, a quadrant/row
  formulation over a map of tile states. It has the row rounding, the
  symmetric-tile test and the wall/floor tests. `Scan` recurses without a
  radius bound. It terminates because `is_floor` only holds for keys of the
  finite map. The class methods are proved equal to the functional model
  `Revealed`/`SectorsRevealed`. Take a revealed cell at local depth t. It is
  proved that every row of its quadrant, from the scan's first row up to
  t - 1, holds a floor tile (a tile `is_floor` accepts). The scan goes one
  row deeper only from such a tile.
- `My` (`my.dfy`): `src/my.rs`. Its recursion on a blocking cell has no
  bound, so the model carries a fuel argument. `None` means the fuel ran
  out. The proofs show:
  - a grid where every cell blocks never ends;
  - an open field gives exactly the cells at distance 1 to
    `max(1, max_distance)`, so the origin is left out.
- `New` (`new.dfy`): `src/new.rs`, the unfinished draft. It covers:
  - the tile map built by `new`;
  - `get_tiles`, which yields a whole row for four octants and nothing for
    the other four;
  - `scan`, which leaves the map unchanged.

Quantities the source holds in `f32` are exact `real`s here. `isize` and
`usize` are unbounded integers. A `Position` is a pair of integers. A
blocking predicate is a total function from positions to `bool`.

The model follows the code in these points, where it departs from
shadowcasting as usually described (a disk of the given radius, with the
origin visible):
- `src/lib.rs` has no Euclidean test. Its visible area is the full
  Chebyshev square, and `OpenFieldIsFullSquare` proves it.
- `src/my.rs` never inserts the origin.
- `src/other.rs` tests against `radius ^ 2`. That is a bitwise XOR, not a
  square (see Findings).
- `src/alternate.rs` has no radius of its own. Its reach is the set of
  tiles it was given.

## Model

| member | source | states |
|---|---|---|
| Octants.AllOctants | src/lib.rs:162-173 | the eight octants, pairwise distinct, in the order the source lists them |
| Octants.GetDiffs | src/lib.rs:190-201 | every octant's coefficients form a signed permutation matrix |
| Octants.DiffsInjective | src/lib.rs:190-201 | two octants have the same coefficients exactly when they are the same octant |
| Octants.WorldCoordinate | src/lib.rs:176-188 | no contract of its own: `get_world_coordinate`, origin + x*(xx, yx) + y*(xy, yy); `src/my.rs:108-120` is the same function; its properties are the next two rows |
| Octants.WorldCoordinateInjective | src/lib.rs:176-188 | within one octant, distinct (column, depth) pairs give distinct world cells |
| Octants.WorldCoordinateDistance | src/lib.rs:176-188 | a cell of column 0..depth lies at Chebyshev distance exactly `depth` from the origin |
| Octants.OctantsCover | src/lib.rs:162-201 | every cell is the image of some octant, column and depth with column <= depth = its distance |
| Lib.LeftSlope | src/lib.rs:73 | the slope times (y - 1/2) is x + 1/2 |
| Lib.RightSlope | src/lib.rs:74 | the slope times (y + 1/2) is x - 1/2 |
| Lib.CastRows | src/lib.rs:58-112 | the rows from `depth` up to the radius only add cells |
| Lib.CastRowsBound | src/lib.rs:58-112 | every cell those rows add lies between distance `depth` and the radius |
| Lib.ScanRow | src/lib.rs:70-106 | one row, from column x down to 0, only adds cells |
| Lib.ScanRowBound | src/lib.rs:70-106 | every cell the row and the scans it starts add lies between the row's distance and the radius |
| Lib.AfterRow | src/lib.rs:108-111 | after a row, casting only adds cells |
| Lib.AfterRowBound | src/lib.rs:108-111 | every cell casting adds after a row lies between distance depth+1 and the radius |
| Lib.CastOctants | src/lib.rs:51-53 | the eight casts add only cells at distance 1 to the radius |
| Lib.Los | src/lib.rs:13-19 | the result contains the origin and nothing beyond the radius |
| Lib.ShadowCasting.constructor | src/lib.rs:33-44 | stores origin, radius and predicate; the visible set starts empty |
| Lib.ShadowCasting.CalculateLos | src/lib.rs:48-56 | marks the origin, casts the eight octants from depth 1 with slopes 1.0 and 0.0, returns the visible set |
| Lib.ShadowCasting.Cast | src/lib.rs:58-112 | the visible set grows by exactly the model's cells for this octant, depth and slope interval |
| Lib.ShadowCasting.PosBlocksView | src/lib.rs:114-119 | no contract of its own: the stored predicate applied to the position |
| Lib.ShadowCasting.SetPosVisible | src/lib.rs:121-126 | inserts one position into the visible set |
| Lib.ShadowCast | src/lib.rs:13-19 | equals the model; contains the origin; every cell within Chebyshev distance `radius` |
| LibProperties.SlopeOrder | src/lib.rs:73-74 | a cell's right slope never exceeds its left slope |
| LibProperties.ScanRowStartNonIncreasing | src/lib.rs:90-96 | scanning a row never raises the start slope |
| LibProperties.RowCellsStep | src/lib.rs:70-71 | a row's cells from column x down are cell x plus the cells from x-1 down |
| LibProperties.OctantCellsStep | src/lib.rs:69-71 | an octant's rows from y are row y plus the rows from y+1 |
| LibProperties.ScanRowOpen | src/lib.rs:70-106 | with no blocker a row marks exactly its cells and keeps the slopes |
| LibProperties.CastRowsOpen | src/lib.rs:58-112 | with no blocker an octant marks exactly its cells up to the radius |
| LibProperties.FirstRowSlopes | src/lib.rs:73-74 | the slopes of the two cells of depth 1 |
| LibProperties.FirstRowVisible | src/lib.rs:69-88 | both cells of depth 1 are always marked, whether or not they block |
| LibProperties.RingOctant | src/lib.rs:90-110 | when the cells at distance 1 all block, an octant marks exactly its cells of depth 1 |
| LibProperties.RingRow | src/lib.rs:97-105 | in that case the first row ends blocked, having marked both of its cells |
| LibProperties.CellsOfBound | src/lib.rs:69-71 | the octants' cells lie at distance 1 to the bound |
| LibProperties.CellsOfMember | src/lib.rs:51-53 | a cell of any one octant is a cell of the union |
| LibProperties.AllCellsSquare | src/lib.rs:162-201 | the union of the eight octants up to `hi` is exactly the cells at distance 1..hi |
| LibProperties.CastOctantsExact | src/lib.rs:51-53 | open field or closed ring: the eight casts add exactly the union of the octants' cells |
| LibProperties.CastOctantsFirstRow | src/lib.rs:51-53 | every octant's two cells of depth 1 are in the result |
| LibProperties.RadiusZero | src/lib.rs:48-56 | radius 0 gives exactly the origin |
| LibProperties.OpenFieldIsFullSquare | src/lib.rs:13-19 | with no blocker a cell is visible if and only if it lies within Chebyshev distance `radius` |
| LibProperties.RingEnclosure | src/lib.rs:13-19 | if the cells at distance 1 all block, a cell is visible if and only if it lies within distance 1 |
| LibProperties.NeighboursVisible | src/lib.rs:13-19 | for radius >= 1 the origin and its eight neighbours are always visible |
| LibProperties.LosFirstRow | src/lib.rs:13-19 | for radius >= 1 both cells of depth 1 of every octant are visible |
| LibSymmetry.ComposeCell | src/lib.rs:176-201 | applying symmetry m to cell (i, d) of octant o gives cell (i, d) of octant `Compose(m, o)` |
| LibSymmetry.InverseCompose | src/lib.rs:190-201 | composed either way round with its inverse, a table gives the identity table |
| LibSymmetry.InverseCancels | src/lib.rs:176-201 | the inverse symmetry undoes the symmetry, and the symmetry undoes the inverse |
| LibSymmetry.InverseSymmetric | src/lib.rs:176-201 | obstacles invariant under m are invariant under its inverse |
| LibSymmetry.ScanRowCell | src/lib.rs:70-105 | a cell inside the scanned interval moves the scan on by one cell step |
| LibSymmetry.CastRowsFrame | src/lib.rs:58-112 | casting from a larger visible set `vis + extra` gives the cast from `vis` plus `extra` |
| LibSymmetry.AfterRowFrame | src/lib.rs:108-111 | the same after a row |
| LibSymmetry.ScanRowFrame | src/lib.rs:70-106 | the same for a row from column x down |
| LibSymmetry.CellStepFrame | src/lib.rs:88-105 | the same for one cell's step |
| LibSymmetry.CastRowsImage | src/lib.rs:58-112 | a map that carries octant o's cells onto octant o''s, blocking alike, carries o's cast onto o''s cast |
| LibSymmetry.AfterRowImage | src/lib.rs:108-111 | the same after a row |
| LibSymmetry.ScanRowImage | src/lib.rs:70-106 | the same for a row from column x down |
| LibSymmetry.ShadowStepImage | src/lib.rs:90-96 | the same for one cell's step after a blocking cell |
| LibSymmetry.LitStepImage | src/lib.rs:97-105 | the same for one cell's step after a clear cell, including the child cast |
| LibSymmetry.CastOctantsUnion | src/lib.rs:51-53 | casting the octants in turn adds the union of their separate casts |
| LibSymmetry.CastsMember | src/lib.rs:51-53 | a cell is in that union exactly when one listed octant's cast finds it |
| LibSymmetry.LosCells | src/lib.rs:48-56 | a cell is visible exactly when it is the origin or some octant's cast finds it |
| LibSymmetry.SymmetryCarries | src/lib.rs:176-201 | a symmetry of the obstacles carries each octant onto its composite octant, blocking alike |
| LibSymmetry.LosImage | src/lib.rs:13-19 | a symmetry of the obstacles maps visible cells to visible cells |
| LibSymmetry.LosSymmetric | src/lib.rs:13-19 | for obstacles invariant under a symmetry of the square, a cell is visible if and only if its image is |
| LibSymmetry.LosInvariant | src/lib.rs:13-19 | such a symmetry maps the visible set onto itself |
| Other.RegionDiffs | src/other.rs:5-10 | every column of `MULT` is a signed permutation matrix |
| Other.RegionsDistinct | src/other.rs:5-10 | the eight columns of `MULT` are pairwise distinct |
| Other.RegionIsOctant | src/other.rs:68 | each region's cell is the cell of one octant of the table in `src/lib.rs` |
| Other.RegionOctantsDistinct | src/other.rs:20-34 | the eight regions are eight different octants |
| Other.Xor | src/other.rs:56 | no contract of its own: the `^` operator on non-negative integers, bit by bit |
| Other.XorSum | src/other.rs:56 | exclusive or is the sum less twice the bitwise and, so it never exceeds the sum |
| Other.XorTwo | src/other.rs:56 | XOR with 2 adds 2 when bit 1 is clear and subtracts 2 when it is set |
| Other.RadiusSquared | src/other.rs:56 | the value the source computes as `radius ^ 2` |
| Other.RadiusSquaredIsNotSquare | src/other.rs:56 | for radius 120 it is 122, and a cell 12 rows ahead fails the distance test |
| Other.IntendedDiskTest | src/other.rs:77 | with a true square, a cell that passes the test lies inside the radius square, and every cell on the row axis within the radius passes |
| Other.Point | src/other.rs:68 | no contract of its own: origin + dx*(xx, yx) + dy*(xy, yy); its distances are `Other.PointDistance` |
| Other.LSlope | src/other.rs:70 | `l_slope` times (dy + 1/2) is dx - 1/2 |
| Other.RSlope | src/other.rs:70 | `r_slope` times (dy - 1/2) is dx + 1/2 |
| Other.SlopesAgreeWithLib | src/other.rs:70 | the slopes match those of `src/lib.rs` under the change of sign |
| Other.SlopeOrder | src/other.rs:70 | a cell's start-side slope never exceeds its end-side slope |
| Other.LSlopePastRow | src/other.rs:64-75 | the cell dx = 1 the loop reaches has a negative slope, so it always breaks |
| Other.PointDistance | src/other.rs:68 | a region's cell lies at Chebyshev distance max(abs dx, abs dy) and squared distance dx^2+dy^2 |
| Other.CastLightResult | src/other.rs:39-115 | a cast only adds cells |
| Other.LightRows | src/other.rs:58-114 | the rows only add cells |
| Other.AfterLightRow | src/other.rs:111-113 | after a row only cells are added |
| Other.LightRow | src/other.rs:64-109 | a row only adds cells |
| Other.CastRegions | src/other.rs:20-34 | the region casts only add cells |
| Other.VisiblePoints | src/other.rs:12-37 | the result contains the origin |
| Other.IntendedVisiblePoints | src/other.rs:12-37 | the corrected result contains the origin |
| Other.CastLightBound | src/other.rs:39-115 | every added cell lies between the starting row and the radius and passes the distance test |
| Other.LightRowsBound | src/other.rs:58-114 | the same for the rows from r on |
| Other.AfterLightRowBound | src/other.rs:111-113 | the same after row r, from row r + 1 on |
| Other.LightRowBound | src/other.rs:64-109 | the same for the cells of row r and the casts it starts |
| Other.CellBound | src/other.rs:77-78 | the one cell the test inserts lies in row r and passes the test |
| Other.CastRegionsBound | src/other.rs:20-34 | every cell the regions add lies at distance 1 to the radius and passes the test |
| Other.VisiblePointsBound | src/other.rs:12-37 | every visible cell is the origin or lies at distance 1..max_distance with squared distance below `max_distance ^ 2` |
| Other.IntendedVisiblePointsInDisk | src/other.rs:12-37 | with a true square, every visible cell is the origin or lies strictly inside the radius disk |
| Other.RadiusTwoSeesOnlyOrigin | src/other.rs:56 | with max_distance 2, `2 ^ 2` is 0 and only the origin is visible, whatever the obstacles |
| Other.IntendedRadiusTwoSeesNeighbour | src/other.rs:56-78 | with the square the same call sees the diagonal neighbour (-1, -1), whatever the obstacles |
| Other.PlaygroundSeesElevenCells | playground/src/line_of_sight.rs:91-95 | with the playground's max distance 120, nothing beyond distance 11 is visible |
| Other.GetVisiblePoints | src/other.rs:12-37 | equals the model; contains the origin; satisfies the bound above |
| Other.CastLight | src/other.rs:39-115 | the new cache equals the model; `start < end` leaves it unchanged; it only grows |
| Alternate.Row.Next | src/alternate.rs:171-177 | one row deeper, same slopes |
| Alternate.Transform | src/alternate.rs:149-156 | a tile with abs(col) <= depth lies at Chebyshev distance `depth` from the origin |
| Alternate.TransformInverse | src/alternate.rs:149-156 | each quadrant's transform is a bijection of the plane |
| Alternate.RoundTiesUp | src/alternate.rs:186-188 | the nearest integer, halves rounded up |
| Alternate.RoundTiesDown | src/alternate.rs:190-192 | the nearest integer, halves rounded down |
| Alternate.RoundingUnique | src/alternate.rs:186-192 | each rounding is the only integer in its half-open window |
| Alternate.RoundingsAgree | src/alternate.rs:186-192 | the two roundings differ by one exactly on halves |
| Alternate.RoundingMonotone | src/alternate.rs:186-192 | both roundings are monotone |
| Alternate.MinCol | src/alternate.rs:180 | no contract of its own: `round_ties_up(depth * start_slope)`, whose rounding `Alternate.RoundTiesUp` states |
| Alternate.MaxCol | src/alternate.rs:181 | no contract of its own: `round_ties_down(depth * end_slope)`, whose rounding `Alternate.RoundTiesDown` states |
| Alternate.Columns | src/alternate.rs:183 | the positions (depth, lo..hi) in order |
| Alternate.Positions | src/alternate.rs:179-184 | the tiles (depth, min..max) of a row in order |
| Alternate.PositionsMembership | src/alternate.rs:179-184 | a tile is in a row exactly when it has that depth and a column in range |
| Alternate.NextRowWider | src/alternate.rs:171-184 | the next row's columns cover the current row's |
| Alternate.Slope | src/alternate.rs:97-100 | the slope times the depth is col - 1/2 |
| Alternate.IsSymmetric | src/alternate.rs:102-106 | no contract of its own: depth * start_slope <= col <= depth * end_slope; `Alternate.SymmetricIsPosition` relates it to the row |
| Alternate.SymmetricIsPosition | src/alternate.rs:102-106 | a symmetric tile at the row's depth is one of the row's positions |
| Alternate.Layout | src/alternate.rs:108-113 | the blocking flag of every key |
| Alternate.MarkAll | src/alternate.rs:115-119 | the same keys and flags; visible exactly where it was or where the set names a key |
| Alternate.VisibleKeys | src/alternate.rs:47-50 | exactly the keys whose state is visible |
| Alternate.MarkAllTwice | src/alternate.rs:115-119 | marking twice is marking the union |
| Alternate.MarkAllLayout | src/alternate.rs:115-119 | marking never changes the blocking flags |
| Alternate.MarkAllVisible | src/alternate.rs:115-119 | the keys that are visible afterwards are those visible before plus the marked keys |
| Alternate.InsertAll | src/alternate.rs:18-30 | keys are the old ones plus the listed positions in range; the listed ones take the given flag |
| Alternate.InitialStates | src/alternate.rs:10-36 | the keys are the in-range tiles and obstacles; none visible; blocking exactly for obstacles |
| Alternate.FloorKey | src/alternate.rs:92 | no contract of its own: the cell `is_floor` looks up, the tile itself as written or its world cell as intended |
| Alternate.Blocks | src/alternate.rs:108-113 | no contract of its own: the stored flag, false for a missing key |
| Alternate.WallAt | src/alternate.rs:83-88 | no contract of its own: the tile's world cell blocks; false for no tile |
| Alternate.FloorAt | src/alternate.rs:90-95 | no contract of its own: the floor key is in the map and the world cell does not block; false for no tile |
| Alternate.Revealed | src/alternate.rs:53-77 | no contract of its own: the cells `scan` marks; `Alternate.RevealedReach` and `Alternate.ShadowCasting.Scan` state what it is |
| Alternate.ScanTiles | src/alternate.rs:56-76 | no contract of its own: the same from tile i of a row on |
| Alternate.SectorsRevealed | src/alternate.rs:38-45 | no contract of its own: the origin and the four quadrant scans; `Alternate.OriginRevealed` and `Alternate.ShadowCasting.ComputeFov` state what it is |
| Alternate.DeeperShrinks | src/alternate.rs:61-75 | a floor tile at depth d makes the set of keys at depth >= d+1 smaller, so the recursion ends |
| Alternate.RevealedReach | src/alternate.rs:53-77 | every cell a scan from row `depth` reveals has a local depth t >= `depth`, and every row from `depth` to t - 1 holds a floor tile |
| Alternate.StartAfter | src/alternate.rs:61-63 | the row after a tile keeps its depth and end slope |
| Alternate.ScanTilesReach | src/alternate.rs:56-76 | the same for the cells revealed from tile i of the row on, including the next row scanned after a final floor tile |
| Alternate.TileReach | src/alternate.rs:57-59 | the same for the one tile that a row reveals, whose local depth is the row's |
| Alternate.ChildReach | src/alternate.rs:65-69 | the same for the child scan a wall after a floor starts: its cells lie below the floor tile's row |
| Alternate.OriginRevealed | src/alternate.rs:38-45 | the origin is among the cells marked |
| Alternate.FreshFov | src/alternate.rs:38-51 | from a fresh map the field of view is exactly the revealed keys; it includes the origin when the origin is a key |
| Alternate.AsWrittenMissesOpenTile | src/alternate.rs:92 | in the open map the tile two ahead of the origin is never revealed |
| Alternate.IntendedRevealsOpenTile | src/alternate.rs:92 | with the transformed lookup that tile is revealed |
| Alternate.ShadowCasting.constructor | src/alternate.rs:10-36 | the map equals the initial states |
| Alternate.ShadowCasting.ComputeFov | src/alternate.rs:38-51 | the map is marked with the cells of the four quadrant scans; returns the visible keys |
| Alternate.ShadowCasting.Scan | src/alternate.rs:53-77 | the map is marked with exactly the cells the model reveals for this quadrant and row |
| Alternate.ShadowCasting.ScanTile | src/alternate.rs:57-71 | one tile of a row: the map is marked with the tile's cell and its child scan, and the returned row is the model's next row |
| Alternate.ShadowCasting.Reveal | src/alternate.rs:79-81 | marks the transformed tile |
| Alternate.ShadowCasting.IsWall | src/alternate.rs:83-88 | the tile's transform is a blocking key; false for no tile |
| Alternate.ShadowCasting.IsFloor | src/alternate.rs:90-95 | the untransformed tile is a key and its transform does not block |
| Alternate.ShadowCasting.IsBlocking | src/alternate.rs:108-113 | the stored flag; false for a missing key |
| Alternate.ShadowCasting.MarkVisible | src/alternate.rs:115-119 | marks the key if present and changes nothing else |
| My.ScanFrom | src/my.rs:27-72 | on termination it only adds cells |
| My.ScanCells | src/my.rs:39-58 | the same for the cells from column i down |
| My.ScanFromBound | src/my.rs:27-72 | every cell a finished scan adds is non-blocking and at distance >= depth |
| My.ScanCellsBound | src/my.rs:39-58 | the same for the cells from column i down |
| My.CastAll | src/my.rs:11-22 | the same for the eight octants from depth 1 |
| My.Los | src/my.rs:4-25 | on termination the origin is absent and no blocking cell is present |
| My.CellSlopes | src/my.rs:41-42 | the two slopes: the left one times (y - 1/2) is x - 1/2, the right one times (y + 1/2) is x + 1/2 |
| My.GetLeftSlope | src/my.rs:74-76 | the slope times (y - 1/2) is x - 1/2 |
| My.GetRightSlope | src/my.rs:78-80 | the slope times (y + 1/2) is x + 1/2 |
| My.ScanFromFuel | src/my.rs:27-72 | more fuel does not change a result that was reached |
| My.ScanCellsFuel | src/my.rs:39-58 | the same for a row |
| My.ScanFromComplete | src/my.rs:39-71 | on termination every non-blocking cell of every row from depth to max_distance is in the result |
| My.ScanCellsComplete | src/my.rs:39-58 | on termination every non-blocking cell of the row from column i down is in the result |
| My.AllBlockingDiverges | src/my.rs:44-54 | if every cell blocks, the scan never ends |
| My.AllBlockingLosDiverges | src/my.rs:4-25 | if every cell blocks, `calculate_los` never ends |
| My.ScanCellsOpen | src/my.rs:39-58 | with no blocker a row adds exactly its cells |
| My.ScanFromOpen | src/my.rs:27-72 | with no blocker and enough fuel the scan adds exactly the octant's rows from depth to max(depth, max_distance) |
| My.CastAllOpen | src/my.rs:11-22 | with no blocker the eight octants add exactly the cells at distance 1..max(1, max_distance) |
| My.OpenFieldIsRing | src/my.rs:4-25 | with no blocker a cell is visible if and only if its distance is 1..max(1, max_distance); the origin is not |
| My.CalculateLos | src/my.rs:4-25 | the result equals the model |
| My.ScanOctant | src/my.rs:27-72 | the set after the call equals the model |
| New.StateMap | src/new.rs:15-19 | every listed tile is a key, every key is listed, none is visible |
| New.LastEntryWins | src/new.rs:17-19 | a tile's flag is that of its last entry |
| New.RangeStart | src/new.rs:130-133 | no contract of its own: -depth for the four octants whose range is `-depth..=0`, depth for the others |
| New.TileAt | src/new.rs:135-140 | no contract of its own: the tile at index i and the given depth; `New.DescendingOctantRow` relates it to `src/lib.rs` |
| New.GetTiles | src/new.rs:127-141 | the tiles of index from the range start up to 0, in order, and how many there are |
| New.RisingOctantsEmpty | src/new.rs:130-133 | from depth 1 on, four octants yield no tile |
| New.DescendingOctantRow | src/new.rs:127-141 | the other four yield exactly the row `depth` of the same octant in `src/lib.rs`, all at distance `depth` |
| New.ShadowCasting.constructor | src/new.rs:10-25 | the map equals `StateMap` of the entries |
| New.ShadowCasting.Scan | src/new.rs:27-31 | the map is left unchanged |
| New.ShadowCasting.ScanOctant | src/new.rs:33-63 | the map is left unchanged |
| New.ShadowCasting.TileBlocksView | src/new.rs:65-67 | the stored flag; false for a missing tile |

## Left out

- Floating point: the source's slopes and products are `f32`, here they are
  exact reals. A tie that `f32` rounding would break differently is not
  modelled.
- Integer width: `isize` and `usize` overflow, and the stack depth of the
  recursions, are not modelled.
- Iteration order: `compute_fov` collects into a `HashSet`, so the map's
  iteration order does not reach the result. The one order that matters is
  that of the input lists. Those are the obstacle and tile lists of the
  `alternate.rs` constructor and the entries of `new.rs`'s `new`, where the
  last entry for a tile wins. They are modelled as sequences.
- The `pad` crate is not part of this model. In `alternate.rs`,
  `origin.circle_filled(15)` becomes the `tilesInRange` parameter of the
  constructor, and `Position` becomes a pair of integers.
- The playground crate (window, input, drawing) is not modelled. Only its
  call of `get_visible_points` with 120 is used, by
  `Other.PlaygroundSeesElevenCells`.
- Alternate.ShadowCasting.Scan: requires `row.depth >= 1`. The source only
  reaches depth 0 if a caller passes it, where `slope` would divide by zero
  in `f32`.
- My.ScanFrom: carries a fuel bound. `None` means the fuel ran out, which is
  where the source would recurse without end.
- My.CalculateLos, My.ScanOctant: take a fuel argument for the same reason.
- My.ScanFrom: drops the start and end slopes; the source never reads them
  and computes its per-cell slopes without using them. `My.ScanOctant`
  computes those slopes anyway.
- The two worked scenarios (a single blocker at (1,0) with radius 10, and a
  blocker at (3,3) with radius 5) are not proved. Only the open-field,
  ring, radius-zero and neighbour properties are.
- Lib.ShadowCasting.Cast: the child cast gets the interval
  `[left_slope, start_slope]`. That this interval is non-empty is only an
  inline assertion, not a separate lemma.
- New.ShadowCasting.ScanOctant: the source's body is an empty loop with
  comments describing a plan. The model is that loop. The planned
  algorithm is not modelled.
- Other.VisiblePoints, Other.CastLightResult: their own contracts say only
  that cells are added. The distance bound is in the separate
  `...Bound` lemmas.
- Lib.CastRows: its own contract says only that cells are added; the
  distance bound is `Lib.CastRowsBound`.
- Lib.ScanRow: the same; the bound is `Lib.ScanRowBound`.
- Lib.AfterRow: the same; the bound is `Lib.AfterRowBound`.
- My.ScanFrom: its own contract says only that a finished scan adds cells;
  that they are clear and far enough is `My.ScanFromBound`.
- My.ScanCells: the same; the bound is `My.ScanCellsBound`.
- Lib.ShadowCasting.PosBlocksView: calls the predicate and carries no contract of its own.

## Findings

| source | as written | input that shows it | evidently intended | confidence | as-written member | corrected member |
|---|---|---|---|---|---|---|
| src/other.rs:56 | `radius ^ 2` is bitwise XOR, so the distance test compares dx^2+dy^2 with radius+2 or radius-2 | max_distance 120 (the playground's value) gives 122, so the cell 12 straight ahead (144) is dropped and nothing beyond distance 11 is ever visible | `radius * radius`, a disk of the given radius | not executed | Other.RadiusSquaredIsNotSquare | Other.IntendedVisiblePointsInDisk |
| src/alternate.rs:92 | `is_floor` looks up the untransformed tile (depth, col) in the map instead of its world position | origin (5,5), an open 5x5 map over 3..7, North quadrant: the tile (5,3) two ahead of the origin is never revealed, because (1,0) is not a key and row 1 never counts as floor | look up `quadrant.transform(tile)`, as `is_wall` does | not executed | Alternate.AsWrittenMissesOpenTile | Alternate.IntendedRevealsOpenTile |
