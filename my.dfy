/** The early draft of src/my.rs: every octant is scanned row by row from
    depth 1; a blocking cell starts a scan of the next row, any other cell
    of the row is marked visible, and the next row follows while depth is
    below `max_distance`.  The slopes are computed and never used.

    The recursion at a blocking cell has no bound, so a scan need not end.
    The model counts nested calls with `fuel`: `None` means that the scan
    did not finish within `fuel` nested calls. */
module My {
  import opened Octants
  import Lib
  import LibProperties

  /** The inputs of one computation. */
  datatype View = View(origin: Pos, blocks: Pos -> bool, maxDistance: int)

  // ---------------------------------------------------------------------
  // Functional model of `scan_octant`
  // ---------------------------------------------------------------------

  /** `scan_octant(octant, depth)` allowed `fuel` nested calls, itself
      included.  It only adds cells; `ScanFromBound` says which. */
  function ScanFrom(v: View, o: Octant, depth: int, fuel: nat, vis: set<Pos>): (r: Option<set<Pos>>)
    ensures r.Some? ==> vis <= r.value
    decreases fuel, 1, 0
  {
    if fuel == 0 then None
    else
      match ScanCells(v, o, depth, depth, fuel - 1, vis)
      case None => None
      case Some(vis') =>
        if depth < v.maxDistance then ScanFrom(v, o, depth + 1, fuel - 1, vis') else Some(vis')
  }

  /** The loop `for i in (0..=depth).rev()` from column i down to 0; a
      blocking cell starts `scan_octant(depth + 1)` with `fuel` nested calls. */
  function ScanCells(v: View, o: Octant, depth: int, i: int, fuel: nat, vis: set<Pos>): (r: Option<set<Pos>>)
    requires i <= depth
    ensures r.Some? ==> vis <= r.value
    decreases fuel + 1, 0, i + 1
  {
    if i < 0 then Some(vis)
    else
      var point := WorldCoordinate(o, v.origin, i, depth);
      if v.blocks(point) then
        match ScanFrom(v, o, depth + 1, fuel, vis)
        case None => None
        case Some(vis') => ScanCells(v, o, depth, i - 1, fuel, vis')
      else ScanCells(v, o, depth, i - 1, fuel, vis + {point})
  }

  /** `calculate_los` from the octants `octs` on. */
  function CastAll(v: View, octs: seq<Octant>, fuel: nat, vis: set<Pos>): (r: Option<set<Pos>>)
    ensures r.Some? ==> vis <= r.value
    ensures r.Some? ==> forall p :: p in r.value && p !in vis ==>
                          !v.blocks(p) && 1 <= Chebyshev(v.origin, p)
  {
    if |octs| == 0 then Some(vis)
    else
      match ScanFrom(v, octs[0], 1, fuel, vis)
      case None => None
      case Some(vis') =>
        ScanFromBound(v, octs[0], 1, fuel, vis);
        CastAll(v, octs[1..], fuel, vis')
  }

  /** `calculate_los`: every octant from depth 1, starting from the empty
      set.  The origin is never added, nor is any blocking cell. */
  function Los(v: View, fuel: nat): (r: Option<set<Pos>>)
    ensures r.Some? ==> v.origin !in r.value
    ensures r.Some? ==> forall p :: p in r.value ==> !v.blocks(p)
  {
    CastAll(v, AllOctants(), fuel, {})
  }

  /** `get_left_slope` = (x - 0.5) / (y - 0.5), on world coordinates. */
  function GetLeftSlope(point: Pos): (r: real)
    ensures r * (point.1 as real - 0.5) == point.0 as real - 0.5
  {
    (point.0 as real - 0.5) / (point.1 as real - 0.5)
  }

  /** `get_right_slope` = (x + 0.5) / (y + 0.5), on world coordinates. */
  function GetRightSlope(point: Pos): (r: real)
    ensures r * (point.1 as real + 0.5) == point.0 as real + 0.5
  {
    (point.0 as real + 0.5) / (point.1 as real + 0.5)
  }

  // ---------------------------------------------------------------------
  // Properties of the model
  // ---------------------------------------------------------------------

  /** Every cell a finished scan adds is clear and at least `depth` away. */
  lemma {:induction false} ScanFromBound(v: View, o: Octant, depth: int, fuel: nat, vis: set<Pos>)
    requires ScanFrom(v, o, depth, fuel, vis).Some?
    ensures forall p :: p in ScanFrom(v, o, depth, fuel, vis).value && p !in vis ==>
                          !v.blocks(p) && depth <= Chebyshev(v.origin, p)
    decreases fuel, 1, 0
  {
    var w := ScanCells(v, o, depth, depth, fuel - 1, vis).value;
    ScanCellsBound(v, o, depth, depth, fuel - 1, vis);
    if depth < v.maxDistance {
      ScanFromBound(v, o, depth + 1, fuel - 1, w);
    }
  }

  /** The same for the cells of a row from column i down. */
  lemma {:induction false} ScanCellsBound(v: View, o: Octant, depth: int, i: int, fuel: nat, vis: set<Pos>)
    requires i <= depth && ScanCells(v, o, depth, i, fuel, vis).Some?
    ensures forall p :: p in ScanCells(v, o, depth, i, fuel, vis).value && p !in vis ==>
                          !v.blocks(p) && depth <= Chebyshev(v.origin, p)
    decreases fuel + 1, 0, i + 1
  {
    if i >= 0 {
      var point := WorldCoordinate(o, v.origin, i, depth);
      WorldCoordinateDistance(o, v.origin, i, depth);
      if v.blocks(point) {
        ScanFromBound(v, o, depth + 1, fuel, vis);
        ScanCellsBound(v, o, depth, i - 1, fuel, ScanFrom(v, o, depth + 1, fuel, vis).value);
      } else {
        ScanCellsBound(v, o, depth, i - 1, fuel, vis + {point});
      }
    }
  }

  /** More fuel changes nothing once a scan finishes. */
  lemma {:induction false} ScanFromFuel(v: View, o: Octant, depth: int, fuel: nat, more: nat, vis: set<Pos>)
    requires fuel <= more && ScanFrom(v, o, depth, fuel, vis).Some?
    ensures ScanFrom(v, o, depth, more, vis) == ScanFrom(v, o, depth, fuel, vis)
    decreases fuel, 1, 0
  {
    ScanCellsFuel(v, o, depth, depth, fuel - 1, more - 1, vis);
    var vis' := ScanCells(v, o, depth, depth, fuel - 1, vis).value;
    if depth < v.maxDistance {
      ScanFromFuel(v, o, depth + 1, fuel - 1, more - 1, vis');
    }
  }

  lemma {:induction false} ScanCellsFuel(v: View, o: Octant, depth: int, i: int, fuel: nat, more: nat,
                                       vis: set<Pos>)
    requires i <= depth && fuel <= more && ScanCells(v, o, depth, i, fuel, vis).Some?
    ensures ScanCells(v, o, depth, i, more, vis) == ScanCells(v, o, depth, i, fuel, vis)
    decreases fuel + 1, 0, i + 1
  {
    if i >= 0 {
      var point := WorldCoordinate(o, v.origin, i, depth);
      if v.blocks(point) {
        ScanFromFuel(v, o, depth + 1, fuel, more, vis);
        ScanCellsFuel(v, o, depth, i - 1, fuel, more, ScanFrom(v, o, depth + 1, fuel, vis).value);
      } else {
        ScanCellsFuel(v, o, depth, i - 1, fuel, more, vis + {point});
      }
    }
  }

  /** The clear cells of rows depth..d, d being `max_distance` or depth
      itself when that is larger. */
  ghost predicate RowsCovered(v: View, o: Octant, depth: int, r: set<Pos>)
  {
    forall d, i :: depth <= d && (d == depth || d <= v.maxDistance) && 0 <= i <= d
                   && !v.blocks(WorldCoordinate(o, v.origin, i, d))
                   ==> WorldCoordinate(o, v.origin, i, d) in r
  }

  /** A finished scan from `depth` marks every clear cell of its own row
      and, while below `max_distance`, of every deeper row. */
  lemma {:induction false} ScanFromComplete(v: View, o: Octant, depth: int, fuel: nat, vis: set<Pos>)
    requires ScanFrom(v, o, depth, fuel, vis).Some?
    ensures RowsCovered(v, o, depth, ScanFrom(v, o, depth, fuel, vis).value)
    decreases fuel
  {
    var r := ScanFrom(v, o, depth, fuel, vis).value;
    var vis' := ScanCells(v, o, depth, depth, fuel - 1, vis).value;
    ScanCellsComplete(v, o, depth, depth, fuel - 1, vis);
    if depth < v.maxDistance {
      ScanFromComplete(v, o, depth + 1, fuel - 1, vis');
    }
  }

  lemma {:induction false} ScanCellsComplete(v: View, o: Octant, depth: int, i: int, fuel: nat, vis: set<Pos>)
    requires i <= depth && ScanCells(v, o, depth, i, fuel, vis).Some?
    ensures forall j :: 0 <= j <= i && !v.blocks(WorldCoordinate(o, v.origin, j, depth))
              ==> WorldCoordinate(o, v.origin, j, depth) in ScanCells(v, o, depth, i, fuel, vis).value
    decreases i + 1
  {
    if i >= 0 {
      var point := WorldCoordinate(o, v.origin, i, depth);
      if v.blocks(point) {
        ScanCellsComplete(v, o, depth, i - 1, fuel, ScanFrom(v, o, depth + 1, fuel, vis).value);
      } else {
        ScanCellsComplete(v, o, depth, i - 1, fuel, vis + {point});
      }
    }
  }

  /** When every cell blocks, no scan from depth >= 0 ever finishes: the
      first cell of each row starts a scan one deeper. */
  lemma {:induction false} AllBlockingDiverges(v: View, o: Octant, depth: int, fuel: nat, vis: set<Pos>)
    requires forall p :: v.blocks(p)
    requires depth >= 0
    ensures ScanFrom(v, o, depth, fuel, vis).None?
    decreases fuel
  {
    if fuel > 0 {
      AllBlockingDiverges(v, o, depth + 1, fuel - 1, vis);
    }
  }

  lemma AllBlockingLosDiverges(v: View, fuel: nat)
    requires forall p :: v.blocks(p)
    ensures Los(v, fuel).None?
  {
    AllBlockingDiverges(v, TopLeft, 1, fuel, {});
  }

  /** Without blockers the cells of a row are all marked. */
  lemma {:induction false} ScanCellsOpen(v: View, o: Octant, depth: int, i: int, fuel: nat, vis: set<Pos>)
    requires forall p :: !v.blocks(p)
    requires i <= depth
    ensures ScanCells(v, o, depth, i, fuel, vis) == Some(vis + LibProperties.RowCells(o, v.origin, depth, i))
    decreases i + 1
  {
    if i < 0 {
      assert LibProperties.RowCells(o, v.origin, depth, i) == {};
      assert vis + {} == vis;
    } else {
      var point := WorldCoordinate(o, v.origin, i, depth);
      assert !v.blocks(point);
      ScanCellsOpen(v, o, depth, i - 1, fuel, vis + {point});
      LibProperties.RowCellsStep(o, v.origin, depth, i);
      assert vis + {point} + LibProperties.RowCells(o, v.origin, depth, i - 1)
          == vis + LibProperties.RowCells(o, v.origin, depth, i);
    }
  }

  /** Without blockers, a scan from depth >= 0 finishes exactly when it may
      make one nested call per row down to `max_distance`, and then marks
      exactly the rows depth..max(depth, max_distance). */
  lemma {:induction false} ScanFromOpen(v: View, o: Octant, depth: int, fuel: nat, vis: set<Pos>)
    requires forall p :: !v.blocks(p)
    requires depth >= 0
    ensures ScanFrom(v, o, depth, fuel, vis)
            == if fuel > Max(0, v.maxDistance - depth)
               then Some(vis + Lib.OctantCells(o, v.origin, depth, Max(depth, v.maxDistance)))
               else None
    decreases fuel
  {
    if fuel > 0 {
      var row := LibProperties.RowCells(o, v.origin, depth, depth);
      ScanCellsOpen(v, o, depth, depth, fuel - 1, vis);
      ScanFromStep(v, o, depth, fuel, vis, vis + row);
      var hi := Max(depth, v.maxDistance);
      OpenRowsJoin(o, v.origin, depth, hi, vis);
      if depth < v.maxDistance {
        ScanFromOpen(v, o, depth + 1, fuel - 1, vis + row);
        assert Max(depth + 1, v.maxDistance) == hi;
      }
    }
  }

  /** A clear cell is marked and the row goes on to the next column. */
  lemma ScanCellsClear(v: View, o: Octant, depth: int, i: int, fuel: nat, vis: set<Pos>)
    requires 0 <= i <= depth && !v.blocks(WorldCoordinate(o, v.origin, i, depth))
    ensures ScanCells(v, o, depth, i, fuel, vis)
            == ScanCells(v, o, depth, i - 1, fuel, vis + {WorldCoordinate(o, v.origin, i, depth)})
  {
  }

  /** A blocking cell starts the deeper scan; the row goes on with its
      result, or fails with it. */
  lemma ScanCellsBlocked(v: View, o: Octant, depth: int, i: int, fuel: nat, vis: set<Pos>)
    requires 0 <= i <= depth && v.blocks(WorldCoordinate(o, v.origin, i, depth))
    ensures ScanFrom(v, o, depth + 1, fuel, vis).None? ==> ScanCells(v, o, depth, i, fuel, vis).None?
    ensures ScanFrom(v, o, depth + 1, fuel, vis).Some? ==>
            ScanCells(v, o, depth, i, fuel, vis) == ScanCells(v, o, depth, i - 1, fuel, ScanFrom(v, o, depth + 1, fuel, vis).value)
  {
  }

  /** A scan fails when its own row fails. */
  lemma ScanFromFails(v: View, o: Octant, depth: int, fuel: nat, vis: set<Pos>)
    requires fuel > 0 && ScanCells(v, o, depth, depth, fuel - 1, vis).None?
    ensures ScanFrom(v, o, depth, fuel, vis).None?
  {
  }

  /** One unfolding of `ScanFrom` once its row has produced `w`. */
  lemma ScanFromStep(v: View, o: Octant, depth: int, fuel: nat, vis: set<Pos>, w: set<Pos>)
    requires fuel > 0 && ScanCells(v, o, depth, depth, fuel - 1, vis) == Some(w)
    ensures ScanFrom(v, o, depth, fuel, vis)
            == if depth < v.maxDistance then ScanFrom(v, o, depth + 1, fuel - 1, w) else Some(w)
  {
  }

  /** The rows depth..hi are row `depth` followed by the rows depth+1..hi,
      and there are none past hi. */
  lemma OpenRowsJoin(o: Octant, origin: Pos, depth: int, hi: int, vis: set<Pos>)
    requires depth <= hi
    ensures vis + LibProperties.RowCells(o, origin, depth, depth) + Lib.OctantCells(o, origin, depth + 1, hi)
            == vis + Lib.OctantCells(o, origin, depth, hi)
    ensures depth == hi ==>
            vis + LibProperties.RowCells(o, origin, depth, depth) == vis + Lib.OctantCells(o, origin, depth, hi)
  {
    LibProperties.OctantCellsStep(o, origin, depth, hi);
    if depth == hi {
      LibProperties.OctantCellsEmpty(o, origin, depth + 1, depth);
    }
  }

  lemma {:induction false} CastAllOpen(v: View, octs: seq<Octant>, fuel: nat, vis: set<Pos>)
    requires forall p :: !v.blocks(p)
    requires fuel > Max(0, v.maxDistance - 1)
    ensures CastAll(v, octs, fuel, vis) == Some(vis + Lib.CellsOf(octs, v.origin, Max(1, v.maxDistance)))
    decreases |octs|
  {
    var hi := Max(1, v.maxDistance);
    if |octs| > 0 {
      ScanFromOpen(v, octs[0], 1, fuel, vis);
      var vis' := vis + Lib.OctantCells(octs[0], v.origin, 1, hi);
      assert ScanFrom(v, octs[0], 1, fuel, vis) == Some(vis');
      CastAllOpen(v, octs[1..], fuel, vis');
      assert CastAll(v, octs, fuel, vis) == CastAll(v, octs[1..], fuel, vis');
      assert vis' + Lib.CellsOf(octs[1..], v.origin, hi) == vis + Lib.CellsOf(octs, v.origin, hi);
    } else {
      assert vis + {} == vis;
    }
  }

  /** In an open field, with enough fuel, `calculate_los` marks exactly the
      cells at Chebyshev distance 1..max(1, max_distance): never the origin,
      and the first ring even when `max_distance` is 0. */
  lemma OpenFieldIsRing(v: View, fuel: nat)
    requires forall p :: !v.blocks(p)
    requires fuel > Max(0, v.maxDistance - 1)
    ensures Los(v, fuel).Some?
    ensures forall p :: p in Los(v, fuel).value <==> 1 <= Chebyshev(v.origin, p) <= Max(1, v.maxDistance)
  {
    CastAllOpen(v, AllOctants(), fuel, {});
    forall p
      ensures p in Los(v, fuel).value <==> 1 <= Chebyshev(v.origin, p) <= Max(1, v.maxDistance)
    {
      LibProperties.AllCellsSquare(v.origin, Max(1, v.maxDistance), p);
    }
  }

  // ---------------------------------------------------------------------
  // The imperative implementation
  // ---------------------------------------------------------------------

  /** `calculate_los`, allowed `fuel` nested calls of `scan_octant` per octant. */
  method CalculateLos(origin: Pos, blocksView: Pos -> bool, maxDistance: nat, fuel: nat)
    returns (visiblePoints: Option<set<Pos>>)
    ensures visiblePoints == Los(View(origin, blocksView, maxDistance), fuel)
  {
    ghost var v := View(origin, blocksView, maxDistance);
    var vis: set<Pos> := {};
    var octants := AllOctants();
    for k := 0 to |octants|
      invariant CastAll(v, octants[k..], fuel, vis) == Los(v, fuel)
    {
      assert octants[k..][1..] == octants[k + 1..];
      var r := ScanOctant(origin, blocksView, vis, maxDistance, octants[k], 1, 1.0, 0.0, fuel);
      if r.None? {
        return None;
      }
      vis := r.value;
    }
    return Some(vis);
  }

  /** `scan_octant`, with the `&mut HashSet` passed in and handed back; the
      slope arguments are carried along unused, as in the source. */
  method ScanOctant(origin: Pos, blocksView: Pos -> bool, visiblePoints: set<Pos>, maxDistance: int,
                       octant: Octant, depth: int, startSlope: real, endSlope: real, fuel: nat)
    returns (r: Option<set<Pos>>)
    ensures r == ScanFrom(View(origin, blocksView, maxDistance), octant, depth, fuel, visiblePoints)
    decreases fuel
  {
    ghost var v := View(origin, blocksView, maxDistance);
    if fuel == 0 {
      return None;
    }
    ghost var target := ScanCells(v, octant, depth, depth, fuel - 1, visiblePoints);
    var vis := visiblePoints;
    var i := depth;
    while i >= 0
      invariant i <= depth
      invariant ScanCells(v, octant, depth, i, fuel - 1, vis) == target
      decreases i + 1
    {
      var point := WorldCoordinate(octant, origin, i, depth);
      var leftSlope, rightSlope := CellSlopes(point);
      var next: set<Pos>;
      if blocksView(point) {
        var sub := ScanOctant(origin, blocksView, vis, maxDistance, octant, depth + 1, startSlope, endSlope, fuel - 1);
        ScanCellsBlocked(v, octant, depth, i, fuel - 1, vis);
        if sub.None? {
          ScanFromFails(v, octant, depth, fuel, visiblePoints);
          return None;
        }
        next := sub.value;
      } else {
        ScanCellsClear(v, octant, depth, i, fuel - 1, vis);
        next := vis + {point};
      }
      assert ScanCells(v, octant, depth, i - 1, fuel - 1, next) == target;
      vis, i := next, i - 1;
    }
    assert target == Some(vis);
    ScanFromStep(v, octant, depth, fuel, visiblePoints, vis);
    if depth < maxDistance {
      r := ScanOctant(origin, blocksView, vis, maxDistance, octant, depth + 1, startSlope, endSlope, fuel - 1);
    } else {
      r := Some(vis);
    }
  }

  /** The two slopes `scan_octant` computes for a cell and never reads. */
  method CellSlopes(point: Pos) returns (leftSlope: real, rightSlope: real)
    ensures leftSlope * (point.1 as real - 0.5) == point.0 as real - 0.5
    ensures rightSlope * (point.1 as real + 0.5) == point.0 as real + 0.5
  {
    leftSlope := GetLeftSlope(point);
    rightSlope := GetRightSlope(point);
  }
}
