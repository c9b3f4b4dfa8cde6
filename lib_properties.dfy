/** Properties of the shadowcasting model of src/lib.rs. */
module LibProperties {
  import opened Octants
  import opened Lib

  /** No cell blocks the view. */
  ghost predicate NoBlockers(c: Config)
  {
    forall p :: !c.blocks(p)
  }

  /** Every cell adjacent to the origin blocks the view. */
  ghost predicate RingBlocks(c: Config)
  {
    forall p :: Chebyshev(c.origin, p) == 1 ==> c.blocks(p)
  }

  /** The cells 0..x of row y of one octant. */
  ghost function RowCells(o: Octant, origin: Pos, y: int, x: int): set<Pos>
  {
    set i | 0 <= i <= x :: WorldCoordinate(o, origin, i, y)
  }

  // ---------------------------------------------------------------------
  // Slopes
  // ---------------------------------------------------------------------

  lemma DivMonotoneNumerator(a: real, b: real, d: real)
    requires a <= b && d > 0.0
    ensures a / d <= b / d
  {
    assert b / d - a / d == (b - a) / d;
  }

  lemma DivMonotoneDenominator(a: real, d1: real, d2: real)
    requires a >= 0.0 && 0.0 < d1 <= d2
    ensures a / d2 <= a / d1
  {
    assert a / d1 - a / d2 == a * (d2 - d1) / (d1 * d2);
    assert a * (d2 - d1) >= 0.0;
  }

  /** For a cell in an octant (x >= 0, y >= 1) the right edge slope does not
      exceed the left edge slope. */
  lemma SlopeOrder(x: int, y: int)
    requires x >= 0 && y >= 1
    ensures RightSlope(x, y) <= LeftSlope(x, y)
  {
    DivMonotoneNumerator(x as real - 0.5, x as real + 0.5, y as real + 0.5);
    DivMonotoneDenominator(x as real + 0.5, y as real - 0.5, y as real + 0.5);
  }

  /** Within one row, `start_slope` never grows: it is only lowered to a
      saved right slope, and a saved right slope never exceeds it. */
  lemma {:induction false} ScanRowStartNonIncreasing(c: Config, o: Octant, y: nat, x: int, end: real, st: Scan)
    requires y <= c.radius && x <= y
    requires st.prev ==> st.saved <= st.start
    ensures ScanRow(c, o, y, x, end, st).start <= st.start
    ensures ScanRow(c, o, y, x, end, st).prev ==>
              ScanRow(c, o, y, x, end, st).saved <= ScanRow(c, o, y, x, end, st).start
    decreases x + 1
  {
    if x >= 0 {
      var left, right := LeftSlope(x, y), RightSlope(x, y);
      var pos := WorldCoordinate(o, c.origin, x, y);
      var vis := st.visible + {pos};
      if right > st.start {
        ScanRowStartNonIncreasing(c, o, y, x - 1, end, st);
      } else if left < end {
      } else if st.prev {
        if c.blocks(pos) {
          ScanRowStartNonIncreasing(c, o, y, x - 1, end, st.(saved := right, visible := vis));
        } else {
          ScanRowStartNonIncreasing(c, o, y, x - 1, end, st.(prev := false, start := st.saved, visible := vis));
        }
      } else if c.blocks(pos) {
        var vis' := if left <= st.start then CastRows(c, o, y + 1, st.start, 0.0, left, vis) else vis;
        ScanRowStartNonIncreasing(c, o, y, x - 1, end, st.(prev := true, saved := right, visible := vis'));
      } else {
        ScanRowStartNonIncreasing(c, o, y, x - 1, end, st.(visible := vis));
      }
    }
  }

  // ---------------------------------------------------------------------
  // Open field: every octant cell up to the radius is visible
  // ---------------------------------------------------------------------

  lemma RowCellsStep(o: Octant, origin: Pos, y: int, x: int)
    requires x >= 0
    ensures RowCells(o, origin, y, x) == RowCells(o, origin, y, x - 1) + {WorldCoordinate(o, origin, x, y)}
  {
    forall p | p in RowCells(o, origin, y, x)
      ensures p in RowCells(o, origin, y, x - 1) + {WorldCoordinate(o, origin, x, y)}
    {
      var i :| 0 <= i <= x && p == WorldCoordinate(o, origin, i, y);
      if i < x {
        assert p in RowCells(o, origin, y, x - 1);
      }
    }
  }

  lemma OctantCellsStep(o: Octant, origin: Pos, y: int, hi: int)
    requires y <= hi
    ensures OctantCells(o, origin, y, hi) == RowCells(o, origin, y, y) + OctantCells(o, origin, y + 1, hi)
  {
    forall p | p in OctantCells(o, origin, y, hi)
      ensures p in RowCells(o, origin, y, y) + OctantCells(o, origin, y + 1, hi)
    {
      var y', x' :| y <= y' <= hi && 0 <= x' <= y' && p == WorldCoordinate(o, origin, x', y');
      if y' == y {
        assert p in RowCells(o, origin, y, y);
      } else {
        assert p in OctantCells(o, origin, y + 1, hi);
      }
    }
    forall p | p in RowCells(o, origin, y, y) ensures p in OctantCells(o, origin, y, hi) {
      var i :| 0 <= i <= y && p == WorldCoordinate(o, origin, i, y);
      assert p == WorldCoordinate(o, origin, i, y);
    }
  }

  lemma OctantCellsEmpty(o: Octant, origin: Pos, y: int, hi: int)
    requires y > hi
    ensures OctantCells(o, origin, y, hi) == {}
  {
  }

  /** With no blockers a row passes every cell x..0 and stays unblocked. */
  lemma {:induction false} ScanRowOpen(c: Config, o: Octant, y: nat, x: int, st: Scan)
    requires NoBlockers(c)
    requires 1 <= y <= c.radius && x <= y
    requires st.start == 1.0 && !st.prev
    ensures ScanRow(c, o, y, x, 0.0, st) == st.(visible := st.visible + RowCells(o, c.origin, y, x))
    decreases x + 1
  {
    if x < 0 {
      assert RowCells(o, c.origin, y, x) == {};
    } else {
      DivMonotoneNumerator(x as real - 0.5, y as real + 0.5, y as real + 0.5);
      assert (y as real + 0.5) / (y as real + 0.5) == 1.0;
      assert !(RightSlope(x, y) > 1.0);
      assert LeftSlope(x, y) >= 0.0;
      var pos := WorldCoordinate(o, c.origin, x, y);
      assert !c.blocks(pos);
      ScanRowOpen(c, o, y, x - 1, st.(visible := st.visible + {pos}));
      RowCellsStep(o, c.origin, y, x);
    }
  }

  /** With no blockers, `cast` from row y over [0, 1] adds exactly the octant
      cells of depth y..radius. */
  lemma {:induction false} CastRowsOpen(c: Config, o: Octant, y: nat, saved: real, vis: set<Pos>)
    requires NoBlockers(c) && y >= 1
    ensures CastRows(c, o, y, 1.0, saved, 0.0, vis) == vis + OctantCells(o, c.origin, y, c.radius)
    decreases c.radius + 1 - y
  {
    if y > c.radius {
      OctantCellsEmpty(o, c.origin, y, c.radius);
    } else {
      ScanRowOpen(c, o, y, y, Scan(1.0, false, saved, vis));
      CastRowsOpen(c, o, y + 1, saved, vis + RowCells(o, c.origin, y, y));
      OctantCellsStep(o, c.origin, y, c.radius);
    }
  }

  // ---------------------------------------------------------------------
  // The first row
  // ---------------------------------------------------------------------

  lemma FirstRowSlopes()
    ensures RightSlope(1, 1) == 1.0 / 3.0 && LeftSlope(1, 1) == 3.0
    ensures RightSlope(0, 1) == -1.0 / 3.0 && LeftSlope(0, 1) == 1.0
  {
  }

  /** Whatever blocks, both cells of the first row of an octant are visible:
      the scan marks a cell before it looks at whether it blocks. */
  lemma FirstRowVisible(c: Config, o: Octant, vis: set<Pos>)
    requires c.radius >= 1
    ensures WorldCoordinate(o, c.origin, 1, 1) in CastRows(c, o, 1, 1.0, 0.0, 0.0, vis)
    ensures WorldCoordinate(o, c.origin, 0, 1) in CastRows(c, o, 1, 1.0, 0.0, 0.0, vis)
  {
    FirstRowSlopes();
    var p1, p0 := WorldCoordinate(o, c.origin, 1, 1), WorldCoordinate(o, c.origin, 0, 1);
    var st := Scan(1.0, false, 0.0, vis);
    var st1 := ScanRow(c, o, 1, 0, 0.0, if c.blocks(p1) then Scan(1.0, true, 1.0 / 3.0, vis + {p1})
                                        else st.(visible := vis + {p1}));
    assert ScanRow(c, o, 1, 1, 0.0, st) == st1;
    assert p0 in st1.visible && p1 in st1.visible;
  }

  /** When every neighbour blocks, an octant scan from row 1 marks exactly its
      two row-1 cells and stops. */
  lemma RingOctant(c: Config, o: Octant, vis: set<Pos>)
    requires c.radius >= 1 && RingBlocks(c)
    ensures CastRows(c, o, 1, 1.0, 0.0, 0.0, vis) == vis + OctantCells(o, c.origin, 1, 1)
  {
    var st0 := RingRow(c, o, vis);
    assert CastRows(c, o, 1, 1.0, 0.0, 0.0, vis) == AfterRow(c, o, 1, 0.0, st0);
    FirstOctantRow(o, c.origin);
  }

  /** The cells of depth 1 of an octant are its two cells of row 1. */
  lemma FirstOctantRow(o: Octant, origin: Pos)
    ensures OctantCells(o, origin, 1, 1) == {WorldCoordinate(o, origin, 1, 1), WorldCoordinate(o, origin, 0, 1)}
  {
    OctantCellsStep(o, origin, 1, 1);
    OctantCellsEmpty(o, origin, 2, 1);
    RowCellsStep(o, origin, 1, 1);
    RowCellsStep(o, origin, 1, 0);
    assert RowCells(o, origin, 1, -1) == {};
  }

  /** The first row when both its cells block: both are marked and the row
      ends blocked. */
  lemma RingRow(c: Config, o: Octant, vis: set<Pos>) returns (st0: Scan)
    requires c.radius >= 1 && RingBlocks(c)
    ensures st0.prev
    ensures st0.visible == vis + {WorldCoordinate(o, c.origin, 1, 1), WorldCoordinate(o, c.origin, 0, 1)}
    ensures ScanRow(c, o, 1, 1, 0.0, Scan(1.0, false, 0.0, vis)) == st0
  {
    FirstRowSlopes();
    var p1, p0 := WorldCoordinate(o, c.origin, 1, 1), WorldCoordinate(o, c.origin, 0, 1);
    WorldCoordinateDistance(o, c.origin, 1, 1);
    WorldCoordinateDistance(o, c.origin, 0, 1);
    assert c.blocks(p1) && c.blocks(p0);
    var st1 := Scan(1.0, true, 1.0 / 3.0, vis + {p1});
    st0 := Scan(1.0, true, -1.0 / 3.0, vis + {p1} + {p0});
    assert ScanRow(c, o, 1, 0, 0.0, st1) == ScanRow(c, o, 1, -1, 0.0, st0);
    assert ScanRow(c, o, 1, 1, 0.0, Scan(1.0, false, 0.0, vis)) == ScanRow(c, o, 1, 0, 0.0, st1);
  }

  // ---------------------------------------------------------------------
  // Assembling the octants
  // ---------------------------------------------------------------------

  lemma {:induction false} CellsOfBound(octs: seq<Octant>, origin: Pos, hi: int, p: Pos)
    requires p in CellsOf(octs, origin, hi)
    ensures 1 <= Chebyshev(origin, p) <= hi
    decreases |octs|
  {
    if p in OctantCells(octs[0], origin, 1, hi) {
      var y, x :| 1 <= y <= hi && 0 <= x <= y && p == WorldCoordinate(octs[0], origin, x, y);
      WorldCoordinateDistance(octs[0], origin, x, y);
    } else {
      CellsOfBound(octs[1..], origin, hi, p);
    }
  }

  lemma {:induction false} CellsOfMember(octs: seq<Octant>, origin: Pos, hi: int, k: nat, p: Pos)
    requires k < |octs| && p in OctantCells(octs[k], origin, 1, hi)
    ensures p in CellsOf(octs, origin, hi)
    decreases k
  {
    if k > 0 {
      CellsOfMember(octs[1..], origin, hi, k - 1, p);
    }
  }

  /** The octant cells of depth 1..hi of all eight octants are exactly the
      cells at Chebyshev distance 1..hi. */
  lemma AllCellsSquare(origin: Pos, hi: int, p: Pos)
    ensures p in CellsOf(AllOctants(), origin, hi) <==> 1 <= Chebyshev(origin, p) <= hi
  {
    if p in CellsOf(AllOctants(), origin, hi) {
      CellsOfBound(AllOctants(), origin, hi, p);
    } else if 1 <= Chebyshev(origin, p) <= hi {
      OctantsCover(origin, p);
      var d := Chebyshev(origin, p);
      var o: Octant, i :| 0 <= i <= d && WorldCoordinate(o, origin, i, d) == p;
      assert p in OctantCells(o, origin, 1, hi);
      CellsOfMember(AllOctants(), origin, hi, Label(o) - 1, p);
    }
  }

  /** In an open field or a fully enclosed origin, the octant scans together
      add exactly the cells of depth 1..k. */
  lemma {:induction false} CastOctantsExact(c: Config, octs: seq<Octant>, vis: set<Pos>, k: int)
    requires (k == c.radius && NoBlockers(c)) || (k == 1 && c.radius >= 1 && RingBlocks(c))
    ensures CastOctants(c, octs, vis) == vis + CellsOf(octs, c.origin, k)
    decreases |octs|
  {
    if |octs| > 0 {
      var vis' := CastRows(c, octs[0], 1, 1.0, 0.0, 0.0, vis);
      if k == c.radius && NoBlockers(c) {
        CastRowsOpen(c, octs[0], 1, 0.0, vis);
      } else {
        RingOctant(c, octs[0], vis);
      }
      CastOctantsExact(c, octs[1..], vis', k);
    }
  }

  /** Monotone: cells of octant `octs[k]`'s first row stay visible. */
  lemma {:induction false} CastOctantsFirstRow(c: Config, octs: seq<Octant>, vis: set<Pos>, k: nat)
    requires c.radius >= 1 && k < |octs|
    ensures WorldCoordinate(octs[k], c.origin, 1, 1) in CastOctants(c, octs, vis)
    ensures WorldCoordinate(octs[k], c.origin, 0, 1) in CastOctants(c, octs, vis)
    decreases k
  {
    var vis' := CastRows(c, octs[0], 1, 1.0, 0.0, 0.0, vis);
    if k == 0 {
      FirstRowVisible(c, octs[0], vis);
    } else {
      CastOctantsFirstRow(c, octs[1..], vis', k - 1);
    }
  }

  // ---------------------------------------------------------------------
  // Properties of `shadow_cast`
  // ---------------------------------------------------------------------

  /** Radius 0 yields exactly the origin. */
  lemma RadiusZero(c: Config)
    requires c.radius == 0
    ensures Los(c) == {c.origin}
  {
    forall p | p in Los(c) ensures p == c.origin {
      assert Chebyshev(c.origin, p) == 0;
    }
  }

  /** With no blockers the result is the full (2 radius + 1)^2 square. */
  lemma OpenFieldIsFullSquare(c: Config)
    requires NoBlockers(c)
    ensures forall p :: p in Los(c) <==> Chebyshev(c.origin, p) <= c.radius
  {
    CastOctantsExact(c, AllOctants(), {c.origin}, c.radius);
    forall p ensures p in Los(c) <==> Chebyshev(c.origin, p) <= c.radius {
      AllCellsSquare(c.origin, c.radius, p);
    }
  }

  /** When every neighbour blocks, the result is the origin and its eight
      neighbours (blockers are visible), nothing beyond. */
  lemma RingEnclosure(c: Config)
    requires c.radius >= 1 && RingBlocks(c)
    ensures forall p :: p in Los(c) <==> Chebyshev(c.origin, p) <= 1
  {
    CastOctantsExact(c, AllOctants(), {c.origin}, 1);
    forall p ensures p in Los(c) <==> Chebyshev(c.origin, p) <= 1 {
      AllCellsSquare(c.origin, 1, p);
    }
  }

  /** For radius >= 1, whatever blocks, the eight neighbours are visible. */
  lemma NeighboursVisible(c: Config, p: Pos)
    requires c.radius >= 1 && Chebyshev(c.origin, p) <= 1
    ensures p in Los(c)
  {
    if p != c.origin {
      assert Chebyshev(c.origin, p) == 1;
      OctantsCover(c.origin, p);
      var o: Octant, i :| 0 <= i <= 1 && WorldCoordinate(o, c.origin, i, 1) == p;
      LosFirstRow(c, o, i);
    }
  }

  /** Both cells of depth 1 of every octant are in the result. */
  lemma LosFirstRow(c: Config, o: Octant, i: int)
    requires c.radius >= 1 && 0 <= i <= 1
    ensures WorldCoordinate(o, c.origin, i, 1) in Los(c)
  {
    var octs := AllOctants();
    var k := Label(o) - 1;
    assert octs[k] == o;
    CastOctantsFirstRow(c, octs, {c.origin}, k);
    assert Los(c) == CastOctants(c, octs, {c.origin});
    assert i == 0 || i == 1;
  }
}
