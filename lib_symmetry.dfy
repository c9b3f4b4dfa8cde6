/** The eight-fold symmetry of `shadow_cast` in src/lib.rs: when the
    obstacles are invariant under one of the eight symmetries of the square
    around the origin, so is the visible set.

    The eight coefficient tables of `get_diffs` are exactly the eight signed
    permutation matrices, so an octant doubles as the name of a symmetry:
    `Apply(m, origin, p)` moves p by m's table around the origin.  Casting
    octant o and then applying m is casting the octant `Compose(m, o)`. */
module LibSymmetry {
  import opened Octants
  import opened Lib

  /** The symmetry named by m: origin + table(m) * (p - origin). */
  function Apply(m: Octant, origin: Pos, p: Pos): Pos
  {
    WorldCoordinate(m, origin, p.0 - origin.0, p.1 - origin.1)
  }

  /** The image of a set of cells under a map of cells. */
  ghost function Image(f: Pos -> Pos, s: set<Pos>): set<Pos>
  {
    set p | p in s :: f(p)
  }

  /** The obstacles are invariant under the symmetry m. */
  ghost predicate Symmetric(c: Config, m: Octant)
  {
    forall p :: c.blocks(Apply(m, c.origin, p)) == c.blocks(p)
  }

  /** The symmetry m after the octant o: the octant whose table is the
      product of m's table and o's. */
  function Compose(m: Octant, o: Octant): Octant
  {
    match m
    case TopLeft => (
      match o
      case TopLeft => TopRight
      case TopRight => TopLeft
      case RightTop => LeftTop
      case RightBottom => LeftBottom
      case BottomRight => BottomLeft
      case BottomLeft => BottomRight
      case LeftBottom => RightBottom
      case LeftTop => RightTop)
    case TopRight => (
      match o
      case TopLeft => TopLeft
      case TopRight => TopRight
      case RightTop => RightTop
      case RightBottom => RightBottom
      case BottomRight => BottomRight
      case BottomLeft => BottomLeft
      case LeftBottom => LeftBottom
      case LeftTop => LeftTop)
    case RightTop => (
      match o
      case TopLeft => RightBottom
      case TopRight => RightTop
      case RightTop => TopRight
      case RightBottom => TopLeft
      case BottomRight => LeftTop
      case BottomLeft => LeftBottom
      case LeftBottom => BottomLeft
      case LeftTop => BottomRight)
    case RightBottom => (
      match o
      case TopLeft => RightTop
      case TopRight => RightBottom
      case RightTop => BottomRight
      case RightBottom => BottomLeft
      case BottomRight => LeftBottom
      case BottomLeft => LeftTop
      case LeftBottom => TopLeft
      case LeftTop => TopRight)
    case BottomRight => (
      match o
      case TopLeft => BottomLeft
      case TopRight => BottomRight
      case RightTop => RightBottom
      case RightBottom => RightTop
      case BottomRight => TopRight
      case BottomLeft => TopLeft
      case LeftBottom => LeftTop
      case LeftTop => LeftBottom)
    case BottomLeft => (
      match o
      case TopLeft => BottomRight
      case TopRight => BottomLeft
      case RightTop => LeftBottom
      case RightBottom => LeftTop
      case BottomRight => TopLeft
      case BottomLeft => TopRight
      case LeftBottom => RightTop
      case LeftTop => RightBottom)
    case LeftBottom => (
      match o
      case TopLeft => LeftTop
      case TopRight => LeftBottom
      case RightTop => BottomLeft
      case RightBottom => BottomRight
      case BottomRight => RightBottom
      case BottomLeft => RightTop
      case LeftBottom => TopRight
      case LeftTop => TopLeft)
    case LeftTop => (
      match o
      case TopLeft => LeftBottom
      case TopRight => LeftTop
      case RightTop => TopLeft
      case RightBottom => TopRight
      case BottomRight => RightTop
      case BottomLeft => RightBottom
      case LeftBottom => BottomRight
      case LeftTop => BottomLeft)
  }

  /** The inverse symmetry: the octant whose table is the transpose. */
  function Inverse(m: Octant): Octant
  {
    match m
    case RightBottom => LeftTop
    case LeftTop => RightBottom
    case _ => m
  }

  /** Composed either way round with its inverse, a symmetry is the
      identity `TopRight`. */
  lemma InverseCompose(m: Octant)
    ensures Compose(Inverse(m), m) == TopRight && Compose(m, Inverse(m)) == TopRight
  {
    match m
    case TopLeft =>
    case TopRight =>
    case RightTop =>
    case RightBottom =>
    case BottomRight =>
    case BottomLeft =>
    case LeftBottom =>
    case LeftTop =>
  }

  /** The symmetry m maps column i, depth d of octant o to the same column
      and depth of `Compose(m, o)`. */
  lemma ComposeCell(m: Octant, o: Octant, origin: Pos, i: int, d: int)
    ensures Apply(m, origin, WorldCoordinate(o, origin, i, d))
            == WorldCoordinate(Compose(m, o), origin, i, d)
  {
    match m
    case TopLeft => ComposeCellTopLeft(o, origin, i, d);
    case TopRight => ComposeCellTopRight(o, origin, i, d);
    case RightTop => ComposeCellRightTop(o, origin, i, d);
    case RightBottom => ComposeCellRightBottom(o, origin, i, d);
    case BottomRight => ComposeCellBottomRight(o, origin, i, d);
    case BottomLeft => ComposeCellBottomLeft(o, origin, i, d);
    case LeftBottom => ComposeCellLeftBottom(o, origin, i, d);
    case LeftTop => ComposeCellLeftTop(o, origin, i, d);
  }

  lemma ComposeCellTopLeft(o: Octant, origin: Pos, i: int, d: int)
    ensures Apply(TopLeft, origin, WorldCoordinate(o, origin, i, d))
            == WorldCoordinate(Compose(TopLeft, o), origin, i, d)
  {
    match o
    case TopLeft =>
    case TopRight =>
    case RightTop =>
    case RightBottom =>
    case BottomRight =>
    case BottomLeft =>
    case LeftBottom =>
    case LeftTop =>
  }

  lemma ComposeCellTopRight(o: Octant, origin: Pos, i: int, d: int)
    ensures Apply(TopRight, origin, WorldCoordinate(o, origin, i, d))
            == WorldCoordinate(Compose(TopRight, o), origin, i, d)
  {
    match o
    case TopLeft =>
    case TopRight =>
    case RightTop =>
    case RightBottom =>
    case BottomRight =>
    case BottomLeft =>
    case LeftBottom =>
    case LeftTop =>
  }

  lemma ComposeCellRightTop(o: Octant, origin: Pos, i: int, d: int)
    ensures Apply(RightTop, origin, WorldCoordinate(o, origin, i, d))
            == WorldCoordinate(Compose(RightTop, o), origin, i, d)
  {
    match o
    case TopLeft =>
    case TopRight =>
    case RightTop =>
    case RightBottom =>
    case BottomRight =>
    case BottomLeft =>
    case LeftBottom =>
    case LeftTop =>
  }

  lemma ComposeCellRightBottom(o: Octant, origin: Pos, i: int, d: int)
    ensures Apply(RightBottom, origin, WorldCoordinate(o, origin, i, d))
            == WorldCoordinate(Compose(RightBottom, o), origin, i, d)
  {
    match o
    case TopLeft =>
    case TopRight =>
    case RightTop =>
    case RightBottom =>
    case BottomRight =>
    case BottomLeft =>
    case LeftBottom =>
    case LeftTop =>
  }

  lemma ComposeCellBottomRight(o: Octant, origin: Pos, i: int, d: int)
    ensures Apply(BottomRight, origin, WorldCoordinate(o, origin, i, d))
            == WorldCoordinate(Compose(BottomRight, o), origin, i, d)
  {
    match o
    case TopLeft =>
    case TopRight =>
    case RightTop =>
    case RightBottom =>
    case BottomRight =>
    case BottomLeft =>
    case LeftBottom =>
    case LeftTop =>
  }

  lemma ComposeCellBottomLeft(o: Octant, origin: Pos, i: int, d: int)
    ensures Apply(BottomLeft, origin, WorldCoordinate(o, origin, i, d))
            == WorldCoordinate(Compose(BottomLeft, o), origin, i, d)
  {
    match o
    case TopLeft =>
    case TopRight =>
    case RightTop =>
    case RightBottom =>
    case BottomRight =>
    case BottomLeft =>
    case LeftBottom =>
    case LeftTop =>
  }

  lemma ComposeCellLeftBottom(o: Octant, origin: Pos, i: int, d: int)
    ensures Apply(LeftBottom, origin, WorldCoordinate(o, origin, i, d))
            == WorldCoordinate(Compose(LeftBottom, o), origin, i, d)
  {
    match o
    case TopLeft =>
    case TopRight =>
    case RightTop =>
    case RightBottom =>
    case BottomRight =>
    case BottomLeft =>
    case LeftBottom =>
    case LeftTop =>
  }

  lemma ComposeCellLeftTop(o: Octant, origin: Pos, i: int, d: int)
    ensures Apply(LeftTop, origin, WorldCoordinate(o, origin, i, d))
            == WorldCoordinate(Compose(LeftTop, o), origin, i, d)
  {
    match o
    case TopLeft =>
    case TopRight =>
    case RightTop =>
    case RightBottom =>
    case BottomRight =>
    case BottomLeft =>
    case LeftBottom =>
    case LeftTop =>
  }

  /** The inverse undoes the symmetry, and the symmetry undoes the inverse. */
  lemma InverseCancels(m: Octant, origin: Pos, p: Pos)
    ensures Apply(Inverse(m), origin, Apply(m, origin, p)) == p
    ensures Apply(m, origin, Apply(Inverse(m), origin, p)) == p
  {
    var i, d := p.0 - origin.0, p.1 - origin.1;
    assert p == WorldCoordinate(TopRight, origin, i, d);
    InverseCompose(m);
    ComposeCell(Inverse(m), m, origin, i, d);
    ComposeCell(m, Inverse(m), origin, i, d);
  }

  /** Obstacles invariant under m are invariant under its inverse. */
  lemma InverseSymmetric(c: Config, m: Octant)
    requires Symmetric(c, m)
    ensures Symmetric(c, Inverse(m))
  {
    forall q ensures c.blocks(Apply(Inverse(m), c.origin, q)) == c.blocks(q) {
      InverseCancels(m, c.origin, q);
      assert c.blocks(Apply(m, c.origin, Apply(Inverse(m), c.origin, q)))
             == c.blocks(Apply(Inverse(m), c.origin, q));
    }
  }

  lemma ImageAdd(f: Pos -> Pos, s: set<Pos>, p: Pos)
    ensures Image(f, s + {p}) == Image(f, s) + {f(p)}
  {
  }

  // ---------------------------------------------------------------------
  // The visible set so far never steers the cast
  // ---------------------------------------------------------------------

  /** The scan state after cell x of row y, a cell inside the scanned
      interval: the branches of `ScanRow` that visit a cell. */
  function CellStep(c: Config, o: Octant, y: nat, x: int, st: Scan): Scan
  {
    var left := LeftSlope(x, y);
    var right := RightSlope(x, y);
    var pos := WorldCoordinate(o, c.origin, x, y);
    var vis := st.visible + {pos};
    if st.prev then
      if c.blocks(pos) then st.(saved := right, visible := vis)
      else st.(prev := false, start := st.saved, visible := vis)
    else if c.blocks(pos) then
      st.(prev := true, saved := right,
          visible := if left <= st.start then CastRows(c, o, y + 1, st.start, 0.0, left, vis) else vis)
    else st.(visible := vis)
  }

  /** A cell inside the scanned interval moves the scan on by `CellStep`. */
  lemma ScanRowCell(c: Config, o: Octant, y: nat, x: int, end: real, st: Scan)
    requires y <= c.radius && 0 <= x <= y
    requires RightSlope(x, y) <= st.start && LeftSlope(x, y) >= end
    ensures ScanRow(c, o, y, x, end, st) == ScanRow(c, o, y, x - 1, end, CellStep(c, o, y, x, st))
  {
  }

  function Plus(st: Scan, extra: set<Pos>): Scan
  {
    st.(visible := st.visible + extra)
  }

  /** Cells already visible change nothing but the result's own cells:
      a cast from `vis + extra` gives the cast from `vis` plus `extra`. */
  lemma {:induction false} CastRowsFrame(c: Config, o: Octant, y: nat, start: real, saved: real, end: real,
                                         vis: set<Pos>, extra: set<Pos>)
    ensures CastRows(c, o, y, start, saved, end, vis + extra)
            == CastRows(c, o, y, start, saved, end, vis) + extra
    decreases c.radius + 1 - y, 1, 0, 0
  {
    if y <= c.radius {
      var st := Scan(start, false, saved, vis);
      assert Scan(start, false, saved, vis + extra) == Plus(st, extra);
      ScanRowFrame(c, o, y, y, end, st, extra);
      AfterRowFrame(c, o, y, end, ScanRow(c, o, y, y, end, st), extra);
    }
  }

  lemma {:induction false} AfterRowFrame(c: Config, o: Octant, y: nat, end: real, st: Scan, extra: set<Pos>)
    requires y <= c.radius
    ensures AfterRow(c, o, y, end, Plus(st, extra)) == AfterRow(c, o, y, end, st) + extra
    decreases c.radius + 1 - y, 0, 0, 0
  {
    if !st.prev {
      CastRowsFrame(c, o, y + 1, st.start, st.saved, end, st.visible, extra);
    }
  }

  lemma {:induction false} ScanRowFrame(c: Config, o: Octant, y: nat, x: int, end: real, st: Scan,
                                        extra: set<Pos>)
    requires y <= c.radius && x <= y
    ensures ScanRow(c, o, y, x, end, Plus(st, extra)) == Plus(ScanRow(c, o, y, x, end, st), extra)
    decreases c.radius + 1 - y, 0, x + 1, 1
  {
    if x >= 0 {
      if RightSlope(x, y) > st.start {
        ScanRowFrame(c, o, y, x - 1, end, st, extra);
      } else if LeftSlope(x, y) >= end {
        var next := CellStep(c, o, y, x, st);
        calc {
          ScanRow(c, o, y, x, end, Plus(st, extra));
          { ScanRowCell(c, o, y, x, end, Plus(st, extra)); }
          ScanRow(c, o, y, x - 1, end, CellStep(c, o, y, x, Plus(st, extra)));
          { CellStepFrame(c, o, y, x, st, extra); }
          ScanRow(c, o, y, x - 1, end, Plus(next, extra));
          { ScanRowFrame(c, o, y, x - 1, end, next, extra); }
          Plus(ScanRow(c, o, y, x - 1, end, next), extra);
          { ScanRowCell(c, o, y, x, end, st); }
          Plus(ScanRow(c, o, y, x, end, st), extra);
        }
      }
    }
  }

  lemma {:induction false} CellStepFrame(c: Config, o: Octant, y: nat, x: int, st: Scan, extra: set<Pos>)
    requires y <= c.radius && 0 <= x <= y
    ensures CellStep(c, o, y, x, Plus(st, extra)) == Plus(CellStep(c, o, y, x, st), extra)
    decreases c.radius + 1 - y, 0, x + 1, 0
  {
    var left := LeftSlope(x, y);
    var pos := WorldCoordinate(o, c.origin, x, y);
    var vis := st.visible + {pos};
    assert Plus(st, extra).visible + {pos} == vis + extra;
    if !st.prev && c.blocks(pos) && left <= st.start {
      CastRowsFrame(c, o, y + 1, st.start, 0.0, left, vis, extra);
    }
  }

  // ---------------------------------------------------------------------
  // A map of cells that carries one octant onto another carries its cast
  // ---------------------------------------------------------------------

  /** f sends column x, depth y of octant o to the same column and depth
      of octant o', and that cell blocks exactly when the first does. */
  ghost predicate Carries(c: Config, f: Pos -> Pos, o: Octant, o': Octant)
  {
    (forall x: int, y: int :: f(WorldCoordinate(o, c.origin, x, y)) == WorldCoordinate(o', c.origin, x, y)) &&
    (forall x: int, y: int ::
       c.blocks(WorldCoordinate(o', c.origin, x, y)) == c.blocks(WorldCoordinate(o, c.origin, x, y)))
  }

  ghost function Img(f: Pos -> Pos, st: Scan): Scan
  {
    st.(visible := Image(f, st.visible))
  }

  /** The image under f of a cast of octant o is the cast of o' from the
      image of the cells already visible. */
  lemma {:induction false} CastRowsImage(c: Config, f: Pos -> Pos, o: Octant, o': Octant, y: nat,
                                         start: real, saved: real, end: real, vis: set<Pos>)
    requires Carries(c, f, o, o')
    ensures Image(f, CastRows(c, o, y, start, saved, end, vis))
            == CastRows(c, o', y, start, saved, end, Image(f, vis))
    decreases c.radius + 1 - y, 1, 0, 0
  {
    if y <= c.radius {
      var st := Scan(start, false, saved, vis);
      assert Scan(start, false, saved, Image(f, vis)) == Img(f, st);
      ScanRowImage(c, f, o, o', y, y, end, st);
      AfterRowImage(c, f, o, o', y, end, ScanRow(c, o, y, y, end, st));
    }
  }

  lemma {:induction false} AfterRowImage(c: Config, f: Pos -> Pos, o: Octant, o': Octant, y: nat, end: real,
                                         st: Scan)
    requires Carries(c, f, o, o') && y <= c.radius
    ensures Image(f, AfterRow(c, o, y, end, st)) == AfterRow(c, o', y, end, Img(f, st))
    decreases c.radius + 1 - y, 0, 0, 0
  {
    if !st.prev {
      CastRowsImage(c, f, o, o', y + 1, st.start, st.saved, end, st.visible);
    }
  }

  /** The same for the cells x, x - 1, ..., 0 of row y. */
  lemma {:induction false} ScanRowImage(c: Config, f: Pos -> Pos, o: Octant, o': Octant, y: nat, x: int,
                                        end: real, st: Scan)
    requires Carries(c, f, o, o') && y <= c.radius && x <= y
    ensures Img(f, ScanRow(c, o, y, x, end, st)) == ScanRow(c, o', y, x, end, Img(f, st))
    decreases c.radius + 1 - y, 0, x + 1, 1
  {
    if x >= 0 {
      if RightSlope(x, y) > st.start {
        ScanRowImage(c, f, o, o', y, x - 1, end, st);
      } else if LeftSlope(x, y) >= end {
        var next := CellStep(c, o, y, x, st);
        calc {
          Img(f, ScanRow(c, o, y, x, end, st));
          { ScanRowCell(c, o, y, x, end, st); }
          Img(f, ScanRow(c, o, y, x - 1, end, next));
          { ScanRowImage(c, f, o, o', y, x - 1, end, next); }
          ScanRow(c, o', y, x - 1, end, Img(f, next));
          { if st.prev { ShadowStepImage(c, f, o, o', y, x, st); } else { LitStepImage(c, f, o, o', y, x, st); } }
          ScanRow(c, o', y, x - 1, end, CellStep(c, o', y, x, Img(f, st)));
          { ScanRowCell(c, o', y, x, end, Img(f, st)); }
          ScanRow(c, o', y, x, end, Img(f, st));
        }
      }
    }
  }

  /** One cell's step commutes with the image under f, when the cell
      before it blocked. */
  lemma ShadowStepImage(c: Config, f: Pos -> Pos, o: Octant, o': Octant, y: nat, x: int, st: Scan)
    requires Carries(c, f, o, o') && y <= c.radius && 0 <= x <= y && st.prev
    ensures Img(f, CellStep(c, o, y, x, st)) == CellStep(c, o', y, x, Img(f, st))
  {
    var pos, pos' := WorldCoordinate(o, c.origin, x, y), WorldCoordinate(o', c.origin, x, y);
    assert f(pos) == pos';
    assert c.blocks(pos') == c.blocks(pos);
    ImageAdd(f, st.visible, pos);
  }

  /** The same when the cell before it did not block: a blocking cell may
      start the cast of the next row, whose image the induction gives. */
  lemma {:induction false} LitStepImage(c: Config, f: Pos -> Pos, o: Octant, o': Octant, y: nat, x: int,
                                        st: Scan)
    requires Carries(c, f, o, o') && y <= c.radius && 0 <= x <= y && !st.prev
    ensures Img(f, CellStep(c, o, y, x, st)) == CellStep(c, o', y, x, Img(f, st))
    decreases c.radius + 1 - y, 0, x + 1, 0
  {
    var left, right := LeftSlope(x, y), RightSlope(x, y);
    var pos, pos' := WorldCoordinate(o, c.origin, x, y), WorldCoordinate(o', c.origin, x, y);
    assert f(pos) == pos';
    assert c.blocks(pos') == c.blocks(pos);
    var vis, vis' := st.visible + {pos}, Image(f, st.visible) + {pos'};
    ImageAdd(f, st.visible, pos);
    if c.blocks(pos) && left <= st.start {
      CastRowsImage(c, f, o, o', y + 1, st.start, 0.0, left, vis);
      assert CellStep(c, o', y, x, Img(f, st))
          == Img(f, st).(prev := true, saved := right, visible := CastRows(c, o', y + 1, st.start, 0.0, left, vis'));
    } else if c.blocks(pos) {
      assert CellStep(c, o', y, x, Img(f, st)) == Img(f, st).(prev := true, saved := right, visible := vis');
    } else {
      assert CellStep(c, o', y, x, Img(f, st)) == Img(f, st).(visible := vis');
    }
  }

  // ---------------------------------------------------------------------
  // The visible set of `shadow_cast`
  // ---------------------------------------------------------------------

  /** The cells one `cast(octant, 1, 1.0, 0.0)` finds on its own. */
  ghost function OctantLos(c: Config, o: Octant): set<Pos>
  {
    CastRows(c, o, 1, 1.0, 0.0, 0.0, {})
  }

  /** The union of `OctantLos` over a list of octants. */
  ghost function Casts(c: Config, octs: seq<Octant>): set<Pos>
  {
    if |octs| == 0 then {} else OctantLos(c, octs[0]) + Casts(c, octs[1..])
  }

  /** Casting the octants in turn adds the union of their own casts. */
  lemma {:induction false} CastOctantsUnion(c: Config, octs: seq<Octant>, vis: set<Pos>)
    ensures CastOctants(c, octs, vis) == vis + Casts(c, octs)
  {
    if |octs| > 0 {
      CastRowsFrame(c, octs[0], 1, 1.0, 0.0, 0.0, {}, vis);
      assert {} + vis == vis;
      CastOctantsUnion(c, octs[1..], CastRows(c, octs[0], 1, 1.0, 0.0, 0.0, vis));
    }
  }

  lemma {:induction false} CastsMember(c: Config, octs: seq<Octant>, p: Pos)
    ensures p in Casts(c, octs) <==> exists k :: 0 <= k < |octs| && p in OctantLos(c, octs[k])
  {
    if |octs| > 0 {
      CastsMember(c, octs[1..], p);
      if p in Casts(c, octs[1..]) {
        var k :| 0 <= k < |octs[1..]| && p in OctantLos(c, octs[1..][k]);
        assert octs[k + 1] == octs[1..][k];
      }
      if exists k :: 0 <= k < |octs| && p in OctantLos(c, octs[k]) {
        var k :| 0 <= k < |octs| && p in OctantLos(c, octs[k]);
        if k > 0 {
          assert octs[1..][k - 1] == octs[k];
        }
      }
    }
  }

  /** A cell is visible exactly when it is the origin or some octant's own
      cast finds it. */
  lemma LosCells(c: Config, p: Pos)
    ensures p in Los(c) <==> p == c.origin || exists o: Octant :: p in OctantLos(c, o)
  {
    var octs := AllOctants();
    CastOctantsUnion(c, octs, {c.origin});
    CastsMember(c, octs, p);
    if exists o: Octant :: p in OctantLos(c, o) {
      var o: Octant :| p in OctantLos(c, o);
      assert octs[Label(o) - 1] == o;
    }
  }

  /** A symmetry of the obstacles carries every octant onto its composite. */
  lemma SymmetryCarries(c: Config, m: Octant, o: Octant)
    requires Symmetric(c, m)
    ensures Carries(c, p => Apply(m, c.origin, p), o, Compose(m, o))
  {
    forall x: int, y: int
      ensures Apply(m, c.origin, WorldCoordinate(o, c.origin, x, y)) == WorldCoordinate(Compose(m, o), c.origin, x, y)
      ensures c.blocks(WorldCoordinate(Compose(m, o), c.origin, x, y)) == c.blocks(WorldCoordinate(o, c.origin, x, y))
    {
      ComposeCell(m, o, c.origin, x, y);
      assert c.blocks(Apply(m, c.origin, WorldCoordinate(o, c.origin, x, y)))
             == c.blocks(WorldCoordinate(o, c.origin, x, y));
    }
  }

  /** A symmetry of the obstacles maps visible cells to visible cells. */
  lemma LosImage(c: Config, m: Octant, p: Pos)
    requires Symmetric(c, m) && p in Los(c)
    ensures Apply(m, c.origin, p) in Los(c)
  {
    LosCells(c, p);
    var q := Apply(m, c.origin, p);
    if p != c.origin {
      var o: Octant :| p in OctantLos(c, o);
      var f := (p': Pos) => Apply(m, c.origin, p');
      SymmetryCarries(c, m, o);
      CastRowsImage(c, f, o, Compose(m, o), 1, 1.0, 0.0, 0.0, {});
      assert Image(f, {}) == {};
      assert f(p) in Image(f, OctantLos(c, o));
      assert q in OctantLos(c, Compose(m, o));
    }
    LosCells(c, q);
  }

  /** Eight-fold symmetry: when the obstacles are invariant under one of
      the eight symmetries of the square around the origin, a cell is
      visible exactly when its image is. */
  lemma LosSymmetric(c: Config, m: Octant, p: Pos)
    requires Symmetric(c, m)
    ensures p in Los(c) <==> Apply(m, c.origin, p) in Los(c)
  {
    if p in Los(c) {
      LosImage(c, m, p);
    }
    if Apply(m, c.origin, p) in Los(c) {
      InverseSymmetric(c, m);
      LosImage(c, Inverse(m), Apply(m, c.origin, p));
      InverseCancels(m, c.origin, p);
    }
  }

  /** The same for the whole set: the symmetry maps the visible set onto
      itself. */
  lemma LosInvariant(c: Config, m: Octant)
    requires Symmetric(c, m)
    ensures Image(p => Apply(m, c.origin, p), Los(c)) == Los(c)
  {
    var f := (p: Pos) => Apply(m, c.origin, p);
    forall q | q in Los(c) ensures q in Image(f, Los(c)) {
      var p := Apply(Inverse(m), c.origin, q);
      InverseCancels(m, c.origin, p);
      InverseCancels(m, c.origin, q);
      LosSymmetric(c, m, p);
      assert f(p) == q;
    }
    forall p | p in Los(c) ensures f(p) in Los(c) {
      LosImage(c, m, p);
    }
  }
}
