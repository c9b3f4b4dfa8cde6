/** The reference recursive shadowcasting of src/lib.rs.

    The imperative `ShadowCasting` class mirrors the source: a visible set
    field, a recursive `Cast` with nested row/cell loops.  Each of its
    methods is proved equal to the functional model `CastRows`/`ScanRow`/
    `Los`, and the properties of the algorithm are proved about that model. */
module Lib {
  import opened Octants

  /** The inputs of one computation: origin, radius and blocking predicate. */
  datatype Config = Config(origin: Pos, radius: nat, blocks: Pos -> bool)

  /** What one `cast` call carries from cell to cell of a row:
      `start_slope`, `prev_pos_blocks_view`, `saved_right_slope` and the
      visible set accumulated so far. */
  datatype Scan = Scan(start: real, prev: bool, saved: real, visible: set<Pos>)

  /** Slope of the left edge of local cell (x, y): (x + 0.5) / (y - 0.5). */
  function LeftSlope(x: int, y: int): (r: real)
    ensures r * (y as real - 0.5) == x as real + 0.5
  {
    (x as real + 0.5) / (y as real - 0.5)
  }

  /** Slope of the right edge of local cell (x, y): (x - 0.5) / (y + 0.5). */
  function RightSlope(x: int, y: int): (r: real)
    ensures r * (y as real + 0.5) == x as real - 0.5
  {
    (x as real - 0.5) / (y as real + 0.5)
  }

  /** The cells of one octant with lo <= depth <= hi and 0 <= column <= depth. */
  ghost function OctantCells(o: Octant, origin: Pos, lo: int, hi: int): set<Pos>
  {
    set y, x | lo <= y <= hi && 0 <= x <= y :: WorldCoordinate(o, origin, x, y)
  }

  /** The cells of a list of octants with 1 <= depth <= hi. */
  ghost function CellsOf(octs: seq<Octant>, origin: Pos, hi: int): set<Pos>
  {
    if |octs| == 0 then {} else OctantCells(octs[0], origin, 1, hi) + CellsOf(octs[1..], origin, hi)
  }

  // ---------------------------------------------------------------------
  // Functional model of `cast`
  // ---------------------------------------------------------------------

  /** One `cast(octant, y, start, end)` whose loop over rows y..radius is at
      row y with `saved_right_slope` = saved.  It only adds cells;
      `CastRowsBound` says where they lie. */
  function CastRows(c: Config, o: Octant, y: nat, start: real, saved: real, end: real, vis: set<Pos>)
    : (r: set<Pos>)
    ensures vis <= r
    decreases c.radius + 1 - y, 1, 0
  {
    if y > c.radius then vis
    else AfterRow(c, o, y, end, ScanRow(c, o, y, y, end, Scan(start, false, saved, vis)))
  }

  /** The end of row y: stop when the row ended on a blocking cell,
      otherwise go on with row y + 1. */
  function AfterRow(c: Config, o: Octant, y: nat, end: real, st: Scan): (r: set<Pos>)
    requires y <= c.radius
    ensures st.visible <= r
    decreases c.radius + 1 - y, 0, 0
  {
    if st.prev then st.visible
    else CastRows(c, o, y + 1, st.start, st.saved, end, st.visible)
  }

  /** The cells x, x - 1, ..., 0 of row y, including the recursive calls
      they spawn. */
  function ScanRow(c: Config, o: Octant, y: nat, x: int, end: real, st: Scan): (r: Scan)
    requires y <= c.radius && x <= y
    ensures st.visible <= r.visible
    decreases c.radius + 1 - y, 0, x + 1
  {
    if x < 0 then st
    else
      var left := LeftSlope(x, y);
      var right := RightSlope(x, y);
      if right > st.start then ScanRow(c, o, y, x - 1, end, st)
      else if left < end then st
      else
        var pos := WorldCoordinate(o, c.origin, x, y);
        var vis := st.visible + {pos};
        if st.prev then
          if c.blocks(pos) then ScanRow(c, o, y, x - 1, end, st.(saved := right, visible := vis))
          else ScanRow(c, o, y, x - 1, end, st.(prev := false, start := st.saved, visible := vis))
        else if c.blocks(pos) then
          var vis' := if left <= st.start then CastRows(c, o, y + 1, st.start, 0.0, left, vis) else vis;
          ScanRow(c, o, y, x - 1, end, st.(prev := true, saved := right, visible := vis'))
        else ScanRow(c, o, y, x - 1, end, st.(visible := vis))
  }

  /** `cast(octant, 1, 1.0, 0.0)` for each octant in turn. */
  function CastOctants(c: Config, octs: seq<Octant>, vis: set<Pos>): (r: set<Pos>)
    ensures vis <= r
    ensures forall p :: p in r && p !in vis ==> 1 <= Chebyshev(c.origin, p) <= c.radius
  {
    if |octs| == 0 then vis
    else
      CastRowsBound(c, octs[0], 1, 1.0, 0.0, 0.0, vis);
      CastOctants(c, octs[1..], CastRows(c, octs[0], 1, 1.0, 0.0, 0.0, vis))
  }

  /** Every cell a cast from row y adds lies at Chebyshev distance
      y..radius from the origin. */
  lemma {:induction false} CastRowsBound(c: Config, o: Octant, y: nat, start: real, saved: real, end: real,
                                         vis: set<Pos>)
    ensures forall p :: p in CastRows(c, o, y, start, saved, end, vis) && p !in vis ==>
                          y <= Chebyshev(c.origin, p) <= c.radius
    decreases c.radius + 1 - y, 1, 0
  {
    if y <= c.radius {
      var st := Scan(start, false, saved, vis);
      ScanRowBound(c, o, y, y, end, st);
      AfterRowBound(c, o, y, end, ScanRow(c, o, y, y, end, st));
    }
  }

  /** After row y, the cells added lie at distance y + 1..radius. */
  lemma {:induction false} AfterRowBound(c: Config, o: Octant, y: nat, end: real, st: Scan)
    requires y <= c.radius
    ensures forall p :: p in AfterRow(c, o, y, end, st) && p !in st.visible ==>
                          y + 1 <= Chebyshev(c.origin, p) <= c.radius
    decreases c.radius + 1 - y, 0, 0
  {
    if !st.prev {
      CastRowsBound(c, o, y + 1, st.start, st.saved, end, st.visible);
    }
  }

  /** The cells row y adds, its own or those of the casts it starts, lie
      at distance y..radius. */
  lemma {:induction false} ScanRowBound(c: Config, o: Octant, y: nat, x: int, end: real, st: Scan)
    requires y <= c.radius && x <= y
    ensures forall p :: p in ScanRow(c, o, y, x, end, st).visible && p !in st.visible ==>
                          y <= Chebyshev(c.origin, p) <= c.radius
    decreases c.radius + 1 - y, 0, x + 1
  {
    if x >= 0 {
      var left := LeftSlope(x, y);
      var right := RightSlope(x, y);
      if right > st.start {
        ScanRowBound(c, o, y, x - 1, end, st);
      } else if left >= end {
        var pos := WorldCoordinate(o, c.origin, x, y);
        WorldCoordinateDistance(o, c.origin, x, y);
        var vis := st.visible + {pos};
        if st.prev {
          if c.blocks(pos) {
            ScanRowBound(c, o, y, x - 1, end, st.(saved := right, visible := vis));
          } else {
            ScanRowBound(c, o, y, x - 1, end, st.(prev := false, start := st.saved, visible := vis));
          }
        } else if c.blocks(pos) {
          var vis' := vis;
          if left <= st.start {
            CastRowsBound(c, o, y + 1, st.start, 0.0, left, vis);
            vis' := CastRows(c, o, y + 1, st.start, 0.0, left, vis);
          }
          ScanRowBound(c, o, y, x - 1, end, st.(prev := true, saved := right, visible := vis'));
        } else {
          ScanRowBound(c, o, y, x - 1, end, st.(visible := vis));
        }
      }
    }
  }

  /** `shadow_cast`: the origin, then every octant.  The result holds the
      origin and lies in the square of Chebyshev radius `radius`. */
  function Los(c: Config): (r: set<Pos>)
    ensures c.origin in r
    ensures forall p :: p in r ==> Chebyshev(c.origin, p) <= c.radius
  {
    CastOctants(c, AllOctants(), {c.origin})
  }

  // ---------------------------------------------------------------------
  // The imperative implementation
  // ---------------------------------------------------------------------

  class ShadowCasting {
    /** The position from where the line of sight originates. */
    const origin: Pos
    /** Tells if a position blocks the view. */
    const positionBlocksView: Pos -> bool
    /** The radius of the scanned area. */
    const radius: nat
    /** The positions found visible so far. */
    var visiblePositions: set<Pos>

    function Cfg(): Config
    {
      Config(origin, radius, positionBlocksView)
    }

    constructor (origin: Pos, radius: nat, positionBlocksView: Pos -> bool)
      ensures this.origin == origin && this.radius == radius
      ensures this.positionBlocksView == positionBlocksView
      ensures visiblePositions == {}
    {
      this.origin := origin;
      this.positionBlocksView := positionBlocksView;
      this.radius := radius;
      visiblePositions := {};
    }

    /** Marks the origin, then casts every octant from depth 1 over the
        slope interval [0, 1]. */
    method CalculateLos() returns (r: set<Pos>)
      modifies this
      ensures r == visiblePositions
      ensures r == CastOctants(Cfg(), AllOctants(), old(visiblePositions) + {origin})
    {
      SetPosVisible(origin);
      ghost var target := CastOctants(Cfg(), AllOctants(), visiblePositions);
      var octants := AllOctants();
      for k := 0 to |octants|
        invariant CastOctants(Cfg(), octants[k..], visiblePositions) == target
      {
        assert octants[k..][1..] == octants[k + 1..];
        Cast(octants[k], 1, 1.0, 0.0);
      }
      r := visiblePositions;
    }

    /** One recursive scan of `octant` from row `depth` over the slope
        interval [endSlope, startSlope]. */
    method Cast(octant: Octant, depth: nat, startSlope: real, endSlope: real)
      modifies this
      ensures visiblePositions
        == CastRows(Cfg(), octant, depth, startSlope, 0.0, endSlope, old(visiblePositions))
      decreases radius + 1 - depth
    {
      ghost var target := CastRows(Cfg(), octant, depth, startSlope, 0.0, endSlope, visiblePositions);
      var start := startSlope;
      var prev := false;
      var saved: real := 0.0;
      var y := depth;
      while y <= radius
        invariant depth <= y && !prev
        invariant start <= startSlope
        invariant CastRows(Cfg(), octant, y, start, saved, endSlope, visiblePositions) == target
        decreases radius + 1 - y
      {
        var x: int := y;
        while x >= 0
          invariant -1 <= x <= y
          invariant start <= startSlope && (prev ==> saved <= start)
          invariant AfterRow(Cfg(), octant, y, endSlope,
                      ScanRow(Cfg(), octant, y, x, endSlope, Scan(start, prev, saved, visiblePositions)))
                    == target
          decreases x
        {
          var pos := WorldCoordinate(octant, origin, x, y);
          var left := LeftSlope(x, y);
          var right := RightSlope(x, y);
          if right > start {
            x := x - 1;
            continue;
          }
          if left < endSlope {
            break;
          }
          SetPosVisible(pos);
          if prev {
            if PosBlocksView(pos) {
              saved := right;
            } else {
              prev := false;
              start := saved;
            }
          } else if PosBlocksView(pos) {
            if left <= start {
              // the child interval [left, start] lies inside [endSlope, startSlope]
              assert endSlope <= left <= start <= startSlope;
              Cast(octant, y + 1, start, left);
            }
            prev := true;
            saved := right;
          }
          x := x - 1;
        }
        if prev {
          break;
        }
        y := y + 1;
      }
    }

    function PosBlocksView(pos: Pos): bool
    {
      positionBlocksView(pos)
    }

    method SetPosVisible(pos: Pos)
      modifies this
      ensures visiblePositions == old(visiblePositions) + {pos}
    {
      visiblePositions := visiblePositions + {pos};
    }
  }

  /** `shadow_cast`: the set of positions visible from `origin`. */
  method ShadowCast(origin: Pos, radius: nat, positionBlocksView: Pos -> bool) returns (r: set<Pos>)
    ensures r == Los(Config(origin, radius, positionBlocksView))
    ensures origin in r
    ensures forall p :: p in r ==> Chebyshev(origin, p) <= radius
  {
    var caster := new ShadowCasting(origin, radius, positionBlocksView);
    assert caster.Cfg() == Config(origin, radius, positionBlocksView);
    assert caster.visiblePositions + {origin} == {origin};
    r := caster.CalculateLos();
  }
}
