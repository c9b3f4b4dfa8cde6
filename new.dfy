/** The unfinished draft of src/new.rs: a map of tile states built from a
    list of (x, y, blocking) triples, the tiles of one octant row, and a scan
    whose octant step loops over those tiles and does nothing with them. */
module New {
  import opened Octants
  import LibProperties

  /** The state of one tile of the map. */
  datatype TileState = TileState(visible: bool, blocking: bool)

  /** One input entry (x, y, blocking). */
  type TileEntry = (int, int, bool)

  function Key(t: TileEntry): Pos
  {
    (t.0, t.1)
  }

  /** The map `new` builds by inserting the entries in order: every listed
      tile is a key, nothing else is, and all start invisible. */
  function StateMap(tiles: seq<TileEntry>): (m: map<Pos, TileState>)
    ensures forall j :: 0 <= j < |tiles| ==> Key(tiles[j]) in m
    ensures forall p :: p in m ==> exists j :: 0 <= j < |tiles| && Key(tiles[j]) == p
    ensures forall p :: p in m ==> !m[p].visible
  {
    if |tiles| == 0 then map[]
    else
      var prefix := tiles[..|tiles| - 1];
      var t := tiles[|tiles| - 1];
      assert forall j :: 0 <= j < |prefix| ==> prefix[j] == tiles[j];
      StateMap(prefix)[Key(t) := TileState(false, t.2)]
  }

  /** The four octants whose `get_tiles` range is -depth..=0; the other four
      use depth..=0, which is empty from depth 1 on. */
  predicate Descending(o: Octant)
  {
    o == TopLeft || o == RightBottom || o == BottomLeft || o == LeftBottom
  }

  /** The first value of the `get_tiles` range. */
  function RangeStart(o: Octant, depth: nat): int
  {
    if Descending(o) then -(depth as int) else depth
  }

  /** The tile of index i at the given depth. */
  function TileAt(o: Octant, origin: Pos, i: int, depth: nat): Pos
  {
    match o
    case TopLeft => (origin.0 + i, origin.1 + depth)
    case TopRight => (origin.0 + i, origin.1 + depth)
    case RightTop => (origin.0 + depth, origin.1 + i)
    case RightBottom => (origin.0 + depth, origin.1 + i)
    case BottomRight => (origin.0 + i, origin.1 - depth)
    case BottomLeft => (origin.0 + i, origin.1 - depth)
    case LeftBottom => (origin.0 - depth, origin.1 + i)
    case LeftTop => (origin.0 - depth, origin.1 + i)
  }

  /** `get_tiles`: the tiles for i from the range start up to 0. */
  function GetTiles(o: Octant, origin: Pos, depth: nat): (r: seq<Pos>)
    ensures |r| == if Descending(o) then depth + 1 else if depth == 0 then 1 else 0
    ensures forall j :: 0 <= j < |r| ==> r[j] == TileAt(o, origin, RangeStart(o, depth) + j, depth)
  {
    var lo := RangeStart(o, depth);
    seq(if lo <= 0 then 1 - lo else 0, j => TileAt(o, origin, lo + j, depth))
  }

  /** From depth 1 on, the other four octants yield no tile at all. */
  lemma RisingOctantsEmpty(o: Octant, origin: Pos, depth: nat)
    requires !Descending(o) && depth >= 1
    ensures GetTiles(o, origin, depth) == []
  {
  }

  /** The four descending octants yield exactly the row `depth` of the same
      octant in the table of src/lib.rs, each cell at Chebyshev distance
      `depth`. */
  lemma DescendingOctantRow(o: Octant, origin: Pos, depth: nat, p: Pos)
    requires Descending(o)
    ensures p in GetTiles(o, origin, depth) <==> p in LibProperties.RowCells(o, origin, depth, depth)
    ensures p in GetTiles(o, origin, depth) ==> Chebyshev(origin, p) == depth
  {
    var r := GetTiles(o, origin, depth);
    if p in r {
      var j :| 0 <= j < |r| && r[j] == p;
      DescendingTile(o, origin, depth, j);
      WorldCoordinateDistance(o, origin, depth - j, depth);
    }
    if p in LibProperties.RowCells(o, origin, depth, depth) {
      var i :| 0 <= i <= depth && WorldCoordinate(o, origin, i, depth) == p;
      DescendingTile(o, origin, depth, depth - i);
    }
  }

  /** Tile j of a descending octant is column depth - j of the same octant
      in src/lib.rs. */
  lemma DescendingTile(o: Octant, origin: Pos, depth: nat, j: int)
    requires Descending(o) && 0 <= j <= depth
    ensures GetTiles(o, origin, depth)[j] == WorldCoordinate(o, origin, depth - j, depth)
  {
    assert GetTiles(o, origin, depth)[j] == TileAt(o, origin, j - depth, depth);
  }

  class ShadowCasting {
    const origin: Pos
    var tileStateMap: map<Pos, TileState>

    /** `new`: inserts every entry in order. */
    constructor (startX: int, startY: int, tiles: seq<TileEntry>)
      ensures origin == (startX, startY)
      ensures tileStateMap == StateMap(tiles)
    {
      var m: map<Pos, TileState> := map[];
      for k := 0 to |tiles|
        invariant m == StateMap(tiles[..k])
      {
        assert tiles[..k + 1][..k] == tiles[..k];
        var (x, y, blocking) := tiles[k];
        m := m[(x, y) := TileState(false, blocking)];
      }
      assert tiles[..|tiles|] == tiles;
      origin := (startX, startY);
      tileStateMap := m;
    }

    /** `scan`: `scan_octant` from depth 1 for every octant; the map is
        left as it was. */
    method Scan()
      modifies this
      ensures tileStateMap == old(tileStateMap)
    {
      var octants := AllOctants();
      for k := 0 to |octants|
        invariant tileStateMap == old(tileStateMap)
      {
        ScanOctant(octants[k], 1, 1.0, 0.0);
      }
    }

    /** `scan_octant`: walks the tiles of the row and changes nothing. */
    method ScanOctant(octant: Octant, depth: nat, startSlope: real, endSlope: real)
      modifies this
      ensures tileStateMap == old(tileStateMap)
    {
      var tiles := GetTiles(octant, origin, depth);
      for k := 0 to |tiles| {
      }
    }

    /** `tile_blocks_view`: the stored flag; false for an absent tile. */
    function TileBlocksView(tile: Pos): (r: bool)
      reads this
      ensures tile !in tileStateMap ==> !r
      ensures tile in tileStateMap ==> r == tileStateMap[tile].blocking
    {
      if tile in tileStateMap then tileStateMap[tile].blocking else false
    }
  }

  /** The last entry for a place wins: a tile listed with no later entry
      for the same place holds that entry's blocking flag. */
  lemma {:induction false} LastEntryWins(tiles: seq<TileEntry>, j: nat)
    requires j < |tiles|
    requires forall k :: j < k < |tiles| ==> Key(tiles[k]) != Key(tiles[j])
    ensures StateMap(tiles)[Key(tiles[j])] == TileState(false, tiles[j].2)
    decreases |tiles|
  {
    var prefix := tiles[..|tiles| - 1];
    if j < |tiles| - 1 {
      assert prefix[j] == tiles[j];
      forall k | j < k < |prefix|
        ensures Key(prefix[k]) != Key(prefix[j])
      {
        assert prefix[k] == tiles[k];
      }
      LastEntryWins(prefix, j);
    }
  }
}
