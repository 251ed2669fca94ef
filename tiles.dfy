/**
 * The tilemap: a sparse dictionary of grid tiles, an ordered list of off-grid
 * decoration tiles, and the pixel edge length of a cell. Spatial queries map a
 * pixel to its cell by floor division; `Extract` pulls matching tiles out in
 * pixel space; `Autotile` rewrites variants by a rule table.
 *
 * The program keys its dictionary by the string `str(x) + ';' + str(y)`.
 * `CellKeys.KeyRoundTrip` shows that string names exactly one cell and is read
 * back to it, so the dictionary here is keyed by the cell itself: the two
 * dictionaries have the same entries, lookups and deletions.
 */
module Tiles {
  import opened Common
  import opened Geometry

  /** The tile types of the asset table (`decor`, `grass`, `large_decor`, `stone`, `spawners`). */
  datatype TileType = Decor | Grass | LargeDecor | Stone | Spawners

  type Cell = (int, int)

  /** A tile on the grid; `pos` is its integer cell. */
  datatype GridTile = GridTile(kind: TileType, variant: int, pos: Cell)

  /** A tile placed at a free pixel position (also the shape `extract` returns). */
  datatype OffgridTile = OffgridTile(kind: TileType, variant: int, pos: Vec)

  /** CPython's RuntimeError "dictionary changed size during iteration". */
  datatype ExtractError = DictionaryChangedSize

  /** The 3x3 scan order of `tiles_around`: left, upper-left, up, upper-right, right, centre, lower-left, down, lower-right. */
  const NeighborOffsets: seq<(int, int)> := [(-1, 0), (-1, -1), (0, -1), (1, -1), (1, 0), (0, 0), (-1, 1), (0, 1), (1, 1)]

  /** Tile types that collide. */
  const PhysicsTiles: set<TileType> := {Grass, Stone}

  /** Tile types whose variant `autotile` may rewrite. */
  const AutotileTypes: set<TileType> := {Grass, Stone}

  /** The four-neighbour shifts `autotile` probes: right, left, up, down. */
  const AutotileShifts: seq<(int, int)> := [(1, 0), (-1, 0), (0, -1), (0, 1)]

  /**
   * The autotile rule table. The program keys it by the sorted tuple of the
   * neighbour set; a sorted tuple of a set determines the set and back, so the
   * table is keyed by the set itself.
   */
  function AutotileMap(): map<set<(int, int)>, int>
  {
    map[
      {(1, 0), (0, 1)} := 0,
      {(1, 0), (0, 1), (-1, 0)} := 1,
      {(-1, 0), (0, 1)} := 2,
      {(-1, 0), (0, -1), (0, 1)} := 3,
      {(-1, 0), (0, -1)} := 4,
      {(-1, 0), (0, -1), (1, 0)} := 5,
      {(1, 0), (0, -1)} := 6,
      {(1, 0), (0, -1), (0, 1)} := 7,
      {(1, 0), (-1, 0), (0, 1), (0, -1)} := 8
    ]
  }

  function Shift(c: Cell, o: (int, int)): Cell { (c.0 + o.0, c.1 + o.1) }

  /** The grid invariant: every stored tile sits at the cell it is stored under. */
  ghost predicate KeysMatch(m: map<Cell, GridTile>)
  {
    forall c :: c in m ==> m[c].pos == c
  }

  /** Positions `i` and `j` of `order` hold different cells. */
  ghost predicate Apart(order: seq<Cell>, i: int, j: int)
    requires 0 <= i < |order| && 0 <= j < |order|
  {
    order[i] != order[j]
  }

  /** `order` lists every key of the dictionary exactly once (Python's insertion order). */
  ghost predicate Enumerates(order: seq<Cell>, keys: set<Cell>)
  {
    && (forall i :: 0 <= i < |order| ==> order[i] in keys)
    && (forall k :: k in keys ==> k in order)
    && (forall i, j :: 0 <= i < j < |order| ==> Apart(order, i, j))
  }

  // ---------------------------------------------------------------- queries

  /** The tiles stored at `c + o` for each offset `o`, in offset order. */
  function Gather(m: map<Cell, GridTile>, c: Cell, offsets: seq<(int, int)>): (r: seq<GridTile>)
    ensures |r| <= |offsets|
  {
    if offsets == [] then []
    else
      var k := Shift(c, offsets[0]);
      (if k in m then [m[k]] else []) + Gather(m, c, offsets[1..])
  }

  /** Whether a tile collides. */
  predicate IsSolid(t: GridTile) { t.kind in PhysicsTiles }

  /** The solid tiles of a list, in list order. */
  function SolidTiles(tiles: seq<GridTile>): (r: seq<GridTile>)
    ensures |r| <= |tiles|
  {
    if tiles == [] then []
    else (if IsSolid(tiles[0]) then [tiles[0]] else []) + SolidTiles(tiles[1..])
  }

  /** The pixel-space square a grid tile covers. */
  function TileRect(t: GridTile, tileSize: int): Rect
  {
    Rect(t.pos.0 * tileSize, t.pos.1 * tileSize, tileSize, tileSize)
  }

  /** The loop of `physics_rects_around` over a list of tiles. */
  function SolidRects(tiles: seq<GridTile>, tileSize: int): (r: seq<Rect>)
    ensures |r| <= |tiles|
    ensures forall i :: 0 <= i < |r| ==> r[i].w == tileSize && r[i].h == tileSize
  {
    if tiles == [] then []
    else (if IsSolid(tiles[0]) then [TileRect(tiles[0], tileSize)] else []) + SolidRects(tiles[1..], tileSize)
  }

  // ---------------------------------------------------------------- extract

  predicate Matches(kind: TileType, variant: int, idPairs: seq<(TileType, int)>)
  {
    (kind, variant) in idPairs
  }

  /** The matching off-grid tiles, in list order. */
  function OffgridMatches(s: seq<OffgridTile>, idPairs: seq<(TileType, int)>): seq<OffgridTile>
  {
    if s == [] then []
    else
      var t := s[|s| - 1];
      OffgridMatches(s[..|s| - 1], idPairs) + (if Matches(t.kind, t.variant, idPairs) then [t] else [])
  }

  /** The off-grid tiles that do not match, in list order. */
  function OffgridRest(s: seq<OffgridTile>, idPairs: seq<(TileType, int)>): seq<OffgridTile>
  {
    if s == [] then []
    else
      var t := s[|s| - 1];
      OffgridRest(s[..|s| - 1], idPairs) + (if Matches(t.kind, t.variant, idPairs) then [] else [t])
  }

  /** The copy `extract` returns for a grid tile: its cell scaled to pixels. */
  function PixelCopy(t: GridTile, tileSize: int): OffgridTile
  {
    OffgridTile(t.kind, t.variant, Vec((t.pos.0 * tileSize) as real, (t.pos.1 * tileSize) as real))
  }

  /** Pixel copies of the matching grid tiles, visited in dictionary order. */
  function GridMatches(order: seq<Cell>, m: map<Cell, GridTile>, idPairs: seq<(TileType, int)>, tileSize: int): seq<OffgridTile>
    requires forall i :: 0 <= i < |order| ==> order[i] in m
  {
    if order == [] then []
    else
      var t := m[order[|order| - 1]];
      GridMatches(order[..|order| - 1], m, idPairs, tileSize)
        + (if Matches(t.kind, t.variant, idPairs) then [PixelCopy(t, tileSize)] else [])
  }

  /** Position in dictionary order of the first matching grid tile, `|order|` when none matches. */
  function FirstGridMatch(order: seq<Cell>, m: map<Cell, GridTile>, idPairs: seq<(TileType, int)>): (f: nat)
    requires forall i :: 0 <= i < |order| ==> order[i] in m
    ensures f <= |order|
    ensures forall i :: 0 <= i < f ==> !Matches(m[order[i]].kind, m[order[i]].variant, idPairs)
    ensures f < |order| ==> Matches(m[order[f]].kind, m[order[f]].variant, idPairs)
  {
    if order == [] then 0
    else if Matches(m[order[0]].kind, m[order[0]].variant, idPairs) then 0
    else 1 + FirstGridMatch(order[1..], m, idPairs)
  }

  /**
   * The iteration of `extract` over the dictionary: the pixel copies of the
   * matches in order, and where the scan stops. Without `keep` it stops at
   * the first match (the caller deletes that entry), otherwise it runs to the end.
   */
  method VisitGrid(order: seq<Cell>, m: map<Cell, GridTile>, idPairs: seq<(TileType, int)>, tileSize: int, keep: bool)
    returns (matches: seq<OffgridTile>, j: nat)
    requires forall i :: 0 <= i < |order| ==> order[i] in m
    ensures j == if keep then |order| else FirstGridMatch(order, m, idPairs)
    ensures j == |order| ==> matches == GridMatches(order, m, idPairs, tileSize)
  {
    matches := [];
    j := 0;
    while j < |order|
      invariant 0 <= j <= |order|
      invariant matches == GridMatches(order[..j], m, idPairs, tileSize)
      invariant !keep ==> forall k :: 0 <= k < j ==> !Matches(m[order[k]].kind, m[order[k]].variant, idPairs)
    {
      var tile := m[order[j]];
      GridStep(order, m, idPairs, tileSize, j);
      if Matches(tile.kind, tile.variant, idPairs) {
        matches := matches + [PixelCopy(tile, tileSize)];
        if !keep {
          break;
        }
      }
      j := j + 1;
    }
    if !keep {
      FirstGridMatchAt(order, m, idPairs, j);
    }
    assert j == |order| ==> order[..j] == order;
  }

  // --------------------------------------------------------------- autotile

  /** Whether the cell at `t.pos + s` holds a tile of `t`'s own type. */
  predicate SameKindAt(m: map<Cell, GridTile>, t: GridTile, s: (int, int))
  {
    var k := Shift(t.pos, s);
    k in m && m[k].kind == t.kind
  }

  /** The shifts among `shifts` at which a same-type neighbour sits. */
  function NeighborSet(m: map<Cell, GridTile>, t: GridTile, shifts: seq<(int, int)>): set<(int, int)>
  {
    if shifts == [] then {}
    else
      var s := shifts[|shifts| - 1];
      NeighborSet(m, t, shifts[..|shifts| - 1]) + (if SameKindAt(m, t, s) then {s} else {})
  }

  /** The variant rewrite `autotile` applies to one tile, reading the map `m`. */
  function Retile(m: map<Cell, GridTile>, t: GridTile): GridTile
  {
    var n := NeighborSet(m, t, AutotileShifts);
    if t.kind in AutotileTypes && n in AutotileMap() then t.(variant := AutotileMap()[n]) else t
  }

  /** The whole map after `autotile`: every tile rewritten against the original map. */
  function Autotiled(m: map<Cell, GridTile>): (m': map<Cell, GridTile>)
    ensures m'.Keys == m.Keys
    ensures forall k :: k in m ==> m'[k].kind == m[k].kind && m'[k].pos == m[k].pos
  {
    map k | k in m :: Retile(m, m[k])
  }

  /** Same keys, and the same tile type under every key. */
  ghost predicate SameKinds(m: map<Cell, GridTile>, m': map<Cell, GridTile>)
  {
    m.Keys == m'.Keys && forall k :: k in m ==> m[k].kind == m'[k].kind
  }

  /** The inner loop of `autotile`: probe the four shifts, collect those holding a same-type tile. */
  method SameKindNeighbors(m: map<Cell, GridTile>, tile: GridTile) returns (neighbors: set<(int, int)>)
    ensures neighbors == NeighborSet(m, tile, AutotileShifts)
  {
    neighbors := {};
    var s := 0;
    while s < |AutotileShifts|
      invariant 0 <= s <= |AutotileShifts|
      invariant neighbors == NeighborSet(m, tile, AutotileShifts[..s])
    {
      var shift := AutotileShifts[s];
      var checkLoc := Shift(tile.pos, shift);
      assert AutotileShifts[..s + 1][..s] == AutotileShifts[..s];
      if checkLoc in m && m[checkLoc].kind == tile.kind {
        neighbors := neighbors + {shift};
      }
      s := s + 1;
    }
    assert AutotileShifts[..s] == AutotileShifts;
  }

  // -------------------------------------------------------------- documents

  /** The persisted map: the grid dictionary with its key order, the cell size and the off-grid list. */
  datatype MapDocument = MapDocument(tilemap: map<Cell, GridTile>, order: seq<Cell>, tileSize: int, offgrid: seq<OffgridTile>)

  ghost predicate WellFormed(doc: MapDocument)
  {
    doc.tileSize > 0 && KeysMatch(doc.tilemap) && Enumerates(doc.order, doc.tilemap.Keys)
  }

  /** Position of `k` in `order`. */
  function PositionOf(order: seq<Cell>, k: Cell): (i: nat)
    requires k in order
    ensures i < |order| && order[i] == k
  {
    if order[0] == k then 0 else 1 + PositionOf(order[1..], k)
  }

  /** The cell of a pixel for a cell size `tileSize`: floor division of both coordinates. */
  function CellOf(pos: Vec, tileSize: int): (c: Cell)
    requires tileSize > 0
    ensures (c.0 * tileSize) as real <= pos.x < ((c.0 + 1) * tileSize) as real
    ensures (c.1 * tileSize) as real <= pos.y < ((c.1 + 1) * tileSize) as real
  {
    (FloorDiv(pos.x, tileSize), FloorDiv(pos.y, tileSize))
  }

  /** The stored solid tile at a pixel's cell, if any. */
  function SolidAt(m: map<Cell, GridTile>, tileSize: int, pos: Vec): Option<GridTile>
    requires tileSize > 0
  {
    var k := CellOf(pos, tileSize);
    if k in m then
      if m[k].kind in PhysicsTiles then Some(m[k]) else None
    else None
  }

  /** The solid rectangles of the 3x3 block of stored tiles around a pixel, in offset order. */
  function RectsNear(m: map<Cell, GridTile>, tileSize: int, pos: Vec): seq<Rect>
    requires tileSize > 0
  {
    SolidRects(Gather(m, CellOf(pos, tileSize), NeighborOffsets), tileSize)
  }

  class Tilemap {
    var tileSize: int
    var tilemap: map<Cell, GridTile>
    var offgrid: seq<OffgridTile>
    /** The dictionary's iteration order (insertion order in Python). */
    var order: seq<Cell>

    ghost predicate Valid()
      reads this`tileSize, this`tilemap, this`order
    {
      tileSize > 0 && KeysMatch(tilemap) && Enumerates(order, tilemap.Keys)
    }

    constructor (tileSize: int)
      requires tileSize > 0
      ensures Valid()
      ensures this.tileSize == tileSize && tilemap == map[] && offgrid == [] && order == []
    {
      this.tileSize := tileSize;
      tilemap := map[];
      offgrid := [];
      order := [];
    }

    /** The cell holding a pixel: floor division by the cell size, never truncation. */
    function CellAt(pos: Vec): (c: Cell)
      reads this`tileSize
      requires tileSize > 0
      ensures (c.0 * tileSize) as real <= pos.x < ((c.0 + 1) * tileSize) as real
      ensures (c.1 * tileSize) as real <= pos.y < ((c.1 + 1) * tileSize) as real
    {
      CellOf(pos, tileSize)
    }

    /** `tiles_around`: the stored tiles of the 3x3 block around the pixel's cell, in offset order. */
    function TilesAround(pos: Vec): (r: seq<GridTile>)
      reads this`tileSize, this`tilemap
      requires tileSize > 0
      ensures |r| <= 9
    {
      Gather(tilemap, CellAt(pos), NeighborOffsets)
    }

    /** `solid_check`: the tile at the pixel's cell when it exists and is solid. */
    function SolidCheck(pos: Vec): (r: Option<GridTile>)
      reads this`tileSize, this`tilemap
      requires tileSize > 0
      ensures r.Some? <==> CellAt(pos) in tilemap && IsSolid(tilemap[CellAt(pos)])
      ensures r.Some? ==> r.value == tilemap[CellAt(pos)]
    {
      SolidAt(tilemap, tileSize, pos)
    }

    /** `physics_rects_around`: one cell-sized square per solid tile around the pixel. */
    function PhysicsRectsAround(pos: Vec): (rs: seq<Rect>)
      reads this`tileSize, this`tilemap
      requires tileSize > 0
      ensures |rs| <= 9
      ensures forall i :: 0 <= i < |rs| ==> rs[i].w == tileSize && rs[i].h == tileSize
    {
      RectsNear(tilemap, tileSize, pos)
    }

    /**
     * `extract(id_pairs, keep)`. Matching off-grid tiles come first, then pixel
     * copies of the matching grid tiles in dictionary order. Without `keep` the
     * program deletes from the dictionary while iterating over it: the first
     * matching grid entry is deleted and the next step of the iteration raises,
     * so that case ends in `Failure` with just that entry gone.
     */
    method Extract(idPairs: seq<(TileType, int)>, keep: bool) returns (r: Result<seq<OffgridTile>, ExtractError>)
      requires Valid()
      modifies this
      ensures Valid() && tileSize == old(tileSize)
      ensures offgrid == if keep then old(offgrid) else OffgridRest(old(offgrid), idPairs)
      ensures var first := FirstGridMatch(old(order), old(tilemap), idPairs);
        if keep || first == |old(order)| then
          && r == Success(OffgridMatches(old(offgrid), idPairs) + GridMatches(old(order), old(tilemap), idPairs, tileSize))
          && tilemap == old(tilemap) && order == old(order)
        else
          && r == Failure(DictionaryChangedSize)
          && tilemap == old(tilemap) - {old(order)[first]}
          && order == old(order)[..first] + old(order)[first + 1..]
    {
      var matches := ScanOffgrid(idPairs, keep);
      r := ScanGrid(idPairs, keep, matches);
    }

    /** The off-grid half of `extract`: iterate over a copy, remove each match from the live list. */
    method ScanOffgrid(idPairs: seq<(TileType, int)>, keep: bool) returns (matches: seq<OffgridTile>)
      requires Valid()
      modifies this
      ensures Valid() && tileSize == old(tileSize) && tilemap == old(tilemap) && order == old(order)
      ensures matches == OffgridMatches(old(offgrid), idPairs)
      ensures offgrid == if keep then old(offgrid) else OffgridRest(old(offgrid), idPairs)
    {
      matches := [];
      var snapshot := offgrid;
      var i := 0;
      while i < |snapshot|
        invariant 0 <= i <= |snapshot|
        invariant matches == OffgridMatches(snapshot[..i], idPairs)
        invariant keep ==> offgrid == snapshot
        invariant !keep ==> offgrid == OffgridRest(snapshot[..i], idPairs) + snapshot[i..]
        invariant tilemap == old(tilemap) && order == old(order) && tileSize == old(tileSize)
      {
        var tile := snapshot[i];
        ScanStep(snapshot, i, idPairs);
        if Matches(tile.kind, tile.variant, idPairs) {
          matches := matches + [tile];
          if !keep {
            offgrid := RemoveFirst(offgrid, tile);
          }
        }
        i := i + 1;
      }
      assert snapshot[..i] == snapshot;
    }

    /** The grid half of `extract`, appending to the matches found so far. */
    method ScanGrid(idPairs: seq<(TileType, int)>, keep: bool, found: seq<OffgridTile>) returns (r: Result<seq<OffgridTile>, ExtractError>)
      requires Valid()
      modifies this
      ensures Valid() && tileSize == old(tileSize) && offgrid == old(offgrid)
      ensures var first := FirstGridMatch(old(order), old(tilemap), idPairs);
        if keep || first == |old(order)| then
          && r == Success(found + GridMatches(old(order), old(tilemap), idPairs, tileSize))
          && tilemap == old(tilemap) && order == old(order)
        else
          && r == Failure(DictionaryChangedSize)
          && tilemap == old(tilemap) - {old(order)[first]}
          && order == old(order)[..first] + old(order)[first + 1..]
    {
      var matches, j := VisitGrid(order, tilemap, idPairs, tileSize, keep);
      if j < |order| {
        // Deleting here makes the dictionary iterator raise on its next step.
        RemoveEntry(j);
        return Failure(DictionaryChangedSize);
      }
      return Success(found + matches);
    }

    /** `del self.tilemap[order[j]]`: the key leaves the dictionary and its iteration order. */
    method RemoveEntry(j: nat)
      requires Valid() && j < |order|
      modifies this
      ensures Valid() && tileSize == old(tileSize) && offgrid == old(offgrid)
      ensures tilemap == old(tilemap) - {old(order)[j]}
      ensures order == old(order)[..j] + old(order)[j + 1..]
    {
      var loc := order[j];
      EnumeratesRemove(order, tilemap.Keys, j);
      assert (tilemap - {loc}).Keys == tilemap.Keys - {loc};
      tilemap := tilemap - {loc};
      order := order[..j] + order[j + 1..];
    }

    /**
     * `autotile`: every grass or stone tile whose same-type four-neighbour set is
     * a key of the rule table gets that entry as its variant. The loop visits the
     * keys in an arbitrary order and rewrites in place; the result is the same
     * for every order.
     */
    method Autotile()
      requires Valid()
      modifies this
      ensures Valid()
      ensures tilemap == Autotiled(old(tilemap))
      ensures tileSize == old(tileSize) && offgrid == old(offgrid) && order == old(order)
    {
      ghost var m0 := tilemap;
      var todo := tilemap.Keys;
      while todo != {}
        invariant todo <= m0.Keys && tilemap.Keys == m0.Keys
        invariant SameKinds(tilemap, m0)
        invariant forall k :: k in m0 ==> tilemap[k] == if k in todo then m0[k] else Retile(m0, m0[k])
        invariant tileSize == old(tileSize) && offgrid == old(offgrid) && order == old(order)
        decreases |todo|
      {
        var loc :| loc in todo;
        var tile := tilemap[loc];
        var neighbors := SameKindNeighbors(tilemap, tile);
        NeighborSetOnlyReadsKinds(tilemap, m0, tile, tile, AutotileShifts);
        if tile.kind in AutotileTypes && neighbors in AutotileMap() {
          tilemap := tilemap[loc := tile.(variant := AutotileMap()[neighbors])];
        }
        todo := todo - {loc};
      }
      AutotileComplete(m0, tilemap, order);
    }

    /** Editor placement: store a tile at a cell, keeping its key and its `pos` in agreement. */
    method Place(cell: Cell, kind: TileType, variant: int)
      requires Valid()
      modifies this
      ensures Valid()
      ensures tilemap == old(tilemap)[cell := GridTile(kind, variant, cell)]
      ensures order == if cell in old(tilemap) then old(order) else old(order) + [cell]
      ensures tileSize == old(tileSize) && offgrid == old(offgrid)
    {
      if cell !in tilemap {
        EnumeratesAdd(order, tilemap.Keys, cell);
        order := order + [cell];
      }
      tilemap := tilemap[cell := GridTile(kind, variant, cell)];
    }

    /** Editor deletion of the grid tile under a cell, if any. */
    method Delete(cell: Cell)
      requires Valid()
      modifies this
      ensures Valid()
      ensures tilemap == old(tilemap) - {cell}
      ensures order == if cell in old(tilemap)
                       then old(order)[..PositionOf(old(order), cell)] + old(order)[PositionOf(old(order), cell) + 1..]
                       else old(order)
      ensures tileSize == old(tileSize) && offgrid == old(offgrid)
    {
      if cell in tilemap {
        var p := PositionOf(order, cell);
        RemoveEntry(p);
      }
    }

    /** `load`, once the document is parsed: the three fields are replaced. */
    method Load(doc: MapDocument)
      requires WellFormed(doc)
      modifies this
      ensures Valid()
      ensures tilemap == doc.tilemap && order == doc.order && tileSize == doc.tileSize && offgrid == doc.offgrid
    {
      tilemap := doc.tilemap;
      order := doc.order;
      tileSize := doc.tileSize;
      offgrid := doc.offgrid;
    }
  }

  // ------------------------------------------------------------ lemmas used above

  lemma EnumeratesRemove(order: seq<Cell>, keys: set<Cell>, j: nat)
    requires Enumerates(order, keys) && j < |order|
    ensures Enumerates(order[..j] + order[j + 1..], keys - {order[j]})
  {
    var o' := order[..j] + order[j + 1..];
    DropAt(order, j);
    forall i | 0 <= i < |o'| ensures o'[i] in keys - {order[j]} {
      if i < j { assert Apart(order, i, j); } else { assert Apart(order, j, i + 1); }
    }
    forall i, k | 0 <= i < k < |o'| ensures Apart(o', i, k) {
      assert Apart(order, Skip(i, j), Skip(k, j));
    }
    forall k | k in keys - {order[j]} ensures k in o' {
      var p :| 0 <= p < |order| && order[p] == k;
      if p < j { assert o'[p] == k; } else { assert o'[p - 1] == k; }
    }
  }

  /** The index in the original list of position `i` after the entry at `j` is dropped. */
  function Skip(i: int, j: int): int { if i < j then i else i + 1 }

  lemma DropAt(order: seq<Cell>, j: nat)
    requires j < |order|
    ensures var o' := order[..j] + order[j + 1..];
      |o'| == |order| - 1 && forall i :: 0 <= i < |o'| ==> o'[i] == order[Skip(i, j)]
  {
  }

  lemma EnumeratesAdd(order: seq<Cell>, keys: set<Cell>, c: Cell)
    requires Enumerates(order, keys) && c !in keys
    ensures Enumerates(order + [c], keys + {c})
  {
    var o' := order + [c];
    forall i, k | 0 <= i < k < |o'| ensures Apart(o', i, k) {
      if k < |order| { assert Apart(order, i, k); } else { assert order[i] in keys; }
    }
  }

  lemma SplitAt<X>(s: seq<X>, i: nat)
    requires i < |s|
    ensures s[..i + 1] == s[..i] + [s[i]]
    ensures s[i..] == [s[i]] + s[i + 1..]
  {
  }

  lemma OffgridStep(done: seq<OffgridTile>, t: OffgridTile, idPairs: seq<(TileType, int)>)
    ensures OffgridMatches(done + [t], idPairs) == OffgridMatches(done, idPairs) + (if Matches(t.kind, t.variant, idPairs) then [t] else [])
    ensures OffgridRest(done + [t], idPairs) == OffgridRest(done, idPairs) + (if Matches(t.kind, t.variant, idPairs) then [] else [t])
  {
    assert (done + [t])[..|done|] == done;
  }

  /** One step of the off-grid scan, stated on the list as it stands before the step. */
  lemma ScanStep(snapshot: seq<OffgridTile>, i: nat, idPairs: seq<(TileType, int)>)
    requires i < |snapshot|
    ensures var t := snapshot[i];
      && OffgridMatches(snapshot[..i + 1], idPairs) == OffgridMatches(snapshot[..i], idPairs) + (if Matches(t.kind, t.variant, idPairs) then [t] else [])
      && (Matches(t.kind, t.variant, idPairs) ==>
            RemoveFirst(OffgridRest(snapshot[..i], idPairs) + snapshot[i..], t) == OffgridRest(snapshot[..i + 1], idPairs) + snapshot[i + 1..])
      && (!Matches(t.kind, t.variant, idPairs) ==>
            OffgridRest(snapshot[..i], idPairs) + snapshot[i..] == OffgridRest(snapshot[..i + 1], idPairs) + snapshot[i + 1..])
  {
    var t := snapshot[i];
    SplitAt(snapshot, i);
    OffgridStep(snapshot[..i], t, idPairs);
    if Matches(t.kind, t.variant, idPairs) {
      RestHasNoMatch(snapshot[..i], idPairs, t);
      RemoveFirstSplit(OffgridRest(snapshot[..i], idPairs), t, snapshot[i + 1..]);
      assert OffgridRest(snapshot[..i], idPairs) + snapshot[i..] == OffgridRest(snapshot[..i], idPairs) + [t] + snapshot[i + 1..];
    } else {
      assert OffgridRest(snapshot[..i], idPairs) + snapshot[i..] == (OffgridRest(snapshot[..i], idPairs) + [t]) + snapshot[i + 1..];
    }
  }

  /** One step of the grid scan. */
  lemma GridStep(order: seq<Cell>, m: map<Cell, GridTile>, idPairs: seq<(TileType, int)>, tileSize: int, j: nat)
    requires forall i :: 0 <= i < |order| ==> order[i] in m
    requires j < |order|
    ensures var t := m[order[j]];
      GridMatches(order[..j + 1], m, idPairs, tileSize)
        == GridMatches(order[..j], m, idPairs, tileSize) + (if Matches(t.kind, t.variant, idPairs) then [PixelCopy(t, tileSize)] else [])
  {
    assert order[..j + 1][..j] == order[..j];
  }

  /** A scan that met no match before position `j` and meets one at `j` (or ends there) found the first match. */
  lemma FirstGridMatchAt(order: seq<Cell>, m: map<Cell, GridTile>, idPairs: seq<(TileType, int)>, j: nat)
    requires forall i :: 0 <= i < |order| ==> order[i] in m
    requires j <= |order|
    requires forall k :: 0 <= k < j ==> !Matches(m[order[k]].kind, m[order[k]].variant, idPairs)
    requires j < |order| ==> Matches(m[order[j]].kind, m[order[j]].variant, idPairs)
    ensures FirstGridMatch(order, m, idPairs) == j
  {
  }

  lemma {:induction false} RestHasNoMatch(s: seq<OffgridTile>, idPairs: seq<(TileType, int)>, t: OffgridTile)
    requires Matches(t.kind, t.variant, idPairs)
    ensures t !in OffgridRest(s, idPairs)
    decreases |s|
  {
    if s != [] {
      RestHasNoMatch(s[..|s| - 1], idPairs, t);
    }
  }

  /** The neighbour set reads only the keys and types of the map, and only the type and cell of the tile. */
  lemma {:induction false} NeighborSetOnlyReadsKinds(m: map<Cell, GridTile>, m': map<Cell, GridTile>, t: GridTile, t': GridTile, shifts: seq<(int, int)>)
    requires SameKinds(m, m') && t.kind == t'.kind && t.pos == t'.pos
    ensures NeighborSet(m, t, shifts) == NeighborSet(m', t', shifts)
    decreases |shifts|
  {
    if shifts != [] {
      NeighborSetOnlyReadsKinds(m, m', t, t', shifts[..|shifts| - 1]);
    }
  }

  /** Once every key is rewritten, the map is `Autotiled` of the original, and still consistent. */
  lemma AutotileComplete(m0: map<Cell, GridTile>, m: map<Cell, GridTile>, order: seq<Cell>)
    requires KeysMatch(m0) && Enumerates(order, m0.Keys)
    requires m.Keys == m0.Keys && forall k :: k in m0 ==> m[k] == Retile(m0, m0[k])
    ensures m == Autotiled(m0)
    ensures KeysMatch(m) && Enumerates(order, m.Keys)
  {
  }
}
