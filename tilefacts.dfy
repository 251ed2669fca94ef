/**
 * What the tilemap's queries, `extract` and `autotile` promise, proved about
 * the definitions in `Tiles`.
 */
module TileFacts {
  import opened Common
  import opened Geometry
  import opened Tiles

  // ------------------------------------------------------------ pixel to cell

  /** On whole pixels the cell is the floor quotient: pixel (-1, -1) is in cell (-1, -1), not (0, 0). */
  lemma CellAtIntegerPixel(tm: Tilemap, x: int, y: int)
    requires tm.tileSize > 0
    ensures tm.CellAt(Vec(x as real, y as real)) == (x / tm.tileSize, y / tm.tileSize)
  {
    FloorDivOfInteger(x, tm.tileSize);
    FloorDivOfInteger(y, tm.tileSize);
  }

  /** The worked example of `tiles_around`: with 16-pixel tiles pixel (-1, -1) lies in cell (-1, -1). */
  lemma NegativePixelCell(tm: Tilemap)
    requires tm.tileSize == 16
    ensures tm.CellAt(Vec(-1.0, -1.0)) == (-1, -1)
    ensures Trunc(-1.0 / 16.0) == 0
  {
    CellAtIntegerPixel(tm, -1, -1);
  }

  // --------------------------------------------------------------- neighbours

  /** A tile is gathered exactly when it is stored under one of the offset cells. */
  lemma {:induction false} GatherMembers(m: map<Cell, GridTile>, c: Cell, offsets: seq<(int, int)>, t: GridTile)
    ensures t in Gather(m, c, offsets) <==>
      exists i :: 0 <= i < |offsets| && Shift(c, offsets[i]) in m && m[Shift(c, offsets[i])] == t
    decreases |offsets|
  {
    if offsets != [] {
      var rest := offsets[1..];
      GatherMembers(m, c, rest, t);
      if t in Gather(m, c, rest) {
        var i :| 0 <= i < |rest| && Shift(c, rest[i]) in m && m[Shift(c, rest[i])] == t;
        assert offsets[i + 1] == rest[i];
      }
      if exists i :: 0 <= i < |offsets| && Shift(c, offsets[i]) in m && m[Shift(c, offsets[i])] == t {
        var i :| 0 <= i < |offsets| && Shift(c, offsets[i]) in m && m[Shift(c, offsets[i])] == t;
        if i > 0 {
          assert rest[i - 1] == offsets[i];
        }
      }
    }
  }

  /** Gathering over two runs of offsets lists the first run's tiles before the second's. */
  lemma {:induction false} GatherAppend(m: map<Cell, GridTile>, c: Cell, a: seq<(int, int)>, b: seq<(int, int)>)
    ensures Gather(m, c, a + b) == Gather(m, c, a) + Gather(m, c, b)
    decreases |a|
  {
    if a == [] {
      assert a + b == b;
    } else {
      assert (a + b)[0] == a[0] && (a + b)[1..] == a[1..] + b;
      GatherAppend(m, c, a[1..], b);
    }
  }

  /** When every offset cell is stored, the result has one tile per offset, in offset order. */
  lemma {:induction false} GatherAll(m: map<Cell, GridTile>, c: Cell, offsets: seq<(int, int)>)
    requires forall i :: 0 <= i < |offsets| ==> Shift(c, offsets[i]) in m
    ensures |Gather(m, c, offsets)| == |offsets|
    ensures forall i :: 0 <= i < |offsets| ==> Gather(m, c, offsets)[i] == m[Shift(c, offsets[i])]
    decreases |offsets|
  {
    if offsets != [] {
      GatherAll(m, c, offsets[1..]);
    }
  }

  /** Every tile `tiles_around` returns is stored at its own cell, within one cell of the pixel's cell. */
  lemma TilesAroundBounded(tm: Tilemap, pos: Vec, t: GridTile)
    requires tm.Valid()
    requires t in tm.TilesAround(pos)
    ensures t.pos in tm.tilemap && tm.tilemap[t.pos] == t
    ensures var c := tm.CellAt(pos); -1 <= t.pos.0 - c.0 <= 1 && -1 <= t.pos.1 - c.1 <= 1
  {
    var c := tm.CellAt(pos);
    GatherMembers(tm.tilemap, c, NeighborOffsets, t);
    var i :| 0 <= i < 9 && Shift(c, NeighborOffsets[i]) in tm.tilemap && tm.tilemap[Shift(c, NeighborOffsets[i])] == t;
    assert -1 <= NeighborOffsets[i].0 <= 1 && -1 <= NeighborOffsets[i].1 <= 1;
  }

  /** Every stored tile of the 3x3 block around the pixel's cell is returned. */
  lemma TilesAroundComplete(tm: Tilemap, pos: Vec, d: Cell)
    requires tm.tileSize > 0
    requires d in tm.tilemap
    requires var c := tm.CellAt(pos); -1 <= d.0 - c.0 <= 1 && -1 <= d.1 - c.1 <= 1
    ensures tm.tilemap[d] in tm.TilesAround(pos)
  {
    var c := tm.CellAt(pos);
    var o := (d.0 - c.0, d.1 - c.1);
    var i :=
      if o == (-1, 0) then 0 else if o == (-1, -1) then 1 else if o == (0, -1) then 2
      else if o == (1, -1) then 3 else if o == (1, 0) then 4 else if o == (0, 0) then 5
      else if o == (-1, 1) then 6 else if o == (0, 1) then 7 else 8;
    assert NeighborOffsets[i] == o && Shift(c, o) == d;
    GatherMembers(tm.tilemap, c, NeighborOffsets, tm.tilemap[d]);
  }

  /** With all nine cells stored, `tiles_around` returns nine tiles in `NEIGHBOR_OFFSETS` order. */
  lemma TilesAroundFull(tm: Tilemap, pos: Vec)
    requires tm.tileSize > 0
    requires forall i :: 0 <= i < 9 ==> Shift(tm.CellAt(pos), NeighborOffsets[i]) in tm.tilemap
    ensures |tm.TilesAround(pos)| == 9
    ensures forall i :: 0 <= i < 9 ==> tm.TilesAround(pos)[i] == tm.tilemap[Shift(tm.CellAt(pos), NeighborOffsets[i])]
  {
    GatherAll(tm.tilemap, tm.CellAt(pos), NeighborOffsets);
  }

  /** `solid_check` finds the centre entry of `tiles_around`, when that entry is solid. */
  lemma SolidCheckIsCentre(tm: Tilemap, pos: Vec)
    requires tm.tileSize > 0
    ensures tm.SolidCheck(pos).Some? ==> IsSolid(tm.SolidCheck(pos).value) && tm.SolidCheck(pos).value in tm.TilesAround(pos)
  {
    var c := tm.CellAt(pos);
    if c in tm.tilemap {
      assert NeighborOffsets[5] == (0, 0) && Shift(c, (0, 0)) == c;
      GatherMembers(tm.tilemap, c, NeighborOffsets, tm.tilemap[c]);
    }
  }

  // ---------------------------------------------------------------- rectangles

  /** `SolidTiles` keeps exactly the solid tiles of its input. */
  lemma {:induction false} SolidTilesMembers(tiles: seq<GridTile>, t: GridTile)
    ensures t in SolidTiles(tiles) <==> t in tiles && IsSolid(t)
    decreases |tiles|
  {
    if tiles != [] {
      SolidTilesMembers(tiles[1..], t);
      assert tiles == [tiles[0]] + tiles[1..];
    }
  }

  /** One tile-sized square per solid tile, in the order of the solid tiles. */
  lemma {:induction false} SolidRectsOfTiles(tiles: seq<GridTile>, tileSize: int)
    ensures |SolidRects(tiles, tileSize)| == |SolidTiles(tiles)|
    ensures forall i :: 0 <= i < |SolidTiles(tiles)| ==> SolidRects(tiles, tileSize)[i] == TileRect(SolidTiles(tiles)[i], tileSize)
    decreases |tiles|
  {
    if tiles != [] {
      SolidRectsOfTiles(tiles[1..], tileSize);
    }
  }

  /**
   * `physics_rects_around`: the i-th rectangle is the `tile_size` square at
   * `pos * tile_size` of the i-th solid tile among `tiles_around`; non-solid
   * tiles contribute nothing.
   */
  lemma PhysicsRectsAroundTiles(tm: Tilemap, pos: Vec)
    requires tm.tileSize > 0
    ensures var rs, solid := tm.PhysicsRectsAround(pos), SolidTiles(tm.TilesAround(pos));
      && |rs| == |solid|
      && forall i :: 0 <= i < |rs| ==>
           && solid[i] in tm.TilesAround(pos) && IsSolid(solid[i])
           && rs[i] == Rect(solid[i].pos.0 * tm.tileSize, solid[i].pos.1 * tm.tileSize, tm.tileSize, tm.tileSize)
  {
    var around := tm.TilesAround(pos);
    SolidRectsOfTiles(around, tm.tileSize);
    forall i | 0 <= i < |SolidTiles(around)| ensures SolidTiles(around)[i] in around && IsSolid(SolidTiles(around)[i]) {
      SolidTilesMembers(around, SolidTiles(around)[i]);
    }
  }

  // ------------------------------------------------------------------- extract

  /** The off-grid list splits into the matches and the rest: nothing lost, nothing doubled. */
  lemma {:induction false} OffgridPartition(s: seq<OffgridTile>, idPairs: seq<(TileType, int)>)
    ensures multiset(OffgridMatches(s, idPairs)) + multiset(OffgridRest(s, idPairs)) == multiset(s)
    ensures forall t :: t in OffgridMatches(s, idPairs) ==> Matches(t.kind, t.variant, idPairs)
    ensures forall t :: t in OffgridRest(s, idPairs) ==> !Matches(t.kind, t.variant, idPairs)
    decreases |s|
  {
    if s != [] {
      var init, t := s[..|s| - 1], s[|s| - 1];
      OffgridPartition(init, idPairs);
      assert s == init + [t];
    }
  }

  /**
   * The grid part of `extract`'s result holds exactly the matching grid tiles,
   * with the cell they are stored under multiplied by the tile size.
   */
  lemma {:induction false} GridMatchesMembers(order: seq<Cell>, m: map<Cell, GridTile>, idPairs: seq<(TileType, int)>, tileSize: int, x: OffgridTile)
    requires KeysMatch(m)
    requires forall i :: 0 <= i < |order| ==> order[i] in m
    ensures x in GridMatches(order, m, idPairs, tileSize) <==>
      exists i :: 0 <= i < |order| && Matches(m[order[i]].kind, m[order[i]].variant, idPairs)
        && x == OffgridTile(m[order[i]].kind, m[order[i]].variant, Vec((order[i].0 * tileSize) as real, (order[i].1 * tileSize) as real))
    decreases |order|
  {
    if order != [] {
      var init := order[..|order| - 1];
      var n := |order| - 1;
      GridMatchesMembers(init, m, idPairs, tileSize, x);
      assert forall i :: 0 <= i < n ==> init[i] == order[i];
      assert m[order[n]].pos == order[n];
    }
  }

  // ------------------------------------------------------------------ autotile

  /** `autotile` keeps every key, type and cell; a changed tile is a grass or stone tile with a table pattern. */
  lemma AutotiledOnlyVariants(m: map<Cell, GridTile>)
    ensures Autotiled(m).Keys == m.Keys
    ensures forall k :: k in m ==> Autotiled(m)[k].kind == m[k].kind && Autotiled(m)[k].pos == m[k].pos
    ensures forall k :: k in m && Autotiled(m)[k] != m[k] ==>
      var n := NeighborSet(m, m[k], AutotileShifts);
      m[k].kind in AutotileTypes && n in AutotileMap() && Autotiled(m)[k].variant == AutotileMap()[n]
  {
  }

  /** A second `autotile` changes nothing: the rewrite reads types and cells only, which the first keeps. */
  lemma AutotileIdempotent(m: map<Cell, GridTile>)
    ensures Autotiled(Autotiled(m)) == Autotiled(m)
  {
    var a := Autotiled(m);
    assert SameKinds(a, m);
    forall k | k in a ensures Retile(a, a[k]) == a[k] {
      NeighborSetOnlyReadsKinds(a, m, a[k], m[k], AutotileShifts);
    }
  }

  /** The neighbour set of the four shifts, spelled out. */
  lemma NeighborSetOfShifts(m: map<Cell, GridTile>, t: GridTile)
    ensures NeighborSet(m, t, AutotileShifts) ==
      (if SameKindAt(m, t, (1, 0)) then {(1, 0)} else {})
      + (if SameKindAt(m, t, (-1, 0)) then {(-1, 0)} else {})
      + (if SameKindAt(m, t, (0, -1)) then {(0, -1)} else {})
      + (if SameKindAt(m, t, (0, 1)) then {(0, 1)} else {})
  {
    var s := AutotileShifts;
    assert s[..3] == [(1, 0), (-1, 0), (0, -1)] && s[..3][..2] == [(1, 0), (-1, 0)];
    assert s[..3][..2][..1] == [(1, 0)] && s[..3][..2][..1][..0] == [];
    var n0 := NeighborSet(m, t, []);
    var n1 := NeighborSet(m, t, [(1, 0)]);
    var n2 := NeighborSet(m, t, [(1, 0), (-1, 0)]);
    var n3 := NeighborSet(m, t, [(1, 0), (-1, 0), (0, -1)]);
    assert n1 == n0 + (if SameKindAt(m, t, (1, 0)) then {(1, 0)} else {});
    assert n2 == n1 + (if SameKindAt(m, t, (-1, 0)) then {(-1, 0)} else {});
    assert n3 == n2 + (if SameKindAt(m, t, (0, -1)) then {(0, -1)} else {});
    assert NeighborSet(m, t, s) == n3 + (if SameKindAt(m, t, (0, 1)) then {(0, 1)} else {});
  }

  /** A grass or stone tile with same-type tiles on all four sides (the centre of a plus) gets variant 8. */
  lemma PlusClusterCentre(m: map<Cell, GridTile>, c: Cell)
    requires c in m && m[c].kind in AutotileTypes
    requires forall i :: 0 <= i < 4 ==> SameKindAt(m, m[c], AutotileShifts[i])
    ensures Autotiled(m)[c].variant == 8
  {
    NeighborSetOfShifts(m, m[c]);
    assert SameKindAt(m, m[c], AutotileShifts[0]) && SameKindAt(m, m[c], AutotileShifts[1]);
    assert SameKindAt(m, m[c], AutotileShifts[2]) && SameKindAt(m, m[c], AutotileShifts[3]);
    assert NeighborSet(m, m[c], AutotileShifts) == {(1, 0), (-1, 0), (0, 1), (0, -1)};
  }

  /**
   * Neighbour patterns that have no entry in the table leave the tile as it is:
   * no same-type neighbour, a single one, only left and right, only up and down.
   */
  lemma UnlistedPatternsKeepTile(m: map<Cell, GridTile>, c: Cell)
    requires c in m
    requires var n := NeighborSet(m, m[c], AutotileShifts);
      || n == {}
      || n == {(1, 0)} || n == {(-1, 0)} || n == {(0, -1)} || n == {(0, 1)}
      || n == {(1, 0), (-1, 0)}
      || n == {(0, -1), (0, 1)}
    ensures Autotiled(m)[c] == m[c]
  {
    var n := NeighborSet(m, m[c], AutotileShifts);
    assert n !in AutotileMap();
  }

  /** Every variant `autotile` writes is one of the table's values 0..8. */
  lemma AutotileVariantRange(m: map<Cell, GridTile>, k: Cell)
    requires k in m
    ensures Autotiled(m)[k] == m[k] || 0 <= Autotiled(m)[k].variant <= 8
  {
  }
}
