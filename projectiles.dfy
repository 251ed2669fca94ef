/**
 * The projectile rules of the game loop: each tick a projectile moves by its
 * direction and ages by one, then it is removed when it is inside a solid
 * tile, removed when older than 360 ticks, removed and counted as a hit when
 * it is inside a player who is not dashing, and otherwise kept.
 */
module Projectiles {
  import opened Common
  import opened Geometry
  import opened Tiles
  import opened Players
  import opened Enemies

  /** What happens to a projectile this tick; the tests are made in this order. */
  datatype Fate = Wall | Expired | Hit | Flying

  /** Ticks a projectile lives. */
  const Lifetime := 360

  /** The move of one tick: `direction` pixels horizontally, one tick older. */
  function Advance(p: Projectile): (q: Projectile)
    ensures q.pos == Vec(p.pos.x + p.direction, p.pos.y)
    ensures q.direction == p.direction && q.timer == p.timer + 1
  {
    p.(pos := Vec(p.pos.x + p.direction, p.pos.y), timer := p.timer + 1)
  }

  /**
   * The fate of an advanced projectile: a solid tile at its position comes
   * first, then its age, then the player's rectangle, which a dash counter of
   * 50 or more makes the projectile pass through.
   */
  function FateOf(p: Projectile, grid: map<Cell, GridTile>, tileSize: int, player: Rect, dashing: int): (f: Fate)
    requires tileSize > 0
    ensures f == Wall <==> SolidAt(grid, tileSize, p.pos).Some?
    ensures f == Expired <==> SolidAt(grid, tileSize, p.pos).None? && p.timer > Lifetime
    ensures f == Hit <==> SolidAt(grid, tileSize, p.pos).None? && p.timer <= Lifetime && Abs(dashing) < 50 && ContainsPoint(player, p.pos)
  {
    if SolidAt(grid, tileSize, p.pos).Some? then Wall
    else if p.timer > Lifetime then Expired
    else if Abs(dashing) < 50 && ContainsPoint(player, p.pos) then Hit
    else Flying
  }

  /** The outcome of one tick for a list of projectiles: the survivors, advanced, and how many hit a wall or the player. */
  datatype Volley = Volley(kept: seq<Projectile>, walls: nat, hits: nat)

  /** The projectile pass over `ps`, in list order. */
  function Fly(ps: seq<Projectile>, grid: map<Cell, GridTile>, tileSize: int, player: Rect, dashing: int): (v: Volley)
    requires tileSize > 0
    ensures |v.kept| + v.walls + v.hits <= |ps|
    decreases |ps|
  {
    if ps == [] then Volley([], 0, 0)
    else
      var v := Fly(ps[..|ps| - 1], grid, tileSize, player, dashing);
      var p := Advance(ps[|ps| - 1]);
      match FateOf(p, grid, tileSize, player, dashing)
      case Wall => v.(walls := v.walls + 1)
      case Expired => v
      case Hit => v.(hits := v.hits + 1)
      case Flying => v.(kept := v.kept + [p])
  }

  /** The projectiles that fly on among the first `n` of `ps`, advanced. */
  ghost predicate FliesOn(ps: seq<Projectile>, n: nat, grid: map<Cell, GridTile>, tileSize: int, player: Rect, dashing: int, q: Projectile)
    requires tileSize > 0 && n <= |ps|
  {
    exists j :: 0 <= j < n && q == Advance(ps[j]) && FateOf(q, grid, tileSize, player, dashing) == Flying
  }

  /** Every projectile `Fly` keeps is an advanced one of the list whose fate is to fly on, and each such one is kept. */
  lemma {:induction false} FlyKept(ps: seq<Projectile>, grid: map<Cell, GridTile>, tileSize: int, player: Rect, dashing: int, q: Projectile)
    requires tileSize > 0
    ensures q in Fly(ps, grid, tileSize, player, dashing).kept <==> FliesOn(ps, |ps|, grid, tileSize, player, dashing, q)
    decreases |ps|
  {
    if ps != [] {
      var n := |ps| - 1;
      FlyKept(ps[..n], grid, tileSize, player, dashing, q);
      FliesOnPrefix(ps, n, grid, tileSize, player, dashing, q);
    }
  }

  /** Flying on among the first `n + 1` is flying on among the first `n`, or being the next one and flying on. */
  lemma FliesOnPrefix(ps: seq<Projectile>, n: nat, grid: map<Cell, GridTile>, tileSize: int, player: Rect, dashing: int, q: Projectile)
    requires tileSize > 0 && n < |ps|
    ensures FliesOn(ps, n + 1, grid, tileSize, player, dashing, q) <==>
      FliesOn(ps[..n], n, grid, tileSize, player, dashing, q)
      || (q == Advance(ps[n]) && FateOf(q, grid, tileSize, player, dashing) == Flying)
  {
    if FliesOn(ps, n + 1, grid, tileSize, player, dashing, q) {
      var j :| 0 <= j < n + 1 && q == Advance(ps[j]) && FateOf(q, grid, tileSize, player, dashing) == Flying;
      if j < n {
        assert ps[..n][j] == ps[j];
      }
    }
    if FliesOn(ps[..n], n, grid, tileSize, player, dashing, q) {
      var j :| 0 <= j < n && q == Advance(ps[..n][j]) && FateOf(q, grid, tileSize, player, dashing) == Flying;
      assert ps[..n][j] == ps[j];
    }
  }

  /** A kept projectile flies on: it is in no solid tile, not past its lifetime, and not stopped by the player. */
  lemma FlyKeptFlies(ps: seq<Projectile>, grid: map<Cell, GridTile>, tileSize: int, player: Rect, dashing: int, q: Projectile)
    requires tileSize > 0 && q in Fly(ps, grid, tileSize, player, dashing).kept
    ensures FateOf(q, grid, tileSize, player, dashing) == Flying
    ensures SolidAt(grid, tileSize, q.pos).None? && q.timer <= Lifetime
    ensures Abs(dashing) < 50 ==> !ContainsPoint(player, q.pos)
  {
    FlyKept(ps, grid, tileSize, player, dashing, q);
  }

  /** With a dash counter of 50 or more no projectile hits the player. */
  lemma {:induction false} FlyDashing(ps: seq<Projectile>, grid: map<Cell, GridTile>, tileSize: int, player: Rect, dashing: int)
    requires tileSize > 0 && Abs(dashing) >= 50
    ensures Fly(ps, grid, tileSize, player, dashing).hits == 0
    decreases |ps|
  {
    if ps != [] {
      FlyDashing(ps[..|ps| - 1], grid, tileSize, player, dashing);
    }
  }

  /** The loop state after the first `i` projectiles: their survivors, advanced, then the rest as they were. */
  ghost predicate Flown(ps: seq<Projectile>, i: nat, grid: map<Cell, GridTile>, tileSize: int, player: Rect, dashing: int,
                        live: seq<Projectile>, walls: nat, hits: nat)
    requires tileSize > 0
  {
    && i <= |ps| && |live| >= |ps| - i
    && Fly(ps[..i], grid, tileSize, player, dashing) == Volley(live[..|live| - (|ps| - i)], walls, hits)
    && live[|live| - (|ps| - i)..] == ps[i..]
  }

  /**
   * The projectile loop of `run` over a copy of the list. The current
   * projectile, which stands right after the survivors in the live list, is
   * advanced in place; it is then removed from the list by value when its fate
   * is a wall, its age or the player.
   */
  method FlyPass(ps: seq<Projectile>, tm: Tilemap, player: Rect, dashing: int) returns (live: seq<Projectile>, walls: nat, hits: nat)
    requires tm.tileSize > 0
    ensures Volley(live, walls, hits) == Fly(ps, tm.tilemap, tm.tileSize, player, dashing)
  {
    live, walls, hits := ps, 0, 0;
    assert live[|live| - |ps|..] == ps[0..];
    for i := 0 to |ps|
      invariant Flown(ps, i, tm.tilemap, tm.tileSize, player, dashing, live, walls, hits)
    {
      live, walls, hits := FlyOne(ps, i, tm, player, dashing, live, walls, hits);
    }
    assert ps[..|ps|] == ps;
  }

  /** The body of the projectile loop for the `i`-th projectile. */
  method FlyOne(ps: seq<Projectile>, i: nat, tm: Tilemap, player: Rect, dashing: int, live: seq<Projectile>, walls: nat, hits: nat)
    returns (live': seq<Projectile>, walls': nat, hits': nat)
    requires tm.tileSize > 0 && i < |ps| && Flown(ps, i, tm.tilemap, tm.tileSize, player, dashing, live, walls, hits)
    ensures Flown(ps, i + 1, tm.tilemap, tm.tileSize, player, dashing, live', walls', hits')
  {
    var n := |live| - (|ps| - i);
    var p := Advance(live[n]);
    assert live[n] == ps[i] by {
      assert live[n..][0] == ps[i..][0];
    }
    ghost var f := FateOf(p, tm.tilemap, tm.tileSize, player, dashing);
    live', walls', hits' := live[n := p], walls, hits;
    assert live'[n] == p;
    if tm.SolidCheck(p.pos).Some? {
      live' := RemoveFirst(live', p);
      walls' := walls' + 1;
    } else if p.timer > Lifetime {
      live' := RemoveFirst(live', p);
    } else if Abs(dashing) < 50 {
      if ContainsPoint(player, p.pos) {
        live' := RemoveFirst(live', p);
        hits' := hits' + 1;
      }
    }
    if f == Flying {
      FlyStays(ps, i, tm.tilemap, tm.tileSize, player, dashing, live, walls, hits);
    } else {
      FlyGone(ps, i, tm.tilemap, tm.tileSize, player, dashing, live, walls, hits, walls', hits');
    }
  }

  /** The loop's live list: the survivors so far, then the current projectile and the rest. */
  lemma FlySplit(ps: seq<Projectile>, i: nat, grid: map<Cell, GridTile>, tileSize: int, player: Rect, dashing: int,
                 live: seq<Projectile>, walls: nat, hits: nat)
    requires tileSize > 0 && i < |ps| && Flown(ps, i, grid, tileSize, player, dashing, live, walls, hits)
    ensures var n := |live| - (|ps| - i);
      live[n := Advance(ps[i])] == Fly(ps[..i], grid, tileSize, player, dashing).kept + [Advance(ps[i])] + ps[i + 1..]
  {
    var n := |live| - (|ps| - i);
    assert live == live[..n] + ps[i..];
    assert ps[i..] == [ps[i]] + ps[i + 1..];
  }

  /** The pass over one more projectile. */
  lemma FlyLast(ps: seq<Projectile>, i: nat, grid: map<Cell, GridTile>, tileSize: int, player: Rect, dashing: int)
    requires tileSize > 0 && i < |ps|
    ensures var v, p := Fly(ps[..i], grid, tileSize, player, dashing), Advance(ps[i]);
      var f := FateOf(p, grid, tileSize, player, dashing);
      Fly(ps[..i + 1], grid, tileSize, player, dashing)
        == Volley(v.kept + (if f == Flying then [p] else []), v.walls + (if f == Wall then 1 else 0), v.hits + (if f == Hit then 1 else 0))
  {
    assert ps[..i + 1][..i] == ps[..i];
  }

  /** Cutting `k + rest` after `k`. */
  lemma Cut<T>(k: seq<T>, rest: seq<T>)
    ensures (k + rest)[..|k + rest| - |rest|] == k && (k + rest)[|k + rest| - |rest|..] == rest
  {
  }

  /** A projectile that flies on joins the survivors where it stands. */
  lemma FlyStays(ps: seq<Projectile>, i: nat, grid: map<Cell, GridTile>, tileSize: int, player: Rect, dashing: int,
                 live: seq<Projectile>, walls: nat, hits: nat)
    requires tileSize > 0 && i < |ps| && Flown(ps, i, grid, tileSize, player, dashing, live, walls, hits)
    requires FateOf(Advance(ps[i]), grid, tileSize, player, dashing) == Flying
    ensures Flown(ps, i + 1, grid, tileSize, player, dashing, live[|live| - (|ps| - i) := Advance(ps[i])], walls, hits)
  {
    var m := live[|live| - (|ps| - i) := Advance(ps[i])];
    var k := Fly(ps[..i], grid, tileSize, player, dashing).kept;
    FlySplit(ps, i, grid, tileSize, player, dashing, live, walls, hits);
    FlyLast(ps, i, grid, tileSize, player, dashing);
    Cut(k + [Advance(ps[i])], ps[i + 1..]);
  }

  /** A projectile that meets a wall, expires or hits the player is the one `list.remove` takes out. */
  lemma FlyGone(ps: seq<Projectile>, i: nat, grid: map<Cell, GridTile>, tileSize: int, player: Rect, dashing: int,
                live: seq<Projectile>, walls: nat, hits: nat, walls': nat, hits': nat)
    requires tileSize > 0 && i < |ps| && Flown(ps, i, grid, tileSize, player, dashing, live, walls, hits)
    requires var f := FateOf(Advance(ps[i]), grid, tileSize, player, dashing);
      f != Flying && walls' == walls + (if f == Wall then 1 else 0) && hits' == hits + (if f == Hit then 1 else 0)
    ensures var p, n := Advance(ps[i]), |live| - (|ps| - i);
      live[n := p][n] == p && Flown(ps, i + 1, grid, tileSize, player, dashing, RemoveFirst(live[n := p], p), walls', hits')
  {
    var p := Advance(ps[i]);
    var k := Fly(ps[..i], grid, tileSize, player, dashing).kept;
    FlySplit(ps, i, grid, tileSize, player, dashing, live, walls, hits);
    if p in k {
      FlyKeptFlies(ps[..i], grid, tileSize, player, dashing, p);
    }
    RemoveFirstSplit(k, p, ps[i + 1..]);
    FlyLast(ps, i, grid, tileSize, player, dashing);
    Cut(k, ps[i + 1..]);
  }
}
