/**
 * The game loop: loading a level (leaf areas, spawners, counters), and one
 * tick of `run` (the level-clear transition, the death timer, the enemies,
 * the player, the projectiles). Rendering, input, the camera and the visual
 * effects are not part of the model; a tick reports how many sparks and
 * particles it emits.
 */
module Host {
  import opened Common
  import opened Geometry
  import opened Tiles
  import opened Animations
  import opened Physics
  import opened Players
  import opened Enemies
  import opened Projectiles

  /** The size of the player and of every enemy. */
  const BodyW := 8
  const BodyH := 15

  /** Trees that drop leaves, and the spawners. */
  const TreeIds: seq<(TileType, int)> := [(LargeDecor, 2)]
  const SpawnerIds: seq<(TileType, int)> := [(Spawners, 0), (Spawners, 1)]

  /** The leaf area of a tree: 23 by 13, four pixels right of and below its corner. */
  function LeafArea(tree: OffgridTile): Rect
  {
    Rect(Trunc(4.0 + tree.pos.x), Trunc(4.0 + tree.pos.y), 23, 13)
  }

  /** `load_level`'s loop over the trees: one leaf area per tree, in order. */
  method CollectLeafAreas(trees: seq<OffgridTile>) returns (areas: seq<Rect>)
    ensures |areas| == |trees|
    ensures forall i :: 0 <= i < |trees| ==> areas[i] == LeafArea(trees[i])
  {
    areas := [];
    for i := 0 to |trees|
      invariant |areas| == i
      invariant forall j :: 0 <= j < i ==> areas[j] == LeafArea(trees[j])
    {
      areas := areas + [LeafArea(trees[i])];
    }
  }

  // ------------------------------------------------------------- spawners

  /** The positions of the enemy spawners (variant other than 0) among the first `n`, in order. */
  function EnemySpawns(s: seq<OffgridTile>, n: nat): seq<Vec>
    requires n <= |s|
  {
    if n == 0 then []
    else EnemySpawns(s, n - 1) + (if s[n - 1].variant != 0 then [s[n - 1].pos] else [])
  }

  /** The position of the last player spawner (variant 0) among the first `n`, if there is one. */
  function PlayerSpot(s: seq<OffgridTile>, n: nat): Option<Vec>
    requires n <= |s|
  {
    if n == 0 then None
    else if s[n - 1].variant == 0 then Some(s[n - 1].pos)
    else PlayerSpot(s, n - 1)
  }

  /** A position is an enemy spawn exactly when a spawner of a variant other than 0 stands there. */
  lemma {:induction false} EnemySpawnsMembers(s: seq<OffgridTile>, n: nat, p: Vec)
    requires n <= |s|
    ensures p in EnemySpawns(s, n) <==> exists i :: 0 <= i < n && s[i].variant != 0 && s[i].pos == p
    ensures |EnemySpawns(s, n)| <= n
  {
    if n > 0 {
      EnemySpawnsMembers(s, n - 1, p);
    }
  }

  /** The player goes to a player spawner when there is one, and to the last of them, as later ones overwrite the position. */
  lemma {:induction false} PlayerSpotLast(s: seq<OffgridTile>, n: nat)
    requires n <= |s|
    ensures PlayerSpot(s, n).Some? <==> exists i :: 0 <= i < n && s[i].variant == 0
    ensures PlayerSpot(s, n).Some? ==>
      exists i :: 0 <= i < n && s[i].variant == 0 && s[i].pos == PlayerSpot(s, n).value && forall j :: i < j < n ==> s[j].variant != 0
  {
    if n > 0 && s[n - 1].variant != 0 {
      PlayerSpotLast(s, n - 1);
      if PlayerSpot(s, n).Some? {
        var i :| 0 <= i < n - 1 && s[i].variant == 0 && s[i].pos == PlayerSpot(s, n).value && forall j :: i < j < n - 1 ==> s[j].variant != 0;
        assert forall j :: i < j < n ==> s[j].variant != 0;
      }
    }
  }

  // -------------------------------------------------------------- enemies

  /** The assets the game hands to its bodies: the player's and the enemy's animations, all well formed. */
  predicate AssetsReady(assets: map<string, Animation>)
  {
    && (forall a :: a in PlayerActions ==> AssetKey("player", a) in assets)
    && (forall a :: a in EnemyActions ==> AssetKey("enemy", a) in assets)
    && Playables(assets)
  }

  /** The bodies of a list of enemies. */
  ghost function Bodies(es: seq<Enemy>): set<PhysicsEntity>
  {
    set e | e in es :: e.body
  }

  /** The animations of a list of enemies. */
  ghost function Sprites(es: seq<Enemy>): set<Animation>
    reads Bodies(es)`animation
  {
    set e | e in es :: e.body.animation
  }

  /**
   * The enemy list: no enemy twice, each valid.
   * Validity makes each body and animation belong to its own enemy.
   */
  ghost predicate Crew(es: seq<Enemy>)
    reads es`walking, Bodies(es)`animation, Bodies(es)`owner, Sprites(es)`frame, Sprites(es)`owner
  {
    && Unique(es)
    && (forall e :: e in es ==> e.Valid())
  }

  /** What the player looks like to the enemies: the player is updated after them. */
  function ViewOf(p: Player): PlayerView
    reads p, p.body
  {
    PlayerView(p.body.pos, p.body.Rect(), p.dashing)
  }

  /** What every enemy of one tick sees: the grid and the player, who does not move while the enemies update. */
  datatype Scene = Scene(grid: map<Cell, GridTile>, tileSize: int, view: PlayerView)

  /** The states of a list of enemies, in order. */
  ghost function Nows(es: seq<Enemy>): (r: seq<Pose>)
    reads es, Bodies(es)
    ensures |r| == |es| && forall j {:trigger r[j]} :: 0 <= j < |es| ==> r[j] == es[j].State()
  {
    seq(|es|, j requires 0 <= j < |es| reads es, Bodies(es) => es[j].State())
  }

  /** An enemy's update in the game, from pose `now`: requested movement (0, 0). */
  function Turn(e: Enemy, now: Pose, sc: Scene, d: Dice): Outcome
    requires sc.tileSize > 0
  {
    EnemyStep(now, e.body.w, e.body.h, Vec(0.0, 0.0), sc.grid, sc.tileSize, sc.view, d)
  }

  /** The animations of a list of enemies, in order. */
  ghost function Anims(es: seq<Enemy>): (r: seq<Animation>)
    reads Bodies(es)
    ensures |r| == |es| && forall j {:trigger r[j]} :: 0 <= j < |es| ==> r[j] == es[j].body.animation
  {
    seq(|es|, j requires 0 <= j < |es| reads Bodies(es) => es[j].body.animation)
  }

  /** The poses of a list of outcomes, in order. */
  function Poses(outs: seq<Outcome>): (r: seq<Pose>)
    ensures |r| == |outs| && forall j {:trigger r[j]} :: 0 <= j < |outs| ==> r[j] == outs[j].pose
  {
    seq(|outs|, j requires 0 <= j < |outs| => outs[j].pose)
  }

  /** The poses after the first `|outs|` updates: theirs as updated, the others still `nows`. */
  function Blend(outs: seq<Outcome>, nows: seq<Pose>): (r: seq<Pose>)
    requires |outs| <= |nows|
  {
    seq(|nows|, j requires 0 <= j < |nows| => if j < |outs| then outs[j].pose else nows[j])
  }

  /** Recording one more update in a blend. */
  lemma BlendSnoc(outs: seq<Outcome>, o: Outcome, nows: seq<Pose>)
    requires |outs| < |nows|
    ensures Blend(outs, nows)[|outs| := o.pose] == Blend(outs + [o], nows)
  {
  }

  /** The outcomes `outs` are the updates of the first `|outs|` enemies, the `j`-th from pose `nows[j]` with draw `dice[j]`. */
  ghost predicate Ran(es: seq<Enemy>, nows: seq<Pose>, sc: Scene, dice: seq<Dice>, outs: seq<Outcome>)
    requires Aligned(es, nows, sc, dice) && |outs| <= |es|
  {
    forall j {:trigger Turn(es[j], nows[j], sc, dice[j])} :: 0 <= j < |outs| ==> outs[j] == Turn(es[j], nows[j], sc, dice[j])
  }

  /** Inputs for a list of enemies: one state and one draw each. */
  predicate Aligned(es: seq<Enemy>, nows: seq<Pose>, sc: Scene, dice: seq<Dice>)
  {
    sc.tileSize > 0 && |nows| == |es| && |dice| == |es|
  }

  /** The updates of the first `n` enemies, in order, the `j`-th from pose `nows[j]` with draw `dice[j]`. */
  function Turns(es: seq<Enemy>, nows: seq<Pose>, sc: Scene, dice: seq<Dice>, n: nat): (r: seq<Outcome>)
    requires Aligned(es, nows, sc, dice) && n <= |es|
  {
    seq(n, j requires 0 <= j < n => Turn(es[j], nows[j], sc, dice[j]))
  }

  /** The projectiles among the outcomes, in order: what the enemies append to the game's list. */
  function Fired(outs: seq<Outcome>): (r: seq<Projectile>)
    ensures |r| <= |outs|
  {
    if outs == [] then []
    else
      var o := outs[|outs| - 1];
      Fired(outs[..|outs| - 1]) + (if o.shot.Some? then [o.shot.value] else [])
  }

  /** The enemies among the first `|outs|` that the contact test spares after their updates `outs`, in order. */
  function Keep(es: seq<Enemy>, outs: seq<Outcome>): (r: seq<Enemy>)
    requires |outs| <= |es|
    ensures |r| <= |outs|
  {
    if outs == [] then []
    else
      var n := |outs| - 1;
      Keep(es, outs[..n]) + (if outs[n].kill then [] else [es[n]])
  }

  /** Positions `i` and `j` of `es` hold different enemies. */
  predicate Differ(es: seq<Enemy>, i: int, j: int)
    requires 0 <= i < |es| && 0 <= j < |es|
  {
    es[i] != es[j]
  }

  /** No enemy appears twice. */
  predicate Unique(es: seq<Enemy>)
  {
    forall i, j :: 0 <= i < j < |es| ==> Differ(es, i, j)
  }

  /** In a list without repeats no enemy occurs before its own position. */
  lemma NotBefore(es: seq<Enemy>, n: nat)
    requires Unique(es) && n < |es|
    ensures es[n] !in es[..n]
  {
    forall j | 0 <= j < n ensures es[..n][j] != es[n] {
      assert Differ(es, j, n);
    }
  }

  /** Appending an enemy not yet in the list keeps it free of repeats. */
  lemma UniqueSnoc(es: seq<Enemy>, e: Enemy)
    requires Unique(es) && e !in es
    ensures Unique(es + [e])
  {
    var t := es + [e];
    forall i, j | 0 <= i < j < |t| ensures Differ(t, i, j) {
      if j < |es| {
        assert Differ(es, i, j);
      } else {
        assert t[i] == es[i];
      }
    }
  }

  /** The enemies kept are enemies tested, and free of repeats like them. */
  lemma {:induction false} KeepSub(es: seq<Enemy>, outs: seq<Outcome>)
    requires |outs| <= |es| && Unique(es)
    ensures forall e :: e in Keep(es, outs) ==> e in es[..|outs|]
    ensures Unique(Keep(es, outs))
  {
    if outs != [] {
      var n := |outs| - 1;
      KeepSub(es, outs[..n]);
      var k := Keep(es, outs[..n]);
      assert es[..n + 1] == es[..n] + [es[n]];
      if !outs[n].kill {
        assert Keep(es, outs) == k + [es[n]];
        NotBefore(es, n);
        UniqueSnoc(k, es[n]);
      } else {
        assert Keep(es, outs) == k;
      }
    }
  }

  /** In a list without repeats, the `j`-th enemy is kept exactly when the contact test spares it. */
  lemma {:induction false} KeepMembers(es: seq<Enemy>, outs: seq<Outcome>, j: nat)
    requires |outs| <= |es| && Unique(es) && j < |outs|
    ensures es[j] in Keep(es, outs) <==> !outs[j].kill
  {
    var n := |outs| - 1;
    if j < n {
      KeepMembers(es, outs[..n], j);
      assert Differ(es, j, n);
    } else {
      KeepSub(es, outs[..n]);
      NotBefore(es, n);
    }
  }

  /** Enemies just spawned at `spawns`, in order: idle, of the standard size. */
  ghost predicate Placed(es: seq<Enemy>, spawns: seq<Vec>)
    reads es`walking, Bodies(es)`pos
  {
    && |es| == |spawns|
    && forall i :: 0 <= i < |es| ==>
         && es[i].walking == 0 && es[i].body.pos == spawns[i]
         && es[i].body.w == BodyW && es[i].body.h == BodyH && es[i].body.kind == "enemy"
  }

  /** A new valid enemy can join the list. */
  lemma CrewAdd(es: seq<Enemy>, e: Enemy)
    requires Crew(es) && e.Valid() && e !in es
    ensures Crew(es + [e])
  {
    UniqueSnoc(es, e);
    assert forall f :: f in es + [e] ==> f in es || f == e;
  }

  /** The enemy half of the spawner loop of `load_level`: each spawner of a variant other than 0 appends a new idle enemy of the standard size there. */
  method SpawnAll(spawners: seq<OffgridTile>, assets: map<string, Animation>) returns (crew: seq<Enemy>)
    requires AssetsReady(assets)
    ensures Placed(crew, EnemySpawns(spawners, |spawners|)) && Crew(crew) && Newborn(crew)
  {
    crew := [];
    for i := 0 to |spawners|
      invariant Placed(crew, EnemySpawns(spawners, i)) && Crew(crew) && Newborn(crew)
    {
      var s := spawners[i];
      if s.variant != 0 {
        crew := Recruit(crew, s.pos, assets, EnemySpawns(spawners, i));
      }
    }
  }

  /** Enemies made since the old state, with their bodies and animations. */
  twostate predicate Newborn(new es: seq<Enemy>)
    reads Bodies(es)
  {
    forall e :: e in es ==> fresh(e) && fresh(e.body) && fresh(e.body.animation)
  }

  /** Appends a new idle enemy of the standard size at `pos`. */
  method Recruit(crew: seq<Enemy>, pos: Vec, assets: map<string, Animation>, ghost spawns: seq<Vec>)
    returns (more: seq<Enemy>)
    requires AssetsReady(assets) && Crew(crew) && Placed(crew, spawns)
    ensures Crew(more) && Placed(more, spawns + [pos])
    ensures |more| == |crew| + 1 && more[..|crew|] == crew
    ensures fresh(more[|crew|]) && fresh(more[|crew|].body) && fresh(more[|crew|].body.animation)
  {
    var e := new Enemy(pos, BodyW, BodyH, assets);
    CrewAdd(crew, e);
    more := crew + [e];
    assert forall j :: 0 <= j < |crew| ==> more[j] == crew[j];
  }

  /** In a valid list the other enemies, their bodies and their animations are not the `i`-th's. */
  lemma Separate(es: seq<Enemy>, i: nat)
    requires Crew(es) && i < |es|
    ensures forall j :: 0 <= j < |es| && j != i ==> es[j] != es[i]
    ensures forall f :: f in es && f != es[i] ==> f.body != es[i].body && f.body.animation != es[i].body.animation
  {
    forall j | 0 <= j < |es| && j != i ensures es[j] != es[i] {
      if j < i {
        assert Differ(es, j, i);
      } else {
        assert Differ(es, i, j);
      }
    }
    assert es[i].Valid();
    forall f | f in es && f != es[i] ensures f.body != es[i].body && f.body.animation != es[i].body.animation {
      assert f.Valid();
    }
  }

  /**
   * The enemy loop of `run` over the copy `s` of the list: each enemy updates
   * with movement (0, 0) against the same view of the player, the `j`-th with
   * draw `dice[j]`, its shot joins the projectiles, and it leaves the list
   * when its update reports a kill.
   */
  method EnemyPass(s: seq<Enemy>, tm: Tilemap, view: PlayerView, dice: seq<Dice>)
    returns (ghost outs: seq<Outcome>, kept: seq<Enemy>, shots: seq<Projectile>, sparks: nat, particles: nat)
    requires tm.tileSize > 0 && Crew(s)
    requires |dice| == |s| && forall j :: 0 <= j < |s| ==> ValidDice(dice[j])
    modifies s, Bodies(s), Sprites(s)
    ensures Crew(s) && Crew(kept)
    ensures |outs| == |s| && Ran(s, old(Nows(s)), Scene(tm.tilemap, tm.tileSize, view), dice, outs)
    ensures Nows(s) == Poses(outs)
      && kept == Keep(s, outs)
      && shots == Fired(outs)
      && sparks == 4 * |shots| + 32 * (|s| - |kept|) && particles == 30 * (|s| - |kept|)
  {
    ghost var sc, nows, anims := Scene(tm.tilemap, tm.tileSize, view), Nows(s), Anims(s);
    ghost var sprites := Sprites(s);
    outs := [];
    kept, shots, sparks, particles := s, [], 0, 0;
    PassStart(s, dice, sc);
    for i := 0 to |s|
      invariant sc == Scene(tm.tilemap, tm.tileSize, view) && Crew(s)
      invariant Passed(s, dice, sc, nows, anims, sprites, i, outs, kept, shots, sparks, particles, Nows(s), Anims(s))
    {
      assert s[i].body.animation == Anims(s)[i] == anims[i];
      outs, kept, shots, sparks, particles := Step(s, tm, view, dice, i, sc, nows, anims, sprites, outs, kept, shots, sparks, particles);
    }
    PassEnd(s, dice, sc, nows, anims, sprites, outs, kept, shots, sparks, particles);
    CrewKeep(s, outs);
  }

  /** Before the enemy loop nothing has been visited. */
  lemma PassStart(s: seq<Enemy>, dice: seq<Dice>, sc: Scene)
    requires Crew(s) && sc.tileSize > 0 && |dice| == |s|
    ensures Passed(s, dice, sc, Nows(s), Anims(s), Sprites(s), 0, [], s, [], 0, 0, Nows(s), Anims(s))
  {
    assert Nows(s) == Blend([], Nows(s));
    assert s == Keep(s, []) + s[0..];
  }

  /** After the enemy loop every enemy has its new pose and the list holds the survivors. */
  lemma PassEnd(s: seq<Enemy>, dice: seq<Dice>, sc: Scene, nows: seq<Pose>,
                anims: seq<Animation>, sprites: set<Animation>, outs: seq<Outcome>,
                kept: seq<Enemy>, shots: seq<Projectile>, sparks: nat, particles: nat)
    requires Passed(s, dice, sc, nows, anims, sprites, |s|, outs, kept, shots, sparks, particles, Nows(s), Anims(s))
    ensures |outs| == |s| && Ran(s, nows, sc, dice, outs)
    ensures Nows(s) == Poses(outs)
      && kept == Keep(s, outs)
      && shots == Fired(outs)
      && sparks == 4 * |shots| + 32 * (|s| - |kept|) && particles == 30 * (|s| - |kept|)
  {
    BlendAll(outs, nows);
    assert s[|s|..] == [];
  }

  /** Outcomes for all enemies are their updates. */
  lemma RanAll(s: seq<Enemy>, nows: seq<Pose>, sc: Scene, dice: seq<Dice>, outs: seq<Outcome>)
    requires Aligned(s, nows, sc, dice) && |outs| == |s| && Ran(s, nows, sc, dice, outs)
    ensures outs == Turns(s, nows, sc, dice, |s|)
  {
    forall j | 0 <= j < |s| ensures outs[j] == Turns(s, nows, sc, dice, |s|)[j] {
      assert Turns(s, nows, sc, dice, |s|)[j] == Turn(s[j], nows[j], sc, dice[j]);
    }
  }

  /** Once every pose is updated the blend holds only new poses. */
  lemma BlendAll(outs: seq<Outcome>, nows: seq<Pose>)
    requires |outs| == |nows|
    ensures Blend(outs, nows) == Poses(outs)
  {
  }

  /**
   * The state of the enemy loop after the first `i` enemies: they have their
   * new poses, the rest their old ones and their old animations, and the
   * survivors, the shots and the effect counts are those of the first `i` outcomes.
   */
  ghost predicate Passed(s: seq<Enemy>, dice: seq<Dice>, sc: Scene, nows: seq<Pose>,
                         anims: seq<Animation>, sprites: set<Animation>, i: nat, outs: seq<Outcome>,
                         kept: seq<Enemy>, shots: seq<Projectile>, sparks: nat, particles: nat,
                         poses: seq<Pose>, current: seq<Animation>)
  {
    && i <= |s| && Aligned(s, nows, sc, dice) && |anims| == |s| == |current|
    && |outs| == i && Ran(s, nows, sc, dice, outs)
    && poses == Blend(outs, nows)
    && (forall j :: i <= j < |s| ==> current[j] == anims[j])
    && (forall j :: 0 <= j < |s| ==> anims[j] in sprites)
    && kept == Keep(s, outs) + s[i..]
    && shots == Fired(outs)
    && sparks == 4 * |shots| + 32 * (i - |Keep(s, outs)|)
    && particles == 30 * (i - |Keep(s, outs)|)
  }

  /** One turn of the enemy loop with its bookkeeping. */
  method Step(s: seq<Enemy>, tm: Tilemap, view: PlayerView, dice: seq<Dice>, i: nat, ghost sc: Scene, ghost nows: seq<Pose>,
              ghost anims: seq<Animation>, ghost sprites: set<Animation>, ghost outs: seq<Outcome>,
              kept: seq<Enemy>, shots: seq<Projectile>, sparks: nat, particles: nat)
    returns (ghost outs': seq<Outcome>, kept': seq<Enemy>, shots': seq<Projectile>, sparks': nat, particles': nat)
    requires i < |s| && sc == Scene(tm.tilemap, tm.tileSize, view) && Crew(s)
    requires Passed(s, dice, sc, nows, anims, sprites, i, outs, kept, shots, sparks, particles, Nows(s), Anims(s))
    requires ValidDice(dice[i])
    modifies s[i], s[i].body, s[i].body.animation
    ensures Crew(s)
    ensures Passed(s, dice, sc, nows, anims, sprites, i + 1, outs', kept', shots', sparks', particles', Nows(s), Anims(s))
  {
    ghost var o := Turn(s[i], nows[i], sc, dice[i]);
    ghost var poses, current := Nows(s), Anims(s);
    assert poses[i] == s[i].State();
    var kill, shot, sp, pa := Visit(s, i, tm, view, sc, nows[i], dice[i]);
    RanSnoc(s, nows, sc, dice, outs, o);
    NotKept(s, outs);
    PassedNext(s, dice, sc, nows, anims, sprites, i, outs, kept, shots, sparks, particles,
               poses, current, o, kill, shot, sp, pa, s[i].body.animation);
    outs' := outs + [o];
    kept' := if kill then RemoveFirst(kept, s[i]) else kept;
    shots' := shots + (if shot.Some? then [shot.value] else []);
    sparks', particles' := sparks + sp, particles + pa;
  }

  /** The loop state after one more enemy, whose update has outcome `o` and whose contact test says `kill`. */
  lemma PassedNext(s: seq<Enemy>, dice: seq<Dice>, sc: Scene, nows: seq<Pose>,
                   anims: seq<Animation>, sprites: set<Animation>, i: nat, outs: seq<Outcome>,
                   kept: seq<Enemy>, shots: seq<Projectile>, sparks: nat, particles: nat,
                   poses: seq<Pose>, current: seq<Animation>, o: Outcome, kill: bool,
                   shot: Option<Projectile>, sp: nat, pa: nat, a: Animation)
    requires i < |s|
    requires Passed(s, dice, sc, nows, anims, sprites, i, outs, kept, shots, sparks, particles, poses, current)
    requires s[i] !in Keep(s, outs)
    requires Ran(s, nows, sc, dice, outs + [o]) && kill == o.kill && shot == o.shot
    requires sp == (if shot.Some? then 4 else 0) + (if kill then 32 else 0) && pa == (if kill then 30 else 0)
    ensures Passed(s, dice, sc, nows, anims, sprites, i + 1, outs + [o], if kill then RemoveFirst(kept, s[i]) else kept,
                   shots + (if shot.Some? then [shot.value] else []), sparks + sp, particles + pa,
                   poses[i := o.pose], current[i := a])
  {
    BlendSnoc(outs, o, nows);
    Tally(s, outs, o, kept);
    CountNext(s, outs, o, shots, sparks, particles, sp, pa);
  }

  /** The shots and the effect counts after one more outcome. */
  lemma CountNext(s: seq<Enemy>, outs: seq<Outcome>, o: Outcome, shots: seq<Projectile>, sparks: nat, particles: nat, sp: nat, pa: nat)
    requires |outs| < |s| && shots == Fired(outs)
    requires sparks == 4 * |shots| + 32 * (|outs| - |Keep(s, outs)|) && particles == 30 * (|outs| - |Keep(s, outs)|)
    requires sp == (if o.shot.Some? then 4 else 0) + (if o.kill then 32 else 0) && pa == (if o.kill then 30 else 0)
    ensures var shots' := shots + (if o.shot.Some? then [o.shot.value] else []);
      && shots' == Fired(outs + [o])
      && sparks + sp == 4 * |shots'| + 32 * (|outs| + 1 - |Keep(s, outs + [o])|)
      && particles + pa == 30 * (|outs| + 1 - |Keep(s, outs + [o])|)
  {
    KeepSnoc(s, outs, o);
    FiredSnoc(outs, o);
  }

  /** One more update recorded. */
  lemma RanSnoc(s: seq<Enemy>, nows: seq<Pose>, sc: Scene, dice: seq<Dice>, outs: seq<Outcome>, o: Outcome)
    requires Aligned(s, nows, sc, dice) && |outs| < |s| && Ran(s, nows, sc, dice, outs)
    requires o == Turn(s[|outs|], nows[|outs|], sc, dice[|outs|])
    ensures Ran(s, nows, sc, dice, outs + [o])
  {
    var i := |outs|;
    forall j | 0 <= j < i + 1 ensures (outs + [o])[j] == Turn(s[j], nows[j], sc, dice[j]) {
      if j < i {
        assert (outs + [o])[j] == outs[j];
      }
    }
  }

  /** One more outcome appends its enemy to the kept ones unless it is a kill. */
  lemma KeepSnoc(s: seq<Enemy>, outs: seq<Outcome>, o: Outcome)
    requires |outs| < |s|
    ensures Keep(s, outs + [o]) == Keep(s, outs) + (if o.kill then [] else [s[|outs|]])
  {
    assert (outs + [o])[..|outs|] == outs;
  }

  /** One more outcome appends its shot, if any. */
  lemma FiredSnoc(outs: seq<Outcome>, o: Outcome)
    ensures Fired(outs + [o]) == Fired(outs) + (if o.shot.Some? then [o.shot.value] else [])
  {
    assert (outs + [o])[..|outs|] == outs;
  }

  /** The next enemy of the loop is not among those kept so far. */
  lemma NotKept(s: seq<Enemy>, outs: seq<Outcome>)
    requires Unique(s) && |outs| < |s|
    ensures s[|outs|] !in Keep(s, outs)
  {
    KeepSub(s, outs);
    NotBefore(s, |outs|);
  }

  /** Removing `s[i]`, absent from `k`, from `k + s[i..]`; keeping it moves it to the end of `k`. */
  lemma DropNext<T>(k: seq<T>, s: seq<T>, i: nat, kill: bool, k': seq<T>)
    requires i < |s| && s[i] !in k && k' == k + (if kill then [] else [s[i]])
    ensures (if kill then RemoveFirst(k + s[i..], s[i]) else k + s[i..]) == k' + s[i + 1..]
  {
    assert k + s[i..] == k + [s[i]] + s[i + 1..] by {
      assert s[i..] == [s[i]] + s[i + 1..];
    }
    if kill {
      RemoveFirstSplit(k, s[i], s[i + 1..]);
    }
  }

  /** Removing a killed enemy from the loop's list leaves the kept ones of one more outcome and the rest. */
  lemma Tally(s: seq<Enemy>, outs: seq<Outcome>, o: Outcome, kept: seq<Enemy>)
    requires |outs| < |s| && s[|outs|] !in Keep(s, outs)
    requires kept == Keep(s, outs) + s[|outs|..]
    ensures (if o.kill then RemoveFirst(kept, s[|outs|]) else kept) == Keep(s, outs + [o]) + s[|outs| + 1..]
  {
    KeepSnoc(s, outs, o);
    DropNext(Keep(s, outs), s, |outs|, o.kill, Keep(s, outs + [o]));
  }

  /** One turn of the enemy loop: the `i`-th enemy updates and the others keep their state. */
  method Visit(s: seq<Enemy>, i: nat, tm: Tilemap, view: PlayerView, ghost sc: Scene, ghost now: Pose, d: Dice)
    returns (kill: bool, shot: Option<Projectile>, sparks: nat, particles: nat)
    requires sc == Scene(tm.tilemap, tm.tileSize, view) && sc.tileSize > 0
    requires Crew(s) && i < |s| && ValidDice(d) && now == s[i].State()
    modifies s[i], s[i].body, s[i].body.animation
    ensures Crew(s)
    ensures var o := Turn(s[i], now, sc, d);
      && s[i].State() == o.pose && shot == o.shot && kill == o.kill
      && Nows(s) == old(Nows(s))[i := o.pose]
    ensures sparks == (if shot.Some? then 4 else 0) + (if kill then 32 else 0) && particles == (if kill then 30 else 0)
    ensures Anims(s) == old(Anims(s))[i := s[i].body.animation]
  {
    Separate(s, i);
    kill, shot, sparks, particles := s[i].Update(tm, Vec(0.0, 0.0), view, d);
  }

  /** What `extract(ids, keep)` returns on a loaded document: the off-grid matches, then the grid matches as pixel copies. */
  function Found(doc: MapDocument, ids: seq<(TileType, int)>): seq<OffgridTile>
    requires forall i :: 0 <= i < |doc.order| ==> doc.order[i] in doc.tilemap
  {
    OffgridMatches(doc.offgrid, ids) + GridMatches(doc.order, doc.tilemap, ids, doc.tileSize)
  }

  // ------------------------------------------------------------------ game

  // ------------------------------------------------------------- counters

  /** The level after a cleared one: the next, capped at the last map. */
  function NextLevel(level: int, maps: nat): (r: int)
    requires 0 <= level < maps
    ensures 0 <= r < maps && level <= r <= level + 1
    ensures r == level <==> level == maps - 1
  {
    if level + 1 < maps - 1 then level + 1 else maps - 1
  }

  /** The death timer, the transition, and whether the level reloads. */
  datatype Clock = Clock(dead: nat, transition: int, reload: bool)

  /**
   * The death block of `run`: a running timer counts up, at 10 the
   * transition moves one step towards 30, and past 40 the level reloads.
   */
  function DeathTick(dead: nat, transition: int): (c: Clock)
    ensures dead == 0 ==> c == Clock(0, transition, false)
    ensures dead != 0 ==> c.dead == dead + 1 && (c.reload <==> c.dead > 40)
    ensures c.transition != transition <==> dead == 9 && transition != 30
    ensures dead == 9 ==> c.transition <= 30 && (transition < 30 ==> c.transition == transition + 1) && (transition >= 30 ==> c.transition == 30)
  {
    if dead == 0 then Clock(dead, transition, false)
    else
      var d := dead + 1;
      Clock(d, if d == 10 then (if 30 < transition + 1 then 30 else transition + 1) else transition, d > 40)
  }

  /** `n` ticks of the death block with no other change to the timer, stopping at a reload. */
  function DeathTicks(dead: nat, transition: int, n: nat): Clock
    decreases n
  {
    var c := DeathTick(dead, transition);
    if n == 0 then Clock(dead, transition, false)
    else if c.reload then c
    else DeathTicks(c.dead, c.transition, n - 1)
  }

  /** Once the player dies the level reloads on exactly the 40th tick, the timer having counted 1, 2, ..., 41. */
  lemma {:induction false} DeathDelay(dead: nat, transition: int, n: nat)
    requires 1 <= dead <= 40
    decreases n
    ensures DeathTicks(dead, transition, n).reload <==> dead + n > 40
    ensures !DeathTicks(dead, transition, n).reload ==> DeathTicks(dead, transition, n).dead == dead + n
    ensures DeathTicks(dead, transition, n).reload ==> DeathTicks(dead, transition, n).dead == 41
  {
    if n > 0 && dead + 1 <= 40 {
      var c := DeathTick(dead, transition);
      DeathDelay(c.dead, c.transition, n - 1);
    }
  }

  /** The player's body and animation belong to no enemy. */
  lemma PlayerApart(es: seq<Enemy>, p: Player)
    requires Crew(es) && p.Valid()
    ensures p.body !in Bodies(es) && p.body.animation !in Sprites(es)
  {
    forall e | e in es ensures e.body != p.body && e.body.animation != p.body.animation {
      assert e.Valid();
    }
  }

  /** The player's `update`, which leaves the enemies alone. */
  method MovePlayer(p: Player, tm: Tilemap, movement: Vec, ghost es: seq<Enemy>) returns (died: bool, particles: nat)
    requires p.Valid() && tm.tileSize > 0 && Crew(es)
    modifies p, p.body, p.body.animation
    ensures p.Valid() && Crew(es)
    ensures var t := PlayerRules(old(p.Counts()), PhysicsStep(old(p.body.Snapshot()), p.body.w, p.body.h, movement, tm.tilemap, tm.tileSize), movement);
      && p.Counts() == t.counters && p.body.Snapshot() == t.body && p.body.action == t.action
      && died == t.died && particles == t.particles
  {
    PlayerApart(es, p);
    died, particles := p.Update(tm, movement);
  }

  /** The survivors of the enemy loop still form a valid list. */
  lemma CrewKeep(es: seq<Enemy>, outs: seq<Outcome>)
    requires Crew(es) && |outs| <= |es|
    ensures Crew(Keep(es, outs))
  {
    KeepSub(es, outs);
    forall e | e in Keep(es, outs) ensures e.Valid() {
      assert e in es[..|outs|];
    }
  }

  /** The draws for `n` enemies, the `j`-th being `roll(j)`. */
  function Draws(roll: nat -> Dice, n: nat): (r: seq<Dice>)
    ensures |r| == n && forall j {:trigger r[j]} :: 0 <= j < n ==> r[j] == roll(j)
  {
    seq(n, j requires 0 <= j < n => roll(j))
  }

  // --------------------------------------------------------------- input

  /** The keys the game reacts to; every other key is `Other`. */
  datatype Key = LeftKey | RightKey | Space | XKey | Other

  /** A key event of one tick. Closing the window ends the program and is not modelled. */
  datatype Event = KeyDown(key: Key) | KeyUp(key: Key)

  /** The held arrow keys (left, right) after one event: a press of an arrow sets it, a release clears it. */
  function Press(held: (bool, bool), e: Event): (r: (bool, bool))
    ensures e.key == LeftKey ==> r.0 == e.KeyDown?
    ensures e.key == RightKey ==> r.1 == e.KeyDown?
    ensures e.key != LeftKey ==> r.0 == held.0
    ensures e.key != RightKey ==> r.1 == held.1
  {
    match e.key
    case LeftKey => (e.KeyDown?, held.1)
    case RightKey => (held.0, e.KeyDown?)
    case _ => held
  }

  /** The held arrow keys after the events `es`, in order. */
  function Held(held: (bool, bool), es: seq<Event>): (r: (bool, bool))
    ensures es != [] && es[|es| - 1].key == LeftKey ==> r.0 == es[|es| - 1].KeyDown?
    ensures es != [] && es[|es| - 1].key == RightKey ==> r.1 == es[|es| - 1].KeyDown?
  {
    if es == [] then held else Press(Held(held, es[..|es| - 1]), es[|es| - 1])
  }

  /** Events after events: the second list starts from what the first left. */
  lemma {:induction false} HeldAppend(held: (bool, bool), a: seq<Event>, b: seq<Event>)
    ensures Held(held, a + b) == Held(Held(held, a), b)
    decreases |b|
  {
    if b == [] {
      assert a + b == a;
    } else {
      var n := |b| - 1;
      assert (a + b)[..|a + b| - 1] == a + b[..n] && (a + b)[|a + b| - 1] == b[n];
      HeldAppend(held, a, b[..n]);
    }
  }

  /** Events on other keys leave an arrow key as it was. */
  lemma {:induction false} HeldOthers(held: (bool, bool), es: seq<Event>)
    ensures (forall i :: 0 <= i < |es| ==> es[i].key != LeftKey) ==> Held(held, es).0 == held.0
    ensures (forall i :: 0 <= i < |es| ==> es[i].key != RightKey) ==> Held(held, es).1 == held.1
    decreases |es|
  {
    if es != [] {
      HeldOthers(held, es[..|es| - 1]);
    }
  }

  /** The last event on an arrow key decides whether it is held. */
  lemma LastEventWins(held: (bool, bool), a: seq<Event>, e: Event, b: seq<Event>)
    requires e.key == LeftKey || e.key == RightKey
    requires forall i :: 0 <= i < |b| ==> b[i].key != e.key
    ensures var h := Held(held, a + [e] + b);
      (if e.key == LeftKey then h.0 else h.1) == e.KeyDown?
  {
    HeldAppend(held, a + [e], b);
    HeldAppend(held, a, [e]);
    assert [e][..0] == [];
    HeldOthers(Held(held, a + [e]), b);
  }

  class Game {
    const tilemap: Tilemap
    const player: Player
    const assets: map<string, Animation>
    /** The level files, in the order of their numbers. */
    const maps: seq<MapDocument>

    var level: int
    var enemies: seq<Enemy>
    var projectiles: seq<Projectile>
    var leafSpawners: seq<Rect>
    /** Ticks since the player died; 0 while alive. */
    var dead: nat
    /** The screen transition: -30 just after loading, counting up to 0; past 30 the next level loads. */
    var transition: int
    /** The held arrow keys: left, right. */
    var movement: (bool, bool)

    ghost predicate Valid()
      reads this`enemies, this`level, tilemap`tileSize, tilemap`tilemap, tilemap`order
      reads player`jumps, player`dashing, player.body`animation, player.body`owner, player.body.animation`frame, player.body.animation`owner
      reads enemies`walking, Bodies(enemies)`animation, Bodies(enemies)`owner, Sprites(enemies)`frame, Sprites(enemies)`owner
    {
      && tilemap.Valid()
      && player.body.assets == assets && player.Valid() && player.body.kind == "player"
      && Crew(enemies)
      && AssetsReady(assets)
      && |maps| > 0 && 0 <= level < |maps| && (forall i :: 0 <= i < |maps| ==> WellFormed(maps[i]))
    }

    /**
     * `__init__`: a 16-pixel tile map, the player at (50, 50) of size 8 by 15,
     * level 0. The first `load_level(0)` is the caller's `LoadLevel(0)`.
     */
    constructor (maps: seq<MapDocument>, assets: map<string, Animation>)
      requires |maps| > 0 && forall i :: 0 <= i < |maps| ==> WellFormed(maps[i])
      requires AssetsReady(assets)
      ensures Valid() && fresh(tilemap) && fresh(player) && fresh(player.body) && fresh(player.body.animation)
      ensures this.maps == maps && this.assets == assets && level == 0
      ensures tilemap.tileSize == 16 && tilemap.tilemap == map[] && tilemap.offgrid == []
      ensures player.body.pos == Vec(50.0, 50.0) && player.body.w == BodyW && player.body.h == BodyH
      ensures player.Counts() == Counters(0, 1, false, 0)
      ensures enemies == [] && projectiles == [] && leafSpawners == [] && dead == 0 && movement == (false, false)
    {
      this.maps := maps;
      this.assets := assets;
      tilemap := new Tilemap(16);
      player := new Player(Vec(50.0, 50.0), BodyW, BodyH, assets);
      level := 0;
      enemies := [];
      projectiles := [];
      leafSpawners := [];
      dead := 0;
      transition := 0;
      movement := (false, false);
    }

    /**
     * `load_level`: load the document, record the leaf areas of the trees
     * (which stay in the map), then take the spawners out of the map, placing
     * the player and creating the enemies; projectiles go, the death timer
     * stops and the transition starts at -30. A spawner on the grid makes the
     * extraction fail (see `Tilemap.Extract`), and the load stops there.
     */
    method LoadLevel(id: int) returns (r: Result<(), ExtractError>)
      requires Valid() && 0 <= id < |maps|
      modifies tilemap, this`leafSpawners, this`enemies, this`projectiles, this`dead, this`transition, player`airTime, player.body`pos
      ensures Valid()
      ensures var doc := maps[id];
        && |leafSpawners| == |Found(doc, TreeIds)|
        && (forall i :: 0 <= i < |leafSpawners| ==> leafSpawners[i] == LeafArea(Found(doc, TreeIds)[i]))
        && Populated(doc, r, old(player.body.pos), old(player.airTime))
      ensures Newborn(enemies)
    {
      LoadMap(id);
      ghost var leaves := leafSpawners;
      r := Populate(maps[id]);
      assert leafSpawners == leaves;
    }

    /**
     * What `load_level` leaves once the leaf areas are recorded: the spawners
     * are out of the off-grid list; then either the grid held a spawner, which
     * the failed extraction has deleted, or everything is spawned and reset.
     */
    ghost predicate Populated(doc: MapDocument, r: Result<(), ExtractError>, start: Vec, air: int)
      reads this`enemies, this`projectiles, this`dead, this`transition, tilemap`tileSize, tilemap`tilemap, tilemap`order, tilemap`offgrid
      reads player`airTime, player.body`pos, enemies`walking, Bodies(enemies)`pos
      requires WellFormed(doc)
    {
      var first := FirstGridMatch(doc.order, doc.tilemap, SpawnerIds);
      var spawners := Found(doc, SpawnerIds);
      var spot := PlayerSpot(spawners, |spawners|);
      && tilemap.tileSize == doc.tileSize && tilemap.offgrid == OffgridRest(doc.offgrid, SpawnerIds)
      && (first < |doc.order| ==>
            && r == Failure(DictionaryChangedSize) && enemies == []
            && tilemap.tilemap == doc.tilemap - {doc.order[first]}
            && tilemap.order == doc.order[..first] + doc.order[first + 1..])
      && (first == |doc.order| ==>
            && r == Success(())
            && tilemap.tilemap == doc.tilemap && tilemap.order == doc.order
            && Placed(enemies, EnemySpawns(spawners, |spawners|))
            && player.body.pos == (if spot.Some? then spot.value else start)
            && player.airTime == (if spot.Some? then 0 else air)
            && projectiles == [] && dead == 0 && transition == -30)
    }

    /** The rest of `load_level`: the spawners, then the counters. */
    method Populate(ghost doc: MapDocument) returns (r: Result<(), ExtractError>)
      requires Valid() && WellFormed(doc) && enemies == []
      requires tilemap.tilemap == doc.tilemap && tilemap.order == doc.order
      requires tilemap.tileSize == doc.tileSize && tilemap.offgrid == doc.offgrid
      modifies tilemap, this`enemies, this`projectiles, this`dead, this`transition, player`airTime, player.body`pos
      ensures Valid() && Populated(doc, r, old(player.body.pos), old(player.airTime)) && Newborn(enemies)
    {
      var spawners := TakeSpawners(doc);
      if spawners.Failure? {
        return Failure(spawners.error);
      }
      Start(spawners.value);
      r := Success(());
    }

    /** The spawner loop, then the end of `load_level`: no projectiles, the death timer stopped, the transition at -30. */
    method Start(spawners: seq<OffgridTile>)
      requires Valid() && enemies == []
      modifies this`enemies, this`projectiles, this`dead, this`transition, player`airTime, player.body`pos
      ensures Valid()
      ensures Placed(enemies, EnemySpawns(spawners, |spawners|)) && Newborn(enemies)
      ensures var spot := PlayerSpot(spawners, |spawners|);
        && player.body.pos == (if spot.Some? then spot.value else old(player.body.pos))
        && player.airTime == (if spot.Some? then 0 else old(player.airTime))
      ensures projectiles == [] && dead == 0 && transition == -30
    {
      Spawn(spawners);
      Restart();
    }

    /** The end of `load_level`: no projectiles, the death timer stopped, the transition at -30. */
    method Restart()
      requires Valid()
      modifies this`projectiles, this`dead, this`transition
      ensures Valid() && projectiles == [] && dead == 0 && transition == -30
    {
      projectiles := [];
      dead := 0;
      transition := -30;
    }

    /** The first part of `load_level`: the document, the leaf areas, an empty enemy list. */
    method LoadMap(id: int)
      requires Valid() && 0 <= id < |maps|
      modifies tilemap, this`leafSpawners, this`enemies
      ensures Valid() && enemies == []
      ensures var doc := maps[id];
        && tilemap.tilemap == doc.tilemap && tilemap.order == doc.order
        && tilemap.tileSize == doc.tileSize && tilemap.offgrid == doc.offgrid
        && |leafSpawners| == |Found(doc, TreeIds)|
        && (forall i :: 0 <= i < |leafSpawners| ==> leafSpawners[i] == LeafArea(Found(doc, TreeIds)[i]))
    {
      tilemap.Load(maps[id]);
      var trees := tilemap.Extract(TreeIds, true);
      leafSpawners := CollectLeafAreas(trees.value);
      enemies := [];
    }

    /** The spawner extraction of `load_level`, which removes them from the map. */
    method TakeSpawners(ghost doc: MapDocument) returns (r: Result<seq<OffgridTile>, ExtractError>)
      requires Valid()
      requires tilemap.tilemap == doc.tilemap && tilemap.order == doc.order
      requires tilemap.tileSize == doc.tileSize && tilemap.offgrid == doc.offgrid
      modifies tilemap
      ensures Valid() && tilemap.tileSize == doc.tileSize
      ensures tilemap.offgrid == OffgridRest(doc.offgrid, SpawnerIds)
      ensures var first := FirstGridMatch(doc.order, doc.tilemap, SpawnerIds);
        && (first < |doc.order| ==>
              && r == Failure(DictionaryChangedSize)
              && tilemap.tilemap == doc.tilemap - {doc.order[first]}
              && tilemap.order == doc.order[..first] + doc.order[first + 1..])
        && (first == |doc.order| ==>
              && r == Success(Found(doc, SpawnerIds))
              && tilemap.tilemap == doc.tilemap && tilemap.order == doc.order)
    {
      r := tilemap.Extract(SpawnerIds, false);
    }

    /** The spawner loop of `load_level` on the game's assets; the player moves to the last player spawner and restarts its air time. */
    method Spawn(spawners: seq<OffgridTile>)
      requires Valid() && enemies == []
      modifies this`enemies, player`airTime, player.body`pos
      ensures Valid()
      ensures Placed(enemies, EnemySpawns(spawners, |spawners|)) && Newborn(enemies)
      ensures var spot := PlayerSpot(spawners, |spawners|);
        && player.body.pos == (if spot.Some? then spot.value else old(player.body.pos))
        && player.airTime == (if spot.Some? then 0 else old(player.airTime))
    {
      var crew := SpawnAll(spawners, assets);
      enemies := crew;
      Relocate(PlayerSpot(spawners, |spawners|));
    }

    /** A player spawner moves the player there and restarts its air time. */
    method Relocate(spot: Option<Vec>)
      requires Valid()
      modifies player`airTime, player.body`pos
      ensures Valid()
      ensures player.body.pos == (if spot.Some? then spot.value else old(player.body.pos))
      ensures player.airTime == (if spot.Some? then 0 else old(player.airTime))
    {
      if spot.Some? {
        player.body.pos := spot.value;
        player.airTime := 0;
      }
    }

    // ------------------------------------------------------------ a tick

    /**
     * One tick of `run`: the level-clear block, the transition unwinding,
     * the death block, the enemies, the player unless dead with the arrow
     * keys held so far, the projectiles, then this tick's key events.
     * `roll(j)` is the draws of the `j`-th enemy. A failed level load ends
     * the tick, as the exception ends the program. Returns the sparks and
     * particles emitted.
     */
    method Tick(events: seq<Event>, roll: nat -> Dice) returns (r: Result<(), ExtractError>, sparks: nat, particles: nat)
      requires Valid() && forall j :: ValidDice(roll(j))
      modifies this, tilemap, player, player.body, player.body.animation, enemies, Bodies(enemies), Sprites(enemies)
      ensures Valid()
      ensures movement == if r.Success? then Held(old(movement), events) else old(movement)
    {
      sparks, particles := 0, 0;
      r := Timers();
      if r.Success? {
        var m := movement;
        sparks, particles := Updates(Vec((if m.1 then 1.0 else 0.0) - (if m.0 then 1.0 else 0.0), 0.0), roll);
        HandleEvents(events);
      }
    }

    /** The event loop of `run`: the arrow keys are held or released, space jumps, x dashes. */
    method HandleEvents(events: seq<Event>)
      requires Valid()
      modifies this`movement, player`airTime, player`jumps, player`dashing, player.body`velocity
      ensures Valid() && movement == Held(old(movement), events)
    {
      for i := 0 to |events|
        invariant Valid() && movement == Held(old(movement), events[..i])
      {
        Handle(events[i]);
        assert events[..i + 1][..i] == events[..i];
      }
      assert events[..|events|] == events;
    }

    /** One key event: an arrow key's state, `jump` on space, `dash` on x. */
    method Handle(e: Event)
      requires Valid()
      modifies this`movement, player`airTime, player`jumps, player`dashing, player.body`velocity
      ensures Valid() && movement == Press(old(movement), e)
      ensures e == KeyDown(Space) ==>
        var leap := JumpOutcome(player.wallSlide, player.body.flip, player.body.lastMovement.x, old(player.jumps));
        (player.body.velocity, player.airTime, player.jumps) == JumpEffect(leap, old(player.body.velocity), old(player.airTime), old(player.jumps))
      ensures e == KeyDown(XKey) ==> player.dashing == if old(player.dashing) == 0 then (if player.body.flip then -60 else 60) else old(player.dashing)
      ensures e != KeyDown(Space) && e != KeyDown(XKey) ==> unchanged(player, player.body)
    {
      movement := Press(movement, e);
      if e == KeyDown(Space) {
        var _ := player.Jump();
      } else if e == KeyDown(XKey) {
        player.Dash();
      }
    }

    /** The counter blocks at the head of a tick: the level clear, the transition, the death timer. */
    method Timers() returns (r: Result<(), ExtractError>)
      requires Valid()
      modifies tilemap, this`level, this`leafSpawners, this`enemies, this`projectiles, this`dead, this`transition, player`airTime, player.body`pos
      ensures Valid() && (enemies == old(enemies) || Newborn(enemies))
    {
      ghost var loaded;
      r := Opening();
      if r.Failure? {
        return;
      }
      r, loaded := DeathPhase();
    }

    /** The level-clear block, then the transition unwinding unless the load failed. */
    method Opening() returns (r: Result<(), ExtractError>)
      requires Valid()
      modifies tilemap, this`level, this`leafSpawners, this`enemies, this`projectiles, this`dead, this`transition, player`airTime, player.body`pos
      ensures Valid() && (enemies == old(enemies) || Newborn(enemies))
    {
      ghost var loaded;
      r, loaded := Clear();
      if r.Success? {
        Unwind();
      }
    }

    /** The updates of a tick: the enemies, the player unless dead, the projectiles. Returns the sparks and particles emitted. */
    method Updates(movement: Vec, roll: nat -> Dice) returns (sparks: nat, particles: nat)
      requires Valid() && forall j :: ValidDice(roll(j))
      modifies this`enemies, this`projectiles, this`dead, player, player.body, player.body.animation, (set e | e in enemies), Bodies(enemies), Sprites(enemies)
      ensures Valid()
    {
      ghost var outs;
      var sp, pa := 0, 0;
      outs, sp, pa := EnemyPhase(roll);
      var burst := PlayerPhase(movement);
      var walls, hits := ProjectilePhase();
      sparks, particles := sp + 4 * walls + 30 * hits, pa + burst + 30 * hits;
    }

    /** The level-clear block: with no enemy left the transition counts up, and past 30 the next level loads. */
    method Clear() returns (r: Result<(), ExtractError>, ghost loaded: bool)
      requires Valid()
      modifies tilemap, this`level, this`leafSpawners, this`enemies, this`projectiles, this`dead, this`transition, player`airTime, player.body`pos
      ensures Valid()
      ensures var t := old(transition) + (if old(|enemies|) == 0 then 1 else 0);
        if old(|enemies|) == 0 && t > 30 then
          && level == NextLevel(old(level), |maps|)
          && Populated(maps[level], r, old(player.body.pos), old(player.airTime))
        else
          && r == Success(()) && transition == t
          && unchanged(tilemap, player, player.body) && unchanged(this`level, this`leafSpawners, this`enemies, this`projectiles, this`dead)
      ensures if loaded then Newborn(enemies) else enemies == old(enemies)
    {
      r, loaded := Success(()), false;
      if |enemies| == 0 {
        transition := transition + 1;
        if transition > 30 {
          level := NextLevel(level, |maps|);
          r := LoadLevel(level);
          loaded := true;
        }
      }
    }

    /** Just after a load the transition counts up towards 0. */
    method Unwind()
      requires Valid()
      modifies this`transition
      ensures Valid() && transition == (if old(transition) < 0 then old(transition) + 1 else old(transition))
    {
      if transition < 0 {
        transition := transition + 1;
      }
    }

    /** The death block: `DeathTick` of the timer and the transition, reloading the level when it says so. */
    method DeathPhase() returns (r: Result<(), ExtractError>, ghost loaded: bool)
      requires Valid()
      modifies tilemap, this`leafSpawners, this`enemies, this`projectiles, this`dead, this`transition, player`airTime, player.body`pos
      ensures Valid() && level == old(level)
      ensures var c := DeathTick(old(dead), old(transition));
        if c.reload then
          Populated(maps[level], r, old(player.body.pos), old(player.airTime))
        else
          && r == Success(()) && dead == c.dead && transition == c.transition
          && unchanged(tilemap, player, player.body) && unchanged(this`leafSpawners, this`enemies, this`projectiles)
      ensures if loaded then Newborn(enemies) else enemies == old(enemies)
    {
      r, loaded := Success(()), false;
      if dead != 0 {
        dead := dead + 1;
        if dead == 10 {
          transition := if 30 < transition + 1 then 30 else transition + 1;
        }
        if dead > 40 {
          r := LoadLevel(level);
          loaded := true;
        }
      }
    }

    /**
     * The enemy loop of `run` against the player as it stands: the enemies the
     * contact test kills leave the list, and the shots join the projectiles.
     */
    method EnemyPhase(roll: nat -> Dice) returns (ghost outs: seq<Outcome>, sparks: nat, particles: nat)
      requires Valid() && forall j :: ValidDice(roll(j))
      modifies this`enemies, this`projectiles, enemies, Bodies(enemies), Sprites(enemies)
      ensures Valid() && unchanged(player, player.body, player.body.animation)
      ensures var s := old(enemies);
        && |outs| == |s|
        && Ran(s, old(Nows(enemies)), Scene(tilemap.tilemap, tilemap.tileSize, old(ViewOf(player))), Draws(roll, |s|), outs)
        && Nows(s) == Poses(outs)
        && enemies == Keep(s, outs)
        && projectiles == old(projectiles) + Fired(outs)
        && sparks == 4 * |Fired(outs)| + 32 * (|s| - |enemies|) && particles == 30 * (|s| - |enemies|)
    {
      PlayerApart(enemies, player);
      var kept, shots;
      outs, kept, shots, sparks, particles := EnemyPass(enemies, tilemap, ViewOf(player), Draws(roll, |enemies|));
      Replace(kept, projectiles + shots);
    }

    /** The enemy and projectile lists after the enemy loop. */
    method Replace(kept: seq<Enemy>, shots: seq<Projectile>)
      requires Valid() && Crew(kept)
      modifies this`enemies, this`projectiles
      ensures Valid() && enemies == kept && projectiles == shots
    {
      enemies, projectiles := kept, shots;
    }

    /** The player's update, made only while the player is alive; a fall too long starts the death timer. */
    method PlayerPhase(movement: Vec) returns (particles: nat)
      requires Valid()
      modifies this`dead, player, player.body, player.body.animation
      ensures Valid()
      ensures old(dead) != 0 ==> dead == old(dead) && particles == 0 && unchanged(player, player.body)
      ensures old(dead) == 0 ==>
        var t := PlayerRules(old(player.Counts()), PhysicsStep(old(player.body.Snapshot()), player.body.w, player.body.h, movement, tilemap.tilemap, tilemap.tileSize), movement);
        && player.Counts() == t.counters && player.body.Snapshot() == t.body && player.body.action == t.action
        && dead == (if t.died then 1 else 0) && particles == t.particles
    {
      particles := 0;
      if dead == 0 {
        var died;
        died, particles := MovePlayer(player, tilemap, movement, enemies);
        if died {
          dead := dead + 1;
        }
      }
    }

    /** The projectile loop of `run` against the player as updated: survivors stay, hits count towards the death timer. */
    method ProjectilePhase() returns (walls: nat, hits: nat)
      requires Valid()
      modifies this`projectiles, this`dead
      ensures Valid()
      ensures var v := Fly(old(projectiles), tilemap.tilemap, tilemap.tileSize, player.body.Rect(), player.dashing);
        projectiles == v.kept && walls == v.walls && hits == v.hits && dead == old(dead) + hits
    {
      var live;
      live, walls, hits := FlyPass(projectiles, tilemap, player.body.Rect(), player.dashing);
      projectiles := live;
      dead := dead + hits;
    }
  }
}
