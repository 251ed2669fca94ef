/**
 * The enemy: a physics entity with a patrol counter. While the counter runs
 * it walks in its facing direction, turning at ledges and walls; when the
 * counter runs out it may shoot along its facing at a player on its level; an
 * idle enemy starts a new patrol on a 1% roll; a dashing player kills it on
 * contact.
 */
module Enemies {
  import opened Common
  import opened Geometry
  import opened Tiles
  import opened Animations
  import opened Physics

  /** A projectile: its position, its horizontal speed per tick, and its age in ticks. */
  datatype Projectile = Projectile(pos: Vec, direction: real, timer: int)

  /** What an enemy sees of the player: the player is updated after the enemies in a tick. */
  datatype PlayerView = PlayerView(pos: Vec, rect: Rect, dashing: int)

  /** A draw of the random source for one enemy: `random()` and `randint(30, 120)`. */
  datatype Dice = Dice(roll: real, walk: int)

  predicate ValidDice(d: Dice)
  {
    0.0 <= d.roll < 1.0 && 30 <= d.walk <= 120
  }

  function AbsReal(v: real): real
  {
    if v < 0.0 then -v else v
  }

  /** The ledge probe: 7 pixels ahead of the centre in the facing direction, 23 pixels below the top. */
  function Probe(pos: Vec, flip: bool, w: int, h: int): Vec
  {
    Vec((RectAt(pos, w, h).CenterX() + (if flip then -7 else 7)) as real, pos.y + 23.0)
  }

  /**
   * The shot at the end of a patrol: with the player less than 16 pixels
   * above or below, a projectile 7 pixels ahead of the centre, moving 1.5 per
   * tick the way the enemy faces, provided the player is on that side.
   */
  function Shot(pos: Vec, flip: bool, w: int, h: int, player: PlayerView): (s: Option<Projectile>)
    ensures s.Some? <==> AbsReal(player.pos.y - pos.y) < 16.0 && (if flip then player.pos.x < pos.x else player.pos.x > pos.x)
    ensures s.Some? ==> s.value.timer == 0 && (s.value.direction < 0.0 <==> flip)
    ensures s.Some? ==> s.value.pos.y == RectAt(pos, w, h).CenterY() as real
  {
    var r := RectAt(pos, w, h);
    var dx, dy := player.pos.x - pos.x, player.pos.y - pos.y;
    if AbsReal(dy) < 16.0 then
      if flip && dx < 0.0 then Some(Projectile(Vec((r.CenterX() - 7) as real, r.CenterY() as real), -1.5, 0))
      else if !flip && dx > 0.0 then Some(Projectile(Vec((r.CenterX() + 7) as real, r.CenterY() as real), 1.5, 0))
      else None
    else None
  }

  /** The part of `Enemy.update` before the physics step. */
  datatype Patrol = Patrol(walking: int, flip: bool, movement: Vec, shot: Option<Projectile>)

  /**
   * The patrol step. A walking enemy turns when there is no solid tile under
   * the probe or it hit a wall on the last update, and otherwise walks 0.5 in
   * its facing direction; its counter goes down by one, and on reaching zero
   * it tries to shoot. An idle enemy starts walking for `dice.walk` ticks on a
   * roll below 0.01.
   */
  function PatrolStep(walking: int, b: Body, w: int, h: int, movement: Vec,
                      grid: map<Cell, GridTile>, tileSize: int, player: PlayerView, dice: Dice): (p: Patrol)
    requires tileSize > 0
    ensures walking == 0 ==> p.flip == b.flip && p.movement == movement && p.shot == None
    ensures walking == 0 ==> p.walking == if dice.roll < 0.01 then dice.walk else 0
    ensures walking > 0 ==> p.walking == walking - 1
    ensures p.shot.Some? ==> walking != 0 && p.walking == 0
  {
    if walking != 0 then
      var ahead := SolidAt(grid, tileSize, Probe(b.pos, b.flip, w, h)).Some?;
      var turn := !ahead || b.collisions.right || b.collisions.left;
      var flip := if turn then !b.flip else b.flip;
      var mv := if turn then movement else Vec(if b.flip then movement.x - 0.5 else 0.5, movement.y);
      var left := if walking - 1 > 0 then walking - 1 else 0;
      Patrol(left, flip, mv, if left == 0 then Shot(b.pos, flip, w, h, player) else None)
    else if dice.roll < 0.01 then Patrol(dice.walk, b.flip, movement, None)
    else Patrol(walking, b.flip, movement, None)
  }

  /** What an update changes of an enemy: patrol counter, body state, action. */
  datatype Pose = Pose(walking: int, body: Body, action: string)

  /** The result of `update`: the new pose, the shot fired if any, and whether the enemy dies. */
  datatype Outcome = Outcome(pose: Pose, shot: Option<Projectile>, kill: bool)

  /**
   * The patrol step, then the physics step with the patrol's movement, then
   * the run or idle action, then the kill test at the new position.
   */
  function EnemyStep(from: Pose, w: int, h: int, movement: Vec,
                     grid: map<Cell, GridTile>, tileSize: int, player: PlayerView, dice: Dice): (o: Outcome)
    requires tileSize > 0
    ensures o.pose.action in EnemyActions
    ensures o.shot.Some? ==> from.walking != 0 && o.pose.walking == 0
    ensures o.kill ==> (if player.dashing < 0 then -player.dashing else player.dashing) >= 50 && Overlaps(RectAt(o.pose.body.pos, w, h), player.rect)
    ensures o.pose.body.velocity.x == from.body.velocity.x
  {
    var p := PatrolStep(from.walking, from.body, w, h, movement, grid, tileSize, player, dice);
    var b := PhysicsStep(from.body.(flip := p.flip), w, h, p.movement, grid, tileSize);
    Outcome(Pose(p.walking, b, if p.movement.x != 0.0 then "run" else "idle"), p.shot, Killed(RectAt(b.pos, w, h), player))
  }

  /** Contact with the player kills the enemy only while the player's dash counter is at least 50. */
  predicate Killed(r: Rect, player: PlayerView)
    ensures Killed(r, player) ==> r.w > 0 && r.h > 0 && Overlaps(player.rect, r)
  {
    (if player.dashing < 0 then -player.dashing else player.dashing) >= 50 && Overlaps(r, player.rect)
  }

  /** The animation names an enemy uses. */
  const EnemyActions: set<string> := {"idle", "run"}

  class Enemy {
    const body: PhysicsEntity
    var walking: int

    ghost predicate Valid()
      reads this`walking, body`animation, body`owner, body.animation`frame, body.animation`owner
    {
      && body.Valid() && body.owner == this
      && (forall a :: a in EnemyActions ==> AssetKey(body.kind, a) in body.assets)
      && walking >= 0
    }

    function State(): Pose
      reads this, body
    {
      Pose(walking, body.Snapshot(), body.action)
    }

    /** `__init__`: an `'enemy'` body that is not walking. */
    constructor (pos: Vec, w: int, h: int, assets: map<string, Animation>)
      requires w >= 0 && h >= 0
      requires forall a :: a in EnemyActions ==> AssetKey("enemy", a) in assets
      requires Playables(assets)
      ensures Valid() && fresh(body) && fresh(body.animation)
      ensures body.kind == "enemy" && body.pos == pos && body.w == w && body.h == h && body.assets == assets
      ensures walking == 0
    {
      assert "idle" in EnemyActions;
      body := new PhysicsEntity("enemy", pos, w, h, assets);
      walking := 0;
      new;
      body.owner := this;
    }

    /**
     * `update`: the patrol step, the physics step with the patrol's movement,
     * the run or idle animation, and the kill test against the player. Returns
     * whether the enemy dies, the projectile it fires if any, and how many
     * sparks and particles are emitted.
     */
    method Update(tm: Tilemap, movement: Vec, player: PlayerView, dice: Dice)
      returns (kill: bool, shot: Option<Projectile>, sparks: nat, particles: nat)
      requires Valid() && tm.tileSize > 0 && ValidDice(dice)
      modifies this, body, body.animation
      ensures Valid()
      ensures body.action == old(body.action) ==>
        body.animation == old(body.animation)
        && (body.animation.frame, body.animation.done) == Step(old(body.animation.frame), old(body.animation.done), body.animation.Total(), body.animation.loop)
      ensures body.action != old(body.action) ==> fresh(body.animation) && body.animation.frame == 0 && !body.animation.done
      ensures var o := EnemyStep(old(State()), body.w, body.h, movement, tm.tilemap, tm.tileSize, player, dice);
        State() == o.pose && shot == o.shot && kill == o.kill
      ensures kill == Killed(body.Rect(), player)
      ensures sparks == (if shot.Some? then 4 else 0) + (if kill then 32 else 0) && particles == (if kill then 30 else 0)
    {
      var mv;
      mv, shot := Walk(tm, movement, player, dice);
      Stride(tm, mv);
      // A dash of at least 50 that touches the enemy kills it, with a burst of sparks and particles.
      kill := Killed(body.Rect(), player);
      sparks := (if shot.Some? then 4 else 0) + (if kill then 32 else 0);
      particles := if kill then 30 else 0;
    }

    /** The physics step with the patrol's movement, then the run or idle animation. */
    method Stride(tm: Tilemap, mv: Vec)
      requires Valid() && tm.tileSize > 0
      modifies body, body.animation
      ensures Valid() && walking == old(walking)
      ensures body.Snapshot() == PhysicsStep(old(body.Snapshot()), body.w, body.h, mv, tm.tilemap, tm.tileSize)
      ensures body.action == if mv.x != 0.0 then "run" else "idle"
      ensures body.action == old(body.action) ==>
        body.animation == old(body.animation)
        && (body.animation.frame, body.animation.done) == Step(old(body.animation.frame), old(body.animation.done), body.animation.Total(), body.animation.loop)
      ensures body.action != old(body.action) ==> fresh(body.animation) && body.animation.frame == 0 && !body.animation.done
    {
      body.Update(tm, mv);
      if mv.x != 0.0 {
        body.SetAction("run");
      } else {
        body.SetAction("idle");
      }
    }

    /** The patrol step: the counter, the turn, the walking movement and the shot. */
    method Walk(tm: Tilemap, movement: Vec, player: PlayerView, dice: Dice) returns (mv: Vec, shot: Option<Projectile>)
      requires Valid() && tm.tileSize > 0 && ValidDice(dice)
      modifies this`walking, body`flip
      ensures Valid()
      ensures var p := PatrolStep(old(walking), old(body.Snapshot()), body.w, body.h, movement, tm.tilemap, tm.tileSize, player, dice);
        walking == p.walking && body.flip == p.flip && mv == p.movement && shot == p.shot
    {
      mv, shot := movement, None;
      if walking != 0 {
        if tm.SolidCheck(Probe(body.pos, body.flip, body.w, body.h)).Some? {
          if body.collisions.right || body.collisions.left {
            body.flip := !body.flip;
          } else {
            mv := Vec(if body.flip then mv.x - 0.5 else 0.5, mv.y);
          }
        } else {
          body.flip := !body.flip;
        }
        walking := if walking - 1 > 0 then walking - 1 else 0;
        if walking == 0 {
          shot := Shot(body.pos, body.flip, body.w, body.h, player);
        }
      } else if dice.roll < 0.01 {
        walking := dice.walk;
      }
    }
  }
}
