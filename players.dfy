/**
 * The player: a physics entity with an air timer, one jump charge, a
 * one-frame wall-slide switch and a dash counter that runs from +-60 down to
 * 0 (forced velocity while its magnitude is above 50, a cooldown below).
 */
module Players {
  import opened Geometry
  import opened Tiles
  import opened Animations
  import opened Physics

  function Abs(d: int): nat
  {
    if d < 0 then -d else d
  }

  /** The dash counter's step: one toward zero, never past it. */
  function DashDecay(d: int): int
  {
    if d > 0 then (if d - 1 > 0 then d - 1 else 0)
    else if d < 0 then (if d + 1 < 0 then d + 1 else 0)
    else d
  }

  /**
   * The horizontal velocity the dash forces after the counter's step: `8` in
   * the counter's direction while its magnitude is above 50, cut to a tenth
   * on the last such tick (magnitude 51), and the old velocity otherwise.
   */
  function DashVelocity(d: int, vx: real): real
  {
    if Abs(d) > 50 then
      var v := if d > 0 then 8.0 else -8.0;
      if Abs(d) == 51 then v * 0.1 else v
    else vx
  }

  /** Friction: 0.1 toward zero, stopping at zero. */
  function Friction(vx: real): real
  {
    if vx > 0.0 then (if vx - 0.1 > 0.0 then vx - 0.1 else 0.0)
    else (if vx + 0.1 < 0.0 then vx + 0.1 else 0.0)
  }

  /** The particle burst at the start (magnitude 60) and at the end (magnitude 50) of a dash. */
  function BurstParticles(d: int): nat
  {
    if Abs(d) == 60 || Abs(d) == 50 then 20 else 0
  }

  /** The animation the player shows: wall slide, else in the air, else running, else idle. */
  function PlayerAction(wallSlide: bool, airTime: int, mx: real): string
  {
    if wallSlide then "wall_slide"
    else if airTime > 4 then "jump"
    else if mx != 0.0 then "run"
    else "idle"
  }

  /** The player's own counters. */
  datatype Counters = Counters(airTime: int, jumps: int, wallSlide: bool, dashing: int)

  /** The outcome of one player update after the physics step. */
  datatype PlayerTick = PlayerTick(counters: Counters, body: Body, action: string, died: bool, particles: nat)

  /**
   * What `Player.update` does after the physics step `b`: count the air time
   * (falling too long kills), land, decide the wall slide, choose the
   * animation, and run the dash counter, its forced velocity and friction.
   */
  function PlayerRules(c: Counters, b: Body, movement: Vec): (t: PlayerTick)
    ensures t.died <==> c.airTime >= 120
    ensures t.body.pos == b.pos && t.body.collisions == b.collisions && t.body.lastMovement == b.lastMovement
    ensures b.collisions.down ==> t.counters.airTime == 0 && t.counters.jumps == 1
    ensures t.counters.wallSlide <==> t.action == "wall_slide"
    ensures t.action in PlayerActions
  {
    var air := c.airTime + 1;
    var died := air > 120;
    var air', jumps := if b.collisions.down then 0 else air, if b.collisions.down then 1 else c.jumps;
    var slide := (b.collisions.right || b.collisions.left) && air' > 4;
    var vy := if slide then MinReal(b.velocity.y, 0.5) else b.velocity.y;
    var flip := if slide then !b.collisions.right else b.flip;
    var d := DashDecay(c.dashing);
    var vx := Friction(DashVelocity(d, b.velocity.x));
    var particles := BurstParticles(c.dashing) + (if Abs(d) > 50 then 1 else 0);
    PlayerTick(Counters(air', jumps, slide, d), b.(velocity := Vec(vx, vy), flip := flip),
               PlayerAction(slide, air', movement.x), died, particles)
  }

  /** The four ways `jump` can go. */
  datatype Leap = KickRight | KickLeft | Straight | Refused

  /**
   * `jump`: off a wall only while pushing into it (facing left and last moving
   * left, or the mirror); with no wall slide, a straight jump when a charge is
   * left; otherwise nothing.
   */
  function JumpOutcome(wallSlide: bool, flip: bool, lastX: real, jumps: int): (l: Leap)
    ensures l == Straight <==> !wallSlide && jumps != 0
    ensures l == KickRight ==> wallSlide && flip && lastX < 0.0
    ensures l == KickLeft ==> wallSlide && !flip && lastX > 0.0
    ensures wallSlide && ((flip && lastX < 0.0) || (!flip && lastX > 0.0)) ==> l != Refused
  {
    if wallSlide then
      if flip && lastX < 0.0 then KickRight
      else if !flip && lastX > 0.0 then KickLeft
      else Refused
    else if jumps != 0 then Straight
    else Refused
  }

  /** The velocity, air time and charges a jump leaves behind. */
  function JumpEffect(leap: Leap, velocity: Vec, airTime: int, jumps: int): (e: (Vec, int, int))
    ensures leap == Refused ==> e == (velocity, airTime, jumps)
    ensures leap != Refused ==> e.1 == 5 && e.0.y < 0.0
    ensures leap != Refused && jumps >= 1 ==> e.2 == jumps - 1
    ensures leap == Straight ==> e.0.x == velocity.x
  {
    match leap
    case KickRight => (Vec(3.5, -2.5), 5, if jumps - 1 > 0 then jumps - 1 else 0)
    case KickLeft => (Vec(-3.5, -2.5), 5, if jumps - 1 > 0 then jumps - 1 else 0)
    case Straight => (Vec(velocity.x, -3.0), 5, jumps - 1)
    case Refused => (velocity, airTime, jumps)
  }

  /** The animation names a player uses. */
  const PlayerActions: set<string> := {"idle", "run", "jump", "wall_slide"}

  class Player {
    const body: PhysicsEntity
    var airTime: int
    var jumps: int
    var wallSlide: bool
    var dashing: int

    /** The body is valid and has every animation it may switch to; one charge at most; the dash counter within 60. */
    ghost predicate Valid()
      reads this`jumps, this`dashing, body`animation, body`owner, body.animation`frame, body.animation`owner
    {
      && body.Valid() && body.owner == this
      && (forall a :: a in PlayerActions ==> AssetKey(body.kind, a) in body.assets)
      && 0 <= jumps <= 1 && -60 <= dashing <= 60
    }

    function Counts(): Counters
      reads this
    {
      Counters(airTime, jumps, wallSlide, dashing)
    }

    /** `__init__`: a `'player'` body with no air time, one charge, no wall slide and no dash. */
    constructor (pos: Vec, w: int, h: int, assets: map<string, Animation>)
      requires w >= 0 && h >= 0
      requires forall a :: a in PlayerActions ==> AssetKey("player", a) in assets
      requires Playables(assets)
      ensures Valid() && fresh(body) && fresh(body.animation)
      ensures body.kind == "player" && body.pos == pos && body.w == w && body.h == h && body.assets == assets
      ensures body.action == "idle" && body.velocity == Vec(0.0, 0.0)
      ensures Counts() == Counters(0, 1, false, 0)
    {
      assert "idle" in PlayerActions;
      body := new PhysicsEntity("player", pos, w, h, assets);
      airTime := 0;
      jumps := 1;
      wallSlide := false;
      dashing := 0;
      new;
      body.owner := this;
    }

    /**
     * `update`: the physics step, then the player rules. Returns whether the
     * fall timer kills the player this tick (the game's `dead += 1`) and how
     * many particles are emitted.
     */
    method Update(tm: Tilemap, movement: Vec) returns (died: bool, particles: nat)
      requires Valid() && tm.tileSize > 0
      modifies this, body, body.animation
      ensures Valid()
      ensures var t := PlayerRules(old(Counts()), PhysicsStep(old(body.Snapshot()), body.w, body.h, movement, tm.tilemap, tm.tileSize), movement);
        && Counts() == t.counters && body.Snapshot() == t.body && body.action == t.action
        && died == t.died && particles == t.particles
      ensures body.action == old(body.action) ==>
        body.animation == old(body.animation)
        && (body.animation.frame, body.animation.done) == Step(old(body.animation.frame), old(body.animation.done), body.animation.Total(), body.animation.loop)
      ensures body.action != old(body.action) ==> fresh(body.animation) && body.animation.frame == 0 && !body.animation.done
    {
      body.Update(tm, movement);
      died, particles := Rules(movement);
    }

    /** Everything `update` does after the physics step, as `PlayerRules` of the counters and the stepped body. */
    method Rules(movement: Vec) returns (died: bool, particles: nat)
      requires Valid()
      modifies this, body`velocity, body`flip, body`action, body`animation
      ensures Valid()
      ensures var t := PlayerRules(old(Counts()), old(body.Snapshot()), movement);
        && Counts() == t.counters && body.Snapshot() == t.body && body.action == t.action
        && died == t.died && particles == t.particles
      ensures body.action == old(body.action) ==> body.animation == old(body.animation)
      ensures body.action != old(body.action) ==> fresh(body.animation) && body.animation.frame == 0 && !body.animation.done
    {
      ghost var t := PlayerRules(Counts(), body.Snapshot(), movement);
      ghost var vx := body.velocity.x;
      died := Land();
      Slide(movement);
      assert body.Snapshot() == t.body.(velocity := Vec(vx, t.body.velocity.y));
      particles := BurstParticles(dashing);
      DashTick();
      if Abs(dashing) > 50 {
        particles := particles + 1;
      }
    }

    /** Air time: one more tick in the air; falling past 120 ticks kills; standing on a tile resets it and the charge. */
    method Land() returns (died: bool)
      modifies this`airTime, this`jumps
      ensures died == (old(airTime) + 1 > 120)
      ensures airTime == (if body.collisions.down then 0 else old(airTime) + 1)
      ensures jumps == (if body.collisions.down then 1 else old(jumps))
    {
      airTime := airTime + 1;
      died := airTime > 120;
      if body.collisions.down {
        airTime := 0;
        jumps := 1;
      }
    }

    /** The wall-slide switch for this frame, its speed cap and facing, and the animation choice. */
    method Slide(movement: Vec)
      requires Valid()
      modifies this`wallSlide, body`velocity, body`flip, body`action, body`animation
      ensures Valid()
      ensures wallSlide == ((body.collisions.right || body.collisions.left) && airTime > 4)
      ensures body.velocity == if wallSlide then old(body.velocity).(y := MinReal(old(body.velocity.y), 0.5)) else old(body.velocity)
      ensures body.flip == if wallSlide then !body.collisions.right else old(body.flip)
      ensures body.action == PlayerAction(wallSlide, airTime, movement.x)
      ensures body.action == old(body.action) ==> body.animation == old(body.animation)
      ensures body.action != old(body.action) ==> fresh(body.animation) && body.animation.frame == 0 && !body.animation.done
    {
      wallSlide := false;
      if (body.collisions.right || body.collisions.left) && airTime > 4 {
        wallSlide := true;
        body.velocity := Vec(body.velocity.x, MinReal(body.velocity.y, 0.5));
        body.flip := !body.collisions.right;
        body.SetAction("wall_slide");
      }
      if !wallSlide {
        if airTime > 4 {
          body.SetAction("jump");
        } else if movement.x != 0.0 {
          body.SetAction("run");
        } else {
          body.SetAction("idle");
        }
      }
    }

    /** The dash counter's step, the forced dash velocity, then friction. */
    method DashTick()
      modifies this`dashing, body`velocity
      ensures dashing == DashDecay(old(dashing))
      ensures body.velocity == Vec(Friction(DashVelocity(dashing, old(body.velocity.x))), old(body.velocity.y))
    {
      if dashing > 0 {
        dashing := if dashing - 1 > 0 then dashing - 1 else 0;
      }
      if dashing < 0 {
        dashing := if dashing + 1 < 0 then dashing + 1 else 0;
      }
      if Abs(dashing) > 50 {
        var v := if dashing > 0 then 8.0 else -8.0;
        body.velocity := Vec(v, body.velocity.y);
        if Abs(dashing) == 51 {
          body.velocity := Vec(body.velocity.x * 0.1, body.velocity.y);
        }
      }
      if body.velocity.x > 0.0 {
        body.velocity := Vec(if body.velocity.x - 0.1 > 0.0 then body.velocity.x - 0.1 else 0.0, body.velocity.y);
      } else {
        body.velocity := Vec(if body.velocity.x + 0.1 < 0.0 then body.velocity.x + 0.1 else 0.0, body.velocity.y);
      }
    }

    /** `jump`: returns whether a jump happened. */
    method Jump() returns (jumped: bool)
      requires Valid()
      modifies this`airTime, this`jumps, body`velocity
      ensures Valid()
      ensures var leap := JumpOutcome(wallSlide, body.flip, body.lastMovement.x, old(jumps));
        jumped == (leap != Refused) && (body.velocity, airTime, jumps) == JumpEffect(leap, old(body.velocity), old(airTime), old(jumps))
    {
      jumped := false;
      if wallSlide {
        if body.flip && body.lastMovement.x < 0.0 {
          body.velocity := Vec(3.5, -2.5);
          airTime := 5;
          jumps := if jumps - 1 > 0 then jumps - 1 else 0;
          jumped := true;
        } else if !body.flip && body.lastMovement.x > 0.0 {
          body.velocity := Vec(-3.5, -2.5);
          airTime := 5;
          jumps := if jumps - 1 > 0 then jumps - 1 else 0;
          jumped := true;
        }
      } else if jumps != 0 {
        body.velocity := Vec(body.velocity.x, -3.0);
        jumps := jumps - 1;
        airTime := 5;
        jumped := true;
      }
    }

    /** `dash`: starts a dash in the facing direction, only when the counter is at zero. */
    method Dash()
      requires Valid()
      modifies this`dashing
      ensures Valid()
      ensures dashing == if old(dashing) == 0 then (if body.flip then -60 else 60) else old(dashing)
    {
      if dashing == 0 {
        dashing := if body.flip then -60 else 60;
      }
    }
  }
}
