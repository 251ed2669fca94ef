/**
 * What the player rules guarantee: the dash timeline (forced velocity,
 * bursts, invincibility window and cooldown), friction, jump charges, the
 * wall slide and the fall timer.
 */
module PlayerFacts {
  import opened Geometry
  import opened Physics
  import opened Players

  // ---------------------------------------------------------------- dashing

  /** The dash counter after `k` updates. */
  function DashAfter(d: int, k: nat): int
    decreases k
  {
    if k == 0 then d else DashDecay(DashAfter(d, k - 1))
  }

  /** One step moves the counter one toward zero and never across it. */
  lemma DashDecayTowardZero(d: int)
    ensures Abs(DashDecay(d)) == if d == 0 then 0 else Abs(d) - 1
    ensures d >= 0 ==> DashDecay(d) >= 0
    ensures d <= 0 ==> DashDecay(d) <= 0
  {
  }

  /** After `k` updates the counter is `k` closer to zero, and stays at zero once there. */
  lemma {:induction false} DashCountdown(d: int, k: nat)
    ensures DashAfter(d, k) == if d >= 0 then (if d - k > 0 then d - k else 0) else (if d + k < 0 then d + k else 0)
    decreases k
  {
    if k > 0 {
      DashCountdown(d, k - 1);
    }
  }

  /**
   * The timeline of a dash started by `dash()` (counter +-60), update `k`
   * seeing the counter `DashAfter(d0, k - 1)` and leaving `DashAfter(d0, k)`:
   * updates 1 to 8 force speed 8 in the dash direction, update 9 forces 0.8,
   * later updates force nothing; the two bursts come on updates 1 and 11; the
   * counter is at least 50 (projectiles pass through) up to update 10; and a
   * new dash is possible from update 60 on.
   */
  lemma DashTimeline(d0: int, k: nat, v: real)
    requires d0 == 60 || d0 == -60
    requires k >= 1
    ensures var dir := if d0 > 0 then 1.0 else -1.0;
      && (k <= 8 ==> DashVelocity(DashAfter(d0, k), v) == 8.0 * dir)
      && (k == 9 ==> DashVelocity(DashAfter(d0, k), v) == 0.8 * dir)
      && (k >= 10 ==> DashVelocity(DashAfter(d0, k), v) == v)
    ensures BurstParticles(DashAfter(d0, k - 1)) == 20 <==> k == 1 || k == 11
    ensures Abs(DashAfter(d0, k)) >= 50 <==> k <= 10
    ensures DashAfter(d0, k) == 0 <==> k >= 60
  {
    DashCountdown(d0, k);
    DashCountdown(d0, k - 1);
  }

  /** Friction moves the velocity 0.1 toward zero and stops there. */
  lemma FrictionTowardZero(v: real)
    ensures v >= 0.0 ==> Friction(v) == (if v - 0.1 > 0.0 then v - 0.1 else 0.0)
    ensures v <= 0.0 ==> Friction(v) == (if v + 0.1 < 0.0 then v + 0.1 else 0.0)
    ensures 0.0 <= v ==> 0.0 <= Friction(v) <= v
    ensures v <= 0.0 ==> v <= Friction(v) <= 0.0
  {
  }

  /** `k` rounds of friction. */
  function Coast(v: real, k: nat): real
    decreases k
  {
    if k == 0 then v else Friction(Coast(v, k - 1))
  }

  /** After `k` rounds of friction a rightward velocity has lost `0.1 * k`, never going below zero. */
  lemma {:induction false} CoastRun(v: real, k: nat)
    requires v >= 0.0
    ensures Coast(v, k) == if v - 0.1 * k as real > 0.0 then v - 0.1 * k as real else 0.0
    decreases k
  {
    if k > 0 {
      CoastRun(v, k - 1);
    }
  }

  /** A wall kick of 3.5 is spent by friction after exactly 35 updates. */
  lemma WallKickSpent()
    ensures Coast(3.5, 34) > 0.0 && Coast(3.5, 35) == 0.0
  {
    CoastRun(3.5, 34);
    CoastRun(3.5, 35);
  }

  // ---------------------------------------------------------------- jumping

  /**
   * `jump` refuses exactly when the player slides on a wall without pushing
   * into it, or is off the wall with no charge left.
   */
  lemma JumpRefused(wallSlide: bool, flip: bool, lastX: real, jumps: int)
    ensures JumpOutcome(wallSlide, flip, lastX, jumps) == Refused <==>
      (wallSlide && !(flip && lastX < 0.0) && !(!flip && lastX > 0.0)) || (!wallSlide && jumps == 0)
  {
  }

  /** Sliding on a wall without pushing into it, a remaining charge does not help. */
  lemma SlidingWithoutPushRefused(flip: bool, lastX: real)
    requires !(flip && lastX < 0.0) && !(!flip && lastX > 0.0)
    ensures JumpOutcome(true, flip, lastX, 1) == Refused
  {
  }

  /** Every jump that happens sets the air time to 5 and spends the charge; a charge count in 0..1 stays there. */
  lemma JumpSpendsCharge(leap: Leap, velocity: Vec, airTime: int, jumps: int)
    requires 0 <= jumps <= 1
    requires leap == Straight ==> jumps != 0
    ensures var (v, a, j) := JumpEffect(leap, velocity, airTime, jumps);
      && 0 <= j <= 1
      && (leap != Refused ==> a == 5 && j == 0)
      && (leap == Refused ==> v == velocity && a == airTime && j == jumps)
      && (leap == KickRight ==> v.x > 0.0 && v.y < 0.0)
      && (leap == KickLeft ==> v.x < 0.0 && v.y < 0.0)
      && (leap == Straight ==> v == Vec(velocity.x, -3.0))
  {
  }

  /** No double jump: after a straight jump the next one, away from walls, is refused until a landing restores the charge. */
  lemma NoDoubleJump(flip: bool, lastX: real, velocity: Vec, airTime: int)
    ensures var (_, _, j) := JumpEffect(JumpOutcome(false, flip, lastX, 1), velocity, airTime, 1);
      JumpOutcome(false, flip, lastX, j) == Refused
  {
  }

  // ------------------------------------------------------------------ update

  /**
   * The fall timer: the air time goes up by one each update and the update
   * kills when it passes 120; standing on a tile resets it to 0 and restores
   * the charge.
   */
  lemma AirTimeRule(c: Counters, b: Body, movement: Vec)
    ensures var t := PlayerRules(c, b, movement);
      && (t.died <==> c.airTime >= 120)
      && (b.collisions.down ==> t.counters.airTime == 0 && t.counters.jumps == 1)
      && (!b.collisions.down ==> t.counters.airTime == c.airTime + 1 && t.counters.jumps == c.jumps)
  {
  }

  /**
   * The wall slide holds exactly on a side contact after more than 4 ticks in
   * the air; it caps the fall speed at 0.5, turns the player to face the
   * wall, and shows the wall-slide animation, which no other case shows.
   */
  lemma WallSlideRule(c: Counters, b: Body, movement: Vec)
    ensures var t := PlayerRules(c, b, movement);
      && (t.counters.wallSlide <==> (b.collisions.right || b.collisions.left) && t.counters.airTime > 4)
      && (t.counters.wallSlide ==> t.body.velocity.y <= 0.5 && t.body.flip == !b.collisions.right)
      && (!t.counters.wallSlide ==> t.body.velocity.y == b.velocity.y && t.body.flip == b.flip)
      && (t.action == "wall_slide" <==> t.counters.wallSlide)
      && (t.action == "jump" <==> !t.counters.wallSlide && t.counters.airTime > 4)
  {
  }

  /** The player rules keep a charge count in 0..1 and a dash counter within 60. */
  lemma RulesKeepBounds(c: Counters, b: Body, movement: Vec)
    requires 0 <= c.jumps <= 1 && -60 <= c.dashing <= 60
    ensures var t := PlayerRules(c, b, movement);
      0 <= t.counters.jumps <= 1 && -60 <= t.counters.dashing <= 60 && Abs(t.counters.dashing) <= Abs(c.dashing)
  {
  }

  /** Apart from velocity and facing, the player rules leave the stepped body as it is. */
  lemma RulesKeepBody(c: Counters, b: Body, movement: Vec)
    ensures var t := PlayerRules(c, b, movement);
      t.body.pos == b.pos && t.body.collisions == b.collisions && t.body.lastMovement == b.lastMovement
  {
  }
}
