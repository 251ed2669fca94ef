/**
 * What the enemy's patrol step guarantees: the counter, turning at ledges and
 * walls, the walking speed, and when and where the enemy shoots.
 */
module EnemyFacts {
  import opened Common
  import opened Geometry
  import opened Tiles
  import opened Physics
  import opened Enemies

  /**
   * The patrol counter goes down by one per update while it runs and never
   * below zero; an idle enemy starts a patrol of 30 to 120 ticks exactly on a
   * roll below 0.01, and otherwise stays idle.
   */
  lemma PatrolCountdown(walking: int, b: Body, w: int, h: int, movement: Vec,
                        grid: map<Cell, GridTile>, tileSize: int, player: PlayerView, dice: Dice)
    requires tileSize > 0 && walking >= 0 && ValidDice(dice)
    ensures var p := PatrolStep(walking, b, w, h, movement, grid, tileSize, player, dice);
      && p.walking >= 0
      && (walking > 0 ==> p.walking == walking - 1)
      && (walking == 0 ==> (p.walking != 0 <==> dice.roll < 0.01))
      && (walking == 0 && dice.roll < 0.01 ==> 30 <= p.walking <= 120)
  {
  }

  /**
   * A walking enemy turns exactly when there is no solid tile under its probe
   * or it touched a wall on its last update; otherwise it keeps its facing and
   * walks: 0.5 to the right, or 0.5 less than the requested movement to the left.
   */
  lemma PatrolTurn(walking: int, b: Body, w: int, h: int, movement: Vec,
                   grid: map<Cell, GridTile>, tileSize: int, player: PlayerView, dice: Dice)
    requires tileSize > 0 && walking > 0
    ensures var p := PatrolStep(walking, b, w, h, movement, grid, tileSize, player, dice);
      var ahead := SolidAt(grid, tileSize, Probe(b.pos, b.flip, w, h)).Some?;
      && (p.flip != b.flip <==> !ahead || b.collisions.right || b.collisions.left)
      && (p.flip != b.flip ==> p.movement == movement)
      && (p.flip == b.flip ==> p.movement == Vec(if b.flip then movement.x - 0.5 else 0.5, movement.y))
  {
  }

  /** With the game's requested movement (0, 0), a walking enemy that does not turn moves 0.5 the way it faces. */
  lemma PatrolSpeed(walking: int, b: Body, w: int, h: int, grid: map<Cell, GridTile>, tileSize: int, player: PlayerView, dice: Dice)
    requires tileSize > 0 && walking > 0
    ensures var p := PatrolStep(walking, b, w, h, Vec(0.0, 0.0), grid, tileSize, player, dice);
      p.flip == b.flip ==> p.movement == Vec(if b.flip then -0.5 else 0.5, 0.0)
  {
  }

  /** While the counter is at zero the patrol step, turn check included, is skipped. */
  lemma IdleSkipsPatrol(b: Body, w: int, h: int, movement: Vec,
                        grid: map<Cell, GridTile>, tileSize: int, player: PlayerView, dice: Dice)
    requires tileSize > 0
    ensures var p := PatrolStep(0, b, w, h, movement, grid, tileSize, player, dice);
      p.flip == b.flip && p.movement == movement && p.shot == None
  {
  }

  /**
   * The enemy shoots exactly on the update its counter runs out, with the
   * player less than 16 pixels above or below and on the side it now faces;
   * the projectile starts 7 pixels ahead of the enemy's centre, at age 0,
   * moving 1.5 per tick toward the player.
   */
  lemma ShotRule(walking: int, b: Body, w: int, h: int, movement: Vec,
                 grid: map<Cell, GridTile>, tileSize: int, player: PlayerView, dice: Dice)
    requires tileSize > 0 && walking >= 0
    ensures var p := PatrolStep(walking, b, w, h, movement, grid, tileSize, player, dice);
      var dx, dy := player.pos.x - b.pos.x, player.pos.y - b.pos.y;
      && (p.shot.Some? <==> walking == 1 && AbsReal(dy) < 16.0 && ((p.flip && dx < 0.0) || (!p.flip && dx > 0.0)))
      && (p.shot.Some? ==>
            var r := RectAt(b.pos, w, h);
            && p.shot.value.timer == 0
            && p.shot.value.direction == (if p.flip then -1.5 else 1.5)
            && p.shot.value.direction * dx > 0.0
            && p.shot.value.pos == Vec((r.CenterX() + (if p.flip then -7 else 7)) as real, r.CenterY() as real))
  {
  }

  /** Without a dash counter of magnitude 50 or more, or without overlap, the enemy survives the contact test. */
  lemma KilledOnlyByDash(r: Rect, player: PlayerView)
    ensures Killed(r, player) <==> (player.dashing >= 50 || player.dashing <= -50) && Overlaps(r, player.rect)
  {
  }
}
