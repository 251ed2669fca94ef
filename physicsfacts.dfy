/**
 * What the collision passes and the physics step guarantee: flags only in
 * the direction of motion, no contact means the plain move, a push only ever
 * acts against the motion, and gravity and facing follow their rules.
 */
module PhysicsFacts {
  import opened Geometry
  import opened Tiles
  import opened Physics

  /** The coordinate a pass along `axis` leaves alone. */
  function Across(r: Rect, axis: Axis): int
  {
    if axis == X then r.y else r.x
  }

  // ------------------------------------------------------------------ one pass

  /** A flag is raised exactly when something was touched while moving in its direction. */
  lemma {:induction false} ResolveFlags(r0: Rect, obstacles: seq<Rect>, d: real, axis: Axis)
    ensures var s := Resolve(r0, obstacles, d, axis);
      (s.forward <==> s.touched && d > 0.0) && (s.backward <==> s.touched && d < 0.0)
    decreases |obstacles|
  {
    if obstacles != [] {
      ResolveFlags(r0, obstacles[..|obstacles| - 1], d, axis);
    }
  }

  /**
   * Nothing is touched exactly when no obstacle overlaps the starting
   * rectangle, and then the rectangle is the starting one.
   */
  lemma {:induction false} ResolveUntouched(r0: Rect, obstacles: seq<Rect>, d: real, axis: Axis)
    ensures var s := Resolve(r0, obstacles, d, axis);
      !s.touched <==> forall i :: 0 <= i < |obstacles| ==> !Overlaps(r0, obstacles[i])
    ensures !Resolve(r0, obstacles, d, axis).touched ==> Resolve(r0, obstacles, d, axis).rect == r0
    decreases |obstacles|
  {
    if obstacles != [] {
      var init := obstacles[..|obstacles| - 1];
      ResolveUntouched(r0, init, d, axis);
      assert forall i :: 0 <= i < |init| ==> init[i] == obstacles[i];
    }
  }

  /**
   * A pass moves the rectangle only along its axis and only against the
   * motion: back (strictly, once touched) when moving forward, forward when
   * moving back, not at all without motion. The size never changes.
   */
  lemma {:induction false} ResolveBacksOff(r0: Rect, obstacles: seq<Rect>, d: real, axis: Axis)
    ensures var s := Resolve(r0, obstacles, d, axis);
      && s.rect.w == r0.w && s.rect.h == r0.h
      && Across(s.rect, axis) == Across(r0, axis)
      && (d > 0.0 ==> Coord(s.rect, axis) <= Coord(r0, axis) && (s.touched ==> Coord(s.rect, axis) < Coord(r0, axis)))
      && (d < 0.0 ==> Coord(s.rect, axis) >= Coord(r0, axis) && (s.touched ==> Coord(s.rect, axis) > Coord(r0, axis)))
      && (d == 0.0 ==> s.rect == r0)
    decreases |obstacles|
  {
    if obstacles != [] {
      ResolveBacksOff(r0, obstacles[..|obstacles| - 1], d, axis);
    }
  }

  /**
   * A push leaves the rectangle edge to edge with the obstacle (right on left,
   * left on right, bottom on top, top on bottom), which no longer counts as
   * an overlap.
   */
  lemma ClampSeparates(r: Rect, o: Rect, d: real, axis: Axis)
    requires Overlaps(r, o) && d != 0.0
    ensures var c := Clamp(r, o, d, axis);
      && !Overlaps(c, o)
      && (axis == X && d > 0.0 ==> c.Right() == o.Left())
      && (axis == X && d < 0.0 ==> c.Left() == o.Right())
      && (axis == Y && d > 0.0 ==> c.Bottom() == o.Top())
      && (axis == Y && d < 0.0 ==> c.Top() == o.Bottom())
  {
  }

  /** An 8-wide body moving right into a tile at x = 32 ends with its right edge on the tile's left edge. */
  lemma PushOutExample()
    ensures Resolve(Rect(25, 0, 8, 15), [Rect(32, 0, 16, 16)], 5.0, X) == Sweep(Rect(24, 0, 8, 15), true, false, true)
  {
    assert [Rect(32, 0, 16, 16)][..0] == [];
  }

  // ---------------------------------------------------------------- the step

  /** Collision flags are set only in the direction of the frame movement on their axis. */
  lemma StepFlags(b: Body, w: int, h: int, movement: Vec, grid: map<Cell, GridTile>, tileSize: int)
    requires tileSize > 0
    ensures var c, fm := PhysicsStep(b, w, h, movement, grid, tileSize).collisions, FrameMovement(b, movement);
      && (c.right ==> fm.x > 0.0) && (c.left ==> fm.x < 0.0)
      && (c.down ==> fm.y > 0.0) && (c.up ==> fm.y < 0.0)
  {
    var p1 := MovedX(b, movement);
    ResolveFlags(RectAt(p1, w, h), RectsNear(grid, tileSize, p1), FrameMovement(b, movement).x, X);
    var p3 := MovedY(b, w, h, movement, grid, tileSize);
    ResolveFlags(RectAt(p3, w, h), RectsNear(grid, tileSize, p3), FrameMovement(b, movement).y, Y);
  }

  /**
   * When no solid rectangle around the moved position overlaps the body, the
   * X coordinate is exactly the old one plus the frame movement and neither
   * side flag is set; the same for Y.
   */
  lemma StepFreeMove(b: Body, w: int, h: int, movement: Vec, grid: map<Cell, GridTile>, tileSize: int)
    requires tileSize > 0
    ensures var p1, r := MovedX(b, movement), PhysicsStep(b, w, h, movement, grid, tileSize);
      var rects := RectsNear(grid, tileSize, p1);
      (forall i :: 0 <= i < |rects| ==> !Overlaps(RectAt(p1, w, h), rects[i])) ==>
        r.pos.x == b.pos.x + FrameMovement(b, movement).x && !r.collisions.right && !r.collisions.left
    ensures var p3, r := MovedY(b, w, h, movement, grid, tileSize), PhysicsStep(b, w, h, movement, grid, tileSize);
      var rects := RectsNear(grid, tileSize, p3);
      (forall i :: 0 <= i < |rects| ==> !Overlaps(RectAt(p3, w, h), rects[i])) ==>
        r.pos.y == b.pos.y + FrameMovement(b, movement).y && !r.collisions.down && !r.collisions.up
  {
    var fm := FrameMovement(b, movement);
    var p1 := MovedX(b, movement);
    ResolveUntouched(RectAt(p1, w, h), RectsNear(grid, tileSize, p1), fm.x, X);
    ResolveFlags(RectAt(p1, w, h), RectsNear(grid, tileSize, p1), fm.x, X);
    var p3 := MovedY(b, w, h, movement, grid, tileSize);
    ResolveUntouched(RectAt(p3, w, h), RectsNear(grid, tileSize, p3), fm.y, Y);
    ResolveFlags(RectAt(p3, w, h), RectsNear(grid, tileSize, p3), fm.y, Y);
  }

  /**
   * A push only pulls the body back against its motion: moving right it ends
   * strictly left of the moved position, moving left strictly right of it;
   * without horizontal motion a contact snaps the position to its truncation.
   */
  lemma StepPullsBackX(b: Body, w: int, h: int, movement: Vec, grid: map<Cell, GridTile>, tileSize: int)
    requires tileSize > 0
    ensures var p1, fm := MovedX(b, movement), FrameMovement(b, movement);
      var s, x := SweepX(b, w, h, movement, grid, tileSize), PhysicsStep(b, w, h, movement, grid, tileSize).pos.x;
      && (!s.touched ==> x == p1.x)
      && (s.touched && fm.x > 0.0 ==> x < p1.x)
      && (s.touched && fm.x < 0.0 ==> x > p1.x)
      && (s.touched && fm.x == 0.0 ==> x == Trunc(p1.x) as real)
  {
    var p1, fm := MovedX(b, movement), FrameMovement(b, movement);
    ResolveBacksOff(RectAt(p1, w, h), RectsNear(grid, tileSize, p1), fm.x, X);
  }

  /** The same for the vertical pass: landing pulls the body up, bumping the head pushes it down. */
  lemma StepPullsBackY(b: Body, w: int, h: int, movement: Vec, grid: map<Cell, GridTile>, tileSize: int)
    requires tileSize > 0
    ensures var p3, fm := MovedY(b, w, h, movement, grid, tileSize), FrameMovement(b, movement);
      var s, y := SweepY(b, w, h, movement, grid, tileSize), PhysicsStep(b, w, h, movement, grid, tileSize).pos.y;
      && (!s.touched ==> y == p3.y)
      && (s.touched && fm.y > 0.0 ==> y < p3.y)
      && (s.touched && fm.y < 0.0 ==> y > p3.y)
      && (s.touched && fm.y == 0.0 ==> y == Trunc(p3.y) as real)
  {
    var p3, fm := MovedY(b, w, h, movement, grid, tileSize), FrameMovement(b, movement);
    ResolveBacksOff(RectAt(p3, w, h), RectsNear(grid, tileSize, p3), fm.y, Y);
  }

  /**
   * Gravity: the vertical velocity gains 0.1 up to a terminal 5.0 and is zero
   * after landing or bumping the head; the horizontal velocity is untouched.
   */
  lemma StepGravity(b: Body, w: int, h: int, movement: Vec, grid: map<Cell, GridTile>, tileSize: int)
    requires tileSize > 0
    ensures var r := PhysicsStep(b, w, h, movement, grid, tileSize);
      && r.velocity.y <= 5.0
      && r.velocity.x == b.velocity.x
      && (r.collisions.down || r.collisions.up ==> r.velocity.y == 0.0)
      && (!r.collisions.down && !r.collisions.up ==>
            r.velocity.y == (if b.velocity.y + 0.1 < 5.0 then b.velocity.y + 0.1 else 5.0))
  {
  }

  /**
   * Facing follows the requested horizontal movement and is kept without one;
   * the last movement is the requested one, not the resolved displacement.
   */
  lemma StepFacing(b: Body, w: int, h: int, movement: Vec, grid: map<Cell, GridTile>, tileSize: int)
    requires tileSize > 0
    ensures var r := PhysicsStep(b, w, h, movement, grid, tileSize);
      && (movement.x > 0.0 ==> !r.flip)
      && (movement.x < 0.0 ==> r.flip)
      && (movement.x == 0.0 ==> r.flip == b.flip)
      && r.lastMovement == movement
  {
  }
}
