/**
 * The physics entity shared by the player and the enemies: a position, a
 * velocity and a size; an update that moves along X, pushes the entity's
 * rectangle out of every overlapping solid tile rectangle, then does the
 * same along Y against a fresh rectangle; gravity with a terminal speed; the
 * facing rule; and the animation switch `set_action`.
 */
module Physics {
  import opened Geometry
  import opened Tiles
  import opened Animations

  /** The four collision flags of one update. */
  datatype Collisions = Collisions(up: bool, down: bool, right: bool, left: bool)

  const NoCollisions: Collisions := Collisions(false, false, false, false)

  datatype Axis = X | Y

  /**
   * The state of one collision pass: the entity rectangle as it is pushed,
   * whether a push happened in the direction of motion (`forward`: right or
   * down), against it (`backward`: left or up), and whether any obstacle
   * overlapped the rectangle at all (`touched`), which is when the program
   * copies the rectangle's coordinate back into the position.
   */
  datatype Sweep = Sweep(rect: Rect, forward: bool, backward: bool, touched: bool)

  /** The coordinate of the rectangle along an axis. */
  function Coord(r: Rect, axis: Axis): int
  {
    if axis == X then r.x else r.y
  }

  /**
   * One push: moving right puts the rectangle's right edge on the obstacle's
   * left edge, moving left puts its left edge on the obstacle's right edge;
   * along Y, bottom on top and top on bottom. Without motion nothing moves.
   */
  function Clamp(r: Rect, o: Rect, d: real, axis: Axis): (c: Rect)
    ensures c.w == r.w && c.h == r.h
    ensures axis == X ==> c.y == r.y
    ensures axis == Y ==> c.x == r.x
  {
    match axis
    case X => if d > 0.0 then r.(x := o.x - r.w) else if d < 0.0 then r.(x := o.x + o.w) else r
    case Y => if d > 0.0 then r.(y := o.y - r.h) else if d < 0.0 then r.(y := o.y + o.h) else r
  }

  /** The collision loop of one axis over the obstacles, in list order. */
  function Resolve(r0: Rect, obstacles: seq<Rect>, d: real, axis: Axis): (s: Sweep)
    decreases |obstacles|
    ensures s.rect.w == r0.w && s.rect.h == r0.h
    ensures axis == X ==> s.rect.y == r0.y
    ensures axis == Y ==> s.rect.x == r0.x
    ensures !s.touched ==> s.rect == r0 && !s.forward && !s.backward
    ensures (s.forward ==> d > 0.0) && (s.backward ==> d < 0.0)
  {
    if obstacles == [] then Sweep(r0, false, false, false)
    else
      var s := Resolve(r0, obstacles[..|obstacles| - 1], d, axis);
      var o := obstacles[|obstacles| - 1];
      if Overlaps(s.rect, o) then Sweep(Clamp(s.rect, o, d, axis), s.forward || d > 0.0, s.backward || d < 0.0, true)
      else s
  }

  /** The position after a pass: the rectangle's coordinate when something was touched, the moved position otherwise. */
  function Settle(p: Vec, s: Sweep, axis: Axis): Vec
  {
    if !s.touched then p
    else if axis == X then Vec(s.rect.x as real, p.y)
    else Vec(p.x, s.rect.y as real)
  }

  /** Python's `min(a, b)` on floats. */
  function MinReal(a: real, b: real): (m: real)
    ensures m <= a && m <= b && (m == a || m == b)
  {
    if b < a then b else a
  }

  /** The part of an entity that one `update` rewrites. */
  datatype Body = Body(pos: Vec, velocity: Vec, collisions: Collisions, flip: bool, lastMovement: Vec)

  /** The movement of one update: the requested movement plus the velocity. */
  function FrameMovement(b: Body, movement: Vec): Vec
  {
    Vec(movement.x + b.velocity.x, movement.y + b.velocity.y)
  }

  /** The position after the X move. */
  function MovedX(b: Body, movement: Vec): Vec
  {
    Vec(b.pos.x + FrameMovement(b, movement).x, b.pos.y)
  }

  /** The X pass: the sweep against the rectangles around the moved position. */
  function SweepX(b: Body, w: int, h: int, movement: Vec, grid: map<Cell, GridTile>, tileSize: int): Sweep
    requires tileSize > 0
  {
    var p := MovedX(b, movement);
    Resolve(RectAt(p, w, h), RectsNear(grid, tileSize, p), FrameMovement(b, movement).x, X)
  }

  /** The position after the settled X pass and the Y move. */
  function MovedY(b: Body, w: int, h: int, movement: Vec, grid: map<Cell, GridTile>, tileSize: int): Vec
    requires tileSize > 0
  {
    Vec(Settle(MovedX(b, movement), SweepX(b, w, h, movement, grid, tileSize), X).x, b.pos.y + FrameMovement(b, movement).y)
  }

  /** The Y pass, against a fresh rectangle at the position after the Y move. */
  function SweepY(b: Body, w: int, h: int, movement: Vec, grid: map<Cell, GridTile>, tileSize: int): Sweep
    requires tileSize > 0
  {
    var p := MovedY(b, w, h, movement, grid, tileSize);
    Resolve(RectAt(p, w, h), RectsNear(grid, tileSize, p), FrameMovement(b, movement).y, Y)
  }

  /** `PhysicsEntity.update` on a body of size `w` by `h` with the requested `movement`. */
  function PhysicsStep(b: Body, w: int, h: int, movement: Vec, grid: map<Cell, GridTile>, tileSize: int): (r: Body)
    requires tileSize > 0
    ensures r.lastMovement == movement && r.velocity.x == b.velocity.x && r.velocity.y <= 5.0
    ensures r.collisions.right || r.collisions.left ==> movement.x + b.velocity.x != 0.0
    ensures r.collisions.down || r.collisions.up ==> r.velocity.y == 0.0
    ensures movement.x == 0.0 ==> r.flip == b.flip
  {
    var sx := SweepX(b, w, h, movement, grid, tileSize);
    var sy := SweepY(b, w, h, movement, grid, tileSize);
    var c := Collisions(sy.backward, sy.forward, sx.forward, sx.backward);
    var flip := if movement.x > 0.0 then false else if movement.x < 0.0 then true else b.flip;
    var vy := MinReal(5.0, b.velocity.y + 0.1);
    Body(Settle(MovedY(b, w, h, movement, grid, tileSize), sy, Y), Vec(b.velocity.x, if c.down || c.up then 0.0 else vy), c, flip, movement)
  }

  /** The name under which an entity kind's animation for an action is stored: `type + '/' + action`. */
  function AssetKey(kind: string, action: string): string
  {
    kind + "/" + action
  }

  /**
   * The collision loop of one axis: for each obstacle in turn, when it
   * overlaps the (already pushed) rectangle, push the rectangle back, raise
   * the flag of the direction of motion, and copy the rectangle's coordinate
   * into the position.
   */
  method SweepAxis(r0: Rect, rects: seq<Rect>, d: real, axis: Axis, coord: real) returns (s: Sweep, c: real)
    ensures s == Resolve(r0, rects, d, axis)
    ensures c == if s.touched then Coord(s.rect, axis) as real else coord
  {
    var entityRect := r0;
    var forward, backward, touched := false, false, false;
    c := coord;
    for i := 0 to |rects|
      invariant Sweep(entityRect, forward, backward, touched) == Resolve(r0, rects[..i], d, axis)
      invariant c == if touched then Coord(entityRect, axis) as real else coord
    {
      assert rects[..i + 1][..i] == rects[..i];
      var rect := rects[i];
      if Overlaps(entityRect, rect) {
        if d > 0.0 {
          if axis == X { entityRect := entityRect.(x := rect.x - entityRect.w); }
          else { entityRect := entityRect.(y := rect.y - entityRect.h); }
          forward := true;
        }
        if d < 0.0 {
          if axis == X { entityRect := entityRect.(x := rect.x + rect.w); }
          else { entityRect := entityRect.(y := rect.y + rect.h); }
          backward := true;
        }
        touched := true;
        c := Coord(entityRect, axis) as real;
      }
    }
    assert rects[..|rects|] == rects;
    s := Sweep(entityRect, forward, backward, touched);
  }

  class PhysicsEntity {
    /** The entity type, `'player'` or `'enemy'`, the prefix of its animation names. */
    const kind: string
    const w: int
    const h: int
    /** The game's animation assets by name; `set_action` copies from here. */
    const assets: map<string, Animation>
    var pos: Vec
    var velocity: Vec
    var collisions: Collisions
    var action: string
    var flip: bool
    var lastMovement: Vec
    var animation: Animation
    /** The enemy or player this body belongs to. */
    ghost var owner: object?

    /** The animation on show is a valid clock of its own and every stored clip is playable. */
    ghost predicate Valid()
      reads this`animation, animation`frame, animation`owner
    {
      w >= 0 && h >= 0 && animation.Valid() && animation.owner == this && Playables(assets)
    }

    /** The body fields that `update` rewrites. */
    function Snapshot(): Body
      reads this
    {
      Body(pos, velocity, collisions, flip, lastMovement)
    }

    /** `__init__`: at rest, no collisions, facing right, action `'idle'` with a fresh copy of its animation. */
    constructor (kind: string, pos: Vec, w: int, h: int, assets: map<string, Animation>)
      requires w >= 0 && h >= 0
      requires AssetKey(kind, "idle") in assets
      requires Playables(assets)
      ensures Valid()
      ensures this.kind == kind && this.pos == pos && this.w == w && this.h == h && this.assets == assets
      ensures velocity == Vec(0.0, 0.0) && collisions == NoCollisions && !flip && lastMovement == Vec(0.0, 0.0)
      ensures action == "idle" && fresh(animation)
      ensures var src := assets[AssetKey(kind, "idle")];
        animation.images == src.images && animation.imgDuration == src.imgDuration && animation.loop == src.loop
      ensures animation.frame == 0 && !animation.done
    {
      var a := assets[AssetKey(kind, "idle")].Copy();
      this.kind := kind;
      this.pos := pos;
      this.w := w;
      this.h := h;
      this.assets := assets;
      velocity := Vec(0.0, 0.0);
      collisions := NoCollisions;
      action := "idle";
      flip := false;
      lastMovement := Vec(0.0, 0.0);
      animation := a;
      new;
      a.owner := this;
    }

    /** `rect()`: the integer rectangle at the (truncated) position. */
    function Rect(): (r: Rect)
      reads this`pos
      ensures r == RectAt(pos, w, h)
      ensures r.w == w && r.h == h
    {
      RectAt(pos, w, h)
    }

    /**
     * `set_action`: the same action keeps the running animation object and its
     * frame; a different one installs a fresh copy of the stored clip at frame 0.
     */
    method SetAction(a: string)
      requires Valid()
      requires AssetKey(kind, a) in assets
      modifies this`action, this`animation
      ensures Valid()
      ensures action == a
      ensures a == old(action) ==> animation == old(animation)
      ensures a != old(action) ==> fresh(animation) && animation.frame == 0 && !animation.done
      ensures a != old(action) ==>
        var src := assets[AssetKey(kind, a)];
        animation.images == src.images && animation.imgDuration == src.imgDuration && animation.loop == src.loop
    {
      if a != action {
        action := a;
        animation := assets[AssetKey(kind, a)].Copy();
        animation.owner := this;
      }
    }

    /** `update`: the physics step on the body, then one tick of the animation. */
    method Update(tm: Tilemap, movement: Vec)
      requires Valid() && tm.tileSize > 0
      modifies this`pos, this`velocity, this`collisions, this`flip, this`lastMovement, animation`frame, animation`done
      ensures Valid()
      ensures Snapshot() == PhysicsStep(old(Snapshot()), w, h, movement, tm.tilemap, tm.tileSize)
      ensures action == old(action) && animation == old(animation)
      ensures (animation.frame, animation.done) == Step(old(animation.frame), old(animation.done), animation.Total(), animation.loop)
    {
      Move(tm, movement);
      animation.Update();
    }

    /** The body part of `update`: both collision passes, facing, last movement and gravity. */
    method Move(tm: Tilemap, movement: Vec)
      requires tm.tileSize > 0
      modifies this`pos, this`velocity, this`collisions, this`flip, this`lastMovement
      ensures Snapshot() == PhysicsStep(old(Snapshot()), w, h, movement, tm.tilemap, tm.tileSize)
    {
      ghost var b := Snapshot();
      ghost var t := PhysicsStep(b, w, h, movement, tm.tilemap, tm.tileSize);
      ghost var sx, sy := SweepX(b, w, h, movement, tm.tilemap, tm.tileSize), SweepY(b, w, h, movement, tm.tilemap, tm.tileSize);
      collisions := NoCollisions;
      var fm := Vec(movement.x + velocity.x, movement.y + velocity.y);
      CollideX(tm, fm);
      assert pos == Settle(MovedX(b, movement), sx, X);
      assert collisions == NoCollisions.(right := sx.forward, left := sx.backward);
      assert pos == MovedY(b, w, h, movement, tm.tilemap, tm.tileSize).(y := b.pos.y);
      CollideY(tm, fm);
      assert pos == t.pos;
      assert collisions == t.collisions;
      Gravity(movement);
    }

    /** The end of `update`: facing from the requested movement, the last movement, then gravity or a stop on a vertical hit. */
    method Gravity(movement: Vec)
      modifies this`flip, this`lastMovement, this`velocity
      ensures flip == if movement.x > 0.0 then false else if movement.x < 0.0 then true else old(flip)
      ensures lastMovement == movement
      ensures velocity == Vec(old(velocity).x, if collisions.down || collisions.up then 0.0 else MinReal(5.0, old(velocity).y + 0.1))
    {
      if movement.x > 0.0 {
        flip := false;
      }
      if movement.x < 0.0 {
        flip := true;
      }
      lastMovement := movement;
      velocity := Vec(velocity.x, MinReal(5.0, velocity.y + 0.1));
      if collisions.down || collisions.up {
        velocity := Vec(velocity.x, 0.0);
      }
    }

    /** The X half of `update`: move by `fm.x`, then the collision loop against a rectangle at the moved position. */
    method CollideX(tm: Tilemap, fm: Vec)
      requires tm.tileSize > 0
      modifies this`pos, this`collisions
      ensures var p := Vec(old(pos).x + fm.x, old(pos).y);
        var s := Resolve(RectAt(p, w, h), RectsNear(tm.tilemap, tm.tileSize, p), fm.x, X);
        pos == Settle(p, s, X) && collisions == old(collisions).(right := s.forward, left := s.backward)
    {
      pos := Vec(pos.x + fm.x, pos.y);
      var s, x := SweepAxis(Rect(), tm.PhysicsRectsAround(pos), fm.x, X, pos.x);
      pos := Vec(x, pos.y);
      collisions := collisions.(right := s.forward, left := s.backward);
    }

    /** The Y half of `update`: move by `fm.y`, then the collision loop against a fresh rectangle. */
    method CollideY(tm: Tilemap, fm: Vec)
      requires tm.tileSize > 0
      modifies this`pos, this`collisions
      ensures var p := Vec(old(pos).x, old(pos).y + fm.y);
        var s := Resolve(RectAt(p, w, h), RectsNear(tm.tilemap, tm.tileSize, p), fm.y, Y);
        pos == Settle(p, s, Y) && collisions == old(collisions).(down := s.forward, up := s.backward)
    {
      pos := Vec(pos.x, pos.y + fm.y);
      var s, y := SweepAxis(Rect(), tm.PhysicsRectsAround(pos), fm.y, Y, pos.y);
      pos := Vec(pos.x, y);
      collisions := collisions.(down := s.forward, up := s.backward);
    }
  }
}
