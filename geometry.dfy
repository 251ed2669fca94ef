/**
 * Pixel geometry shared by the tilemap and the entities: real-valued vectors
 * (Python floats, as exact reals), pygame's integer rectangles, the float-to-int
 * conversion pygame applies when it builds a rectangle from floats, and the
 * floor division that maps a pixel to a grid cell.
 */
module Geometry {

  /** A 2-vector of Python floats (position, velocity, movement). */
  datatype Vec = Vec(x: real, y: real)

  /** A pygame `Rect`: integer top-left corner and integer size. */
  datatype Rect = Rect(x: int, y: int, w: int, h: int) {
    function Left(): int { x }
    function Right(): int { x + w }
    function Top(): int { y }
    function Bottom(): int { y + h }
    /** pygame's `centerx` / `centery` (sizes in this program are never negative). */
    function CenterX(): int { x + w / 2 }
    function CenterY(): int { y + h / 2 }
  }

  /**
   * The conversion pygame applies to a float coordinate (a C cast), which is
   * also Python's `int()`: truncation toward zero, not floor.
   */
  function Trunc(v: real): (r: int)
    ensures 0.0 <= v ==> r as real <= v < r as real + 1.0
    ensures v < 0.0 ==> r as real - 1.0 < v <= r as real
  {
    if v >= 0.0 then v.Floor else -((-v).Floor)
  }

  lemma TruncOfInteger(n: int)
    ensures Trunc(n as real) == n
  {
  }

  /** Truncation and floor disagree on negative fractions: int(-0.5) is 0, -0.5 // 1 is -1. */
  lemma TruncIsNotFloor()
    ensures Trunc(-0.5) == 0 && (-0.5).Floor == -1
  {
  }

  /** Python's `v // d` for a float `v` and a positive int `d`, then `int()` of that (already integral). */
  function FloorDiv(v: real, d: int): (q: int)
    requires d > 0
    ensures (q * d) as real <= v < ((q + 1) * d) as real
  {
    var q := (v / d as real).Floor;
    assert q as real <= v / d as real < q as real + 1.0;
    MulMonotone(q as real, v / d as real, d as real);
    MulMonotone(v / d as real, q as real + 1.0, d as real);
    q
  }

  lemma MulMonotone(a: real, b: real, c: real)
    requires a <= b && c > 0.0
    ensures a * c <= b * c
    ensures a < b ==> a * c < b * c
  {
  }

  /** On integral pixels the real floor division is Dafny's (Euclidean = floor) integer division. */
  lemma FloorDivOfInteger(n: int, d: int)
    requires d > 0
    ensures FloorDiv(n as real, d) == n / d
  {
    var q := FloorDiv(n as real, d);
    assert q * d <= n < (q + 1) * d;
    QuotientUnique(q, n / d, n, d);
  }

  lemma QuotientUnique(q: int, p: int, n: int, d: int)
    requires d > 0
    requires q * d <= n < (q + 1) * d
    requires p * d <= n < (p + 1) * d
    ensures q == p
  {
    if q < p {
      IntMulMonotone(q + 1, p, d);
    } else if p < q {
      IntMulMonotone(p + 1, q, d);
    }
  }

  lemma IntMulMonotone(a: int, b: int, c: int)
    requires a <= b && c > 0
    ensures a * c <= b * c
  {
  }

  /**
   * pygame `colliderect`: the open rectangles overlap (touching edges do not
   * collide), and a rectangle of zero width or height collides with nothing.
   */
  predicate Overlaps(a: Rect, b: Rect)
    ensures Overlaps(a, b) ==> a.w > 0 && a.h > 0 && b.w > 0 && b.h > 0
  {
    a.w > 0 && a.h > 0 && b.w > 0 && b.h > 0
    && a.x < b.x + b.w && b.x < a.x + a.w && a.y < b.y + b.h && b.y < a.y + a.h
  }

  /** pygame `collidepoint` with a float point, converted by truncation. */
  predicate ContainsPoint(r: Rect, p: Vec)
    ensures ContainsPoint(r, p) ==> r.w > 0 && r.h > 0
    ensures ContainsPoint(r, p) ==> (r.x - 1) as real < p.x < (r.x + r.w + 1) as real && (r.y - 1) as real < p.y < (r.y + r.h + 1) as real
  {
    var px, py := Trunc(p.x), Trunc(p.y);
    r.x <= px < r.x + r.w && r.y <= py < r.y + r.h
  }

  /** The rectangle `pygame.Rect(pos[0], pos[1], w, h)`. */
  function RectAt(pos: Vec, w: int, h: int): (r: Rect)
    ensures r.w == w && r.h == h
    ensures 0.0 <= pos.x ==> r.x as real <= pos.x < r.x as real + 1.0
    ensures pos.x < 0.0 ==> r.x as real - 1.0 < pos.x <= r.x as real
    ensures 0.0 <= pos.y ==> r.y as real <= pos.y < r.y as real + 1.0
    ensures pos.y < 0.0 ==> r.y as real - 1.0 < pos.y <= r.y as real
  {
    Rect(Trunc(pos.x), Trunc(pos.y), w, h)
  }
}
