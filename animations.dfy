/**
 * The animation frame clock: a list of images, each shown for `imgDuration`
 * ticks, either looping or stopping on the last frame.
 */
module Animations {
  import opened Geometry

  /** A handle of a loaded image. */
  type Image = nat

  /**
   * One `update` on the pair (frame, done) for a clip of `total` ticks: a loop
   * wraps modulo `total`; otherwise the frame stops at `total - 1` and `done`
   * is raised once it gets there.
   */
  function Step(frame: int, done: bool, total: int, loop: bool): (r: (int, bool))
    requires total > 0
    ensures loop ==> 0 <= r.0 < total && r.1 == done
    ensures loop && -1 <= frame < total - 1 ==> r.0 == frame + 1
    ensures loop && frame == total - 1 ==> r.0 == 0
    ensures !loop ==> r.0 <= total - 1 && (r.0 == frame + 1 || r.0 == total - 1) && (r.1 <==> done || r.0 == total - 1)
  {
    if loop then ((frame + 1) % total, done)
    else
      var f := if frame + 1 < total - 1 then frame + 1 else total - 1;
      (f, done || f >= total - 1)
  }

  /** `k` updates in a row. */
  function Run(frame: int, done: bool, total: int, loop: bool, k: nat): (int, bool)
    requires total > 0
    decreases k
  {
    if k == 0 then (frame, done)
    else
      var s := Run(frame, done, total, loop, k - 1);
      Step(s.0, s.1, total, loop)
  }

  /** `int(frame / img_duration)`: float division, then truncation. */
  function ImageIndex(frame: int, duration: int): int
    requires duration > 0
  {
    Trunc(frame as real / duration as real)
  }

  /** Every clip of an asset table is playable. */
  predicate Playables(assets: map<string, Animation>)
  {
    forall k :: k in assets ==> assets[k].Playable()
  }

  class Animation {
    const images: seq<Image>
    const imgDuration: int
    const loop: bool
    var frame: int
    var done: bool
    /** The entity showing this animation, once one has taken it. */
    ghost var owner: object?

    /** The number of ticks in one pass of the clip. */
    function Total(): int { imgDuration * |images| }

    /** A clip with at least one image, each shown for at least one tick. */
    predicate Playable()
    {
      imgDuration > 0 && |images| > 0
    }

    /** The frame counter stays inside the clip. */
    ghost predicate Valid()
      reads this`frame
    {
      Playable() && 0 <= frame < Total()
    }

    constructor (images: seq<Image>, imgDuration: int, loop: bool)
      requires imgDuration > 0 && |images| > 0
      ensures Valid()
      ensures this.images == images && this.imgDuration == imgDuration && this.loop == loop
      ensures frame == 0 && !done
    {
      this.images := images;
      this.imgDuration := imgDuration;
      this.loop := loop;
      done := false;
      frame := 0;
      new;
      PositiveProduct(imgDuration, |images|);
    }

    /** `copy`: a new clock over the same images, duration and looping, at frame 0 and not done. */
    method Copy() returns (a: Animation)
      requires Playable()
      ensures fresh(a) && a.Valid()
      ensures a.images == images && a.imgDuration == imgDuration && a.loop == loop
      ensures a.frame == 0 && !a.done
    {
      a := new Animation(images, imgDuration, loop);
    }

    /** `update`: one tick of the clock. */
    method Update()
      requires Valid()
      modifies this`frame, this`done
      ensures Valid()
      ensures (frame, done) == Step(old(frame), old(done), Total(), loop)
    {
      var total := imgDuration * |images|;
      if loop {
        frame := (frame + 1) % total;
      } else {
        frame := if frame + 1 < total - 1 then frame + 1 else total - 1;
        if frame >= total - 1 {
          done := true;
        }
      }
    }

    /** `img`: the image on show, the `frame / img_duration`-th one. */
    function Img(): (im: Image)
      reads this`frame
      requires Valid()
      ensures im in images
      ensures im == images[frame / imgDuration]
    {
      ImageIndexInRange(frame, imgDuration, |images|);
      images[ImageIndex(frame, imgDuration)]
    }
  }

  // ------------------------------------------------------------------ lemmas

  lemma PositiveProduct(a: int, b: int)
    requires a > 0 && b > 0
    ensures a * b > 0
  {
  }

  /** Euclidean division is unique: `x == d * n + r` with `0 <= r < n` gives quotient `d`, remainder `r`. */
  lemma DivModUnique(x: int, d: int, r: int, n: int)
    requires n > 0 && 0 <= r < n && x == d * n + r
    ensures x / n == d && x % n == r
  {
    assert d * n <= x < (d + 1) * n;
    QuotientUnique(x / n, d, x, n);
  }

  /** Every update keeps the frame inside the clip. */
  lemma StepInRange(frame: int, done: bool, total: int, loop: bool)
    requires total > 0 && 0 <= frame < total
    ensures 0 <= Step(frame, done, total, loop).0 < total
  {
  }

  /** After `k` updates of a loop the frame is `(frame + k) mod total`; `done` never changes. */
  lemma {:induction false} LoopRun(frame: int, done: bool, total: int, k: nat)
    requires total > 0 && 0 <= frame < total
    ensures Run(frame, done, total, true, k) == ((frame + k) % total, done)
    decreases k
  {
    if k > 0 {
      LoopRun(frame, done, total, k - 1);
      ModSucc(frame + k - 1, total);
    }
  }

  /** `((a mod n) + 1) mod n == (a + 1) mod n`. */
  lemma ModSucc(a: int, n: int)
    requires n > 0
    ensures (a % n + 1) % n == (a + 1) % n
  {
    var q, r := a / n, a % n;
    if r + 1 < n {
      DivModUnique(a + 1, q, r + 1, n);
    } else {
      DivModUnique(a + 1, q + 1, 0, n);
    }
  }

  /**
   * A looping clip is back at its starting frame after `k` updates exactly
   * when `k` is a multiple of `total`: after `total` updates, and never before.
   */
  lemma LoopReturns(frame: int, done: bool, total: int, k: nat)
    requires total > 0 && 0 <= frame < total
    ensures Run(frame, done, total, true, k).0 == frame <==> k % total == 0
  {
    LoopRun(frame, done, total, k);
    ModShift(frame, k, total);
  }

  /** For `0 <= f < n`: `(f + k) mod n == f` exactly when `k mod n == 0`. */
  lemma ModShift(f: int, k: int, n: int)
    requires 0 <= f < n
    ensures (f + k) % n == f <==> k % n == 0
  {
    var q, r := k / n, k % n;
    assert k == q * n + r;
    if f + r < n {
      DivModUnique(f + k, q, f + r, n);
    } else {
      assert (q + 1) * n == q * n + n;
      DivModUnique(f + k, q + 1, f + r - n, n);
    }
  }

  /** Without looping, `k` updates move the frame to `min(frame + k, total - 1)`: never back, never past the end. */
  lemma {:induction false} NonLoopRun(frame: int, done: bool, total: int, k: nat)
    requires total > 0 && 0 <= frame < total
    ensures Run(frame, done, total, false, k).0 == if frame + k < total - 1 then frame + k else total - 1
    decreases k
  {
    if k > 0 {
      NonLoopRun(frame, done, total, k - 1);
    }
  }

  /** Without looping, one update never lowers the frame and never passes `total - 1`. */
  lemma NonLoopMonotone(frame: int, done: bool, total: int)
    requires total > 0 && 0 <= frame < total
    ensures frame <= Step(frame, done, total, false).0 <= total - 1
  {
  }

  /**
   * Without looping, `done` is raised exactly on the update that leaves the
   * frame at `total - 1`, and once raised it stays raised.
   */
  lemma {:induction false} NonLoopDone(frame: int, done: bool, total: int, k: nat)
    requires total > 0 && 0 <= frame < total && k > 0
    ensures Run(frame, done, total, false, k).1 <==> done || frame + k >= total - 1
    decreases k
  {
    NonLoopRun(frame, done, total, k - 1);
    if k > 1 {
      NonLoopDone(frame, done, total, k - 1);
    }
  }

  /** A one-tick clip that does not loop is done after its first update. */
  lemma SingleTickDone()
    ensures Step(0, false, 1, false) == (0, true)
  {
  }

  /** The image index of a frame inside the clip is the floor quotient, a valid index. */
  lemma ImageIndexInRange(frame: int, duration: int, count: int)
    requires duration > 0 && 0 <= frame < duration * count
    ensures ImageIndex(frame, duration) == frame / duration
    ensures 0 <= ImageIndex(frame, duration) < count
  {
    FloorDivOfInteger(frame, duration);
    assert ImageIndex(frame, duration) == FloorDiv(frame as real, duration);
    if frame / duration >= count {
      IntMulMonotone(count, frame / duration, duration);
    }
  }
}
