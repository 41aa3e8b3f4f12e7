/** A bullet fired by the player: it flies straight and dies out of range (src/bullets.py). */
module Bullets {
  import opened Geometry
  import opened Enums

  /** Horizontal distance from its spawn point beyond which a bullet dies. */
  const Range: int := 550

  function Abs(n: int): nat { if n < 0 then -n else n }

  /** The horizontal velocity of a bullet: its speed, negated when it faces left. */
  function Velocity(o: Orientation, speed: int): (v: int)
    ensures Abs(v) == Abs(speed)
    ensures o == Orientation.Left ==> v == -speed
    ensures o == Orientation.Right ==> v == speed
  {
    if o == Orientation.Left then -speed else speed
  }

  class Bullet {
    const image: Size
    var rect: Rect
    const spawnX: int
    const spawnY: int
    const orientation: Orientation
    const speed: int
    var isAlive: bool
    /** How many times `update` has run. */
    ghost var updates: nat

    /**
     * The bullet sits `updates` velocity steps from its spawn point, at the
     * spawn height, and is alive exactly while that distance is in range.
     */
    ghost predicate Valid()
      reads this
    {
      && rect.x == spawnX + updates * Velocity(orientation, speed)
      && rect.y == spawnY
      && rect.Dimensions() == image
      && (isAlive <==> updates * Abs(speed) <= Range)
    }

    /** A live bullet whose rectangle has the image's size with its top-left corner at (x, y). */
    constructor (x: int, y: int, image: Size, orientation: Orientation, speed: int)
      ensures Valid()
      ensures rect == Rect(x, y, image.w, image.h)
      ensures spawnX == x && spawnY == y && isAlive && updates == 0
      ensures this.image == image && this.orientation == orientation && this.speed == speed
    {
      this.image := image;
      rect := Rect(x, y, image.w, image.h);
      spawnX, spawnY := x, y;
      this.orientation := orientation;
      this.speed := speed;
      isAlive := true;
      updates := 0;
    }

    /**
     * One frame: move by the speed against x when facing left and along x
     * otherwise, then die once farther than `Range` from the spawn point.
     */
    method Update()
      requires Valid()
      modifies this
      ensures Valid() && updates == old(updates) + 1
      ensures rect == old(rect).(x := old(rect).x + Velocity(orientation, speed))
      ensures isAlive == (old(isAlive) && Abs(rect.x - spawnX) <= Range)
      ensures isAlive ==> old(isAlive)
    {
      ghost var v, u := Velocity(orientation, speed), updates;
      if orientation == Orientation.Left {
        rect := rect.(x := rect.x - speed);
      } else {
        rect := rect.(x := rect.x + speed);
      }
      updates := u + 1;
      assert rect.x - spawnX == (u + 1) * v by {
        assert (u + 1) * v == u * v + v;
      }
      DistanceAfter(u + 1, v);
      DistanceAfter(u, v);
      if Abs(rect.x - spawnX) > Range {
        isAlive := false;
      }
    }

    /** `hits`: the bullet's rectangle overlaps the sprite's, whichever of the two is asked. */
    predicate Hits(other: Rect)
      reads this
      ensures Hits(other) <==> other.Collides(rect)
    {
      CollidesSymmetric(rect, other);
      rect.Collides(other)
    }

    /** After k updates the bullet is exactly k speeds away from its spawn point. */
    lemma Distance()
      requires Valid()
      ensures Abs(rect.x - spawnX) == updates * Abs(speed)
    {
      DistanceAfter(updates, Velocity(orientation, speed));
    }
  }

  lemma DistanceAfter(k: nat, v: int)
    ensures Abs(k * v) == k * Abs(v)
    ensures k * Abs(v) <= (k + 1) * Abs(v)
  {
  }

  /**
   * A bullet of speed s > 0 is alive after updates 1 .. 550 / s and dead
   * after update 550 / s + 1, the first k with k * s > 550.
   */
  lemma {:induction false} DiesOnUpdate(s: nat, k: nat)
    requires s > 0
    ensures k * s <= Range <==> k <= Range / s
  {
    var q := Range / s;
    assert q * s <= Range < (q + 1) * s;
    if k <= q {
      MonotoneMul(k, q, s);
    } else {
      MonotoneMul(q + 1, k, s);
    }
  }

  lemma MonotoneMul(a: nat, b: nat, s: nat)
    requires a <= b
    ensures a * s <= b * s
  {
  }

  /** At the game's bullet speed of 7 the bullet dies on its 79th update. */
  lemma BulletSpeedDiesOnUpdate79()
    ensures 78 * BulletSpeed <= Range < 79 * BulletSpeed
    ensures forall k: nat :: k * BulletSpeed <= Range <==> k <= 78
  {
    forall k: nat ensures k * BulletSpeed <= Range <==> k <= 78 {
      DiesOnUpdate(BulletSpeed, k);
    }
  }
}
