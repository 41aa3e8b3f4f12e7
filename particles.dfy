/** A one-shot dust animation that removes itself when it runs out of frames (src/particles.py). */
module Particles {
  import opened Geometry
  import opened Enums

  /**
   * After k advances of 0.5 the frame index is k / 2 (rounded down) while
   * it is below n, and it reaches n on advance 2n: each of the n frames is
   * shown for two updates and the particle dies on update 2n.
   */
  lemma {:induction false} HalfStepIndex(n: nat, k: nat)
    ensures (k as real * ParticleAnimation >= n as real) <==> k >= 2 * n
    ensures (k as real * ParticleAnimation).Floor == k / 2
  {
    var q, r := k / 2, k % 2;
    assert k == 2 * q + r;
    assert k as real * ParticleAnimation == q as real + r as real * 0.5;
  }

  class ParticleEffect {
    const frames: seq<Size>
    const animationSpeed: real
    var frameIndex: real
    var image: Size
    var rect: Rect
    /** Still a member of its sprite group (`kill` removes it from every group). */
    var alive: bool
    /** How many times `animate` has run. */
    ghost var updates: nat

    /**
     * The index has advanced 0.5 per update; the particle is alive exactly
     * while the index is inside the frame list, and then shows frame
     * `updates / 2`. The rectangle keeps the first frame's size.
     */
    ghost predicate Valid()
      reads this
    {
      && |frames| > 0
      && animationSpeed == ParticleAnimation
      && frameIndex == updates as real * ParticleAnimation
      && (alive <==> updates < 2 * |frames|)
      && (alive ==> updates / 2 < |frames| && image == frames[updates / 2])
      && rect.Dimensions() == frames[0]
    }

    /** A particle showing its first frame, centred on `pos`. */
    constructor (pos: (int, int), frames: seq<Size>)
      requires |frames| > 0
      ensures Valid() && alive && updates == 0
      ensures frameIndex == 0.0 && image == frames[0]
      ensures rect.CenterX() == pos.0 && rect.CenterY() == pos.1 && rect.Dimensions() == frames[0]
      ensures this.frames == frames
    {
      this.frames := frames;
      frameIndex := 0.0;
      animationSpeed := ParticleAnimation;
      image := frames[0];
      rect := AtCenter(frames[0], pos.0, pos.1);
      alive := true;
      updates := 0;
    }

    /** Advance the index by 0.5; past the last frame the particle is killed, otherwise it shows the frame at the index. */
    method Animate()
      requires Valid()
      modifies this
      ensures Valid() && updates == old(updates) + 1
      ensures frameIndex == old(frameIndex) + ParticleAnimation
      ensures alive == (frameIndex < |frames| as real)
      ensures alive ==> image == frames[frameIndex.Floor]
      ensures rect == old(rect)
    {
      frameIndex := frameIndex + animationSpeed;
      updates := updates + 1;
      HalfStepIndex(|frames|, updates);
      if frameIndex >= |frames| as real {
        alive := false;
      } else {
        image := frames[frameIndex.Floor];
      }
    }

    /** `update`: animate, then move with the camera, even on the update that kills it. */
    method Update(xShift: int)
      requires Valid()
      modifies this
      ensures Valid() && updates == old(updates) + 1
      ensures frameIndex == old(frameIndex) + ParticleAnimation
      ensures alive == (frameIndex < |frames| as real)
      ensures alive ==> image == frames[frameIndex.Floor]
      ensures rect == old(rect).(x := old(rect).x + xShift)
    {
      Animate();
      rect := rect.(x := rect.x + xShift);
    }
  }
}
