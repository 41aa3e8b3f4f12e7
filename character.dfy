/**
 * Characters of the game (src/character.py): the state shared by the player
 * and the enemies, the player with its shooting, animation and key handling,
 * and the enemy.
 */
module Characters {
  import opened Geometry
  import opened Enums
  import opened Wrappers
  import opened Bullets

  /** The keys the game reads in a frame, already sampled. */
  datatype Keys = Keys(right: bool, left: bool, up: bool, space: bool, escape: bool, save: bool)

  /** The player's animation frames, one list per state. */
  datatype Animations = Animations(idle: seq<Size>, run: seq<Size>, jump: seq<Size>, fall: seq<Size>) {
    function For(s: PlayerState): seq<Size>
    {
      match s
      case Idle => idle
      case Run => run
      case Jump => jump
      case Fall => fall
    }

    /** Every state has at least one frame, so a frame index can always be taken. */
    predicate Loaded()
    {
      |idle| > 0 && |run| > 0 && |jump| > 0 && |fall| > 0
    }
  }

  /**
   * `update_status`: rising is JUMP, falling faster than 1 is FALL, otherwise
   * horizontal movement is RUN and standing still is IDLE.
   */
  function StatusOf(dx: real, dy: real): (s: PlayerState)
    ensures s == PlayerState.Jump <==> dy < 0.0
    ensures s == PlayerState.Fall <==> dy > 1.0
    ensures s == PlayerState.Run <==> 0.0 <= dy <= 1.0 && dx != 0.0
    ensures s == PlayerState.Idle <==> 0.0 <= dy <= 1.0 && dx == 0.0
  {
    if dy < 0.0 then PlayerState.Jump
    else if dy > 1.0 then PlayerState.Fall
    else if dx != 0.0 then PlayerState.Run
    else PlayerState.Idle
  }

  /**
   * One animation tick: the index advances by `rate` and goes back to 0 when
   * it runs past the last frame, so its integer part always names a frame.
   */
  function AdvanceFrame(index: real, rate: real, count: nat): (r: real)
    requires 0.0 <= index && 0.0 <= rate && count > 0
    ensures 0.0 <= r < count as real && 0 <= r.Floor < count
    ensures index + rate < count as real ==> r == index + rate
    ensures r == 0.0 || r == index + rate
  {
    if index + rate >= count as real then 0.0 else index + rate
  }

  /**
   * `handle_collisions`: the rectangle takes the image's size, keeping fixed
   * the anchor named by the first of {BOTTOM, RIGHT}, {BOTTOM, LEFT},
   * {BOTTOM}, {TOP, RIGHT}, {TOP, LEFT}, {TOP} that the flags contain.
   */
  function Reanchor(rect: Rect, image: Size, cols: set<Collision>): (r: Rect)
    ensures Collision.Bottom !in cols && Collision.Top !in cols ==> r == rect
    ensures Collision.Bottom in cols || Collision.Top in cols ==> r.Dimensions() == image
    ensures Collision.Bottom in cols ==> r.Bottom() == rect.Bottom()
    ensures Collision.Bottom !in cols && Collision.Top in cols ==> r.Top() == rect.Top()
    ensures (Collision.Bottom in cols || Collision.Top in cols) && Collision.Right in cols ==> r.Right() == rect.Right()
    ensures (Collision.Bottom in cols || Collision.Top in cols) && Collision.Right !in cols && Collision.Left in cols ==> r.Left() == rect.Left()
    ensures (Collision.Bottom in cols || Collision.Top in cols) && Collision.Right !in cols && Collision.Left !in cols ==> r.CenterX() == rect.CenterX()
  {
    if {Collision.Bottom, Collision.Right} <= cols then AtBottomRight(image, rect.Right(), rect.Bottom())
    else if {Collision.Bottom, Collision.Left} <= cols then AtBottomLeft(image, rect.Left(), rect.Bottom())
    else if {Collision.Bottom} <= cols then AtMidBottom(image, rect.CenterX(), rect.Bottom())
    else if {Collision.Top, Collision.Right} <= cols then AtTopRight(image, rect.Right(), rect.Top())
    else if {Collision.Top, Collision.Left} <= cols then AtTopLeft(image, rect.Left(), rect.Top())
    else if {Collision.Top} <= cols then AtMidTop(image, rect.CenterX(), rect.Top())
    else rect
  }

  /** A shot is fired only when more than the shoot delay has passed since the last one. */
  predicate Fires(lastShot: real, now: real)
  {
    now - lastShot > ShootDelay
  }

  /** The horizontal direction the keys ask for: RIGHT wins over LEFT, and neither stops the player. */
  function KeyDx(keys: Keys): (dx: real)
    ensures dx == 1.0 <==> keys.right
    ensures dx == -1.0 <==> !keys.right && keys.left
    ensures dx == 0.0 <==> !keys.right && !keys.left
  {
    if keys.right then 1.0 else if keys.left then -1.0 else 0.0
  }

  /** The facing after the keys: RIGHT or LEFT turns the player that way, neither keeps its facing. */
  function KeyFacing(keys: Keys, o: Orientation): (r: Orientation)
    ensures keys.right ==> r == Orientation.Right
    ensures !keys.right && keys.left ==> r == Orientation.Left
    ensures !keys.right && !keys.left ==> r == o
  {
    if keys.right then Orientation.Right else if keys.left then Orientation.Left else o
  }

  /** The times, among a series of shoot requests, at which a bullet is actually fired. */
  function ShotTimes(lastShot: real, requests: seq<real>): seq<real>
    decreases |requests|
  {
    if requests == [] then []
    else if Fires(lastShot, requests[0]) then [requests[0]] + ShotTimes(requests[0], requests[1..])
    else ShotTimes(lastShot, requests[1..])
  }

  /**
   * The cooldown is a debounce: every fired shot comes more than the shoot
   * delay after the previous one, and every fired time is one of the requests.
   */
  lemma {:induction false} ShotsAreSpaced(lastShot: real, requests: seq<real>)
    ensures var fired := ShotTimes(lastShot, requests);
      && (|fired| > 0 ==> fired[0] - lastShot > ShootDelay)
      && (forall i :: 0 < i < |fired| ==> fired[i] - fired[i - 1] > ShootDelay)
      && (forall i :: 0 <= i < |fired| ==> fired[i] in requests)
      && |fired| <= |requests|
    decreases |requests|
  {
    if requests != [] {
      ShotsAreSpaced(requests[0], requests[1..]);
      ShotsAreSpaced(lastShot, requests[1..]);
      var rest1 := ShotTimes(requests[0], requests[1..]);
      var rest2 := ShotTimes(lastShot, requests[1..]);
      assert forall i :: 0 <= i < |rest1| ==> rest1[i] in requests;
      assert forall i :: 0 <= i < |rest2| ==> rest2[i] in requests;
    }
  }

  /** Two requests 0.05 s apart fire once; 0.2 s apart they fire twice. */
  lemma CooldownExamples(lastShot: real, t: real)
    requires Fires(lastShot, t)
    ensures |ShotTimes(lastShot, [t, t + 0.05])| == 1
    ensures |ShotTimes(lastShot, [t, t + 0.2])| == 2
  {
    assert [t, t + 0.05][1..] == [t + 0.05] && [t + 0.05][1..] == [];
    assert ShotTimes(t, [t + 0.05]) == ShotTimes(t, []) == [];
    assert ShotTimes(lastShot, [t, t + 0.05]) == [t];
    assert [t, t + 0.2][1..] == [t + 0.2] && [t + 0.2][1..] == [];
    assert ShotTimes(t, [t + 0.2]) == [t + 0.2] + ShotTimes(t + 0.2, []) == [t + 0.2];
    assert ShotTimes(lastShot, [t, t + 0.2]) == [t, t + 0.2];
  }

  /**
   * What the player and the enemies share (`Character`): the rectangle and
   * image, speed, facing, the collision flags and the velocity direction.
   */
  class Character {
    var image: Size
    var rect: Rect
    var speed: real
    var orientation: Orientation
    var collisions: set<Collision>
    var dx: real
    var dy: real
    /** Stands for the `type(character) is Enemy` test of the collision pass. */
    const isEnemy: bool

    /** A character at rest, facing right, touching nothing, with the image's rectangle at (x, y). */
    constructor (x: int, y: int, image: Size, speed: real, isEnemy: bool)
      ensures rect == AtTopLeft(image, x, y) && this.image == image && this.speed == speed
      ensures orientation == Orientation.Right && collisions == {} && dx == 0.0 && dy == 0.0
      ensures this.isEnemy == isEnemy
    {
      this.image := image;
      rect := AtTopLeft(image, x, y);
      this.speed := speed;
      orientation := Orientation.Right;
      collisions := {};
      dx, dy := 0.0, 0.0;
      this.isEnemy := isEnemy;
    }

    /** `hits`: this character's rectangle overlaps the sprite's, whichever of the two is asked. */
    predicate Hits(other: Rect)
      reads this
      ensures Hits(other) <==> other.Collides(rect)
    {
      CollidesSymmetric(rect, other);
      rect.Collides(other)
    }

    method HandleCollisions()
      modifies this`rect
      ensures rect == Reanchor(old(rect), image, collisions)
    {
      if {Collision.Bottom, Collision.Right} <= collisions {
        rect := AtBottomRight(image, rect.Right(), rect.Bottom());
      } else if {Collision.Bottom, Collision.Left} <= collisions {
        rect := AtBottomLeft(image, rect.Left(), rect.Bottom());
      } else if {Collision.Bottom} <= collisions {
        rect := AtMidBottom(image, rect.CenterX(), rect.Bottom());
      } else if {Collision.Top, Collision.Right} <= collisions {
        rect := AtTopRight(image, rect.Right(), rect.Top());
      } else if {Collision.Top, Collision.Left} <= collisions {
        rect := AtTopLeft(image, rect.Left(), rect.Top());
      } else if {Collision.Top} <= collisions {
        rect := AtMidTop(image, rect.CenterX(), rect.Top());
      }
    }
  }

  /** Pairwise distinct bullets: updating one never touches another. */
  ghost predicate DistinctBullets(bs: seq<Bullet>)
  {
    forall i, j :: 0 <= i < j < |bs| ==> bs[i] != bs[j]
  }

  /** The player: a character that shoots, animates by state and keeps a score. */
  class Player {
    const body: Character
    const animations: Animations
    const dustRun: seq<Size>
    const bulletImage: Size
    var frameIndex: real
    var dustFrameIndex: real
    var status: PlayerState
    var score: int
    var bullets: seq<Bullet>
    var lastShot: real

    /** Everything but the frame index's bound, which only holds once the current state has been animated. */
    ghost predicate Wellformed()
      reads this, bullets
    {
      && !body.isEnemy
      && animations.Loaded() && |dustRun| > 0
      && 0.0 <= frameIndex
      && 0.0 <= dustFrameIndex < |dustRun| as real
      && DistinctBullets(bullets)
      && (forall b :: b in bullets ==> b.Valid())
    }

    ghost predicate Valid()
      reads this, bullets
    {
      Wellformed() && frameIndex < |animations.For(status)| as real
    }

    /** The score is no part of the player's validity. */
    twostate lemma Rescored()
      requires old(Valid())
      requires unchanged(this`frameIndex, this`dustFrameIndex, this`status, this`bullets)
      requires forall b :: b in bullets ==> unchanged(b)
      ensures Valid()
    {
    }

    constructor (x: int, y: int, image: Size, animations: Animations, dustRun: seq<Size>, bulletImage: Size)
      requires animations.Loaded() && |dustRun| > 0
      ensures Valid() && fresh(body)
      ensures body.rect == AtTopLeft(image, x, y) && body.speed == PlayerMovement as real
      ensures body.orientation == Orientation.Right && body.collisions == {} && body.dx == 0.0 && body.dy == 0.0
      ensures status == PlayerState.Idle && score == 0 && bullets == [] && lastShot == 0.0
      ensures frameIndex == 0.0 && dustFrameIndex == 0.0
      ensures this.animations == animations && this.dustRun == dustRun && this.bulletImage == bulletImage
    {
      body := new Character(x, y, image, PlayerMovement as real, false);
      this.animations := animations;
      this.dustRun := dustRun;
      this.bulletImage := bulletImage;
      frameIndex, dustFrameIndex := 0.0, 0.0;
      status := PlayerState.Idle;
      score := 0;
      bullets := [];
      lastShot := 0.0;
    }

    /** `x`: the horizontal centre of the player, which lies within its rectangle. */
    function X(): (r: int)
      reads body
      ensures body.rect.Left() <= r <= body.rect.Right()
      ensures r == body.rect.CenterX()
    {
      body.rect.x + body.rect.w / 2
    }

    /** `y`: the vertical centre of the player, which lies within its rectangle. */
    function Y(): (r: int)
      reads body
      ensures body.rect.Top() <= r <= body.rect.Bottom()
      ensures r == body.rect.CenterY()
    {
      body.rect.y + body.rect.h / 2
    }

    /** The frame the current state's animation shows at the current index. */
    function CurrentFrame(): Size
      reads this
      requires animations.Loaded() && 0.0 <= frameIndex < |animations.For(status)| as real
    {
      animations.For(status)[frameIndex.Floor]
    }

    /** A bullet of this player's, fired from (x, y) facing o at the bullet speed. */
    ghost predicate ShotFrom(b: Bullet, x: int, y: int, o: Orientation)
    {
      b.image == bulletImage && b.spawnX == x && b.spawnY == y && b.orientation == o && b.speed == BulletSpeed
    }

    /**
     * `shoot`: past the cooldown, append one new bullet at the player's
     * centre and facing and restart the cooldown; otherwise do nothing.
     */
    method Shoot(now: real)
      requires Wellformed()
      modifies this`bullets, this`lastShot
      ensures Wellformed()
      ensures Fires(old(lastShot), now) ==>
        && |bullets| == |old(bullets)| + 1 && bullets[..|old(bullets)|] == old(bullets)
        && fresh(bullets[|old(bullets)|]) && lastShot == now
        && bullets[|old(bullets)|].rect.x == X() && bullets[|old(bullets)|].rect.y == Y()
        && ShotFrom(bullets[|old(bullets)|], X(), Y(), body.orientation)
        && bullets[|old(bullets)|].isAlive && bullets[|old(bullets)|].updates == 0
      ensures !Fires(old(lastShot), now) ==> bullets == old(bullets) && lastShot == old(lastShot)
    {
      if now - lastShot > ShootDelay {
        var b := new Bullet(X(), Y(), bulletImage, body.orientation, BulletSpeed);
        bullets := bullets + [b];
        lastShot := now;
      }
    }

    /** The orientation setter: also shows the current frame, resized at the same top-left corner. */
    method SetOrientation(o: Orientation)
      requires Valid()
      modifies body`orientation, body`image, body`rect
      ensures body.orientation == o && body.image == CurrentFrame()
      ensures body.rect == AtTopLeft(body.image, old(body.rect).x, old(body.rect).y)
    {
      body.orientation := o;
      body.image := animations.For(status)[frameIndex.Floor];
      body.rect := AtTopLeft(body.image, body.rect.x, body.rect.y);
    }

    method Jump()
      modifies body`dy
      ensures body.dy == PlayerJump as real
    {
      body.dy := PlayerJump as real;
    }

    /** `apply_gravity`: the vertical speed grows by exactly 0.8, then the player falls by it. */
    method ApplyGravity()
      modifies body`dy, body`rect
      ensures body.dy == old(body.dy) + Gravity
      ensures body.rect == old(body.rect).(y := Trunc(old(body.rect).y as real + body.dy))
    {
      body.dy := body.dy + Gravity;
      body.rect := body.rect.(y := Trunc(body.rect.y as real + body.dy));
    }

    /**
     * `handle_key_presses`: RIGHT wins over LEFT and sets direction and
     * facing; UP jumps only when standing on something; SPACE shoots.
     * Returns where a jump started, for the jump dust.
     */
    method HandleKeyPresses(keys: Keys, now: real) returns (jumpFrom: Option<(int, int)>)
      requires Valid()
      modifies body, this`bullets, this`lastShot
      ensures Valid()
      ensures keys.right ==> body.dx == 1.0 && body.orientation == Orientation.Right
      ensures !keys.right && keys.left ==> body.dx == -1.0 && body.orientation == Orientation.Left
      ensures !keys.right && !keys.left ==> body.dx == 0.0 && body.orientation == old(body.orientation)
      ensures keys.right || keys.left ==>
        body.image == CurrentFrame() && body.rect == AtTopLeft(body.image, old(body.rect).x, old(body.rect).y)
      ensures !keys.right && !keys.left ==> body.image == old(body.image) && body.rect == old(body.rect)
      ensures keys.up && Collision.Bottom in body.collisions ==>
        body.dy == PlayerJump as real && jumpFrom == Some(body.rect.MidBottom())
      ensures !(keys.up && Collision.Bottom in body.collisions) ==> body.dy == old(body.dy) && jumpFrom == None
      ensures body.collisions == old(body.collisions) && body.speed == old(body.speed)
      ensures keys.space && Fires(old(lastShot), now) ==>
        && |bullets| == |old(bullets)| + 1 && bullets[..|old(bullets)|] == old(bullets)
        && fresh(bullets[|old(bullets)|]) && lastShot == now
        && bullets[|old(bullets)|].rect.x == X() && bullets[|old(bullets)|].rect.y == Y()
        && ShotFrom(bullets[|old(bullets)|], X(), Y(), body.orientation)
        && bullets[|old(bullets)|].isAlive && bullets[|old(bullets)|].updates == 0
      ensures !(keys.space && Fires(old(lastShot), now)) ==> bullets == old(bullets) && lastShot == old(lastShot)
    {
      if keys.right {
        body.dx := 1.0;
        SetOrientation(Orientation.Right);
      } else if keys.left {
        body.dx := -1.0;
        SetOrientation(Orientation.Left);
      } else {
        body.dx := 0.0;
      }
      jumpFrom := None;
      if keys.up && Collision.Bottom in body.collisions {
        Jump();
        jumpFrom := Some(body.rect.MidBottom());
      }
      if keys.space {
        Shoot(now);
      }
    }

    method UpdateStatus()
      modifies this`status
      ensures status == StatusOf(body.dx, body.dy)
    {
      if body.dy < 0.0 {
        status := PlayerState.Jump;
      } else if body.dy > 1.0 {
        status := PlayerState.Fall;
      } else if body.dx != 0.0 {
        status := PlayerState.Run;
      } else {
        status := PlayerState.Idle;
      }
    }

    /** `animate`: advance the state's animation, show its frame, then re-anchor the rectangle. */
    method Animate()
      requires Wellformed()
      modifies this`frameIndex, body`image, body`rect
      ensures Valid()
      ensures frameIndex == AdvanceFrame(old(frameIndex), PlayerAnimation, |animations.For(status)|)
      ensures body.image == CurrentFrame()
      ensures body.rect == Reanchor(old(body.rect), body.image, body.collisions)
    {
      var animation := animations.For(status);
      frameIndex := frameIndex + PlayerAnimation;
      if frameIndex >= |animation| as real {
        frameIndex := 0.0;
      }
      body.image := animation[frameIndex.Floor];
      body.HandleCollisions();
    }

    /** `run_dust_animation`: the running dust advances only while running on the ground. */
    method RunDustAnimation()
      requires Wellformed()
      modifies this`dustFrameIndex
      ensures Wellformed()
      ensures status == PlayerState.Run && Collision.Bottom in body.collisions ==>
        dustFrameIndex == AdvanceFrame(old(dustFrameIndex), DustAnimation, |dustRun|)
      ensures !(status == PlayerState.Run && Collision.Bottom in body.collisions) ==>
        dustFrameIndex == old(dustFrameIndex)
    {
      if status == PlayerState.Run && Collision.Bottom in body.collisions {
        dustFrameIndex := dustFrameIndex + DustAnimation;
        if dustFrameIndex >= |dustRun| as real {
          dustFrameIndex := 0.0;
        }
      }
    }

    /** `display_bullets` without the drawing: every bullet, dead or alive, takes one update. */
    method DisplayBullets()
      requires Wellformed()
      modifies set b | b in bullets
      ensures Wellformed()
      ensures forall i :: 0 <= i < |bullets| ==> bullets[i].updates == old(bullets[i].updates) + 1
    {
      var i := 0;
      while i < |bullets|
        invariant 0 <= i <= |bullets|
        invariant Wellformed()
        invariant forall j :: 0 <= j < i ==> bullets[j].updates == old(bullets[j].updates) + 1
        invariant forall j :: i <= j < |bullets| ==> bullets[j].updates == old(bullets[j].updates)
      {
        bullets[i].Update();
        i := i + 1;
      }
    }

    /**
     * `update`: keys, state, animation, running dust, bullets, in that order.
     * Steering shows the old state's frame at the old corner; the state's
     * animation then advances, shows its frame and re-anchors that rectangle;
     * a shot leaves from the centre of the steered rectangle and flies once
     * with the other bullets.
     */
    method Update(keys: Keys, now: real) returns (jumpFrom: Option<(int, int)>)
      requires Valid()
      modifies this, body, set b | b in bullets
      ensures Valid()
      ensures body.dx == KeyDx(keys) && body.orientation == KeyFacing(keys, old(body.orientation))
      ensures keys.up && Collision.Bottom in old(body.collisions) ==> body.dy == PlayerJump as real
      ensures !(keys.up && Collision.Bottom in old(body.collisions)) ==> body.dy == old(body.dy)
      ensures status == StatusOf(body.dx, body.dy)
      ensures frameIndex == AdvanceFrame(old(frameIndex), PlayerAnimation, |animations.For(status)|)
      ensures body.image == CurrentFrame()
      ensures var steered := Steered(keys, old(body.rect), animations.For(old(status))[old(frameIndex).Floor]);
        && body.rect == Reanchor(steered, body.image, body.collisions)
        && (keys.up && Collision.Bottom in old(body.collisions) <==> jumpFrom == Some(steered.MidBottom()))
        && (jumpFrom.Some? <==> keys.up && Collision.Bottom in old(body.collisions))
        && (keys.space && Fires(old(lastShot), now) ==>
          && |bullets| == |old(bullets)| + 1 && fresh(bullets[|old(bullets)|]) && lastShot == now
          && ShotFrom(bullets[|old(bullets)|], steered.CenterX(), steered.CenterY(), body.orientation)
          && bullets[|old(bullets)|].updates == 1)
      ensures !(keys.space && Fires(old(lastShot), now)) ==> |bullets| == |old(bullets)| && lastShot == old(lastShot)
      ensures status == PlayerState.Run && Collision.Bottom in body.collisions ==>
        dustFrameIndex == AdvanceFrame(old(dustFrameIndex), DustAnimation, |dustRun|)
      ensures !(status == PlayerState.Run && Collision.Bottom in body.collisions) ==>
        dustFrameIndex == old(dustFrameIndex)
      ensures |bullets| >= |old(bullets)| && bullets[..|old(bullets)|] == old(bullets)
      ensures score == old(score) && body.collisions == old(body.collisions) && body.speed == old(body.speed)
      ensures forall i :: 0 <= i < |old(bullets)| ==> bullets[i].updates == old(bullets[i].updates) + 1
    {
      jumpFrom := HandleKeyPresses(keys, now);
      UpdateStatus();
      Animate();
      RunDustAnimation();
      DisplayBullets();
    }
  }

  /** The rectangle after the keys: turning shows the given frame at the same top-left corner. */
  function Steered(keys: Keys, rect: Rect, frame: Size): Rect
  {
    if keys.right || keys.left then AtTopLeft(frame, rect.x, rect.y) else rect
  }

  /** An enemy: a character that only animates; the level moves it. */
  class Enemy {
    const body: Character
    const animations: seq<Size>
    var frameIndex: real

    ghost predicate Valid()
      reads this
    {
      body.isEnemy && |animations| > 0 && 0.0 <= frameIndex < |animations| as real
    }

    constructor (x: int, y: int, image: Size, animations: seq<Size>)
      requires |animations| > 0
      ensures Valid() && fresh(body) && frameIndex == 0.0 && this.animations == animations
      ensures body.rect == AtTopLeft(image, x, y) && body.speed == EnemyMovement
      ensures body.orientation == Orientation.Right && body.collisions == {} && body.dx == 0.0 && body.dy == 0.0
    {
      body := new Character(x, y, image, EnemyMovement, true);
      this.animations := animations;
      frameIndex := 0.0;
    }

    /** `animate` (all of `update`): advance the frame, show it, re-anchor the rectangle. */
    method Animate()
      requires Valid()
      modifies this`frameIndex, body`image, body`rect
      ensures Valid()
      ensures frameIndex == AdvanceFrame(old(frameIndex), EnemyAnimation, |animations|)
      ensures body.image == animations[frameIndex.Floor]
      ensures body.rect == Reanchor(old(body.rect), body.image, body.collisions)
    {
      frameIndex := frameIndex + EnemyAnimation;
      if frameIndex >= |animations| as real {
        frameIndex := 0.0;
      }
      body.image := animations[frameIndex.Floor];
      body.HandleCollisions();
    }
  }
}
