/** Sprites (Wolfenstein_Doom_Raycasting/sprite_object.py): where a sprite
    falls on the screen relative to the player, the culling test, the
    projected picture appended to the shared `objects_to_render` list, and
    the frame-cycling animation of `AnimatedSprite`. */
module WolfSprites {
  import opened PyNum
  import opened WolfSettings
  import opened WolfDrawable
  import opened WolfQueue
  import WolfPlayer
  import WolfRaycastBackup

  /** `math.atan2`, `math.hypot`, `math.cos`, `math.pi` and `math.tau`,
      which the model takes as inputs. */
  datatype Trig = Trig(atan2: (real, real) -> real, hypot: (real, real) -> real,
                       cos: real -> real, pi: real, tau: real)

  /** What `math.atan2(dy, dx)` promises about the signs: the angle lies in
      (-pi, pi], it is in the right half-plane exactly when `dx > 0`, on the
      vertical axis exactly when `dx == 0`, and below the x axis exactly when
      `dy < 0`. */
  predicate Atan2Signs(theta: real, dx: real, dy: real, pi: real) {
    && 0.0 < pi && (dx != 0.0 || dy != 0.0)
    && -pi < theta <= pi
    && (dx > 0.0 <==> -pi / 2.0 < theta < pi / 2.0)
    && (dx == 0.0 <==> theta == pi / 2.0 || theta == -pi / 2.0)
    && (dy < 0.0 <==> theta < 0.0)
  }

  /** The angle from the view direction to the sprite as sprite_object.py
      computes it: `theta - angle`, plus `tau` when the sprite is to the
      right (`dx > 0`) while the player faces the lower half-turn
      (`angle > pi`), or when it is to the left and above (`dx < 0` and
      `dy < 0`). A sprite straight above (`dx == 0`) is missed. */
  function DeltaAsWritten(t: Trig, theta: real, angle: real, dx: real, dy: real): real {
    if (dx > 0.0 && angle > t.pi) || (dx < 0.0 && dy < 0.0) then theta - angle + t.tau
    else theta - angle
  }

  /** The same rule with the right half-plane closed (`dx >= 0`): the
      definition the rest of the model uses. */
  function Delta(t: Trig, theta: real, angle: real, dx: real, dy: real): real {
    if (dx >= 0.0 && angle > t.pi) || (dx < 0.0 && dy < 0.0) then theta - angle + t.tau
    else theta - angle
  }

  /** `(HALF_NUM_RAYS + delta / DELTA_ANGLE) * SCALE`. */
  function ScreenX(c: Settings, delta: real): real
    requires ValidSettings(c)
  {
    (c.halfNumRays + delta / c.deltaAngle) * c.scale
  }

  /** The culling test: the sprite's centre is within half an image width
      of the screen, and it is more than half a cell in front. */
  predicate Visible(screenX: real, normDist: real, imageHalfWidth: int) {
    -imageHalfWidth as real < screenX < Width + imageHalfWidth as real && normDist > 0.5
  }

  /** `proj = SCREEN_DIST / norm_dist * SPRITE_SCALE`. */
  function ProjHeight(c: Settings, normDist: real, spriteScale: real): real
    requires normDist != 0.0
  {
    c.screenDist / normDist * spriteScale
  }

  /** `w // 2` on a float. */
  function FloorHalf(w: real): real {
    FloatFloorDiv(w, 2.0)
  }

  /** The entry `get_sprite_projection` appends: keyed by `norm_dist`, the
      image scaled to `proj * IMAGE_RATIO` x `proj`, drawn centred on
      `screen_x` and shifted down by `proj * SPRITE_HEIGHT_SHIFT` from
      `HALF_HEIGHT - proj // 2`. */
  function Projection(c: Settings, normDist: real, screenX: real, image: int,
                      spriteScale: real, imageRatio: real, heightShift: real): Drawable
    requires normDist != 0.0
  {
    var proj := ProjHeight(c, normDist, spriteScale);
    Drawable(normDist, SpriteImage(image, proj * imageRatio, proj),
             screenX - FloorHalf(proj * imageRatio),
             c.halfHeight - FloorHalf(proj) + proj * heightShift)
  }

  /** A `SpriteObject`. */
  class SpriteObject {
    const player: WolfPlayer.Player
    const x: real
    const y: real
    var image: int
    const imageHalfWidth: int
    const imageRatio: real
    const spriteScale: real
    const heightShift: real
    var dx: real
    var dy: real
    var theta: real
    var screenX: real
    var dist: real
    var normDist: real
    var spriteHalfWidth: real

    /** `SpriteObject.__init__`, given the loaded image's handle and size. */
    constructor (player: WolfPlayer.Player, image: int, imageWidth: nat, imageHeight: nat,
                 x: real, y: real, spriteScale: real, heightShift: real)
      requires imageHeight > 0
      ensures this.player == player && this.image == image && this.x == x && this.y == y
      ensures imageHalfWidth == imageWidth / 2
      ensures imageRatio == imageWidth as real / imageHeight as real
      ensures this.spriteScale == spriteScale && this.heightShift == heightShift
      ensures dx == 0.0 && dy == 0.0 && theta == 0.0 && screenX == 0.0
      ensures dist == 1.0 && normDist == 1.0 && spriteHalfWidth == 0.0
    {
      this.player := player;
      this.image := image;
      this.x, this.y := x, y;
      imageHalfWidth := imageWidth / 2;
      imageRatio := imageWidth as real / imageHeight as real;
      this.spriteScale := spriteScale;
      this.heightShift := heightShift;
      dx, dy, theta, screenX, dist, normDist := 0.0, 0.0, 0.0, 0.0, 1.0, 1.0;
      spriteHalfWidth := 0.0;
    }

    /** `get_sprite_projection`: appends exactly one entry, keyed by
        `norm_dist`, to the shared list. */
    method GetSpriteProjection(c: Settings, rc: WolfRaycastBackup.Raycasting)
      requires ValidSettings(c) && normDist != 0.0
      modifies this`spriteHalfWidth, rc`objectsToRender
      ensures spriteHalfWidth == FloorHalf(Projection(c, normDist, screenX, image, spriteScale, imageRatio, heightShift).picture.width)
      ensures rc.objectsToRender == old(rc.objectsToRender)
        + [Projection(c, normDist, screenX, image, spriteScale, imageRatio, heightShift)]
    {
      var proj := ProjHeight(c, normDist, spriteScale);
      var projWidth, projHeight := proj * imageRatio, proj;
      spriteHalfWidth := FloorHalf(projWidth);
      var heightShift := projHeight * this.heightShift;
      var pos := (screenX - spriteHalfWidth, c.halfHeight - FloorHalf(projHeight) + heightShift);
      var entry := Drawable(normDist, SpriteImage(image, projWidth, projHeight), pos.0, pos.1);
      assert proj == ProjHeight(c, normDist, spriteScale);
      assert entry.picture == Projection(c, normDist, screenX, image, spriteScale, imageRatio, this.heightShift).picture;
      assert entry.posX == Projection(c, normDist, screenX, image, spriteScale, imageRatio, this.heightShift).posX;
      assert entry.posY == Projection(c, normDist, screenX, image, spriteScale, imageRatio, this.heightShift).posY;
      rc.objectsToRender := rc.objectsToRender + [entry];
    }

    /** `get_sprite`: the offset to the player, its angle, the screen
        position, the distance and its fish-eye-corrected form; then the
        projection is appended only when the sprite passes the culling
        test, and the list is left as it was otherwise. */
    method GetSprite(c: Settings, t: Trig, rc: WolfRaycastBackup.Raycasting)
      requires ValidSettings(c)
      modifies this`dx, this`dy, this`theta, this`screenX, this`dist, this`normDist,
               this`spriteHalfWidth, rc`objectsToRender
      ensures dx == x - player.x && dy == y - player.y && theta == t.atan2(dy, dx)
      ensures var delta := Delta(t, theta, player.angle, dx, dy);
        && screenX == ScreenX(c, delta)
        && dist == t.hypot(dx, dy) && normDist == dist * t.cos(delta)
      ensures Visible(screenX, normDist, imageHalfWidth) ==>
        && spriteHalfWidth == FloorHalf(Projection(c, normDist, screenX, image, spriteScale, imageRatio, heightShift).picture.width)
        && rc.objectsToRender == old(rc.objectsToRender)
             + [Projection(c, normDist, screenX, image, spriteScale, imageRatio, heightShift)]
      ensures !Visible(screenX, normDist, imageHalfWidth) ==>
        spriteHalfWidth == old(spriteHalfWidth) && rc.objectsToRender == old(rc.objectsToRender)
    {
      var dx := x - player.x;
      var dy := y - player.y;
      this.dx, this.dy := dx, dy;
      theta := t.atan2(dy, dx);
      var delta := theta - player.angle;
      if (dx >= 0.0 && player.angle > t.pi) || (dx < 0.0 && dy < 0.0) {
        delta := delta + t.tau;
      }
      assert delta == Delta(t, theta, player.angle, dx, dy);
      screenX := ScreenX(c, delta);
      dist := t.hypot(dx, dy);
      normDist := dist * t.cos(delta);
      if -imageHalfWidth as real < screenX < Width + imageHalfWidth as real && normDist > 0.5 {
        GetSpriteProjection(c, rc);
      }
    }
  }

  /** An `AnimatedSprite`: the sprite it extends, its image queue and its
      animation timer. Clock reads are the `now` parameters. */
  class AnimatedSprite {
    const sprite: SpriteObject
    var images: seq<int>
    const animationTime: int
    var animationTimePrev: int
    var animationTrigger: bool

    /** `AnimatedSprite.__init__`, given the loaded queue and the clock. */
    constructor (sprite: SpriteObject, images: seq<int>, animationTime: int, now: int)
      ensures this.sprite == sprite && this.images == images
      ensures this.animationTime == animationTime && animationTimePrev == now && !animationTrigger
    {
      this.sprite := sprite;
      this.images := images;
      this.animationTime := animationTime;
      animationTimePrev := now;
      animationTrigger := false;
    }

    /** `check_animation_time`: the trigger fires exactly when more than
        `animation_time` has passed since the last firing, and only a firing
        moves the time of the last firing on. */
    method CheckAnimationTime(now: int)
      modifies this`animationTrigger, this`animationTimePrev
      ensures animationTrigger == Fires(now, old(animationTimePrev), animationTime)
      ensures animationTimePrev == if animationTrigger then now else old(animationTimePrev)
    {
      animationTrigger := false;
      var timeNow := now;
      if timeNow - animationTimePrev > animationTime {
        animationTimePrev := timeNow;
        animationTrigger := true;
      }
    }

    /** `animate`: on a trigger the queue turns once and the head is shown.
        Reading the head of an empty queue raises: `ok` is false exactly
        then, and the image on show is left as it was. */
    method Animate() returns (ok: bool)
      modifies this`images, sprite`image
      ensures ok <==> !(animationTrigger && old(images) == [])
      ensures images == if animationTrigger then RotateLeft(old(images)) else old(images)
      ensures sprite.image == if animationTrigger && ok then images[0] else old(sprite.image)
    {
      ok := true;
      if animationTrigger {
        if images == [] {
          return false;
        }
        images := images[1..] + [images[0]];
        sprite.image := images[0];
      }
    }

    /** `AnimatedSprite.update`: place the sprite (with the image shown
        before the update), check the timer, then animate; `ok` is false
        when the animation read the head of an empty queue. */
    method Update(c: Settings, t: Trig, rc: WolfRaycastBackup.Raycasting, now: int)
      returns (ok: bool)
      requires ValidSettings(c)
      modifies sprite`dx, sprite`dy, sprite`theta, sprite`screenX, sprite`dist, sprite`normDist,
               sprite`spriteHalfWidth, sprite`image, rc`objectsToRender,
               this`images, this`animationTrigger, this`animationTimePrev
      ensures sprite.dx == sprite.x - sprite.player.x && sprite.dy == sprite.y - sprite.player.y
      ensures sprite.theta == t.atan2(sprite.dy, sprite.dx)
      ensures var delta := Delta(t, sprite.theta, sprite.player.angle, sprite.dx, sprite.dy);
        && sprite.screenX == ScreenX(c, delta)
        && sprite.dist == t.hypot(sprite.dx, sprite.dy)
        && sprite.normDist == sprite.dist * t.cos(delta)
      ensures Visible(sprite.screenX, sprite.normDist, sprite.imageHalfWidth) ==>
        var shown := Projection(c, sprite.normDist, sprite.screenX, old(sprite.image),
                                sprite.spriteScale, sprite.imageRatio, sprite.heightShift);
        && sprite.spriteHalfWidth == FloorHalf(shown.picture.width)
        && rc.objectsToRender == old(rc.objectsToRender) + [shown]
      ensures !Visible(sprite.screenX, sprite.normDist, sprite.imageHalfWidth) ==>
        sprite.spriteHalfWidth == old(sprite.spriteHalfWidth)
        && rc.objectsToRender == old(rc.objectsToRender)
      ensures animationTrigger == Fires(now, old(animationTimePrev), animationTime)
      ensures animationTimePrev == if animationTrigger then now else old(animationTimePrev)
      ensures ok <==> !(animationTrigger && old(images) == [])
      ensures images == if animationTrigger then RotateLeft(old(images)) else old(images)
      ensures sprite.image == if animationTrigger && ok then images[0] else old(sprite.image)
    {
      sprite.GetSprite(c, t, rc);
      CheckAnimationTime(now);
      ok := Animate();
    }
  }

  /** The timer test `time_now - animation_time_prev > animation_time`. */
  predicate Fires(now: int, prev: int, animationTime: int) {
    now - prev > animationTime
  }

  // ---------------------------------------------------------------------
  // Properties

  /** The corrected angle: for a sprite anywhere in the half-plane in front
      of a player facing `angle` in [0, tau), at an angle `e` off the view
      direction, the angle `atan2` reports is `angle + e` up to one turn,
      and `Delta` recovers exactly `e`. */
  lemma DeltaInFront(t: Trig, theta: real, angle: real, dx: real, dy: real, e: real)
    requires t.tau == 2.0 * t.pi && Atan2Signs(theta, dx, dy, t.pi)
    requires 0.0 <= angle < t.tau
    requires -t.pi / 2.0 < e < t.pi / 2.0
    requires theta == angle + e || theta == angle + e - t.tau
    ensures Delta(t, theta, angle, dx, dy) == e
  {
  }

  /** The rule as written: a sprite straight above the player (`dx == 0`,
      `dy < 0`, so `atan2` gives `-pi/2`) while the player faces it
      (`angle == 3*pi/2`) is put a full turn off the view direction
      (`delta == -tau` instead of 0). */
  lemma DeltaAsWrittenMissesAxis(t: Trig)
    requires t.pi > 0.0 && t.tau == 2.0 * t.pi
    ensures Atan2Signs(-t.pi / 2.0, 0.0, -1.0, t.pi)
    ensures DeltaAsWritten(t, -t.pi / 2.0, 3.0 * t.pi / 2.0, 0.0, -1.0) == -t.tau
    ensures Delta(t, -t.pi / 2.0, 3.0 * t.pi / 2.0, 0.0, -1.0) == 0.0
  {
  }

  /** Off the vertical axis the correction changes nothing. */
  lemma DeltaAgreesOffAxis(t: Trig, theta: real, angle: real, dx: real, dy: real)
    requires dx != 0.0
    ensures Delta(t, theta, angle, dx, dy) == DeltaAsWritten(t, theta, angle, dx, dy)
  {
  }

  /** The screen position is affine in the angle: `HALF_NUM_RAYS` columns
      across for a sprite dead ahead, one `SCALE` further for each
      `DELTA_ANGLE`, so the angle can be read back from it and a larger
      angle lies further right. */
  lemma ScreenXFacts(c: Settings, delta: real, delta2: real)
    requires ValidSettings(c)
    ensures ScreenX(c, 0.0) == c.halfNumRays * c.scale
    ensures delta == (ScreenX(c, delta) / c.scale - c.halfNumRays) * c.deltaAngle
    ensures delta < delta2 ==> ScreenX(c, delta) < ScreenX(c, delta2)
  {
    if delta < delta2 {
      assert delta / c.deltaAngle < delta2 / c.deltaAngle;
      assert c.halfNumRays + delta / c.deltaAngle < c.halfNumRays + delta2 / c.deltaAngle;
    }
  }

  /** The projected picture: keyed by `norm_dist`, as wide as
      `IMAGE_RATIO` times its height, its height inversely proportional to
      `norm_dist` (so a nearer sprite is drawn taller), and centred on
      `screen_x` to within a pixel. */
  lemma ProjectionFacts(c: Settings, normDist: real, normDist2: real, screenX: real, image: int,
                        spriteScale: real, imageRatio: real, heightShift: real)
    requires ValidSettings(c) && normDist > 0.0 && normDist2 > 0.0 && spriteScale > 0.0 && imageRatio >= 0.0
    ensures var p := Projection(c, normDist, screenX, image, spriteScale, imageRatio, heightShift);
      && p.depth == normDist && p.picture == SpriteImage(image, p.picture.height * imageRatio, p.picture.height)
      && p.picture.height * normDist == c.screenDist * spriteScale
      && (normDist < normDist2 ==> p.picture.height > ProjHeight(c, normDist2, spriteScale))
      && screenX - p.picture.width / 2.0 <= p.posX < screenX - p.picture.width / 2.0 + 1.0
  {
    var h := ProjHeight(c, normDist, spriteScale);
    assert h * normDist == c.screenDist * spriteScale;
    if normDist < normDist2 {
      var h2 := ProjHeight(c, normDist2, spriteScale);
      DivAntitone(c.screenDist, normDist, normDist2);
      assert h > h2;
    }
    var hw := FloorHalf(Projection(c, normDist, screenX, image, spriteScale, imageRatio, heightShift).picture.width);
    assert hw * 2.0 <= h * imageRatio < hw * 2.0 + 2.0;
  }

  lemma DivAntitone(a: real, b: real, b2: real)
    requires 0.0 < a && 0.0 < b < b2
    ensures a / b > a / b2
  {
    var q, q2 := a / b, a / b2;
    assert q * b == a && q2 * b2 == a;
    assert q > 0.0;
    assert q * b2 > q * b;
  }

  /** The clock readings at which repeated `check_animation_time` calls
      fire, starting from the last firing `prev`. */
  function Firings(prev: int, nows: seq<int>, animationTime: int): (f: seq<int>)
    ensures |f| <= |nows|
    decreases |nows|
  {
    if nows == [] then []
    else if Fires(nows[0], prev, animationTime) then [nows[0]] + Firings(nows[0], nows[1..], animationTime)
    else Firings(prev, nows[1..], animationTime)
  }

  /** The animation rate is bounded: over clock readings up to `hi`, the
      timer fires at most once per `animation_time + 1` milliseconds since
      the last firing `prev`. */
  lemma {:induction false} FiringRate(prev: int, nows: seq<int>, animationTime: int, hi: int)
    requires forall i :: 0 <= i < |nows| ==> nows[i] <= hi
    ensures var f := Firings(prev, nows, animationTime);
      f != [] ==> |f| * (animationTime + 1) <= hi - prev
    decreases |nows|
  {
    if nows != [] {
      var rest := nows[1..];
      assert forall i :: 0 <= i < |rest| ==> rest[i] == nows[i + 1];
      if Fires(nows[0], prev, animationTime) {
        var tail := Firings(nows[0], rest, animationTime);
        FiringRate(nows[0], rest, animationTime, hi);
        assert (|tail| + 1) * (animationTime + 1) == |tail| * (animationTime + 1) + (animationTime + 1);
      } else {
        FiringRate(prev, rest, animationTime, hi);
      }
    }
  }

  /** After as many firings as there are frames the queue is back in its
      original order, showing its first frame again. */
  lemma AnimationCycle(images: seq<int>)
    requires images != []
    ensures RotateN(images, |images|) == images
    ensures forall n :: 0 <= n < |images| ==> RotateN(images, n)[0] == images[n]
  {
    RotateFull(images);
    forall n | 0 <= n < |images| ensures RotateN(images, n)[0] == images[n] {
      RotateNSplit(images, n);
    }
  }
}
