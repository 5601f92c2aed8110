/** The shotgun (Wolfenstein_Doom_Raycasting/Backup/weapon.py): an animated
    sprite whose image queue turns only while reloading, one frame per
    animation tick, until a whole turn has been shown. */
module WolfWeapon {
  import opened WolfQueue
  import opened WolfSprites

  /** What `animate_shot` reads and writes: the image queue, the image on
      show, the reloading flag, the frame counter, and `player.shot`. */
  datatype ShotState = ShotState(images: seq<int>, image: int, reloading: bool,
                                 frameCounter: int, shot: bool)

  /** `animate_shot` on a state, given the animation trigger and
      `num_images`: nothing happens unless reloading; while reloading the
      shot is cleared, and on a trigger the queue turns, its head is shown
      and the counter counts; a full count ends the reload. */
  function AnimateShotStep(s: ShotState, trigger: bool, numImages: int): ShotState
    requires s.images != []
  {
    if !s.reloading then s
    else if !trigger then s.(shot := false)
    else
      var images := RotateLeft(s.images);
      var counter := s.frameCounter + 1;
      if counter == numImages then ShotState(images, images[0], false, 0, false)
      else ShotState(images, images[0], true, counter, false)
  }

  /** `k` triggered updates in a row. */
  function TriggeredSteps(s: ShotState, numImages: int, k: nat): (r: ShotState)
    requires s.images != []
    ensures |r.images| == |s.images|
  {
    if k == 0 then s else AnimateShotStep(TriggeredSteps(s, numImages, k - 1), true, numImages)
  }

  /** A `Weapon`: its animated sprite and its reload state. `player.shot`
      lives on the player in the source, and is a field here. */
  class Weapon {
    const anim: AnimatedSprite
    var reloading: bool
    const numImages: nat
    var frameCounter: int
    var playerShot: bool

    /** The reload state and the queue agree: the queue holds `num_images`
        frames and the counter is below it, at 0 when not reloading. */
    predicate Valid()
      reads this, anim
    {
      && |anim.images| == numImages > 0
      && 0 <= frameCounter < numImages
      && (!reloading ==> frameCounter == 0)
    }

    function State(): ShotState
      reads this, anim, anim.sprite
    {
      ShotState(anim.images, anim.sprite.image, reloading, frameCounter, playerShot)
    }

    /** `Weapon.__init__`, given the animated sprite with its scaled queue
        (which the source indexes, so it is not empty). */
    constructor (anim: AnimatedSprite, playerShot: bool)
      requires anim.images != []
      ensures this.anim == anim && !reloading && numImages == |anim.images| && frameCounter == 0
      ensures this.playerShot == playerShot
      ensures Valid()
    {
      this.anim := anim;
      reloading := false;
      numImages := |anim.images|;
      frameCounter := 0;
      this.playerShot := playerShot;
    }

    /** `animate_shot`. */
    method AnimateShot()
      requires Valid()
      modifies this, anim`images, anim.sprite`image
      ensures State() == AnimateShotStep(old(State()), anim.animationTrigger, numImages)
      ensures Valid()
    {
      if reloading {
        playerShot := false;
        if anim.animationTrigger {
          anim.images := anim.images[1..] + [anim.images[0]];
          anim.sprite.image := anim.images[0];
          frameCounter := frameCounter + 1;
          if frameCounter == numImages {
            reloading := false;
            frameCounter := 0;
          }
        }
      }
    }

    /** `update`: the timer is checked first, and the reload step then uses
        the trigger it has just set. */
    method Update(now: int)
      requires Valid()
      modifies this, anim`images, anim`animationTrigger, anim`animationTimePrev, anim.sprite`image
      ensures anim.animationTrigger == Fires(now, old(anim.animationTimePrev), anim.animationTime)
      ensures anim.animationTimePrev == if anim.animationTrigger then now else old(anim.animationTimePrev)
      ensures State() == AnimateShotStep(old(State()), anim.animationTrigger, numImages)
      ensures Valid()
    {
      anim.CheckAnimationTime(now);
      AnimateShot();
    }
  }

  // ---------------------------------------------------------------------
  // Properties of the reload state machine

  /** Not reloading, an update changes nothing. */
  lemma IdleUnchanged(s: ShotState, trigger: bool, numImages: int)
    requires s.images != [] && !s.reloading
    ensures AnimateShotStep(s, trigger, numImages) == s
  {
  }

  /** While reloading, every update clears the shot, triggered or not; an
      untriggered one changes nothing else. */
  lemma ReloadingClearsShot(s: ShotState, trigger: bool, numImages: int)
    requires s.images != [] && s.reloading
    ensures !AnimateShotStep(s, trigger, numImages).shot
    ensures !trigger ==> AnimateShotStep(s, trigger, numImages) == s.(shot := false)
  {
  }

  /** The counter stays in [0, num_images) and is 0 whenever the weapon is
      not reloading. */
  lemma CounterBounded(s: ShotState, trigger: bool, numImages: int)
    requires s.images != [] && 0 <= s.frameCounter < numImages && (!s.reloading ==> s.frameCounter == 0)
    ensures var r := AnimateShotStep(s, trigger, numImages);
      0 <= r.frameCounter < numImages && (!r.reloading ==> r.frameCounter == 0)
  {
  }

  /** A reload started with the counter at 0 is still under way after
      `k` triggered updates short of `num_images`: the counter is `k`, the
      queue has turned `k` times, and its head is on show. */
  lemma {:induction false} ReloadSteps(s: ShotState, k: nat)
    requires s.images != [] && s.reloading && s.frameCounter == 0
    requires k < |s.images|
    ensures var r := TriggeredSteps(s, |s.images|, k);
      && r.reloading && r.frameCounter == k && r.images == RotateN(s.images, k)
      && (k > 0 ==> !r.shot && r.image == r.images[0])
  {
    if k > 0 {
      var n := |s.images|;
      ReloadSteps(s, k - 1);
      var p := TriggeredSteps(s, n, k - 1);
      var images := RotateLeft(p.images);
      assert TriggeredSteps(s, n, k) == ShotState(images, images[0], true, k, false);
      assert RotateN(s.images, k) == RotateLeft(RotateN(s.images, k - 1));
    }
  }

  /** Frame `k` of the original queue is the one on show after `k`
      triggered updates. */
  lemma ReloadShowsFrame(s: ShotState, k: nat)
    requires s.images != [] && s.reloading && s.frameCounter == 0
    requires 0 < k < |s.images|
    ensures TriggeredSteps(s, |s.images|, k).image == s.images[k]
  {
    ReloadSteps(s, k);
    RotateNSplit(s.images, k);
  }

  /** The `num_images`-th triggered update ends the reload with the counter
      back at 0 and the queue in its original order, its first frame on
      show. */
  lemma ReloadCycle(s: ShotState)
    requires s.images != [] && s.reloading && s.frameCounter == 0
    ensures var r := TriggeredSteps(s, |s.images|, |s.images|);
      && !r.reloading && r.frameCounter == 0 && !r.shot
      && r.images == s.images && r.image == s.images[0]
  {
    var n := |s.images|;
    ReloadSteps(s, n - 1);
    var p := TriggeredSteps(s, n, n - 1);
    var images := RotateLeft(p.images);
    assert TriggeredSteps(s, n, n) == ShotState(images, images[0], false, 0, false);
    assert RotateN(s.images, n) == RotateLeft(RotateN(s.images, n - 1));
    RotateFull(s.images);
  }
}
