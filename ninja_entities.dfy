/** The platformer's physics entities (Ninja_Platformers/scripts/entities.py):
    each frame an entity moves along x, resolves its overlaps with the tiles
    around it, then does the same along y, and finally updates its facing,
    its fall speed and its animation. */
module NinjaEntities {
  import opened PyNum

  /** `pygame.Rect`: integer corner and size. */
  datatype Rect = Rect(x: int, y: int, w: int, h: int)

  /** `colliderect`: two non-empty rectangles overlap with positive area
      (touching edges do not count). */
  predicate Collide(a: Rect, b: Rect) {
    a.w > 0 && a.h > 0 && b.w > 0 && b.h > 0
    && a.x < b.x + b.w && b.x < a.x + a.w
    && a.y < b.y + b.h && b.y < a.y + a.h
  }

  /** The axis along which a sweep moves. */
  datatype Axis = Horizontal | Vertical

  /** The near edge of `r` along `axis` (`left` or `top`). */
  function Lo(r: Rect, axis: Axis): int {
    if axis == Horizontal then r.x else r.y
  }

  /** The extent of `r` along `axis` (`width` or `height`). */
  function Len(r: Rect, axis: Axis): int {
    if axis == Horizontal then r.w else r.h
  }

  /** `r` moved so that its near edge along `axis` is `v`. */
  function Place(r: Rect, axis: Axis, v: int): (p: Rect)
    ensures Lo(p, axis) == v && Len(p, axis) == Len(r, axis)
    ensures p.w == r.w && p.h == r.h
    ensures axis == Horizontal ==> p.y == r.y
    ensures axis == Vertical ==> p.x == r.x
  {
    if axis == Horizontal then r.(x := v) else r.(y := v)
  }

  /** The four collision flags. */
  datatype Collisions = Collisions(up: bool, down: bool, left: bool, right: bool)

  const NoCollisions := Collisions(false, false, false, false)

  /** `rect()`: the entity's box, at its position converted to integers. */
  function RectAt(x: real, y: real, size: (int, int)): Rect {
    Rect(Trunc(x), Trunc(y), size.0, size.1)
  }

  /** What one axis of `update` carries through its loop over the tiles:
      the entity's box, its coordinate along the axis, and whether it hit a
      tile ahead of it (right or down) or behind it (left or up). */
  datatype Sweep = Sweep(r: Rect, p: real, hitFwd: bool, hitBack: bool)

  /** The box and coordinate an axis starts from, with no hit yet. */
  function SweepStart(axis: Axis, x: real, y: real, size: (int, int)): Sweep {
    Sweep(RectAt(x, y, size), if axis == Horizontal then x else y, false, false)
  }

  /** One tile of the loop: on an overlap while moving forward, the far edge
      is put on the tile's near edge; while moving back, the near edge on the
      tile's far edge; either way the coordinate becomes the box's. */
  function Step(axis: Axis, s: Sweep, t: Rect, d: real): Sweep {
    if !Collide(s.r, t) then s
    else
      var fwd := if d > 0.0 then s.(r := Place(s.r, axis, Lo(t, axis) - Len(s.r, axis)), hitFwd := true) else s;
      var back := if d < 0.0 then fwd.(r := Place(fwd.r, axis, Lo(t, axis) + Len(t, axis)), hitBack := true) else fwd;
      back.(p := Lo(back.r, axis) as real)
  }

  /** The state after the loop has visited the tiles `ts` in order. */
  function Swept(axis: Axis, s: Sweep, ts: seq<Rect>, d: real): Sweep {
    if |ts| == 0 then s
    else Step(axis, Swept(axis, s, ts[..|ts| - 1], d), ts[|ts| - 1], d)
  }

  /** The loop of `update` over the tiles around the entity, for one axis. */
  method Resolve(axis: Axis, tiles: seq<Rect>, start: Sweep, d: real) returns (s: Sweep)
    ensures s == Swept(axis, start, tiles, d)
  {
    s := start;
    for k := 0 to |tiles|
      invariant s == Swept(axis, start, tiles[..k], d)
    {
      assert tiles[..k + 1][..k] == tiles[..k];
      var t := tiles[k];
      if Collide(s.r, t) {
        if d > 0.0 {
          s := s.(r := Place(s.r, axis, Lo(t, axis) - Len(s.r, axis)), hitFwd := true);
        }
        if d < 0.0 {
          s := s.(r := Place(s.r, axis, Lo(t, axis) + Len(t, axis)), hitBack := true);
        }
        s := s.(p := Lo(s.r, axis) as real);
      }
    }
    assert tiles[..|tiles|] == tiles;
  }

  /** The part of an `update` that positions the entity: position, vertical
      speed and collision flags after the frame. */
  datatype Moved = Moved(x: real, y: real, vy: real, collisions: Collisions)

  /** The physics of one frame. `around` is the tile map's
      `physics_rects_around`, queried at the position updated so far: first
      after the move along x, then after the move along y, so the y sweep
      sees the x correction. */
  function Physics(around: ((real, real)) -> seq<Rect>, size: (int, int),
                   x: real, y: real, vx: real, vy: real, mx: real, my: real): Moved
  {
    var fx, fy := mx + vx, my + vy;
    var sx := Swept(Horizontal, SweepStart(Horizontal, x + fx, y, size), around((x + fx, y)), fx);
    var sy := Swept(Vertical, SweepStart(Vertical, sx.p, y + fy, size), around((sx.p, y + fy)), fy);
    var c := Collisions(sy.hitBack, sy.hitFwd, sx.hitBack, sx.hitFwd);
    Moved(sx.p, sy.p, if c.up || c.down then 0.0 else MinReal(5.0, vy + 0.1), c)
  }

  /** The movement part of `update`: both axes in turn, the collision flags
      and the clamped fall speed, zeroed by a vertical collision. */
  method Move(around: ((real, real)) -> seq<Rect>, size: (int, int),
              x: real, y: real, vx: real, vy: real, mx: real, my: real) returns (m: Moved)
    ensures m == Physics(around, size, x, y, vx, vy, mx, my)
  {
    var fx, fy := mx + vx, my + vy;
    var movedX := x + fx;
    var sx := Resolve(Horizontal, around((movedX, y)), SweepStart(Horizontal, movedX, y, size), fx);
    var movedY := y + fy;
    var sy := Resolve(Vertical, around((sx.p, movedY)), SweepStart(Vertical, sx.p, movedY, size), fy);
    var collisions := Collisions(sy.hitBack, sy.hitFwd, sx.hitBack, sx.hitFwd);
    var fall := MinReal(5.0, vy + 0.1);
    if collisions.down || collisions.up {
      fall := 0.0;
    }
    m := Moved(sx.p, sy.p, fall, collisions);
  }

  /** `PhysicsEntity`: the box the game moves and collides. `animation` is
      the asset key of the loaded animation and `frame` its frame counter. */
  class PhysicsEntity {
    const entityType: string
    const size: (int, int)
    var x: real
    var y: real
    var vx: real
    var vy: real
    var collisions: Collisions
    var action: string
    var animation: string
    var frame: nat
    var flip: bool

    /** `PhysicsEntity.__init__`: at rest, no collisions, facing right,
        playing the `idle` animation. */
    constructor (entityType: string, x: real, y: real, size: (int, int))
      ensures this.entityType == entityType && this.size == size
      ensures this.x == x && this.y == y && vx == 0.0 && vy == 0.0
      ensures collisions == NoCollisions && !flip
      ensures action == "idle" && animation == entityType + "/idle" && frame == 0
    {
      this.entityType := entityType;
      this.size := size;
      this.x, this.y := x, y;
      vx, vy := 0.0, 0.0;
      collisions := NoCollisions;
      action := "";
      animation := "";
      frame := 0;
      flip := false;
      new;
      SetAction("idle");
    }

    /** `set_action`: a new action loads a fresh copy of its animation; the
        current action leaves the running animation alone. */
    method SetAction(a: string)
      modifies this
      ensures action == a
      ensures old(action) != a ==> animation == entityType + "/" + a && frame == 0
      ensures old(action) == a ==> animation == old(animation) && frame == old(frame)
      ensures x == old(x) && y == old(y) && vx == old(vx) && vy == old(vy)
      ensures collisions == old(collisions) && flip == old(flip)
    {
      if action != a {
        action := a;
        animation := entityType + "/" + a;
        frame := 0;
      }
    }

    /** `update`: `around` is the tile map's rectangle query and `advance`
        the animation's own frame step. */
    method Update(around: ((real, real)) -> seq<Rect>, mx: real, my: real,
                  advance: (string, nat) -> nat)
      modifies this
      ensures var m := Physics(around, size, old(x), old(y), old(vx), old(vy), mx, my);
        x == m.x && y == m.y && vy == m.vy && collisions == m.collisions
      ensures vx == old(vx) && action == old(action) && animation == old(animation)
      ensures frame == advance(animation, old(frame))
      ensures mx > 0.0 ==> !flip
      ensures mx < 0.0 ==> flip
      ensures mx == 0.0 ==> flip == old(flip)
    {
      var m := Move(around, size, x, y, vx, vy, mx, my);
      x, y, collisions := m.x, m.y, m.collisions;
      if mx > 0.0 {
        flip := false;
      }
      if mx < 0.0 {
        flip := true;
      }
      vy := m.vy;
      frame := advance(animation, frame);
    }
  }

  /** The action the player shows: jumping after more than four frames in
      the air, otherwise running while moving sideways, otherwise idle. */
  function PlayerAction(airTime: int, mx: real): (a: string)
    ensures a == "jump" <==> airTime > 4
    ensures a == "run" <==> airTime <= 4 && mx != 0.0
    ensures a == "idle" <==> airTime <= 4 && mx == 0.0
  {
    if airTime > 4 then "jump" else if mx != 0.0 then "run" else "idle"
  }

  /** `Player`: a physics entity of type `player` that counts its frames in
      the air (the subclass is modelled by holding the entity). */
  class Player {
    const entity: PhysicsEntity
    var airTime: int

    constructor (x: real, y: real, size: (int, int))
      ensures fresh(entity)
      ensures entity.entityType == "player" && entity.size == size
      ensures entity.x == x && entity.y == y && entity.vx == 0.0 && entity.vy == 0.0
      ensures entity.action == "idle" && entity.animation == "player/idle"
      ensures airTime == 0
    {
      entity := new PhysicsEntity("player", x, y, size);
      airTime := 0;
    }

    /** `Player.update`: the entity's update, then the air-time count (reset
        on landing) and the action it selects. */
    method Update(around: ((real, real)) -> seq<Rect>, mx: real, my: real,
                  advance: (string, nat) -> nat)
      modifies this, entity
      ensures var m := Physics(around, entity.size, old(entity.x), old(entity.y),
                               old(entity.vx), old(entity.vy), mx, my);
        entity.x == m.x && entity.y == m.y && entity.vy == m.vy
        && entity.collisions == m.collisions
      ensures entity.vx == old(entity.vx)
      ensures mx > 0.0 ==> !entity.flip
      ensures mx < 0.0 ==> entity.flip
      ensures mx == 0.0 ==> entity.flip == old(entity.flip)
      ensures airTime == if entity.collisions.down then 0 else old(airTime) + 1
      ensures entity.action == PlayerAction(airTime, mx)
      ensures entity.action == old(entity.action) ==>
        entity.animation == old(entity.animation)
        && entity.frame == advance(old(entity.animation), old(entity.frame))
      ensures entity.action != old(entity.action) ==>
        entity.animation == entity.entityType + "/" + entity.action && entity.frame == 0
    {
      entity.Update(around, mx, my, advance);
      airTime := airTime + 1;
      if entity.collisions.down {
        airTime := 0;
      }
      if airTime > 4 {
        entity.SetAction("jump");
      } else if mx != 0.0 {
        entity.SetAction("run");
      } else {
        entity.SetAction("idle");
      }
    }
  }

  // ---------------------------------------------------------------------
  // Properties of the collision sweep

  /** A flag is only raised by a move in its own direction. */
  lemma {:induction false} SweptFlags(axis: Axis, s: Sweep, ts: seq<Rect>, d: real)
    ensures Swept(axis, s, ts, d).hitFwd ==> s.hitFwd || d > 0.0
    ensures Swept(axis, s, ts, d).hitBack ==> s.hitBack || d < 0.0
  {
    if |ts| > 0 {
      SweptFlags(axis, s, ts[..|ts| - 1], d);
    }
  }

  /** Resolving overlaps never carries the box further in the direction
      of motion, leaves it where it is when there is no motion, and never
      changes its size or its position on the other axis; the coordinate is
      the one it started with or the box's. */
  lemma {:induction false} SweptNeverAdvances(axis: Axis, s: Sweep, ts: seq<Rect>, d: real)
    ensures var r := Swept(axis, s, ts, d);
      r.r == Place(s.r, axis, Lo(r.r, axis))
      && (d > 0.0 ==> Lo(r.r, axis) <= Lo(s.r, axis))
      && (d < 0.0 ==> Lo(r.r, axis) >= Lo(s.r, axis))
      && (d == 0.0 ==> r.r == s.r)
      && (r.p == s.p || r.p == Lo(r.r, axis) as real)
  {
    if |ts| > 0 {
      SweptNeverAdvances(axis, s, ts[..|ts| - 1], d);
    }
  }

  /** No rectangle of `ts` overlaps `r`. */
  predicate Clear(r: Rect, ts: seq<Rect>) {
    forall t | t in ts :: !Collide(r, t)
  }

  /** With nothing overlapping the box at the start, the loop changes
      nothing. */
  lemma {:induction false} SweptClear(axis: Axis, s: Sweep, ts: seq<Rect>, d: real)
    requires Clear(s.r, ts)
    ensures Swept(axis, s, ts, d) == s
  {
    if |ts| > 0 {
      var init := ts[..|ts| - 1];
      assert forall t | t in init :: t in ts;
      SweptClear(axis, s, init, d);
      assert ts[|ts| - 1] in ts;
    }
  }

  /** Snapping against a tile while moving leaves the box flush with that
      tile's edge and no longer overlapping it. */
  lemma StepSeparates(axis: Axis, s: Sweep, t: Rect, d: real)
    requires Collide(s.r, t) && d != 0.0
    ensures var r := Step(axis, s, t, d).r;
      !Collide(r, t)
      && (d > 0.0 ==> Lo(r, axis) + Len(r, axis) == Lo(t, axis))
      && (d < 0.0 ==> Lo(r, axis) == Lo(t, axis) + Len(t, axis))
  {
  }

  // ---------------------------------------------------------------------
  // Properties of one frame

  /** Each collision flag means the frame moved that way. */
  lemma PhysicsFlags(around: ((real, real)) -> seq<Rect>, size: (int, int),
                     x: real, y: real, vx: real, vy: real, mx: real, my: real)
    ensures var c := Physics(around, size, x, y, vx, vy, mx, my).collisions;
      (c.right ==> mx + vx > 0.0) && (c.left ==> mx + vx < 0.0)
      && (c.down ==> my + vy > 0.0) && (c.up ==> my + vy < 0.0)
  {
    var fx, fy := mx + vx, my + vy;
    var sx := Swept(Horizontal, SweepStart(Horizontal, x + fx, y, size), around((x + fx, y)), fx);
    SweptFlags(Horizontal, SweepStart(Horizontal, x + fx, y, size), around((x + fx, y)), fx);
    SweptFlags(Vertical, SweepStart(Vertical, sx.p, y + fy, size), around((sx.p, y + fy)), fy);
  }

  /** The fall speed never exceeds 5 and is zero after a vertical collision;
      without one it is the old speed plus 0.1, capped. */
  lemma PhysicsFallSpeed(around: ((real, real)) -> seq<Rect>, size: (int, int),
                         x: real, y: real, vx: real, vy: real, mx: real, my: real)
    ensures var m := Physics(around, size, x, y, vx, vy, mx, my);
      m.vy <= 5.0
      && (m.collisions.up || m.collisions.down ==> m.vy == 0.0)
      && (!m.collisions.up && !m.collisions.down ==> m.vy == vy + 0.1 || m.vy == 5.0)
      && (vy >= 0.0 ==> m.vy >= 0.0)
  {
  }

  /** A frame in which no tile overlaps the box, once moved along x and
      again once moved along y, moves the entity by its full frame movement
      and raises no flag. */
  lemma PhysicsFreeFlight(around: ((real, real)) -> seq<Rect>, size: (int, int),
                          x: real, y: real, vx: real, vy: real, mx: real, my: real)
    requires Clear(RectAt(x + mx + vx, y, size), around((x + mx + vx, y)))
    requires Clear(RectAt(x + mx + vx, y + my + vy, size), around((x + mx + vx, y + my + vy)))
    ensures var m := Physics(around, size, x, y, vx, vy, mx, my);
      m.x == x + mx + vx && m.y == y + my + vy && m.collisions == NoCollisions
  {
    var fx, fy := mx + vx, my + vy;
    SweptClear(Horizontal, SweepStart(Horizontal, x + fx, y, size), around((x + fx, y)), fx);
    SweptClear(Vertical, SweepStart(Vertical, x + fx, y + fy, size), around((x + fx, y + fy)), fy);
  }

  /** The y sweep starts from the x the x sweep settled on and keeps it:
      the final box stands at the truncated final x. */
  lemma PhysicsAxesInTurn(around: ((real, real)) -> seq<Rect>, size: (int, int),
                          x: real, y: real, vx: real, vy: real, mx: real, my: real)
    ensures var m := Physics(around, size, x, y, vx, vy, mx, my);
      var sy := Swept(Vertical, SweepStart(Vertical, m.x, y + my + vy, size),
                      around((m.x, y + my + vy)), my + vy);
      sy.r.x == Trunc(m.x) && sy.p == m.y
  {
    var m := Physics(around, size, x, y, vx, vy, mx, my);
    SweptNeverAdvances(Vertical, SweepStart(Vertical, m.x, y + my + vy, size),
                       around((m.x, y + my + vy)), my + vy);
  }
}
