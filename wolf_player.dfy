/** The ray caster's player (Wolfenstein_Doom_Raycasting/player.py): a
    position and a heading, moved by the held keys with one collision probe
    per axis, and the heading kept in [0, tau). `sin`, `cos` and `tau` are
    parameters; the frame time `delta_time` is an input. */
module WolfPlayer {
  import opened PyNum
  import opened WolfMap

  /** `PLAYER_SPEED`, `PLAYER_ROT_SPEED`, `PLAYER_SIZE_SCALE` and
      `PLAYER_POS`/`PLAYER_ANGLE` from settings.py. */
  const PlayerSpeed: real := 0.004
  const PlayerRotSpeed: real := 0.002
  const PlayerSizeScale: real := 60.0
  const StartX: real := 1.5
  const StartY: real := 5.0
  const StartAngle: real := 0.0

  /** The keys `movement` looks at. */
  datatype Keys = Keys(w: bool, s: bool, a: bool, d: bool, left: bool, right: bool)

  /** The step the held keys ask for at `speed` along a heading with sine
      `sinA` and cosine `cosA`: W forward, S back, A and D sideways. */
  function MoveDelta(keys: Keys, speed: real, sinA: real, cosA: real): (real, real) {
    var speedSin := speed * sinA;
    var speedCos := speed * cosA;
    var (x1, y1) := if keys.w then (speedCos, speedSin) else (0.0, 0.0);
    var (x2, y2) := if keys.s then (x1 - speedCos, y1 - speedSin) else (x1, y1);
    var (x3, y3) := if keys.a then (x2 + speedSin, y2 - speedCos) else (x2, y2);
    if keys.d then (x3 - speedSin, y3 + speedCos) else (x3, y3)
  }

  /** The heading before normalisation: LEFT turns by `-rot`, RIGHT by `+rot`. */
  function Turned(angle: real, keys: Keys, rot: real): real {
    var a1 := if keys.left then angle - rot else angle;
    if keys.right then a1 + rot else a1
  }

  /** `check_wall(x, y)`: the cell is free when it is not a key of the map. */
  predicate CellFree(worldMap: map<Cell, int>, x: int, y: int) {
    (x, y) !in worldMap
  }

  /** Where `check_wall_collision` leaves the player: x is probed first at
      `(int(x + dx*scale), int(y))`; y is then probed at
      `(int(x'), int(y + dy*scale))` with the already updated x'. */
  function Slide(x: real, y: real, dx: real, dy: real, scale: real, worldMap: map<Cell, int>): (p: (real, real))
    ensures p.0 == x + dx || p.0 == x
    ensures p.1 == y + dy || p.1 == y
  {
    var x' := if CellFree(worldMap, Trunc(x + dx * scale), Trunc(y)) then x + dx else x;
    var y' := if CellFree(worldMap, Trunc(x'), Trunc(y + dy * scale)) then y + dy else y;
    (x', y')
  }

  /** `speed = PLAYER_SPEED * delta_time`. */
  function Speed(deltaTime: real): real { PlayerSpeed * deltaTime }

  /** The position after `movement`: the held keys' step, taken with speed
      `PLAYER_SPEED * delta_time` along the heading, resolved by `Slide`. */
  function Moved(x: real, y: real, sinA: real, cosA: real, keys: Keys,
                 deltaTime: real, worldMap: map<Cell, int>): (real, real)
    requires deltaTime != 0.0
  {
    var step := MoveDelta(keys, Speed(deltaTime), sinA, cosA);
    Slide(x, y, step.0, step.1, PlayerSizeScale / deltaTime, worldMap)
  }

  class Player {
    var x: real
    var y: real
    var angle: real
    /** `self.game.map.world_map`, which the player only reads. */
    const worldMap: map<Cell, int>

    /** `Player.__init__`: the start pose from settings.py. */
    constructor (worldMap: map<Cell, int>)
      ensures x == StartX && y == StartY && angle == StartAngle
      ensures this.worldMap == worldMap
    {
      x, y := StartX, StartY;
      angle := StartAngle;
      this.worldMap := worldMap;
    }

    /** `check_wall`. */
    predicate CheckWall(cx: int, cy: int)
    {
      CellFree(worldMap, cx, cy)
    }

    /** `pos`. */
    function Pos(): (p: (real, real))
      reads this
      ensures p.0 == x && p.1 == y
    {
      (x, y)
    }

    /** `map_pos`: `int()` of each coordinate, so for a position with
        non-negative coordinates, the cell that contains it. */
    function MapPos(): (c: Cell)
      reads this
      ensures 0.0 <= x ==> c.0 as real <= x < c.0 as real + 1.0
      ensures 0.0 <= y ==> c.1 as real <= y < c.1 as real + 1.0
      ensures x < 0.0 ==> c.0 as real - 1.0 < x <= c.0 as real
      ensures y < 0.0 ==> c.1 as real - 1.0 < y <= c.1 as real
    {
      (Trunc(x), Trunc(y))
    }

    /** `check_wall_collision`: each axis moves only when its probe cell is
        free; the probe reaches `PLAYER_SIZE_SCALE / delta_time` steps ahead.
        A zero `delta_time` makes the division raise before anything moves:
        `ok` is false and the position is unchanged. */
    method CheckWallCollision(dx: real, dy: real, deltaTime: real) returns (ok: bool)
      modifies this`x, this`y
      ensures ok <==> deltaTime != 0.0
      ensures ok ==> (x, y) == Slide(old(x), old(y), dx, dy, PlayerSizeScale / deltaTime, worldMap)
      ensures !ok ==> x == old(x) && y == old(y)
    {
      if deltaTime == 0.0 {
        return false;
      }
      ok := true;
      var scale := PlayerSizeScale / deltaTime;
      ghost var p := Slide(x, y, dx, dy, scale, worldMap);
      if CheckWall(Trunc(x + dx * scale), Trunc(y)) {
        x := x + dx;
      }
      assert x == p.0;
      if CheckWall(Trunc(x), Trunc(y + dy * scale)) {
        y := y + dy;
      }
    }

    /** `movement`: the held keys' step is resolved against the walls first,
        then the heading turns and is reduced modulo tau. `sin` and `cos` are
        applied to the heading the call starts with. A zero `delta_time`
        raises in the collision check: `ok` is false and neither the position
        nor the heading changes. */
    method Movement(keys: Keys, sin: real -> real, cos: real -> real, deltaTime: real, tau: real)
      returns (ok: bool)
      requires tau > 0.0
      modifies this`x, this`y, this`angle
      ensures ok <==> deltaTime != 0.0
      ensures ok ==>
        (x, y) == Moved(old(x), old(y), old(sin(angle)), old(cos(angle)), keys, deltaTime, worldMap)
        && angle == FloatMod(Turned(old(angle), keys, PlayerRotSpeed * deltaTime), tau)
        && 0.0 <= angle < tau
      ensures !ok ==> x == old(x) && y == old(y) && angle == old(angle)
    {
      var sinA := sin(angle);
      var cosA := cos(angle);
      var speed := Speed(deltaTime);
      var step := MoveDelta(keys, speed, sinA, cosA);
      ok := CheckWallCollision(step.0, step.1, deltaTime);
      if !ok {
        return;
      }
      if keys.left {
        angle := angle - PlayerRotSpeed * deltaTime;
      }
      if keys.right {
        angle := angle + PlayerRotSpeed * deltaTime;
      }
      angle := FloatMod(angle, tau);
    }
  }

  // ---------------------------------------------------------------------
  // Properties of the step, the heading and the collision rule

  /** Opposite keys cancel: holding W with S, or A with D, moves as if
      neither were held. */
  lemma OppositeKeysCancel(keys: Keys, speed: real, sinA: real, cosA: real)
    ensures keys.w && keys.s ==>
      MoveDelta(keys, speed, sinA, cosA) == MoveDelta(keys.(w := false, s := false), speed, sinA, cosA)
    ensures keys.a && keys.d ==>
      MoveDelta(keys, speed, sinA, cosA) == MoveDelta(keys.(a := false, d := false), speed, sinA, cosA)
  {
  }

  /** With a unit heading vector, one movement key moves exactly `speed`:
      W and S are opposite, and A is at right angles to W. */
  lemma SingleKeyStep(speed: real, sinA: real, cosA: real)
    requires sinA * sinA + cosA * cosA == 1.0
    ensures var f := MoveDelta(Keys(true, false, false, false, false, false), speed, sinA, cosA);
      var b := MoveDelta(Keys(false, true, false, false, false, false), speed, sinA, cosA);
      var l := MoveDelta(Keys(false, false, true, false, false, false), speed, sinA, cosA);
      && f.0 * f.0 + f.1 * f.1 == speed * speed
      && l.0 * l.0 + l.1 * l.1 == speed * speed
      && b == (-f.0, -f.1)
      && f.0 * l.0 + f.1 * l.1 == 0.0
  {
    var f := (speed * cosA, speed * sinA);
    assert f.0 * f.0 + f.1 * f.1 == speed * speed * (sinA * sinA + cosA * cosA);
  }

  /** A diagonal step is an x-only step followed by a y-only step taken
      from where the first one ended: an x-only step never changes y, a
      y-only step never changes x, and the y probe sees the updated x. */
  lemma SlideDecomposes(x: real, y: real, dx: real, dy: real, scale: real, worldMap: map<Cell, int>)
    ensures Slide(x, y, dx, 0.0, scale, worldMap).1 == y
    ensures Slide(x, y, 0.0, dy, scale, worldMap).0 == x
    ensures Slide(x, y, dx, dy, scale, worldMap)
         == Slide(Slide(x, y, dx, 0.0, scale, worldMap).0, y, 0.0, dy, scale, worldMap)
  {
  }

  lemma TruncMonotone(a: real, b: real)
    requires 0.0 <= a <= b
    ensures Trunc(a) <= Trunc(b)
  {
  }

  /** Moving one coordinate by `d` whose probe reaches `d * scale`, with
      `scale >= 1` and the probe less than one cell away, lands in either the
      start cell or the probe cell. */
  lemma StepCell(v: real, d: real, scale: real)
    requires 1.0 <= scale
    requires 0.0 <= v && 0.0 <= v + d * scale
    requires -1.0 < d * scale < 1.0
    ensures Trunc(v + d) == Trunc(v) || Trunc(v + d) == Trunc(v + d * scale)
  {
    ProbeFarther(d, scale);
    StepBetween(v, d, d * scale);
  }

  /** The probe `d * scale` lies beyond the step `d` on the same side. */
  lemma ProbeFarther(d: real, scale: real)
    requires 1.0 <= scale
    ensures d >= 0.0 ==> d <= d * scale
    ensures d < 0.0 ==> d * scale <= d
  {
    assert d * scale - d == d * (scale - 1.0);
  }

  /** A step `d` between 0 and a probe `e` less than one cell away ends in
      the start cell or the probe cell. */
  lemma StepBetween(v: real, d: real, e: real)
    requires 0.0 <= v && 0.0 <= v + e && -1.0 < e < 1.0
    requires (0.0 <= d <= e) || (e <= d < 0.0)
    ensures Trunc(v + d) == Trunc(v) || Trunc(v + d) == Trunc(v + e)
  {
    if d >= 0.0 {
      TruncMonotone(v, v + d);
      TruncMonotone(v + d, v + e);
      assert Trunc(v + e) <= Trunc(v) + 1;
    } else {
      TruncMonotone(v + e, v + d);
      TruncMonotone(v + d, v);
      assert Trunc(v) <= Trunc(v + e) + 1;
    }
  }

  /** The player never ends a move inside a wall: starting in a free cell,
      with a probe that reaches at least as far as the step but less than one
      cell, both coordinates non-negative, the cell after `check_wall_collision`
      is free. (In the game `dx * scale` is `0.24 * cos(angle)` per key.) */
  lemma {:induction false} SlideStaysFree(x: real, y: real, dx: real, dy: real, scale: real, worldMap: map<Cell, int>)
    requires 1.0 <= scale
    requires 0.0 <= x && 0.0 <= y && 0.0 <= x + dx * scale && 0.0 <= y + dy * scale
    requires -1.0 < dx * scale < 1.0 && -1.0 < dy * scale < 1.0
    requires CellFree(worldMap, Trunc(x), Trunc(y))
    ensures var p := Slide(x, y, dx, dy, scale, worldMap);
      CellFree(worldMap, Trunc(p.0), Trunc(p.1))
  {
    var p := Slide(x, y, dx, dy, scale, worldMap);
    var x' := p.0;
    if CellFree(worldMap, Trunc(x + dx * scale), Trunc(y)) {
      StepCell(x, dx, scale);
    }
    assert CellFree(worldMap, Trunc(x'), Trunc(y));
    if CellFree(worldMap, Trunc(x'), Trunc(y + dy * scale)) {
      StepCell(y, dy, scale);
    }
  }

  /** `check_wall` on the shipped map: a cell is free exactly when the grid
      has no wall there (outside the grid every cell is free). */
  lemma CheckWallOnGrid(grid: seq<seq<int>>, cx: int, cy: int)
    ensures CellFree(WorldMapOf(grid), cx, cy) <==> !WallAt(grid, (cx, cy))
  {
  }
}
