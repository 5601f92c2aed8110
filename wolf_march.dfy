/** The grid march shared by both ray casters
    (Wolfenstein_Doom_Raycasting/raycasting.py and its Backup/ copy): from a
    first crossing of a grid line, step one grid line at a time, at most
    `MAX_DEPTH` times, and stop at the first tile that is a key of the map. */
module WolfMarch {
  import opened PyNum
  import opened Opt
  import opened WolfMap
  import opened WolfSettings

  /** Where a march stopped: the point and depth it reached, how many steps
      it took, and the texture of the tile it hit (None when it ran out of
      steps without a hit). */
  datatype MarchEnd = MarchEnd(x: real, y: real, depth: real, steps: nat, texture: Option<int>)

  /** The tile `(int(x), int(y))` a point lies in. */
  function TileOf(x: real, y: real): Cell {
    (Trunc(x), Trunc(y))
  }

  /** The march as a recursion on the steps left: look at the current tile,
      stop on a key, otherwise advance by (dx, dy) and the depth by dd. */
  function MarchFrom(wm: map<Cell, int>, x: real, y: real, depth: real,
                     dx: real, dy: real, dd: real, fuel: nat): MarchEnd
    decreases fuel
  {
    if fuel == 0 then MarchEnd(x, y, depth, 0, None)
    else if TileOf(x, y) in wm then MarchEnd(x, y, depth, 0, Some(wm[TileOf(x, y)]))
    else
      var e := MarchFrom(wm, x + dx, y + dy, depth + dd, dx, dy, dd, fuel - 1);
      e.(steps := e.steps + 1)
  }

  /** The point k steps along the march. */
  function Along(v: real, dv: real, k: nat): real {
    v + k as real * dv
  }

  /** The march is a bounded search: it takes at most `maxDepth` steps; a
      hit is at a key of the map and carries that key's texture, and without
      a hit it took all `maxDepth` steps. */
  lemma {:induction false} MarchBounded(wm: map<Cell, int>, x: real, y: real, depth: real,
                                        dx: real, dy: real, dd: real, maxDepth: nat)
    ensures var e := MarchFrom(wm, x, y, depth, dx, dy, dd, maxDepth);
      && e.steps <= maxDepth
      && (e.texture.Some? ==> e.steps < maxDepth && TileOf(e.x, e.y) in wm
                              && e.texture.value == wm[TileOf(e.x, e.y)])
      && (e.texture.None? ==> e.steps == maxDepth)
    decreases maxDepth
  {
    if maxDepth > 0 && TileOf(x, y) !in wm {
      MarchBounded(wm, x + dx, y + dy, depth + dd, dx, dy, dd, maxDepth - 1);
    }
  }

  /** The march stops `steps` strides from where it started, at the depth
      reached by `steps` depth increments. */
  lemma {:induction false} MarchPosition(wm: map<Cell, int>, x: real, y: real, depth: real,
                                         dx: real, dy: real, dd: real, maxDepth: nat)
    ensures var e := MarchFrom(wm, x, y, depth, dx, dy, dd, maxDepth);
      && e.x == Along(x, dx, e.steps) && e.y == Along(y, dy, e.steps)
      && e.depth == Along(depth, dd, e.steps)
    decreases maxDepth
  {
    if maxDepth > 0 && TileOf(x, y) !in wm {
      var r := MarchFrom(wm, x + dx, y + dy, depth + dd, dx, dy, dd, maxDepth - 1);
      MarchPosition(wm, x + dx, y + dy, depth + dd, dx, dy, dd, maxDepth - 1);
      AlongShift(x, dx, r.steps);
      AlongShift(y, dy, r.steps);
      AlongShift(depth, dd, r.steps);
    }
  }

  /** The hit is the first: no tile the march passed before stopping is a
      key of the map. */
  lemma {:induction false} MarchFirstHit(wm: map<Cell, int>, x: real, y: real, depth: real,
                                         dx: real, dy: real, dd: real, maxDepth: nat)
    ensures var e := MarchFrom(wm, x, y, depth, dx, dy, dd, maxDepth);
      forall k :: 0 <= k < e.steps ==> TileOf(Along(x, dx, k), Along(y, dy, k)) !in wm
    decreases maxDepth
  {
    var e := MarchFrom(wm, x, y, depth, dx, dy, dd, maxDepth);
    if maxDepth > 0 && TileOf(x, y) !in wm {
      MarchFirstHit(wm, x + dx, y + dy, depth + dd, dx, dy, dd, maxDepth - 1);
      forall k | 0 <= k < e.steps
        ensures TileOf(Along(x, dx, k), Along(y, dy, k)) !in wm
      {
        if k == 0 {
          assert Along(x, dx, 0) == x && Along(y, dy, 0) == y;
        } else {
          AlongShift(x, dx, k - 1);
          AlongShift(y, dy, k - 1);
        }
      }
    }
  }

  lemma AlongShift(v: real, dv: real, k: nat)
    ensures Along(v + dv, dv, k) == Along(v, dv, k + 1)
  {
    assert (k + 1) as real * dv == k as real * dv + dv;
  }

  /** One more step along. */
  lemma AlongNext(v: real, dv: real, k: nat)
    ensures Along(v, dv, k + 1) == Along(v, dv, k) + dv
  {
    assert (k + 1) as real * dv == k as real * dv + dv;
  }

  /** The march loop: `for i in range(MAX_DEPTH)`, breaking at the first
      tile in the map. */
  method March(wm: map<Cell, int>, x: real, y: real, depth: real,
               dx: real, dy: real, dd: real, maxDepth: nat) returns (e: MarchEnd)
    ensures e == MarchFrom(wm, x, y, depth, dx, dy, dd, maxDepth)
  {
    var cx, cy, cd := x, y, depth;
    for i := 0 to maxDepth
      invariant var rest := MarchFrom(wm, cx, cy, cd, dx, dy, dd, maxDepth - i);
        MarchFrom(wm, x, y, depth, dx, dy, dd, maxDepth) == rest.(steps := rest.steps + i)
    {
      var tile := TileOf(cx, cy);
      if tile in wm {
        return MarchEnd(cx, cy, cd, i, Some(wm[tile]));
      }
      cx := cx + dx;
      cy := cy + dy;
      cd := cd + dd;
    }
    e := MarchEnd(cx, cy, cd, maxDepth, None);
  }

  // ---------------------------------------------------------------------
  // Setting up the two marches of one ray

  /** The first crossing and the stride of one march: start point, start
      depth, and the per-step increments. */
  datatype MarchSetup = MarchSetup(x: real, y: real, depth: real, dx: real, dy: real, dd: real)

  /** The vertical-line march: from `x_map + 1` stepping +1 when the ray
      faces right (`cos_a > 0`), otherwise from `x_map - 1e-6` stepping -1.
      `cos_a == 0` divides by zero in the source. */
  function VerticalSetup(ox: real, oy: real, xMap: int, sinA: real, cosA: real): (s: MarchSetup)
    requires cosA != 0.0
  {
    var (xVert, dx) := if cosA > 0.0 then (xMap as real + 1.0, 1.0) else (xMap as real - 0.000001, -1.0);
    var depthVert := (xVert - ox) / cosA;
    var yVert := oy + depthVert * sinA;
    var deltaDepth := dx / cosA;
    MarchSetup(xVert, yVert, depthVert, dx, deltaDepth * sinA, deltaDepth)
  }

  /** The horizontal-line march, the same on the y axis keyed on `sin_a`. */
  function HorizontalSetup(ox: real, oy: real, yMap: int, sinA: real, cosA: real): (s: MarchSetup)
    requires sinA != 0.0
  {
    var (yHor, dy) := if sinA > 0.0 then (yMap as real + 1.0, 1.0) else (yMap as real - 0.000001, -1.0);
    var depthHor := (yHor - oy) / sinA;
    var xHor := ox + depthHor * cosA;
    var deltaDepth := dy / sinA;
    MarchSetup(xHor, yHor, depthHor, deltaDepth * cosA, dy, deltaDepth)
  }

  /** Both marches start on the first grid line past the player's own cell
      in the ray's direction, so they start at a positive depth and go
      deeper with each step; the stride along the march axis is one cell. */
  lemma SetupsMoveAway(ox: real, oy: real, sinA: real, cosA: real)
    requires 0.0 <= ox && 0.0 <= oy
    ensures cosA != 0.0 ==>
      var s := VerticalSetup(ox, oy, Trunc(ox), sinA, cosA);
      0.0 < s.depth && 0.0 < s.dd && (s.dx == 1.0 || s.dx == -1.0) && (s.dx > 0.0 <==> cosA > 0.0)
    ensures sinA != 0.0 ==>
      var s := HorizontalSetup(ox, oy, Trunc(oy), sinA, cosA);
      0.0 < s.depth && 0.0 < s.dd && (s.dy == 1.0 || s.dy == -1.0) && (s.dy > 0.0 <==> sinA > 0.0)
  {
    if cosA != 0.0 {
      PositiveQuotient(if cosA > 0.0 then Trunc(ox) as real + 1.0 - ox else Trunc(ox) as real - 0.000001 - ox, cosA);
      PositiveQuotient(if cosA > 0.0 then 1.0 else -1.0, cosA);
    }
    if sinA != 0.0 {
      PositiveQuotient(if sinA > 0.0 then Trunc(oy) as real + 1.0 - oy else Trunc(oy) as real - 0.000001 - oy, sinA);
      PositiveQuotient(if sinA > 0.0 then 1.0 else -1.0, sinA);
    }
  }

  lemma PositiveQuotient(a: real, b: real)
    requires b != 0.0 && (a > 0.0 <==> b > 0.0) && a != 0.0
    ensures a / b > 0.0
  {
    if b < 0.0 {
      assert a / b == (-a) / (-b);
    }
  }

  /** Every depth a march reaches from such a setup is positive. */
  lemma {:induction false} MarchDepthPositive(wm: map<Cell, int>, s: MarchSetup, maxDepth: nat)
    requires 0.0 < s.depth && 0.0 < s.dd
    ensures MarchFrom(wm, s.x, s.y, s.depth, s.dx, s.dy, s.dd, maxDepth).depth >= s.depth > 0.0
  {
    var e := MarchFrom(wm, s.x, s.y, s.depth, s.dx, s.dy, s.dd, maxDepth);
    MarchPosition(wm, s.x, s.y, s.depth, s.dx, s.dy, s.dd, maxDepth);
    assert e.steps as real * s.dd >= 0.0;
  }

  // ---------------------------------------------------------------------
  // The two marches of one ray of a frame

  /** What every ray of one frame shares: the world map, the player's
      position and angle, and the trigonometric functions (given as inputs,
      since the model has no floating-point `math.sin`/`math.cos`). */
  datatype Scene = Scene(wm: map<Cell, int>, ox: real, oy: real, angle: real,
                         sin: real -> real, cos: real -> real)

  /** The first ray's angle: `player.angle - HALF_FOV + 0.0001`. */
  function FirstRayAngle(c: Settings, sc: Scene): real {
    sc.angle - c.halfFov + 0.0001
  }

  /** The vertical march of the ray with sine `sinA` and cosine `cosA`. */
  function VertEnd(c: Settings, sc: Scene, sinA: real, cosA: real): MarchEnd
    requires cosA != 0.0
  {
    var v := VerticalSetup(sc.ox, sc.oy, Trunc(sc.ox), sinA, cosA);
    MarchFrom(sc.wm, v.x, v.y, v.depth, v.dx, v.dy, v.dd, c.maxDepth)
  }

  /** The horizontal march of the same ray. */
  function HorEnd(c: Settings, sc: Scene, sinA: real, cosA: real): MarchEnd
    requires sinA != 0.0
  {
    var h := HorizontalSetup(sc.ox, sc.oy, Trunc(sc.oy), sinA, cosA);
    MarchFrom(sc.wm, h.x, h.y, h.depth, h.dx, h.dy, h.dd, c.maxDepth)
  }

  /** From a position with non-negative coordinates both marches end at a
      positive depth. */
  lemma EndsDeep(c: Settings, sc: Scene, sinA: real, cosA: real)
    requires 0.0 <= sc.ox && 0.0 <= sc.oy && sinA != 0.0 && cosA != 0.0
    ensures VertEnd(c, sc, sinA, cosA).depth > 0.0 && HorEnd(c, sc, sinA, cosA).depth > 0.0
  {
    SetupsMoveAway(sc.ox, sc.oy, sinA, cosA);
    MarchDepthPositive(sc.wm, VerticalSetup(sc.ox, sc.oy, Trunc(sc.ox), sinA, cosA), c.maxDepth);
    MarchDepthPositive(sc.wm, HorizontalSetup(sc.ox, sc.oy, Trunc(sc.oy), sinA, cosA), c.maxDepth);
  }
}
