/** The depth-only ray caster (Wolfenstein_Doom_Raycasting/raycasting.py):
    one ray per screen column, each running the vertical-line and the
    horizontal-line march and keeping the nearer depth, a tie going to the
    horizontal one. The depths feed only a debug line; nothing is stored. */
module WolfRaycast {
  import opened PyNum
  import opened Opt
  import opened WolfMap
  import opened WolfMarch
  import opened WolfSettings
  import WolfRaycastBackup

  /** The depth of one ray, or None where the source divides by zero
      (`cos_a == 0` at the vertical setup, `sin_a == 0` at the horizontal). */
  function RayDepth(c: Settings, sc: Scene, rayAngle: real): Option<real> {
    var sinA := sc.sin(rayAngle);
    var cosA := sc.cos(rayAngle);
    if cosA == 0.0 || sinA == 0.0 then None
    else
      var ve := VertEnd(c, sc, sinA, cosA);
      var he := HorEnd(c, sc, sinA, cosA);
      Some(if ve.depth < he.depth then ve.depth else he.depth)
  }

  /** The loop's variables after some passes: the depths computed, the
      current ray angle, and whether no pass has raised yet. */
  datatype DepthState = DepthState(depths: seq<real>, rayAngle: real, ok: bool)

  /** The state of `ray_cast` after `k` passes of its loop. */
  function RunDepths(c: Settings, sc: Scene, k: nat): (s: DepthState) {
    if k == 0 then DepthState([], FirstRayAngle(c, sc), true)
    else
      var s := RunDepths(c, sc, k - 1);
      if !s.ok then s
      else match RayDepth(c, sc, s.rayAngle)
        case None => s.(ok := false)
        case Some(d) => DepthState(s.depths + [d], s.rayAngle + c.deltaAngle, true)
  }

  /** The body of the ray loop for one ray: both marches and the nearer
      depth. */
  method DepthBody(c: Settings, sc: Scene, xMap: int, yMap: int, rayAngle: real) returns (depth: Option<real>)
    requires xMap == Trunc(sc.ox) && yMap == Trunc(sc.oy)
    ensures depth == RayDepth(c, sc, rayAngle)
  {
    var sinA := sc.sin(rayAngle);
    var cosA := sc.cos(rayAngle);
    if cosA == 0.0 {
      return None;
    }
    var v := VerticalSetup(sc.ox, sc.oy, xMap, sinA, cosA);
    var ve := March(sc.wm, v.x, v.y, v.depth, v.dx, v.dy, v.dd, c.maxDepth);
    if sinA == 0.0 {
      return None;
    }
    var h := HorizontalSetup(sc.ox, sc.oy, yMap, sinA, cosA);
    var he := March(sc.wm, h.x, h.y, h.depth, h.dx, h.dy, h.dd, c.maxDepth);
    if ve.depth < he.depth {
      depth := Some(ve.depth);
    } else {
      depth := Some(he.depth);
    }
  }

  /** `ray_cast`: the depth of each ray in turn, the one the debug line is
      drawn with; `ok` is false where a ray raises ZeroDivisionError, and
      the depths are then those of the rays before it. It reads the scene
      (the player's pose and the world map, passed by value) and changes
      nothing. */
  method RayCast(c: Settings, sc: Scene) returns (depths: seq<real>, ok: bool)
    ensures var s := RunDepths(c, sc, c.numRays); depths == s.depths && ok == s.ok
  {
    depths := [];
    var xMap, yMap := Trunc(sc.ox), Trunc(sc.oy);
    var rayAngle := FirstRayAngle(c, sc);
    for ray := 0 to c.numRays
      invariant RunDepths(c, sc, ray) == DepthState(depths, rayAngle, true)
    {
      var d := DepthBody(c, sc, xMap, yMap, rayAngle);
      if d.None? {
        RunDepthsStopped(c, sc, ray + 1, c.numRays);
        return depths, false;
      }
      rayAngle := rayAngle + c.deltaAngle;
      depths := depths + [d.value];
    }
    ok := true;
  }

  // ---------------------------------------------------------------------
  // Properties of the loop

  /** Once a pass has raised, later passes change nothing. */
  lemma {:induction false} RunDepthsStopped(c: Settings, sc: Scene, k: nat, m: nat)
    requires k <= m && !RunDepths(c, sc, k).ok
    ensures RunDepths(c, sc, m) == RunDepths(c, sc, k)
    decreases m - k
  {
    if k < m {
      RunDepthsStopped(c, sc, k, m - 1);
    }
  }

  /** While no pass has raised, pass `k` has computed exactly `k` depths,
      the `j`-th with the ray angle `j` steps of `DELTA_ANGLE` past the
      first, and the angle has moved on by `k` steps. */
  lemma {:induction false} RunDepthsRays(c: Settings, sc: Scene, k: nat)
    requires RunDepths(c, sc, k).ok
    ensures var s := RunDepths(c, sc, k);
      && |s.depths| == k
      && s.rayAngle == Along(FirstRayAngle(c, sc), c.deltaAngle, k)
      && forall j :: 0 <= j < k ==>
           RayDepth(c, sc, Along(FirstRayAngle(c, sc), c.deltaAngle, j)) == Some(s.depths[j])
  {
    if k > 0 {
      var p := RunDepths(c, sc, k - 1);
      if !p.ok {
        assert false;
      }
      RunDepthsRays(c, sc, k - 1);
      match RayDepth(c, sc, p.rayAngle)
      case None =>
      case Some(d) =>
        AlongNext(FirstRayAngle(c, sc), c.deltaAngle, k - 1);
        var s := RunDepths(c, sc, k);
        assert s.depths == p.depths + [d];
    }
  }

  // ---------------------------------------------------------------------
  // Properties of one ray

  /** The depth is the vertical march's only when it is strictly nearer:
      the smaller of the two, a tie going to the horizontal march. */
  lemma RayDepthChoice(c: Settings, sc: Scene, rayAngle: real)
    requires RayDepth(c, sc, rayAngle).Some?
    ensures var sinA, cosA := sc.sin(rayAngle), sc.cos(rayAngle);
      sinA != 0.0 && cosA != 0.0
      && var ve, he := VertEnd(c, sc, sinA, cosA), HorEnd(c, sc, sinA, cosA);
      var d := RayDepth(c, sc, rayAngle).value;
      && d == MinReal(he.depth, ve.depth)
      && (d == ve.depth <== ve.depth < he.depth)
      && (d == he.depth <== he.depth <= ve.depth)
  {
  }

  /** A ray raises exactly when its sine or cosine is zero, and from a
      position with non-negative coordinates its depth is positive. */
  lemma RayDepthDefined(c: Settings, sc: Scene, rayAngle: real)
    ensures RayDepth(c, sc, rayAngle).Some? <==> sc.sin(rayAngle) != 0.0 && sc.cos(rayAngle) != 0.0
    ensures RayDepth(c, sc, rayAngle).Some? && 0.0 <= sc.ox && 0.0 <= sc.oy ==>
      RayDepth(c, sc, rayAngle).value > 0.0
  {
    var sinA, cosA := sc.sin(rayAngle), sc.cos(rayAngle);
    if sinA != 0.0 && cosA != 0.0 && 0.0 <= sc.ox && 0.0 <= sc.oy {
      EndsDeep(c, sc, sinA, cosA);
    }
  }

  /** The two ray casters march alike: where the textured caster of
      Backup/raycasting.py yields an entry for a ray, its depth is this
      caster's depth for the same ray times the fish-eye factor. */
  lemma AgreesWithTextured(c: Settings, sc: Scene, rayAngle: real, texVert: int, texHor: int)
    requires WolfRaycastBackup.CastRay(c, sc, rayAngle, texVert, texHor).Some?
    ensures RayDepth(c, sc, rayAngle).Some?
    ensures WolfRaycastBackup.CastRay(c, sc, rayAngle, texVert, texHor).value.entry.depth
      == RayDepth(c, sc, rayAngle).value * WolfRaycastBackup.FishFactor(sc, rayAngle + c.deltaAngle)
  {
    WolfRaycastBackup.CastRayChoice(c, sc, rayAngle, texVert, texHor);
    RayDepthChoice(c, sc, rayAngle);
  }
}
