/** The textured ray caster (Wolfenstein_Doom_Raycasting/Backup/raycasting.py):
    one ray per screen column, each running a vertical-line and a
    horizontal-line march, choosing the nearer hit (ties to the horizontal
    one), taking a texel offset, correcting the fish-eye effect and
    projecting the wall slice; then one wall column per ray for the renderer. */
module WolfRaycastBackup {
  import opened PyNum
  import opened Opt
  import opened WolfMap
  import opened WolfMarch
  import opened WolfSettings
  import opened WolfDrawable

  /** One entry of `ray_casting_result`: `(depth, proj_height, texture, offset)`. */
  datatype RayEntry = RayEntry(depth: real, projHeight: real, texture: int, offset: real)

  /** One ray's entry and the two texture variables it leaves behind. */
  datatype RayStep = RayStep(entry: RayEntry, texVert: int, texHor: int)

  /** Offset into the texture on a vertical-line hit: the fractional part of
      y, mirrored when the ray faces left. */
  function VertOffset(yVert: real, cosA: real): (r: real)
    ensures 0.0 <= r <= 1.0
    ensures cosA > 0.0 ==> r == FloatMod(yVert, 1.0)
    ensures cosA <= 0.0 ==> r == 1.0 - FloatMod(yVert, 1.0)
  {
    var f := FloatMod(yVert, 1.0);
    if cosA > 0.0 then f else 1.0 - f
  }

  /** Offset on a horizontal-line hit: the fractional part of x, mirrored
      when the ray faces down the screen (`sin_a > 0`). */
  function HorOffset(xHor: real, sinA: real): (r: real)
    ensures 0.0 <= r <= 1.0
    ensures sinA > 0.0 ==> r == 1.0 - FloatMod(xHor, 1.0)
    ensures sinA <= 0.0 ==> r == FloatMod(xHor, 1.0)
  {
    var f := FloatMod(xHor, 1.0);
    if sinA > 0.0 then 1.0 - f else f
  }

  /** The texture variable after a march: the hit tile's texture, or the
      value it had before (it is initialised once, before the first ray). */
  function CarryTexture(e: MarchEnd, before: int): int {
    if e.texture.Some? then e.texture.value else before
  }

  /** The nearer of the two hits, a tie going to the horizontal one: its
      depth, texture and texel offset. */
  function Nearer(ve: MarchEnd, he: MarchEnd, tv: int, th: int, sinA: real, cosA: real): (real, int, real) {
    if ve.depth < he.depth then (ve.depth, tv, VertOffset(ve.y, cosA))
    else (he.depth, th, HorOffset(he.x, sinA))
  }

  /** The entry for a hit at `depth0` once corrected by the fish-eye factor
      `fish`, or None where `depth + 0.0001` is zero. */
  function Project(c: Settings, depth0: real, texture: int, offset: real, fish: real): Option<RayEntry> {
    var depth := depth0 * fish;
    if depth + 0.0001 == 0.0 then None
    else Some(RayEntry(depth, c.screenDist / (depth + 0.0001), texture, offset))
  }

  /** The fish-eye correction factor `cos(player.angle - ray_angle)`. */
  function FishFactor(sc: Scene, rayAngle: real): real {
    sc.cos(sc.angle - rayAngle)
  }

  /** One iteration of the ray loop, or None where the source divides by
      zero (`cos_a == 0`, `sin_a == 0`, or a corrected depth of -0.0001).
      The fish-eye factor uses `ray_angle` after it has been advanced. */
  function CastRay(c: Settings, sc: Scene, rayAngle: real, texVert: int, texHor: int): Option<RayStep> {
    var sinA := sc.sin(rayAngle);
    var cosA := sc.cos(rayAngle);
    if cosA == 0.0 || sinA == 0.0 then None
    else
      var ve := VertEnd(c, sc, sinA, cosA);
      var tv := CarryTexture(ve, texVert);
      var he := HorEnd(c, sc, sinA, cosA);
      var th := CarryTexture(he, texHor);
      var hit := Nearer(ve, he, tv, th, sinA, cosA);
      match Project(c, hit.0, hit.1, hit.2, FishFactor(sc, rayAngle + c.deltaAngle))
      case None => None
      case Some(e) => Some(RayStep(e, tv, th))
  }

  /** The loop's variables after some passes: the entries appended, the
      current ray angle, both texture variables, and whether no pass has
      raised yet. */
  datatype LoopState = LoopState(entries: seq<RayEntry>, rayAngle: real, texVert: int, texHor: int, ok: bool)

  /** The state of `ray_cast` after `k` passes of its loop: both texture
      variables start at 1; a pass that raises stops the loop, leaving the
      entries appended before it. */
  function RunRays(c: Settings, sc: Scene, k: nat): (s: LoopState)
  {
    if k == 0 then LoopState([], FirstRayAngle(c, sc), 1, 1, true)
    else
      var s := RunRays(c, sc, k - 1);
      if !s.ok then s
      else
        match CastRay(c, sc, s.rayAngle, s.texVert, s.texHor)
        case None => s.(ok := false)
        case Some(st) => LoopState(s.entries + [st.entry], s.rayAngle + c.deltaAngle, st.texVert, st.texHor, true)
  }

  /** The whole of `ray_cast` for one frame: the list left after `NUM_RAYS`
      passes, and whether it completed. */
  function CastFrame(c: Settings, sc: Scene): (seq<RayEntry>, bool) {
    var s := RunRays(c, sc, c.numRays);
    (s.entries, s.ok)
  }

  /** The column for ray number `ray`: a slice shorter than the screen is
      drawn whole, centred on `HALF_HEIGHT`; a taller one samples only the
      visible part of the texture and fills the screen height. */
  function ColumnOf(c: Settings, ray: nat, e: RayEntry): Drawable
    requires ValidSettings(c)
  {
    var sliceX := e.offset * (c.textureSize - c.scale);
    if e.projHeight < Height then
      Drawable(e.depth, WallSlice(e.texture, sliceX, 0.0, c.scale, c.textureSize, c.scale, e.projHeight),
               ray as real * c.scale, c.halfHeight - FloatFloorDiv(e.projHeight, 2.0))
    else
      var textureHeight := c.textureSize * Height / e.projHeight;
      Drawable(e.depth, WallSlice(e.texture, sliceX, c.halfTextureSize - FloatFloorDiv(textureHeight, 2.0),
                                  c.scale, textureHeight, c.scale, Height),
               ray as real * c.scale, 0.0)
  }

  /** The body of the ray loop in `ray_cast` for one ray: both marches,
      the texture variables they update, the nearer hit, its offset, and the
      corrected depth and projected height; None where the source raises. */
  method RayBody(c: Settings, sc: Scene, xMap: int, yMap: int, rayAngle: real,
                 texVert: int, texHor: int) returns (step: Option<RayStep>)
    requires xMap == Trunc(sc.ox) && yMap == Trunc(sc.oy)
    ensures step == CastRay(c, sc, rayAngle, texVert, texHor)
  {
    var sinA := sc.sin(rayAngle);
    var cosA := sc.cos(rayAngle);
    if cosA == 0.0 {
      return None;
    }
    var v := VerticalSetup(sc.ox, sc.oy, xMap, sinA, cosA);
    var ve := March(sc.wm, v.x, v.y, v.depth, v.dx, v.dy, v.dd, c.maxDepth);
    var tv := texVert;
    if ve.texture.Some? {
      tv := ve.texture.value;
    }
    if sinA == 0.0 {
      return None;
    }
    var h := HorizontalSetup(sc.ox, sc.oy, yMap, sinA, cosA);
    var he := March(sc.wm, h.x, h.y, h.depth, h.dx, h.dy, h.dd, c.maxDepth);
    var th := texHor;
    if he.texture.Some? {
      th := he.texture.value;
    }
    var nextAngle := rayAngle + c.deltaAngle;
    var depth, texture, offset;
    if ve.depth < he.depth {
      depth, texture := ve.depth, tv;
      offset := VertOffset(ve.y, cosA);
    } else {
      depth, texture := he.depth, th;
      offset := HorOffset(he.x, sinA);
    }
    var entry := Project(c, depth, texture, offset, FishFactor(sc, nextAngle));
    if entry.None? {
      return None;
    }
    step := Some(RayStep(entry.value, tv, th));
  }

  /** The `Raycasting` object's two lists. */
  class Raycasting {
    var rayCastingResult: seq<RayEntry>
    var objectsToRender: seq<Drawable>

    constructor ()
      ensures rayCastingResult == [] && objectsToRender == []
    {
      rayCastingResult := [];
      objectsToRender := [];
    }

    /** `ray_cast`: the list is reset and one entry is appended per ray.
        `ok` is false where the source raises ZeroDivisionError; the list then
        holds the entries appended before the failing ray. */
    method RayCast(c: Settings, sc: Scene) returns (ok: bool)
      requires ValidSettings(c)
      modifies this`rayCastingResult
      ensures (rayCastingResult, ok) == CastFrame(c, sc)
    {
      rayCastingResult := [];
      var texVert, texHor := 1, 1;
      var xMap, yMap := Trunc(sc.ox), Trunc(sc.oy);
      var rayAngle := FirstRayAngle(c, sc);
      for ray := 0 to c.numRays
        invariant RunRays(c, sc, ray) == LoopState(rayCastingResult, rayAngle, texVert, texHor, true)
      {
        var step := RayBody(c, sc, xMap, yMap, rayAngle, texVert, texHor);
        if step.None? {
          RunRaysStopped(c, sc, ray + 1, c.numRays);
          return false;
        }
        texVert, texHor := step.value.texVert, step.value.texHor;
        rayAngle := rayAngle + c.deltaAngle;
        rayCastingResult := rayCastingResult + [step.value.entry];
      }
      ok := true;
    }

    /** `get_objects_to_render`: the list is rebuilt with one column per
        entry of `ray_casting_result`, in ray order. */
    method GetObjectsToRender(c: Settings)
      requires ValidSettings(c)
      modifies this`objectsToRender
      ensures |objectsToRender| == |rayCastingResult|
      ensures forall k :: 0 <= k < |objectsToRender| ==> objectsToRender[k] == ColumnOf(c, k, rayCastingResult[k])
    {
      objectsToRender := [];
      for ray := 0 to |rayCastingResult|
        invariant |objectsToRender| == ray
        invariant forall k :: 0 <= k < ray ==> objectsToRender[k] == ColumnOf(c, k, rayCastingResult[k])
      {
        var values := rayCastingResult[ray];
        objectsToRender := objectsToRender + [ColumnOf(c, ray, values)];
      }
    }

    /** `update`: `ray_cast`, then `get_objects_to_render`. Where `ray_cast`
        raises, the exception leaves `objects_to_render` as it was. */
    method Update(c: Settings, sc: Scene) returns (ok: bool)
      requires ValidSettings(c)
      modifies this`rayCastingResult, this`objectsToRender
      ensures (rayCastingResult, ok) == CastFrame(c, sc)
      ensures ok ==> |objectsToRender| == |rayCastingResult| == c.numRays
      ensures ok ==> forall k :: 0 <= k < |objectsToRender| ==> objectsToRender[k] == ColumnOf(c, k, rayCastingResult[k])
      ensures !ok ==> objectsToRender == old(objectsToRender)
    {
      ok := RayCast(c, sc);
      if ok {
        CastFrameEntries(c, sc);
        GetObjectsToRender(c);
      }
    }
  }

  // ---------------------------------------------------------------------
  // Properties of the ray loop

  /** Once a pass has raised, later passes change nothing. */
  lemma {:induction false} RunRaysStopped(c: Settings, sc: Scene, k: nat, m: nat)
    requires k <= m && !RunRays(c, sc, k).ok
    ensures RunRays(c, sc, m) == RunRays(c, sc, k)
    decreases m - k
  {
    if k < m {
      RunRaysStopped(c, sc, k, m - 1);
    }
  }

  /** After `k` passes: at most `k` entries, exactly `k` while no pass has
      raised, and the entries of earlier passes kept as they were. */
  lemma {:induction false} RunRaysLength(c: Settings, sc: Scene, k: nat)
    ensures var s := RunRays(c, sc, k);
      && |s.entries| <= k
      && (s.ok ==> |s.entries| == k)
      && (k > 0 ==> RunRays(c, sc, k - 1).entries <= s.entries)
  {
    if k > 0 {
      RunRaysLength(c, sc, k - 1);
      var s := RunRays(c, sc, k - 1);
      if s.ok {
        match CastRay(c, sc, s.rayAngle, s.texVert, s.texHor)
        case None =>
        case Some(st) =>
          assert RunRays(c, sc, k).entries == s.entries + [st.entry];
      }
    }
  }

  /** While no pass has raised, the ray angle after `k` passes is the first
      angle plus `k` times `DELTA_ANGLE`. */
  lemma {:induction false} RunRaysAngle(c: Settings, sc: Scene, k: nat)
    ensures var s := RunRays(c, sc, k);
      s.ok ==> s.rayAngle == Along(FirstRayAngle(c, sc), c.deltaAngle, k)
  {
    if k > 0 && RunRays(c, sc, k).ok {
      RunRaysAdvance(c, sc, k);
      RunRaysAngle(c, sc, k - 1);
      AlongNext(FirstRayAngle(c, sc), c.deltaAngle, k - 1);
    }
  }

  /** A pass that does not raise follows passes that did not either, and
      moves the ray angle on by `DELTA_ANGLE`. */
  lemma RunRaysAdvance(c: Settings, sc: Scene, k: nat)
    requires k > 0 && RunRays(c, sc, k).ok
    ensures RunRays(c, sc, k - 1).ok
    ensures RunRays(c, sc, k).rayAngle == RunRays(c, sc, k - 1).rayAngle + c.deltaAngle
  {
    var s := RunRays(c, sc, k - 1);
    match CastRay(c, sc, s.rayAngle, s.texVert, s.texHor)
    case None =>
    case Some(st) =>
  }

  /** The texture variable after a march is its previous value or a texture
      of the map. */
  lemma CarryTextureFrom(c: Settings, sc: Scene, e: MarchEnd, before: int, sinA: real, cosA: real, vertical: bool)
    requires vertical ==> cosA != 0.0 && e == VertEnd(c, sc, sinA, cosA)
    requires !vertical ==> sinA != 0.0 && e == HorEnd(c, sc, sinA, cosA)
    ensures CarryTexture(e, before) == before || CarryTexture(e, before) in sc.wm.Values
  {
    if vertical {
      var v := VerticalSetup(sc.ox, sc.oy, Trunc(sc.ox), sinA, cosA);
      MarchBounded(sc.wm, v.x, v.y, v.depth, v.dx, v.dy, v.dd, c.maxDepth);
    } else {
      var h := HorizontalSetup(sc.ox, sc.oy, Trunc(sc.oy), sinA, cosA);
      MarchBounded(sc.wm, h.x, h.y, h.depth, h.dx, h.dy, h.dd, c.maxDepth);
    }
  }

  /** The entries one ray produces: its offset lies in [0, 1], and its
      texture, like both texture variables it leaves, is one of the two
      previous texture values or a value of the map. */
  lemma CastRayEntry(c: Settings, sc: Scene, rayAngle: real, texVert: int, texHor: int)
    requires CastRay(c, sc, rayAngle, texVert, texHor).Some?
    ensures var st := CastRay(c, sc, rayAngle, texVert, texHor).value;
      && 0.0 <= st.entry.offset <= 1.0
      && (st.entry.texture == st.texVert || st.entry.texture == st.texHor)
      && (st.texVert == texVert || st.texVert in sc.wm.Values)
      && (st.texHor == texHor || st.texHor in sc.wm.Values)
  {
    var sinA, cosA := sc.sin(rayAngle), sc.cos(rayAngle);
    CarryTextureFrom(c, sc, VertEnd(c, sc, sinA, cosA), texVert, sinA, cosA, true);
    CarryTextureFrom(c, sc, HorEnd(c, sc, sinA, cosA), texHor, sinA, cosA, false);
  }

  /** After any number of passes, every entry's texel offset lies in
      [0, 1], and its texture, like both texture variables, is 1 (their
      initial value) or a texture of the map: a march that misses keeps the
      previous ray's texture. */
  lemma {:induction false} RunRaysEntries(c: Settings, sc: Scene, k: nat)
    ensures var s := RunRays(c, sc, k);
      && (s.texVert == 1 || s.texVert in sc.wm.Values)
      && (s.texHor == 1 || s.texHor in sc.wm.Values)
      && forall j :: 0 <= j < |s.entries| ==>
           0.0 <= s.entries[j].offset <= 1.0 && (s.entries[j].texture == 1 || s.entries[j].texture in sc.wm.Values)
  {
    if k > 0 {
      RunRaysEntries(c, sc, k - 1);
      var s := RunRays(c, sc, k - 1);
      if s.ok && CastRay(c, sc, s.rayAngle, s.texVert, s.texHor).Some? {
        CastRayEntry(c, sc, s.rayAngle, s.texVert, s.texHor);
        var st := CastRay(c, sc, s.rayAngle, s.texVert, s.texHor).value;
        var e := s.entries + [st.entry];
        forall j | 0 <= j < |e|
          ensures 0.0 <= e[j].offset <= 1.0 && (e[j].texture == 1 || e[j].texture in sc.wm.Values)
        {
          if j < |s.entries| { assert e[j] == s.entries[j]; }
        }
      }
    }
  }

  /** A frame's entries: at most one per ray (exactly one when the loop
      completes), each with an offset in [0, 1] and a texture that is 1 or a
      texture of the map. */
  lemma CastFrameEntries(c: Settings, sc: Scene)
    ensures var r := CastFrame(c, sc);
      && (r.1 ==> |r.0| == c.numRays) && |r.0| <= c.numRays
      && forall k :: 0 <= k < |r.0| ==>
           0.0 <= r.0[k].offset <= 1.0 && (r.0[k].texture == 1 || r.0[k].texture in sc.wm.Values)
  {
    RunRaysLength(c, sc, c.numRays);
    RunRaysEntries(c, sc, c.numRays);
  }

  /** The chosen hit is the nearer one, and a tie goes to the horizontal
      hit: the depth is the smaller march depth (corrected by the fish-eye
      factor at the advanced angle), with that march's texture and offset. */
  lemma CastRayChoice(c: Settings, sc: Scene, rayAngle: real, texVert: int, texHor: int)
    requires CastRay(c, sc, rayAngle, texVert, texHor).Some?
    ensures var sinA, cosA := sc.sin(rayAngle), sc.cos(rayAngle);
      sinA != 0.0 && cosA != 0.0
      && var ve, he := VertEnd(c, sc, sinA, cosA), HorEnd(c, sc, sinA, cosA);
      var e := CastRay(c, sc, rayAngle, texVert, texHor).value.entry;
      && e.depth == MinReal(he.depth, ve.depth) * FishFactor(sc, rayAngle + c.deltaAngle)
      && (ve.depth < he.depth ==> e.texture == CarryTexture(ve, texVert) && e.offset == VertOffset(ve.y, cosA))
      && (he.depth <= ve.depth ==> e.texture == CarryTexture(he, texHor) && e.offset == HorOffset(he.x, sinA))
  {
  }

  /** A ray from a position with non-negative coordinates raises only when
      its sine or cosine is exactly zero or the fish-eye factor is negative:
      both marches stop at positive depths, so the corrected depth plus
      0.0001 is positive, and so is the projected height. */
  lemma CastRayDefined(c: Settings, sc: Scene, rayAngle: real, texVert: int, texHor: int)
    requires ValidSettings(c)
    requires 0.0 <= sc.ox && 0.0 <= sc.oy
    requires sc.sin(rayAngle) != 0.0 && sc.cos(rayAngle) != 0.0
    requires FishFactor(sc, rayAngle + c.deltaAngle) >= 0.0
    ensures var r := CastRay(c, sc, rayAngle, texVert, texHor);
      r.Some? && r.value.entry.depth >= 0.0 && r.value.entry.projHeight > 0.0
  {
    var sinA, cosA := sc.sin(rayAngle), sc.cos(rayAngle);
    EndsDeep(c, sc, sinA, cosA);
    var ve, he := VertEnd(c, sc, sinA, cosA), HorEnd(c, sc, sinA, cosA);
    var hit := Nearer(ve, he, CarryTexture(ve, texVert), CarryTexture(he, texHor), sinA, cosA);
    ProjectPositive(c, hit.0, hit.1, hit.2, FishFactor(sc, rayAngle + c.deltaAngle));
  }

  /** A non-negative depth and fish-eye factor give an entry with a
      non-negative depth and a positive projected height. */
  lemma ProjectPositive(c: Settings, depth0: real, texture: int, offset: real, fish: real)
    requires ValidSettings(c) && depth0 >= 0.0 && fish >= 0.0
    ensures var r := Project(c, depth0, texture, offset, fish);
      r.Some? && r.value.depth >= 0.0 && r.value.projHeight > 0.0
  {
    assert depth0 * fish >= 0.0;
  }

  // ---------------------------------------------------------------------
  // Properties of the wall columns

  /** Columns sit side by side, `SCALE` apart, in ray order, and keep the
      ray's depth and texture for the depth sort. A slice shorter than the
      screen starts below the top edge when `HALF_HEIGHT` is half of
      `HEIGHT`; a taller one samples a texture band no taller than the
      texture and is drawn from the top at the full screen height. */
  lemma ColumnFacts(c: Settings, ray: nat, e: RayEntry)
    requires ValidSettings(c)
    ensures var col := ColumnOf(c, ray, e);
      && col.posX == ray as real * c.scale
      && ColumnOf(c, ray + 1, e).posX == col.posX + c.scale
      && col.depth == e.depth && col.picture.WallSlice? && col.picture.texture == e.texture
      && (e.projHeight < Height && c.halfHeight * 2.0 == Height ==> col.posY > 0.0)
      && (e.projHeight >= Height ==>
            col.posY == 0.0 && col.picture.drawHeight == Height
            && 0.0 < col.picture.sliceHeight <= c.textureSize)
  {
    var col := ColumnOf(c, ray, e);
    assert (ray + 1) as real * c.scale == ray as real * c.scale + c.scale;
    if e.projHeight >= Height {
      var th := c.textureSize * Height / e.projHeight;
      assert th <= c.textureSize by {
        assert Height / e.projHeight <= 1.0;
        assert th == c.textureSize * (Height / e.projHeight);
      }
    } else if c.halfHeight * 2.0 == Height {
      var q := FloatFloorDiv(e.projHeight, 2.0);
      assert q * 2.0 <= e.projHeight;
    }
  }
}
