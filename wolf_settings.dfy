/** The settings of the ray caster (Wolfenstein_Doom_Raycasting/settings.py):
    the screen size it defines, and the constants its modules read but it
    does not define, which the model takes as a parameter. */
module WolfSettings {

  /** `WIDTH` from settings.py. */
  const Width: real := 1600.0

  /** `HEIGHT` from settings.py. */
  const Height: real := 900.0

  /** `HALF_FOV`, `NUM_RAYS`, `MAX_DEPTH`, `SCREEN_DIST`, `DELTA_ANGLE`,
      `SCALE`, `HALF_HEIGHT`, `TEXTURE_SIZE`, `HALF_TEXTURE_SIZE` and
      `HALF_NUM_RAYS`, none of which settings.py defines. */
  datatype Settings = Settings(halfFov: real, numRays: nat, maxDepth: nat, screenDist: real,
                               deltaAngle: real, scale: real, halfHeight: real,
                               textureSize: real, halfTextureSize: real, halfNumRays: real)

  /** Every one of them is positive. */
  predicate ValidSettings(c: Settings) {
    && c.halfFov > 0.0 && c.numRays > 0 && c.maxDepth > 0 && c.screenDist > 0.0
    && c.deltaAngle > 0.0 && c.scale > 0.0 && c.halfHeight > 0.0
    && c.textureSize > 0.0 && c.halfTextureSize > 0.0 && c.halfNumRays > 0.0
  }
}
