# Verified models of a hobby-scripts repository

This project models, in Dafny, the logic at the heart of a collection of
small Python programs, and proves what that logic promises.

- **Wolfenstein-style ray caster** (`Wolfenstein_Doom_Raycasting/`):
  - the tile grid turned into the `world_map` dictionary;
  - the player's movement, with one wall probe per axis and the heading kept in `[0, tau)`;
  - both ray casters: the bounded first-hit march across vertical and horizontal grid lines, the strict tie-break between the two hits, the texel offset, the fish-eye correction and the wall projection;
  - sprite placement and culling, and the painter's-algorithm depth sort;
  - the sprite animation timer and the shotgun's reload state machine, both of which turn a queue of images.
- **Student-list scanners** (`teacher_utility/`): the two scripts that find `serial / ID part / ID part / name...` records in the lines of a PDF page and de-duplicate them by student ID.
- **Platformer** (`Ninja_Platformers/scripts/`): the axis-by-axis movement and collision of a physics entity, its fall-speed clamp, the player's idle/run/jump choice, and the tile dictionary the tile map's constructor builds.
- **Gesture-dataset helpers** (`Video_Utils/`): the video file names parsed into label rows, and the frames sampled from each video.
- **AIUB news scraper** (`teacher_utility/aiub_cs_scraper/`):
  - the listing-link filter, its de-duplication and the paging;
  - the image-URL filter with its de-duplication and sort;
  - file and folder naming;
  - the date and relevance decision, and the rows a run appends to `metadata.csv`.

Each mutating object of the source is a Dafny `class`, and each loop is a
`method` with invariants. Each method's postconditions give its result and
the whole new state of what it modifies, in terms of its inputs and the old
state, mostly through specification functions. Where the source raises (a
zero `delta_time`, the head of an empty image queue, a `videos` path that
cannot be listed, a zero `fps`), the method reports it and leaves the state
as the source does. The properties are proved as lemmas about the
specification functions.

The following are parameters of the model:
- Python's floating point is modelled as `real`. `math.sin`, `cos`, `atan2`, `hypot`, `pi` and `tau` are inputs.
- The regex engine, SHA-1, `urljoin` and `urlparse` are function parameters.
- Directory listings, PDF page text and web pages are given as sequences.
- Clock readings are `now` parameters.

Python's `int()` on a float is `PyNum.Trunc`, which truncates toward zero.
Python's `%` and `//` on floats are `PyNum.FloatMod` and
`PyNum.FloatFloorDiv`; Python's `//` on integers is `PyNum.FloorDiv`, which
floors.

## Model

| member | source | states |
|---|---|---|
| WolfMap.WorldMapOf | Wolfenstein_Doom_Raycasting/map.py:52-59 | a cell `(i, j)` is a key exactly when row `j`, column `i` of the grid is truthy (the key is column-first), and its value is that grid entry |
| WolfMap.GameMap.constructor | Wolfenstein_Doom_Raycasting/map.py:45-49 | the map holds the shipped grid, and its dictionary, built from empty by `get_map`, is exactly the grid's wall cells |
| WolfMap.GameMap.GetMap | Wolfenstein_Doom_Raycasting/map.py:52-59 | the nested loops add the wall cells of the grid to `world_map` and change no other key |
| WolfMap.FilledBeforeCells | Wolfenstein_Doom_Raycasting/map.py:54-59 | midway through the loops the dictionary holds exactly the wall cells before the current one in row-major order, each with its grid value |
| WolfMap.FilledAll | Wolfenstein_Doom_Raycasting/map.py:54-59 | once every row is done, the filled dictionary is the grid's wall-cell map |
| WolfMap.MiniMapShape | Wolfenstein_Doom_Raycasting/map.py:7-40 | the shipped grid has 32 rows of 16 cells |
| WolfMap.MiniMapValuesTop | Wolfenstein_Doom_Raycasting/map.py:8-23 | every entry of rows 0-15 is a texture id in 0..5 |
| WolfMap.MiniMapValuesBottom | Wolfenstein_Doom_Raycasting/map.py:24-39 | every entry of rows 16-31 is a texture id in 0..5 |
| WolfMap.MiniMapBorder | Wolfenstein_Doom_Raycasting/map.py:8-39 | the first and last column of every row, and every cell of the first and last rows, are walls |
| WolfMap.MiniMapEnclosed | Wolfenstein_Doom_Raycasting/map.py:7-40 | the shipped grid is a 32 by 16 enclosed grid, and its cell at row 5, column 1 is empty |
| WolfMap.EnclosedWorldMap | Wolfenstein_Doom_Raycasting/map.py:54-59 | for any enclosed grid, every key lies inside the grid, every value is 1..5, and every border cell is a key |
| WolfMap.MiniMapWorld | Wolfenstein_Doom_Raycasting/map.py:7-40 | the shipped world has in-bounds keys, values 1..5 and a solid border, and the player's start cell `(1, 5)` is not a key |
| WolfPlayer.Slide | Wolfenstein_Doom_Raycasting/player.py:73-78 | each coordinate either takes its whole step or stays |
| WolfPlayer.SlideDecomposes | Wolfenstein_Doom_Raycasting/player.py:73-78 | a diagonal step equals an x-only step followed by a y-only step from where the x step ended: an x-only step never changes y, a y-only step never changes x |
| WolfPlayer.SlideStaysFree | Wolfenstein_Doom_Raycasting/player.py:73-78 | starting in a free cell, with a probe that reaches at least as far as the step but less than one cell, the player never ends inside a wall |
| WolfPlayer.CheckWallOnGrid | Wolfenstein_Doom_Raycasting/player.py:69-70 | `check_wall` holds exactly when the grid has no wall at that cell |
| WolfPlayer.Player.constructor | Wolfenstein_Doom_Raycasting/player.py:10-13 | the player starts at `PLAYER_POS` with `PLAYER_ANGLE` |
| WolfPlayer.Player.Pos | Wolfenstein_Doom_Raycasting/player.py:93-94 | `pos` is the current `(x, y)` |
| WolfPlayer.Player.MapPos | Wolfenstein_Doom_Raycasting/player.py:98-99 | `map_pos` is `int()` of each coordinate: the containing cell for non-negative coordinates, and rounded toward zero for negative ones |
| WolfPlayer.Player.CheckWallCollision | Wolfenstein_Doom_Raycasting/player.py:73-78 | a zero `delta_time` raises before anything moves (`ok` false, position unchanged); otherwise the new position is the slide of the old one with probe scale `PLAYER_SIZE_SCALE / delta_time` |
| WolfPlayer.Player.Movement | Wolfenstein_Doom_Raycasting/player.py:23-78 | a zero `delta_time` raises in the collision check and nothing changes; otherwise the keys' step is taken first, with the heading the call started with and resolved against the walls, then the heading turns and is reduced into `[0, tau)` |
| WolfPlayer.OppositeKeysCancel | Wolfenstein_Doom_Raycasting/player.py:33-48 | W with S, or A with D, moves as if neither key were held |
| WolfPlayer.SingleKeyStep | Wolfenstein_Doom_Raycasting/player.py:33-48 | with a unit heading, one key moves exactly `speed`; S is the opposite of W, and A is at right angles to W |
| WolfMarch.March | Wolfenstein_Doom_Raycasting/Backup/raycasting.py:66-73 | the `for i in range(MAX_DEPTH)` loop with its early `break` computes the recursive march |
| WolfMarch.MarchBounded | Wolfenstein_Doom_Raycasting/Backup/raycasting.py:66-73 | a march takes at most `MAX_DEPTH` steps; a hit is a key of the map and carries that key's texture, and a march without a hit took all its steps |
| WolfMarch.MarchFirstHit | Wolfenstein_Doom_Raycasting/Backup/raycasting.py:66-73 | no tile the march passed before stopping is a key: the hit is the first |
| WolfMarch.MarchPosition | Wolfenstein_Doom_Raycasting/Backup/raycasting.py:71-73 | the march stops `steps` strides from its start, at the start depth plus `steps` depth increments |
| WolfMarch.SetupsMoveAway | Wolfenstein_Doom_Raycasting/Backup/raycasting.py:57-63 | both marches start on the first grid line past the player's cell, at a positive depth, stepping one cell in the direction given by the sign of `cos_a` (vertical) or `sin_a` (horizontal) |
| WolfMarch.MarchDepthPositive | Wolfenstein_Doom_Raycasting/Backup/raycasting.py:73 | the depth never falls below the positive start depth |
| WolfMarch.EndsDeep | Wolfenstein_Doom_Raycasting/Backup/raycasting.py:57-91 | from a position with non-negative coordinates both marches end at a positive depth |
| WolfQueue.RotateLeftPermutes | Wolfenstein_Doom_Raycasting/sprite_object.py:86 | `rotate(-1)` loses and gains no frame |
| WolfQueue.RotateNSplit | Wolfenstein_Doom_Raycasting/sprite_object.py:86 | after `n` turns the queue is its suffix from `n` followed by its prefix |
| WolfQueue.RotateFull | Wolfenstein_Doom_Raycasting/sprite_object.py:86 | as many turns as frames restore the original order |
| WolfRaycastBackup.VertOffset | Wolfenstein_Doom_Raycasting/Backup/raycasting.py:98-99 | the offset of a vertical-line hit is `y mod 1`, or its complement when `cos_a <= 0`, and lies in [0, 1] |
| WolfRaycastBackup.HorOffset | Wolfenstein_Doom_Raycasting/Backup/raycasting.py:102-103 | the offset of a horizontal-line hit is the complement of `x mod 1` when `sin_a > 0`, otherwise `x mod 1`, and lies in [0, 1] |
| WolfRaycastBackup.RayBody | Wolfenstein_Doom_Raycasting/Backup/raycasting.py:51-112 | one pass of the ray loop computes the ray's specified step, or reports the division by zero where the source raises |
| WolfRaycastBackup.Raycasting.constructor | Wolfenstein_Doom_Raycasting/Backup/raycasting.py:10-13 | both lists start empty |
| WolfRaycastBackup.Raycasting.RayCast | Wolfenstein_Doom_Raycasting/Backup/raycasting.py:40-112 | the result list is reset and then receives one entry per ray, in ray order; after a raising ray it holds the entries of the rays before it |
| WolfRaycastBackup.Raycasting.GetObjectsToRender | Wolfenstein_Doom_Raycasting/Backup/raycasting.py:17-37 | the render list is rebuilt with one column per result entry, in ray order |
| WolfRaycastBackup.Raycasting.Update | Wolfenstein_Doom_Raycasting/Backup/raycasting.py:122-126 | a completed frame leaves `NUM_RAYS` entries and as many columns; a raising frame leaves the render list as it was |
| WolfRaycastBackup.RunRaysStopped | Wolfenstein_Doom_Raycasting/Backup/raycasting.py:49-112 | once a ray has raised, later passes change nothing |
| WolfRaycastBackup.RunRaysLength | Wolfenstein_Doom_Raycasting/Backup/raycasting.py:41-112 | after `k` passes there are at most `k` entries, exactly `k` while none has raised, and earlier entries are kept |
| WolfRaycastBackup.RunRaysAngle | Wolfenstein_Doom_Raycasting/Backup/raycasting.py:47-93 | while no pass has raised, the ray angle after `k` passes is the first angle plus `k` times `DELTA_ANGLE` |
| WolfRaycastBackup.RunRaysAdvance | Wolfenstein_Doom_Raycasting/Backup/raycasting.py:93 | a pass that does not raise follows passes that did not, and moves the angle on by `DELTA_ANGLE` |
| WolfRaycastBackup.CarryTextureFrom | Wolfenstein_Doom_Raycasting/Backup/raycasting.py:68-69 | after a march the texture variable is its previous value or a texture of the map |
| WolfRaycastBackup.CastRayEntry | Wolfenstein_Doom_Raycasting/Backup/raycasting.py:66-112 | one ray's offset is in [0, 1], its texture is one of the two texture variables, and each variable is its old value or a map texture |
| WolfRaycastBackup.RunRaysEntries | Wolfenstein_Doom_Raycasting/Backup/raycasting.py:42-112 | since the textures are initialised once, every entry's texture is 1 or a map texture: a miss keeps the previous ray's texture |
| WolfRaycastBackup.CastFrameEntries | Wolfenstein_Doom_Raycasting/Backup/raycasting.py:40-112 | a frame has at most `NUM_RAYS` entries (exactly that many when it completes), each with an offset in [0, 1] and a texture that is 1 or a map texture |
| WolfRaycastBackup.CastRayChoice | Wolfenstein_Doom_Raycasting/Backup/raycasting.py:93-106 | the depth is the smaller march depth times `cos(angle - ray_angle)` at the advanced angle; the vertical hit is taken only when strictly nearer, so a tie goes to the horizontal hit |
| WolfRaycastBackup.CastRayDefined | Wolfenstein_Doom_Raycasting/Backup/raycasting.py:59-109 | from non-negative coordinates a ray raises only on a zero sine or cosine or a negative fish-eye factor; otherwise its depth is non-negative and its projected height positive |
| WolfRaycastBackup.ProjectPositive | Wolfenstein_Doom_Raycasting/Backup/raycasting.py:106-109 | a non-negative depth and fish-eye factor give a positive `SCREEN_DIST / (depth + 0.0001)` |
| WolfRaycastBackup.ColumnFacts | Wolfenstein_Doom_Raycasting/Backup/raycasting.py:19-37 | columns are `SCALE` apart in ray order and keep the depth and texture; a short slice starts below the top when `HALF_HEIGHT` is half the screen height, and a tall one is drawn from y = 0 at full height, sampling a band no taller than the texture |
| WolfRaycast.DepthBody | Wolfenstein_Doom_Raycasting/raycasting.py:23-71 | one pass computes the ray's specified depth, or reports the division by zero |
| WolfRaycast.RayCast | Wolfenstein_Doom_Raycasting/raycasting.py:14-71 | returns the depth of each ray in turn, up to the first ray that raises, and changes no state |
| WolfRaycast.RunDepthsStopped | Wolfenstein_Doom_Raycasting/raycasting.py:21-71 | once a ray has raised, later passes change nothing |
| WolfRaycast.RunDepthsRays | Wolfenstein_Doom_Raycasting/raycasting.py:19-65 | after `k` passes there are `k` depths; the `j`-th belongs to the angle `player.angle - HALF_FOV + 0.0001 + j*DELTA_ANGLE` |
| WolfRaycast.RayDepthChoice | Wolfenstein_Doom_Raycasting/raycasting.py:68-71 | the depth is the vertical one only when strictly smaller, otherwise the horizontal one |
| WolfRaycast.RayDepthDefined | Wolfenstein_Doom_Raycasting/raycasting.py:29-54 | a ray raises exactly when its sine or cosine is zero; from non-negative coordinates its depth is positive |
| WolfRaycast.AgreesWithTextured | Wolfenstein_Doom_Raycasting/raycasting.py:38-71 | where the textured caster yields an entry, its depth is this caster's depth times the fish-eye factor |
| WolfSprites.SpriteObject.constructor | Wolfenstein_Doom_Raycasting/sprite_object.py:11-23 | the sprite stores its position, half image width, width-to-height ratio, scale and shift; `dist` and `norm_dist` start at 1, the other placement fields at 0 |
| WolfSprites.SpriteObject.GetSpriteProjection | Wolfenstein_Doom_Raycasting/sprite_object.py:26-36 | exactly one entry, keyed by `norm_dist`, is appended to the shared list, and `sprite_half_width` is its width halved and floored |
| WolfSprites.SpriteObject.GetSprite | Wolfenstein_Doom_Raycasting/sprite_object.py:39-59 | stores the offset, `atan2` angle, screen x, distance and corrected distance; appends the projection exactly when the sprite passes the culling test, and leaves the list unchanged otherwise |
| WolfSprites.ScreenXFacts | Wolfenstein_Doom_Raycasting/sprite_object.py:51-52 | `screen_x` is affine in the angle: a sprite dead ahead is at the centre column, the angle can be read back, and a larger angle lies further right |
| WolfSprites.ProjectionFacts | Wolfenstein_Doom_Raycasting/sprite_object.py:27-36 | the picture is keyed by `norm_dist`, is `IMAGE_RATIO` times as wide as tall, and its height is inversely proportional to `norm_dist` (a nearer sprite is taller); it is centred on `screen_x` to within a pixel |
| WolfSprites.DeltaInFront | Wolfenstein_Doom_Raycasting/sprite_object.py:47-49 | with the corrected wrap rule, a sprite anywhere in the half-plane ahead gets exactly its angle off the view direction |
| WolfSprites.DeltaAsWrittenMissesAxis | Wolfenstein_Doom_Raycasting/sprite_object.py:48 | the rule as written puts a sprite straight above a player facing it a full turn off (`-tau` instead of 0) |
| WolfSprites.DeltaAgreesOffAxis | Wolfenstein_Doom_Raycasting/sprite_object.py:47-49 | off the vertical axis the corrected rule and the written one agree |
| WolfSprites.AnimatedSprite.constructor | Wolfenstein_Doom_Raycasting/sprite_object.py:68-75 | the timer starts at the clock reading, untriggered, with the given queue |
| WolfSprites.AnimatedSprite.CheckAnimationTime | Wolfenstein_Doom_Raycasting/sprite_object.py:90-95 | the trigger fires exactly when `now - prev > animation_time`, and only a firing moves `prev` to `now` |
| WolfSprites.AnimatedSprite.Animate | Wolfenstein_Doom_Raycasting/sprite_object.py:84-87 | only on a trigger does the queue turn once and show its new head; a triggered turn of an empty queue raises (`ok` false) and leaves the image shown |
| WolfSprites.AnimatedSprite.Update | Wolfenstein_Doom_Raycasting/sprite_object.py:78-95 | the sprite is placed as by `get_sprite` with the image shown before the update, its projection appended exactly when visible; then the trigger and `animation_time_prev` follow the timer test at `now`, and the queue turns and its head is shown exactly when it fires (raising on an empty queue) |
| WolfSprites.FiringRate | Wolfenstein_Doom_Raycasting/sprite_object.py:90-95 | over any clock readings up to `hi`, repeated timer checks fire at most `(hi - prev) / (animation_time + 1)` times after the last firing `prev` |
| WolfSprites.AnimationCycle | Wolfenstein_Doom_Raycasting/sprite_object.py:84-87 | after `len(images)` firings the queue is back in order, and after `n` firings frame `n` is on show |
| WolfRenderer.InsertDesc | Wolfenstein_Doom_Raycasting/object_renderer.py:31 | an insertion step of the sort adds exactly the one entry |
| WolfRenderer.ObjectRenderer.constructor | Wolfenstein_Doom_Raycasting/object_renderer.py:8-13 | the sky offset starts at 0 |
| WolfRenderer.ObjectRenderer.DrawBackground | Wolfenstein_Doom_Raycasting/object_renderer.py:22-25 | `sky_offset` wraps into `[0, WIDTH)`, and the two sky copies are exactly `WIDTH` apart and together cover the screen |
| WolfRenderer.ObjectRenderer.RenderGameObjects | Wolfenstein_Doom_Raycasting/object_renderer.py:30-33 | the draw order is the stable farthest-first sort of the shared list, which is only read |
| WolfRenderer.SortPermutation | Wolfenstein_Doom_Raycasting/object_renderer.py:31 | the draw order is a permutation of the list |
| WolfRenderer.SortNonIncreasing | Wolfenstein_Doom_Raycasting/object_renderer.py:31 | the draw order is farthest first |
| WolfRenderer.SortStable | Wolfenstein_Doom_Raycasting/object_renderer.py:31 | entries of equal depth keep their relative order |
| WolfRenderer.SortKeepsSorted | Wolfenstein_Doom_Raycasting/object_renderer.py:31 | a list already farthest first is drawn as it stands |
| WolfWeapon.TriggeredSteps | Wolfenstein_Doom_Raycasting/Backup/weapon.py:22-31 | triggered reload steps keep the number of frames |
| WolfWeapon.Weapon.constructor | Wolfenstein_Doom_Raycasting/Backup/weapon.py:7-19 | the weapon starts idle, with the counter at 0 and `num_images` equal to the queue's length |
| WolfWeapon.Weapon.AnimateShot | Wolfenstein_Doom_Raycasting/Backup/weapon.py:22-31 | the new state is the reload step of the old one, and the queue length and counter bounds are kept |
| WolfWeapon.Weapon.Update | Wolfenstein_Doom_Raycasting/Backup/weapon.py:36-38 | the timer is checked first (trigger and `animation_time_prev` as in `check_animation_time`), and the reload step uses the trigger just set |
| WolfWeapon.IdleUnchanged | Wolfenstein_Doom_Raycasting/Backup/weapon.py:23 | when not reloading, `animate_shot` changes nothing |
| WolfWeapon.ReloadingClearsShot | Wolfenstein_Doom_Raycasting/Backup/weapon.py:23-25 | while reloading every update clears `player.shot`; without a trigger nothing else changes |
| WolfWeapon.CounterBounded | Wolfenstein_Doom_Raycasting/Backup/weapon.py:28-31 | `0 <= frame_counter < num_images` is kept, with the counter at 0 whenever idle |
| WolfWeapon.ReloadSteps | Wolfenstein_Doom_Raycasting/Backup/weapon.py:25-28 | after `k < num_images` triggered steps the counter is `k`, the queue has turned `k` times, and its head is on show |
| WolfWeapon.ReloadShowsFrame | Wolfenstein_Doom_Raycasting/Backup/weapon.py:26-27 | after `k` triggered steps, frame `k` of the original queue is on show |
| WolfWeapon.ReloadCycle | Wolfenstein_Doom_Raycasting/Backup/weapon.py:26-31 | the `num_images`-th trigger ends the reload, with the counter at 0 and the queue back in its original order |
| StudentPdf.CgpaAtMostFour | teacher_utility/Student_list_PDF_to_XLSX/student_list_to_xlsx.py:21-22 | every string `looks_like_cgpa` accepts is a grade from 0.00 to 4.00 |
| StudentPdf.CgpaAcceptsEveryGrade | teacher_utility/Student_list_PDF_to_XLSX/student_list_to_xlsx.py:21-22 | every grade from 0.00 to 4.00 written as `d.dd` is accepted and reads back as itself |
| StudentPdf.NormalizeSpacesShape | teacher_utility/Student_list_PDF_to_XLSX/student_list_to_xlsx.py:38-40 | the result has no whitespace at either end and no two whitespace characters in a row, and normalising it again changes nothing |
| StudentPdf.RemoveSpaces | teacher_utility/Student_list_PDF_to_XLSX/student_list_to_xlsx.py:48 | `replace(" ", "")` leaves no space, never lengthens the string, and keeps a string without spaces as it is |
| StudentPdf.ReconstructStudentId | teacher_utility/Student_list_PDF_to_XLSX/student_list_to_xlsx.py:43-52 | the ID is always the stripped parts joined with all spaces removed; the pattern check never changes it |
| StudentPdf.Stops | teacher_utility/Student_list_PDF_to_XLSX/student_list_to_xlsx.py:86-97 | there is one stop flag per line |
| StudentPdf.StopsUpTo | teacher_utility/Student_list_PDF_to_XLSX/student_list_to_xlsx.py:86-97 | there is one stop flag per line of the prefix |
| StudentPdf.StopsUpToIndex | teacher_utility/Student_list_PDF_to_XLSX/student_list_to_xlsx.py:86-97 | line `j`'s flag is its stop test (a CGPA, an `@`, the next header, or a section heading) |
| StudentPdf.StopsAt | teacher_utility/Student_list_PDF_to_XLSX/student_list_to_xlsx.py:83-97 | the four source tests, made in order, give line `j`'s stop flag |
| StudentPdf.NameBlock | teacher_utility/Student_list_PDF_to_XLSX/student_list_to_xlsx.py:82-105 | the name loop stops between its start and 11 lines past the record's name start |
| StudentPdf.CollectName | teacher_utility/Student_list_PDF_to_XLSX/student_list_to_xlsx.py:79-105 | the loop ends where the specified name block ends, with its name lines |
| StudentPdf.NameBlockAdvance | teacher_utility/Student_list_PDF_to_XLSX/student_list_to_xlsx.py:99-101 | a line that is not a stop line adds its stripped text, when non-blank, and the loop goes on |
| StudentPdf.NameBlockFacts | teacher_utility/Student_list_PDF_to_XLSX/student_list_to_xlsx.py:82-105 | no passed line is flagged; the loop stops at a flagged line, at the page end, or 11 lines past the start; and it gathers at most one name line per line passed |
| StudentPdf.RecordBlockFacts | teacher_utility/Student_list_PDF_to_XLSX/student_list_to_xlsx.py:80-105 | a record's name block starts 3 lines after its header, stops at a stop line, the page end or 11 lines later, and has at most 11 name lines |
| StudentPdf.ScanLines | teacher_utility/Student_list_PDF_to_XLSX/student_list_to_xlsx.py:65-116 | the while loop over one page appends exactly the records the recursive scan finds |
| StudentPdf.ScanPageStep | teacher_utility/Student_list_PDF_to_XLSX/student_list_to_xlsx.py:107-114 | a record is kept only when its ID and name are non-empty, and the scan resumes where its name stopped |
| StudentPdf.ScanPageRecords | teacher_utility/Student_list_PDF_to_XLSX/student_list_to_xlsx.py:66-116 | every kept record has a non-empty ID without spaces and a non-empty, normalised name, and comes from a header line (digits-only, next line ending in `-`) at or after the scan's start |
| StudentPdf.CleanLinesShape | teacher_utility/Student_list_PDF_to_XLSX/student_list_to_xlsx.py:63 | the cleaned lines are non-blank and already stripped, and there are no more of them than raw lines |
| StudentPdf.ExtractStudentsFromPdf | teacher_utility/Student_list_PDF_to_XLSX/student_list_to_xlsx.py:55-126 | the result is the keep-first de-duplication by ID of all pages' records, in page order |
| StudentPdf.ExtractedUnique | teacher_utility/Student_list_PDF_to_XLSX/student_list_to_xlsx.py:118-126 | the final IDs are distinct, each ID's first row is kept as it was, the input order is kept, and every input ID is present |
| StudentRecord.UniqueStudents | teacher_utility/Student_list_PDF_to_XLSX/student_list_to_xlsx.py:118-126 | the `seen`-set loop keeps the first row of each ID, in order, with distinct IDs and every ID present |
| Dedup.DedupByKey | teacher_utility/student_list_to_xlsx.py:45-50 | the `seen`-set loop computes the keep-first de-duplication |
| Dedup.KeepFirstDistinct | teacher_utility/student_list_to_xlsx.py:45-50 | de-duplicated keys are distinct |
| Dedup.KeepFirstKeys | teacher_utility/student_list_to_xlsx.py:45-50 | every key of the input survives |
| Dedup.KeepFirstIsFirstOccurrences | teacher_utility/student_list_to_xlsx.py:45-50 | the result is the input's first occurrences, in input order |
| Dedup.KeepFirstFromInput | teacher_utility/student_list_to_xlsx.py:45-50 | every kept row comes from the input |
| StudentLegacy.NameLoop | teacher_utility/student_list_to_xlsx.py:27-35 | the name loop never moves backwards |
| StudentLegacy.AccumulateName | teacher_utility/student_list_to_xlsx.py:27-35 | the loop ends where the specified name loop ends, with its name |
| StudentLegacy.NameLoopStops | teacher_utility/student_list_to_xlsx.py:29 | the loop stops at the page end or at the first line whose stripped text is `0.00`, and passes none |
| StudentLegacy.NameLoopOnto | teacher_utility/student_list_to_xlsx.py:31-34 | onto a non-empty name, each stripped line is appended after a single space |
| StudentLegacy.NameIsJoinedBlock | teacher_utility/student_list_to_xlsx.py:27-35 | the name is the block's stripped lines joined by single spaces, once leading blank lines are dropped |
| StudentLegacy.DropBlank | teacher_utility/student_list_to_xlsx.py:31-34 | dropping leading blanks leaves a suffix that starts with a non-blank line, or nothing |
| StudentLegacy.NameNonEmpty | teacher_utility/student_list_to_xlsx.py:27-35 | a name is non-empty exactly when some line of its block is not blank |
| StudentLegacy.DropBlankNonEmpty | teacher_utility/student_list_to_xlsx.py:31-34 | something is left after dropping blanks exactly when some line is not blank |
| StudentLegacy.LegacyIdNonEmpty | teacher_utility/student_list_to_xlsx.py:19-23 | the ID starts with the stripped first part, which ends in `-`, so the ID is never empty (spaces are not removed) |
| StudentLegacy.ScanRawLines | teacher_utility/student_list_to_xlsx.py:14-42 | the while loop over one page appends exactly the records the recursive scan finds |
| StudentLegacy.ScanRawStep | teacher_utility/student_list_to_xlsx.py:38-40 | a record is kept only when ID and name are non-empty, and the scan resumes at the name loop's stop line |
| StudentLegacy.RecordAdvances | teacher_utility/student_list_to_xlsx.py:28-40 | after a record the scan resumes at least 3 lines later |
| StudentLegacy.ScanRawRecords | teacher_utility/student_list_to_xlsx.py:15-42 | every row has a non-empty ID and name, and comes from a header line (digits-only, next line ending in `-`) at or after the scan's start |
| StudentLegacy.ExtractLegacy | teacher_utility/student_list_to_xlsx.py:11-50 | the result is the keep-first de-duplication by ID of all pages' records |
| NinjaEntities.Place | Ninja_Platformers/scripts/entities.py:58-67 | snapping an edge moves the box along one axis only and keeps its size |
| NinjaEntities.Resolve | Ninja_Platformers/scripts/entities.py:53-67 | the loop over the tile rectangles computes the specified sweep |
| NinjaEntities.Move | Ninja_Platformers/scripts/entities.py:40-98 | the movement part of `update` computes the specified physics: flags reset, x swept, then y, then the clamped fall speed |
| NinjaEntities.SweptFlags | Ninja_Platformers/scripts/entities.py:57-84 | a flag is raised only by a move in its own direction |
| NinjaEntities.SweptNeverAdvances | Ninja_Platformers/scripts/entities.py:53-86 | resolving overlaps never carries the box further in the direction of motion, and keeps its size and its other coordinate |
| NinjaEntities.SweptClear | Ninja_Platformers/scripts/entities.py:53-54 | with nothing overlapping, the loop changes nothing |
| NinjaEntities.StepSeparates | Ninja_Platformers/scripts/entities.py:57-67 | a snap leaves the box flush with the tile's edge and no longer overlapping it |
| NinjaEntities.PhysicsFlags | Ninja_Platformers/scripts/entities.py:40-86 | each collision flag means the frame moved that way |
| NinjaEntities.PhysicsFallSpeed | Ninja_Platformers/scripts/entities.py:95-98 | the fall speed never exceeds 5, is zero after a vertical collision, and otherwise is the old speed plus 0.1 or the cap; a non-negative speed stays non-negative |
| NinjaEntities.PhysicsFreeFlight | Ninja_Platformers/scripts/entities.py:47-86 | a frame with no overlap moves the entity by its full frame movement and raises no flag |
| NinjaEntities.PhysicsAxesInTurn | Ninja_Platformers/scripts/entities.py:69-72 | the y sweep starts from the x the x sweep settled on |
| NinjaEntities.PhysicsEntity.constructor | Ninja_Platformers/scripts/entities.py:8-24 | the entity starts at rest, with no collisions, facing right, playing `idle` |
| NinjaEntities.PhysicsEntity.SetAction | Ninja_Platformers/scripts/entities.py:31-35 | a new action loads a fresh copy of its animation; the same action leaves the animation alone |
| NinjaEntities.PhysicsEntity.Update | Ninja_Platformers/scripts/entities.py:38-100 | the position, fall speed and flags follow the physics; `flip` follows the sign of `movement[0]` and is unchanged at 0; the frame counter takes one animation step |
| NinjaEntities.PlayerAction | Ninja_Platformers/scripts/entities.py:122-127 | the action is jump exactly when `air_time > 4`, otherwise run exactly when moving sideways, otherwise idle |
| NinjaEntities.Player.constructor | Ninja_Platformers/scripts/entities.py:112-114 | a `player` entity with `air_time` 0 |
| NinjaEntities.Player.Update | Ninja_Platformers/scripts/entities.py:116-127 | the entity moves as in its own update (position, vertical speed, collisions, `vx` kept, facing set by the sign of the horizontal move); then `air_time` counts up and is reset by a down collision, and the action follows it |
| NinjaTilemap.Tilemap.constructor | Ninja_Platformers/scripts/tilemap.py:2-10 | the dictionary is the ten rounds of writes, with `offgrid_tiles` empty and `tile_size` as given |
| NinjaTilemap.KeyInjective | Ninja_Platformers/scripts/tilemap.py:9-10 | two `"x;y"` keys are equal only for the same position |
| NinjaTilemap.LayoutKeys | Ninja_Platformers/scripts/tilemap.py:8-10 | the keys are exactly the positions written so far |
| NinjaTilemap.LayoutKeyStep | Ninja_Platformers/scripts/tilemap.py:9-10 | one round adds exactly the two positions it writes |
| NinjaTilemap.LayoutEntries | Ninja_Platformers/scripts/tilemap.py:8-10 | every entry sits under its own position's key with variant 1, and the shared cell holds the tile written last |
| NinjaTilemap.LayoutEntryStep | Ninja_Platformers/scripts/tilemap.py:9-10 | one round keeps every entry well placed |
| NinjaTilemap.LayoutSize | Ninja_Platformers/scripts/tilemap.py:8-10 | each round adds two keys, except that the grass write of round 7 overwrites the stone key `"10;10"` |
| NinjaTilemap.TilemapContents | Ninja_Platformers/scripts/tilemap.py:2-10 | after construction: 19 tiles, `"10;10"` is grass, grass at y = 10 for x in 3..12, stone at x = 10 for y in 5..14 except 10, all variant 1 |
| VideoLabels.Cells | Video_Utils/generate_labels_csv.py:46-54 | a row has one cell per header column, with the file name, gesture and modality in their header positions |
| VideoLabels.CsvLines | Video_Utils/generate_labels_csv.py:58-69 | the file is the header line, then one seven-cell line per row |
| VideoLabels.Dirs | Video_Utils/generate_labels_csv.py:7-10 | the gestures are exactly the directory entries |
| VideoLabels.AddFileRows | Video_Utils/generate_labels_csv.py:22-54 | the loop over one `videos` listing appends its accepted files' rows, in order |
| VideoLabels.AddGestureRows | Video_Utils/generate_labels_csv.py:15-54 | the loop over a gesture's modalities appends their rows; one without a `videos` directory adds none |
| VideoLabels.GenerateLabels | Video_Utils/generate_labels_csv.py:4-54 | the rows collected are the specified rows of every gesture directory |
| VideoLabels.RowForFields | Video_Utils/generate_labels_csv.py:22-54 | an accepted file is an `.mp4` whose stem is `<gesture>_` and at least five `_` parts; the participant is the first part less its leading `p`s; the modality comes from the folder and `frames_path` is `gesture/modality/frames/<stem>` |
| VideoLabels.StemParts | Video_Utils/generate_labels_csv.py:26-34 | a stem starting with `<gesture>_` is that prefix joined to its parts |
| VideoLabels.RowForAccepts | Video_Utils/generate_labels_csv.py:22-54 | conversely, every such name with five or more parts free of `_` gives exactly its row |
| VideoLabels.Mp4Suffix | Video_Utils/generate_labels_csv.py:23 | a name ending in `.mp4` passes the extension test |
| VideoLabels.FileRowsMembers | Video_Utils/generate_labels_csv.py:22-54 | a listing's rows are exactly its accepted files' rows |
| VideoLabels.ModalityRowsMembers | Video_Utils/generate_labels_csv.py:15-20 | a gesture's rows come exactly from its modalities with a `videos` directory |
| VideoLabels.GestureRowsMembers | Video_Utils/generate_labels_csv.py:12-15 | the dataset's rows come exactly from its gesture folders |
| VideoLabels.RowsOrigin | Video_Utils/generate_labels_csv.py:7-54 | the table holds exactly the rows of accepted files in some modality's `videos` directory of some gesture directory |
| VideoLabels.RowsFromFile | Video_Utils/generate_labels_csv.py:7-54 | each row comes from a listed, accepted file |
| VideoLabels.FileGivesRow | Video_Utils/generate_labels_csv.py:7-54 | each listed, accepted file gives its row |
| VideoFrames.Interval | Video_Utils/extract_frames.py:25 | `max(1, frame_rate // fps)` is at least 1, and is the floored quotient when that is at least 1 |
| VideoFrames.SampleFrames | Video_Utils/extract_frames.py:29-39 | the read loop saves `ceil(n / interval)` frames, the specified ones |
| VideoFrames.CountStep | Video_Utils/extract_frames.py:35-39 | frame `count` raises the saved count exactly when `count % interval == 0` |
| VideoFrames.SampledExactly | Video_Utils/extract_frames.py:29-39 | the saved frames are exactly the frames below `n` that are multiples of the interval, in increasing order, the `k`-th named `frame_<k>.png` |
| VideoFrames.SampledBelow | Video_Utils/extract_frames.py:35-38 | every saved frame is below `n`, a multiple of the interval, and numbered consecutively |
| VideoFrames.SampledIncreasing | Video_Utils/extract_frames.py:31-39 | the saved frames come in increasing order |
| VideoFrames.SampledComplete | Video_Utils/extract_frames.py:35 | every multiple of the interval below `n` is saved |
| VideoFrames.Below | Video_Utils/extract_frames.py:29-39 | a saved index's frame is below `n` |
| VideoFrames.Above | Video_Utils/extract_frames.py:29-39 | a multiple below `n` has a saved index |
| VideoFrames.FrameNamesDistinct | Video_Utils/extract_frames.py:36 | `frame_{saved:03d}.png` names differ for different numbers |
| VideoFrames.ExtractVideos | Video_Utils/extract_frames.py:14-39 | the loop over a `videos` listing computes the specified run |
| VideoFrames.ExtractFrames | Video_Utils/extract_frames.py:4-40 | the whole run computes the specified run over the dataset folder, stopping where a `videos` path exists but cannot be listed |
| VideoFrames.CrashStops | Video_Utils/extract_frames.py:24-25 | once `fps == 0` has raised, the rest of the listing changes nothing |
| VideoFrames.CrashedVideos | Video_Utils/extract_frames.py:24-25 | a stopped run passes through a listing unchanged |
| VideoFrames.GestureCrashStops | Video_Utils/extract_frames.py:7-25 | a stopped run passes through the remaining gestures unchanged |
| VideoFrames.VideosDone | Video_Utils/extract_frames.py:14-21 | with `fps != 0` a listing extracts exactly its `.mp4` files (case-sensitive) |
| VideoFrames.GesturesDone | Video_Utils/extract_frames.py:5-21 | with `fps != 0` the run stops exactly when some gesture directory's `videos` path is not a folder; otherwise it extracts exactly the `.mp4` files of the gesture directories' `videos` folders |
| VideoFrames.VideosZeroFps | Video_Utils/extract_frames.py:15-25 | with `fps == 0` nothing is extracted, and a listing stops the run exactly when it holds an `.mp4` |
| VideoFrames.GesturesZeroFps | Video_Utils/extract_frames.py:5-25 | with `fps == 0` the run extracts nothing, and fails exactly when some gesture's `videos` path is not a folder or holds an `.mp4` |
| AiubNames.Prefix | teacher_utility/aiub_cs_scraper/aiub_cs_scraper.py:107 | `s[:n]` is a prefix of length `min(n, len(s))` |
| AiubNames.Sanitize | teacher_utility/aiub_cs_scraper/aiub_cs_scraper.py:110 | `re.sub` keeps only allowed characters and `_`, and never lengthens the string |
| AiubNames.SanitizeClean | teacher_utility/aiub_cs_scraper/aiub_cs_scraper.py:110 | a string of allowed characters is left as it is |
| AiubNames.SanitizeRun | teacher_utility/aiub_cs_scraper/aiub_cs_scraper.py:110 | a maximal run of disallowed characters becomes a single `_` |
| AiubNames.SanitizeIdempotent | teacher_utility/aiub_cs_scraper/aiub_cs_scraper.py:110 | sanitising twice changes nothing more |
| AiubNames.UniqueNameShape | teacher_utility/aiub_cs_scraper/aiub_cs_scraper.py:105-111 | the name is 12 hash digits, `_`, and a non-empty name of `[A-Za-z0-9._-]` with no `/`; an empty base name gives `image` |
| AiubNames.SafeTitleShape | teacher_utility/aiub_cs_scraper/aiub_cs_scraper.py:120 | the title part has 1 to 80 allowed characters and does not start with `_` or a space (nor end with one when the stripped title fits) |
| AiubNames.StrippedTitle | teacher_utility/aiub_cs_scraper/aiub_cs_scraper.py:120 | the stripped sanitised title has only allowed characters and no `_` or space at either end |
| AiubNames.IsoDateShape | teacher_utility/aiub_cs_scraper/aiub_cs_scraper.py:119 | a four-digit-year date prints as the ten characters `YYYY-MM-DD` |
| AiubScraper.AnyMatch | teacher_utility/aiub_cs_scraper/aiub_cs_scraper.py:83-90 | false for empty text, otherwise true exactly when some pattern matches |
| AiubScraper.KeepHrefSimplified | teacher_utility/aiub_cs_scraper/aiub_cs_scraper.py:225-227 | a kept href is `/` and at least two characters without `/`, containing neither `/notice` nor `/newsletter`; the other skip parts can never match |
| AiubScraper.PageLinksMembers | teacher_utility/aiub_cs_scraper/aiub_cs_scraper.py:222-228 | a page's links are exactly the joined stripped hrefs that pass the filter |
| AiubScraper.ScanLinks | teacher_utility/aiub_cs_scraper/aiub_cs_scraper.py:222-228 | the anchor loop computes the page's filtered links, in order |
| AiubScraper.IterListingPages | teacher_utility/aiub_cs_scraper/aiub_cs_scraper.py:211-242 | the generator yields each page's unique links in page order, up to the first page without any |
| AiubScraper.YieldedPages | teacher_utility/aiub_cs_scraper/aiub_cs_scraper.py:230-240 | each yielded list is its page's links de-duplicated: non-empty, distinct, in first-occurrence order |
| AiubScraper.UniqueEmpty | teacher_utility/aiub_cs_scraper/aiub_cs_scraper.py:230-238 | de-duplication leaves a page empty exactly when it had no link |
| AiubScraper.PagingStops | teacher_utility/aiub_cs_scraper/aiub_cs_scraper.py:237-238 | every page before the stop has a unique link, and the page after the last yielded one has none or does not exist |
| AiubScraper.FirstSource | teacher_utility/aiub_cs_scraper/aiub_cs_scraper.py:196 | the `or` chain gives a non-empty source exactly when one of the three attributes is non-empty |
| AiubScraper.NormalizeUrl | teacher_utility/aiub_cs_scraper/aiub_cs_scraper.py:99-102 | a URL is produced exactly for a present, non-empty source |
| AiubScraper.ImageUrlKept | teacher_utility/aiub_cs_scraper/aiub_cs_scraper.py:196-199 | an `<img>` contributes its normalised URL exactly when it is non-empty and ends, in lower case, with one of the five extensions |
| AiubScraper.ImageExtIgnoresCase | teacher_utility/aiub_cs_scraper/aiub_cs_scraper.py:198 | the extension test gives the same answer for a URL and its lower-case form |
| AiubScraper.ImageSetMembers | teacher_utility/aiub_cs_scraper/aiub_cs_scraper.py:194-199 | the set holds exactly the URLs some `<img>` contributes |
| AiubScraper.SortedOf | teacher_utility/aiub_cs_scraper/aiub_cs_scraper.py:207 | `sorted(set)` holds the set's elements once each, in strictly increasing string order |
| AiubScraper.LexIrreflexive | teacher_utility/aiub_cs_scraper/aiub_cs_scraper.py:207 | Python's `<` on strings never holds between a string and itself |
| AiubScraper.LexTransitive | teacher_utility/aiub_cs_scraper/aiub_cs_scraper.py:207 | Python's `<` on strings is transitive |
| AiubScraper.LexTotal | teacher_utility/aiub_cs_scraper/aiub_cs_scraper.py:207 | any two different strings are ordered one way or the other, so `sorted` has a single answer |
| AiubScraper.MinUnique | teacher_utility/aiub_cs_scraper/aiub_cs_scraper.py:207 | a set of strings has at most one least element |
| AiubScraper.YieldedAt | teacher_utility/aiub_cs_scraper/aiub_cs_scraper.py:230-240 | the `i`-th list yielded is the de-duplicated links of page `i` (counted from the first page yielded), and it is not empty |
| AiubScraper.CollectImages | teacher_utility/aiub_cs_scraper/aiub_cs_scraper.py:194-207 | the image loop and `sorted` give the sorted image set |
| AiubScraper.PostImages | teacher_utility/aiub_cs_scraper/aiub_cs_scraper.py:194-207 | a post's image list is sorted, has no repeats, and holds exactly the URLs its `<img>` elements contribute |
| AiubScraper.Selected | teacher_utility/aiub_cs_scraper/aiub_cs_scraper.py:280-292 | a post is kept exactly when it is undated or not before the cutoff, and its organiser or page text matches a pattern |
| AiubScraper.AddImageRows | teacher_utility/aiub_cs_scraper/aiub_cs_scraper.py:301-310 | the download loop appends one row per successfully downloaded image, in order |
| AiubScraper.ProcessPost | teacher_utility/aiub_cs_scraper/aiub_cs_scraper.py:272-312 | the loop body for one link appends the rows of that post |
| AiubScraper.ProcessPage | teacher_utility/aiub_cs_scraper/aiub_cs_scraper.py:272-312 | the loop over a page's links appends each post's rows in order |
| AiubScraper.Scrape | teacher_utility/aiub_cs_scraper/aiub_cs_scraper.py:259-315 | `main` appends the rows of every link of every yielded page, in order |
| AiubScraper.ImageRowsMembers | teacher_utility/aiub_cs_scraper/aiub_cs_scraper.py:301-310 | the download loop's rows are exactly one per fetched image |
| AiubScraper.PostRowsMembers | teacher_utility/aiub_cs_scraper/aiub_cs_scraper.py:273-308 | a link yields rows only when its post parses and is selected, one per downloaded image, each naming the post and a file in its event folder |
| AiubScraper.RunRowsSelected | teacher_utility/aiub_cs_scraper/aiub_cs_scraper.py:271-308 | every row of a run belongs to a selected post behind a unique link of a listing page: never one dated before the cutoff, never an irrelevant one |

## Left out

- Floating point: positions, depths and angles are exact `real`s, not IEEE doubles. `math.sin`, `cos`, `atan2`, `hypot`, `pi` and `tau` are parameters, so no geometric fact such as "the depth is the Euclidean distance" is claimed.
- The settings of the ray caster: `HALF_FOV`, `NUM_RAYS`, `MAX_DEPTH`, `SCREEN_DIST`, `DELTA_ANGLE`, `SCALE`, `HALF_HEIGHT`, `TEXTURE_SIZE`, `HALF_TEXTURE_SIZE` and `HALF_NUM_RAYS` are not defined in `Wolfenstein_Doom_Raycasting/settings.py`. They are a `Settings` parameter whose values must all be positive. `WIDTH`, `HEIGHT` and the player constants are taken from that file.
- pygame:
  - blitting, `transform.scale`, `subsurface`, draw calls, the debug line of the live ray caster, and every `draw`/`render` method;
  - key input, the event loops, image loading, and the wall-texture and sprite-image loaders.
  - A picture is kept as its texture id and size.
  - A subsurface or scale with a zero or negative size, which pygame would reject, is not modelled.
- `player.rel` and `player.shot` are read by `object_renderer.py` and `Backup/weapon.py`, but `player.py` does not define them. `rel` is a parameter of `DrawBackground`, and `shot` is a field of the weapon.
- The weapon's `weapon_pos` and `damage` are used only for drawing and by code outside this model, so they are left out.
- `Player.update` in `player.py` only calls `movement`, so it has no member of its own. `SpriteObject.update` only calls `get_sprite`.
- Inheritance (`AnimatedSprite` from `SpriteObject`, `Weapon` from `AnimatedSprite`, the platformer `Player` from `PhysicsEntity`) is modelled by composition: each subclass object holds its base object.
- Clocks: `pg.time.get_ticks`, `delta_time` and `datetime.now` are parameters. `time.sleep` is left out.
- Animation frames: a platformer entity's `animation.update()` is the `advance` parameter, and its animation is identified by its asset key.
- `tilemap.physics_rects_around` is not shown in the platformer's source. It is a parameter giving the tile rectangles around a position.
- `NinjaEntities.PhysicsEntity.Update`: `pygame.Rect` truncates float coordinates; the model truncates toward zero, which matches only for the integer sizes used.
- Files and processes:
  - PDF page extraction (PyMuPDF) and spreadsheet output (pandas, xlsxwriter) in both student-list scripts;
  - CSV writing, progress messages, `os.makedirs` and `os.path.exists` in the dataset helpers and the scraper;
  - `cv2` video decoding and image writing.
  - Pages are given as lists of lines.
  - A video is given as its reported frame rate and its number of readable frames.
  - A directory is given as its listing.
- Python strings: `isdigit`, `lower`, `\d` and `\s` are modelled over ASCII only. `os.path.join` is modelled for simple components (no absolute second part).
- Scraper I/O:
  - `requests` and BeautifulSoup, including `_find_value_after_label` and `_parse_event_datetime`: parsing a post is a parameter returning its title, organiser, date, text and `<img>` attributes, or nothing when `parse_post` raises.
  - `download` is a parameter saying whether an image download succeeds.
  - The regex engine, SHA-1, `urljoin` and `urlparse` are parameters.
- `AiubScraper.IterListingPages`: the generator is run to the end, not lazily. Listing pages past the given sequence count as having no links.
- `AiubNames.IsoDateShape`: `%Y` and `isoformat` are assumed to agree. For years below 1000 they may differ (`strftime` does not pad on every platform).
- `WolfSprites.SpriteObject.GetSprite`: the wrap of `delta` uses the corrected test `dx >= 0` from the Findings table, not the source's `dx > 0`. For a sprite exactly on the vertical axis (`dx == 0`, `dy < 0`) with a heading above `pi`, the model draws a sprite that the source culls. `WolfSprites.AnimatedSprite.Update` places its sprite with the same rule. The source's rule is `WolfSprites.DeltaAsWritten`.
- `WolfRaycast.RayCast`: the depths drive only the debug line, so the method returns them rather than drawing.

## Findings

| source | as written | input that shows it | evidently intended | confidence | as-written member | corrected member |
|---|---|---|---|---|---|---|
| Wolfenstein_Doom_Raycasting/sprite_object.py:48 | `delta` gains `tau` when `dx > 0 and angle > pi`, so a sprite exactly on the vertical axis (`dx == 0`) is never corrected | `dx = 0`, `dy < 0` (so `atan2` gives `-pi/2`), player angle `3*pi/2`: the sprite is straight ahead, but `delta = -tau` puts it a full turn off screen and it is culled | `dx >= 0`, giving `delta = 0` for that sprite | not executed; low impact, as it needs an exact float zero | WolfSprites.DeltaAsWrittenMissesAxis | WolfSprites.DeltaInFront |
