# starfield95 — a Dafny model of the starfield simulation

starfield95.c animates `STAR_COUNT` (500) stars flying toward the viewer. Each star has a
normalised lateral position `x, y` in [-1, 1], a depth `z` and a speed, and it caches
`oldX, oldY`, where it was drawn in the last frame. The model covers:

- **Star factory** (`initStar`): one draw for the depth, then (x, y) candidate pairs until one
  lies at least `MIN_RADIUS` from the axis (a do ... while rejection loop), then one draw for
  the speed. The cached position is set to the current projection, so a new star draws no trail.
- **Bulk population** (`initStars`): every star in index order.
- **Simulation step** (`updateStars`): for each star in index order, cache the current
  projection, move closer by `speed`, and call the factory if `z < MIN_Z`.
- **Resize recalibration** (`reshape`): height 0 becomes 1, the tracked size
  `gWidth`/`gHeight` is stored, and every star's cached position is re-projected at the new size.
- **Projection**: the formula `centre + coordinate * (PERSPECTIVE_SCALE / z)`, which appears
  inline five times, in initStar, updateStars, both loops of display and reshape. It is modelled once, as `Projection.Project`.
- **Draw classification** (`display`): far stars (`z >= NEAR_THRESHOLD`) become points and
  near stars become trails from the cached position to the current one.

Modules, one per concern:

| file | module | contents |
|---|---|---|
| `params.dfy` | `Params` | the `#define` constants |
| `projection.dfy` | `Projection` | the projection, its inverse, far/near |
| `random.dfy` | `Random` | the draw stream and the rejection-sampling search |
| `stars.dfy` | `Stars` | the `Star` record and the value-level meaning of each operation, repeated over the pool |
| `render.dfy` | `Render` | what `display` hands to OpenGL |
| `starfield.dfy` | `Field` | class `Starfield` |

Class `Starfield` holds the program's mutable state:

- the static `stars` array;
- `gWidth`/`gHeight` as `width`/`height`;
- the position `cursor` in the random stream.

Its methods are `randFloat`, `initStar`, `initStars`, `updateStars`, `reshape` and the drawing
loops of `display`. Each is written as the source writes it (array updates, for loops, the
do ... while loop). `InitStar`, `InitStars`, `UpdateStars`, `Reshape` and `Display` are proved
against a specification function in `Stars` or `Render`. `RandFloat` is tied directly to the
draw stream. `SampleLateral` is tied to `Random.FirstAccepted`, the first accepted candidate.

Modelling choices:

- `rand()` is an oracle. The class holds the stream of values `rand() / RAND_MAX`
  (`Random.Stream`). `randFloat` returns the value at `cursor` and advances it.
  - `InUnit` says every draw lies in [0, 1]. Both ends are included, as `randFloat` divides by
    `RAND_MAX`.
  - `Fair` says that from every position some later candidate pair is accepted. That is what
    makes the rejection loop of `initStar` terminate, and it is the only assumption made about
    the distribution.
- `float` is modelled as `real`. Constants such as `0.05f` are read as exact decimals.
- randFloat divides `rand()` by `RAND_MAX` (starfield95.c:73), so a draw can be exactly 1.
  The depth and speed ranges are therefore closed: z in [0.1, 1.0] and speed in [0.002, 0.02].
- The program invariant is `Populated()`: every star is well formed, that is, the candidate was
  accepted, `MIN_Z <= z <= 1` and the speed is in range.
  - The constructor models the zero-initialised static array, on which the projection would
    divide by zero.
  - `main` runs `initStars` before the GLUT callbacks are registered. So `InitStars`
    establishes `Populated()`, and `UpdateStars`, `Reshape` and `Display` require it.
  - `UpdateStars` and `Reshape` preserve it.

## Model

| member | source | states |
|---|---|---|
| Projection.Project | starfield95.c:112-114 | the perspective projection `centre + coordinate * (PERSPECTIVE_SCALE / z)`, defined once; the same formula is inlined at lines 137-139, 181-183, 194-195 and 274-276 |
| Projection.IsFar | starfield95.c:180 | display's classification: a star at depth z >= NEAR_THRESHOLD is far (a point); otherwise it is near (a trail, line 192) |
| Projection.Center | starfield95.c:113-114 | the window centre `(gWidth / 2.0f, gHeight / 2.0f)`, the integer size halved as a float |
| Projection.ProjectScales | starfield95.c:111-114 | the image offset from the window centre, times the depth, is `PERSPECTIVE_SCALE` times the lateral coordinate |
| Projection.UnprojectProject | starfield95.c:32-37 | for a known nonzero depth the projection is injective: unprojecting a projected point gives back (x, y) |
| Projection.ProjectUnproject | starfield95.c:32-37 | every pixel position is the projection of the lateral point Unproject recovers from it |
| Projection.ProjectExample | starfield95.c:112-114 | in a 1280x720 window, (0.2, 0.0) at depth 0.5 projects to pixel (700, 360) |
| Random.Coord | starfield95.c:94-95 | a lateral coordinate from a draw: `2.0f * (randFloat() - 0.5f)`, in [-1, 1] for a draw in [0, 1] |
| Random.Radius2 | starfield95.c:96 | the squared lateral distance `r2 = x*x + y*y` |
| Random.Accepts | starfield95.c:97 | the negation of the loop condition `r2 < MIN_RADIUS * MIN_RADIUS`: the candidate is kept |
| Random.Rejections | starfield95.c:93-97 | the number of discarded candidates is at most any known index of an accepted candidate |
| Random.RejectionsFirst | starfield95.c:93-97 | the do ... while loop stops at the first accepted candidate: that candidate lies outside MIN_RADIUS and every earlier one inside |
| Random.RejectionsIsFirst | starfield95.c:93-97 | the number of rejections does not depend on the search bound: it is the index of the first accepted candidate |
| Stars.Depth | starfield95.c:86 | the depth from a draw: `0.1f + 0.9f * randFloat()` |
| Stars.Speed | starfield95.c:104 | the speed from a draw: `0.002f + 0.018f * randFloat()` |
| Stars.Place | starfield95.c:99-118 | the star initStar stores from its draws: the given x, y, z and speed, with the cached position set to the current projection, so its trail has zero length |
| Stars.Spawn | starfield95.c:82-119 | initStar as a function of the stream position: depth draw, rejection loop, speed draw, cached projection, and the stream position after them |
| Stars.SpawnAt | starfield95.c:82-119 | initStar reads the depth, then the accepted (x, y) pair after j rejected pairs, then the speed, and caches the current projection, taking 4 + 2j draws |
| Stars.SpawnSpec | starfield95.c:82-119 | a spawned star is well formed: z in [0.1, 1.0], speed in [0.002, 0.02], x and y in [-1, 1] and outside MIN_RADIUS, zero-length trail; its (x, y) is the first accepted candidate |
| Stars.Resync | starfield95.c:273-279 | re-projecting the cached position leaves x, y, z and speed unchanged and gives a zero-length trail at the given size |
| Stars.ResyncForgetsOldSize | starfield95.c:249-279 | the star after a resize depends only on its position, depth, speed and the new size, not on the size it was cached for |
| Stars.Advance | starfield95.c:136-142 | steps 1 and 2 of updateStars: cache the current projection, then decrease z by speed |
| Stars.Step | starfield95.c:136-147 | one iteration of updateStars: advance, and respawn through initStar when z < MIN_Z, taking draws only then |
| Stars.StepSpec | starfield95.c:136-147 | normal case: no draw, x, y and speed kept, z decreases by speed, the cached position is the projection before the move; respawn case: the star is the factory's, with z in [0.1, 1.0], a zero-length trail and at least four draws; either way well-formedness is kept |
| Stars.AdvanceMovesOutward | starfield95.c:137-142 | moving closer pushes the image away from the window centre in both coordinates, so a trail points outward |
| Stars.ClearOfCenter | starfield95.c:25-30 | a well-formed star is drawn at least 15 pixels (MIN_RADIUS * PERSPECTIVE_SCALE) from the window centre |
| Stars.SpawnPrefix | starfield95.c:122-126 | the first n iterations of initStars: n stars, each spawned from the stream position its predecessor left |
| Stars.SpawnPrefixSpec | starfield95.c:122-126 | after n iterations of initStars, all n stars are well formed with zero-length trails, and at least 4n draws were taken |
| Stars.ChainIsPrefix | starfield95.c:122-126 | stars spawned one after another, each from the position its predecessor left, are the first n iterations of initStars |
| Stars.ChainSpawns | starfield95.c:122-126 | such a chain is the initStars result, and all its stars are well formed and synced |
| Stars.StepPrefix | starfield95.c:134-149 | the first n iterations of updateStars over a pool: n stars, each stepped from the stream position its predecessor left |
| Stars.StepPrefixSpec | starfield95.c:134-149 | a frame keeps every star well formed and takes draws only forward |
| Stars.StepPrefixAt | starfield95.c:134-149 | star i after the frame is the one-star step of star i, from the stream position left by the stars before it |
| Stars.QuietFrame | starfield95.c:134-149 | a frame in which no star crosses MIN_Z takes no draws and only advances each star |
| Stars.StepChainIsPrefix | starfield95.c:134-149 | stars stepped one after another, each from the position its predecessor left, are the first n iterations of updateStars |
| Stars.StepChainFrame | starfield95.c:134-149 | such a chain is the frame of the whole pool, and every star in it is well formed |
| Render.FarPoints | starfield95.c:179-186 | the points of display's first loop in index order: the projection of every far star, and no more points than stars |
| Render.NearTrails | starfield95.c:191-200 | the lines of display's second loop in index order: cached position to current projection for every near star, and no more lines than stars |
| Render.DrawPartition | starfield95.c:179-200 | display draws exactly CountFar points and exactly the remaining number of trails, so each star is drawn by exactly one loop |
| Render.DrawnOnce | starfield95.c:179-200 | each far star's projection is among the points, and each near star's trail from cached to current position is among the trails |
| Render.DrawnFrom | starfield95.c:179-200 | every point display draws is the projection of a far star, and every trail runs from a near star's cached position to its current projection |
| Render.NoSpuriousTrail | starfield95.c:269-279 | when every star is synced, as initStar (lines 106-118) and the resize resync leave them, every trail display draws has zero length: no spurious line after start-up or a resize |
| Field.Starfield.constructor | starfield95.c:55-60 | start-up state: a zero-initialised pool of STAR_COUNT stars, a 1280x720 tracked size, no draws taken |
| Field.Starfield.RandFloat | starfield95.c:71-74 | returns the next draw, which lies in [0, 1], and advances the stream by one |
| Field.Starfield.SampleLateral | starfield95.c:92-97 | the do ... while loop returns the first accepted candidate (x, y) and takes exactly two draws per candidate |
| Field.Starfield.InitStar | starfield95.c:82-119 | star i becomes the factory's star at the current stream position; no other star and not the tracked size changes |
| Field.Starfield.InitStars | starfield95.c:121-126 | the pool becomes the stars spawned one after another in index order, all well formed and synced |
| Field.Starfield.UpdateStars | starfield95.c:134-149 | the pool becomes the frame of the old pool (each star stepped in index order), and stays well formed |
| Field.Starfield.Reshape | starfield95.c:249-280 | the tracked size becomes the new size with height 0 read as 1; every star is resynced at that size; no draw is taken and the pool stays well formed |
| Field.Starfield.Display | starfield95.c:170-201 | the first loop yields FarPoints and the second NearTrails of the current pool and size |

## Left out

- OpenGL and GLUT calls: clearing, colours, point size, `glBegin`/`glEnd`, the swap, the
  viewport and orthographic set-up in `reshape`, and window creation in `main`. `Display`
  returns the points and trails it would hand over instead.
- The FPS counter in `idle` and its text: it uses the wall clock and only feeds the overlay.
- `drawBitmapString` and the vendor and renderer strings: these are text rendering through
  the driver.
- `handleKeypress` (exit on ESC), `main`'s call sequence and `srand(time(NULL))`: the seed is
  whatever `Stream` the constructor receives.
- Floating-point rounding: all arithmetic is on exact reals. A `float` computation can round
  differently, for example when `0.1f + 0.9f * u` is exactly at an interval end.
- The distribution of `rand()` and the value of `RAND_MAX`: the stream is an arbitrary
  oracle with draws in [0, 1]. Fairness (rejection sampling always ends) is assumed, not
  derived from a distribution.
- The population controller and the global speed factor: they are not part of starfield95.c,
  which has a fixed pool of 500 stars.
