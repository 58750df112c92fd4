# Galaxy terminal animation — Dafny model

`main.cpp` draws a rotating spiral galaxy in a terminal. A `Galaxy` holds
orbiting `Particle`s and twinkling background `Star`s. Every frame it
advances them (`update`) and rasterises them (`render`). Rasterising runs
four passes over a `height × width` character grid and a parallel intensity
grid:

1. stars stamp a glyph chosen by brightness;
2. particles add their brightness to the cell they land on;
3. cells brighter than 0.1 take a glyph from the ramp `" .:-=+*#%@"`;
4. the core marker `(@)` is drawn at the centre.

`output` then turns the grid into one text buffer with a time footer.

The model has five modules:

- `Numeric`
  - `static_cast<int>` on doubles, which truncates toward zero;
  - `std::min` and `std::clamp`;
  - decimal rendering of ints, with a parser that proves the footer's
    number can be read back.
- `Vectors`: the `Vec2` value type.
- `Bodies`
  - the `Particle` and `Star` classes, with their in-place `Update` methods;
  - the wrap rules for angles and phases;
  - projection of a particle onto the screen, and star brightness.
- `Raster`: the meaning of each pass, one cell at a time.
  - Recursive folds over the points of light that land on a cell (`StarCell`,
    `CellIntensity`) define each pass.
  - `ShadeCell` and `CoreCell` describe the intensity and core passes.
  - `Lines`, `Footer` and `Frame` describe the text buffer.
- `Simulation`
  - the `Galaxy` class, with its populations as `seq` fields of objects;
  - its `Update` loops;
  - the passes as methods over `array2<char>` / `array2<real>` with nested
    loops;
  - `Render`, which ties together the grid, the passes and the buffer;
  - the grid sizing of `main`.

Doubles are exact `real`s.

The model follows the code in these places, some of which a quick reading
might get wrong:

- The ramp index truncates `3 * intensity`; it does not round. A cell with
  intensity in (0.1, 1/3) is therefore overwritten with the blank first
  ramp glyph, which can erase a star beneath it (`ShadeCellCases`).
- Positions are truncated toward zero, not floored. A point with x in
  (-1, 0) lands in column 0 (`TruncNearZero`).
- An angle of exactly 2π is kept, because the test is `>`. The angle range
  the wrap keeps is therefore [0, 2π], not [0, 2π).
- A star's phase only wraps upward. A negative step is never corrected.
- The core marker is drawn only when all three of its cells fit, that is
  when `0 < cx < width - 1`. With the centre at `(w / 2, h / 2)` this holds
  exactly when `w >= 3` and `h >= 1` (`CoreDrawnIff`). So even a frame with
  no stars and no particles has the marker on its middle row (`EmptyFrame`).

## Model

| member | source | states |
|---|---|---|
| Numeric.Trunc | main.cpp:219-220 | `static_cast<int>` truncates toward zero: within 1 below a non-negative value, within 1 above a negative one, and with the sign kept |
| Numeric.TruncNearZero | main.cpp:234-237 | every position in (-1, 1) truncates to 0, so a point just left of or above the grid still lands in column or row 0 |
| Numeric.TruncHalf | main.cpp:131-132 | truncating `n / 2.0` for `n >= 0` is integer halving, which gives the centre cell a Galaxy is built with |
| Numeric.Clamp | main.cpp:248 | `std::clamp` lies in [lo, hi]; it returns v inside the range and the nearer bound outside it |
| Numeric.ClampMonotone | main.cpp:248 | clamping preserves order |
| Numeric.TruncMonotone | main.cpp:247 | truncation preserves order |
| Numeric.Min | main.cpp:288-289 | `std::min` is at most both arguments and equal to one of them |
| Numeric.NatToString | main.cpp:274 | the decimal numeral is non-empty, all digits, and has a leading zero only for 0 |
| Numeric.IntToString | main.cpp:274 | `ostringstream << int` starts with '-' exactly for negative values, followed by digits |
| Numeric.ParseNatToString | main.cpp:274 | reading back the digits NatToString writes gives the number |
| Numeric.IntToStringRoundTrip | main.cpp:274 | reading back the footer's numeral gives the seconds count |
| Numeric.IntToStringInjective | main.cpp:274 | distinct seconds counts give distinct footers |
| Vectors.Vec2.Add | main.cpp:69 | `operator+`: subtracting the same vector again gives back the original |
| Vectors.Vec2.Sub | main.cpp:70 | `operator-`: adding the same vector again gives back the original |
| Vectors.Vec2.Scale | main.cpp:71 | `operator*`: the squared length scales by the square of the factor and the dot product with the original by the factor, which together single out `(x * s, y * s)`; factor 1 is the identity and factor 0 gives the zero vector |
| Vectors.Vec2.LengthSquared | main.cpp:73 | the quantity under `length()`'s square root is non-negative |
| Vectors.Vec2.Normalized | main.cpp:74-77 | a zero-length vector normalises to (0, 0); otherwise the result has unit length and, scaled by the length, gives the original vector |
| Vectors.Vec2.Perpendicular | main.cpp:78 | the quarter turn is orthogonal to the vector, has the same length and turns counter-clockwise (cross product equal to the squared length), which singles out `(-y, x)` |
| Vectors.AddSub | main.cpp:69-70 | `operator-` undoes `operator+` |
| Vectors.PerpendicularTwice | main.cpp:78 | two quarter turns negate the vector and four are the identity |
| Bodies.WrapAngle | main.cpp:92-94 | the particle wrap takes exactly one turn off above 2π and adds exactly one turn below 0, and is the identity on [0, 2π] (so 2π is kept); hence it maps [-2π, 4π] into [0, 2π] and leaves values below -2π negative |
| Bodies.WrapPhase | main.cpp:112-113 | the star wrap takes exactly one turn off above 2π and is the identity up to 2π, negatives included; hence it maps [0, 4π] into [0, 2π] |
| Bodies.StepAngle | main.cpp:91-95 | the stepped angle is `angle + av * dt` shifted by at most one turn, and stays in [0, 2π] when it starts there and the step is at most a turn either way |
| Bodies.StepPhase | main.cpp:111-114 | the stepped phase is `phase + speed * dt`, lowered by at most one turn, and stays in [0, 2π] when it starts there and the step is in [0, 2π] |
| Bodies.AngleAfterStaysInTurn | main.cpp:91-95 | over any number of `update(dt)` calls at the particle's unchanging angular velocity, each step at most a turn either way, the angle never leaves [0, 2π] |
| Bodies.PhaseAfterStaysInTurn | main.cpp:111-114 | over any number of `update(dt)` calls at the star's unchanging speed, each step in [0, 2π], the phase never leaves [0, 2π] |
| Bodies.Particle.constructor | main.cpp:88-89 | stores radius, angle, angular velocity and brightness; `pos` stays at its default (0, 0) |
| Bodies.Particle.Update | main.cpp:91-95 | the angle becomes the wrapped `angle + av * dt`; every other field is unchanged |
| Bodies.Particle.Position | main.cpp:97-102 | given the cosine and sine of one angle, the projected point lies on the ellipse with half-axes `radius * aspect` and `radius` around the centre |
| Bodies.OrbitIdentity | main.cpp:99-100 | the algebraic identity behind that ellipse: `(r c a)^2 + a^2 (r s)^2 = a^2 r^2` when `c^2 + s^2 = 1` |
| Bodies.PositionAtReferenceAngles | main.cpp:97-102 | at angle 0 the point is `radius * aspect` right of the centre; at a quarter turn it is `radius` below |
| Bodies.Star.constructor | main.cpp:208-212 | a star holds exactly the position, phase, speed and base brightness it is given |
| Bodies.Star.Update | main.cpp:111-114 | the phase becomes `phase + speed * dt` wrapped upward only; position, speed and base are unchanged |
| Bodies.Star.Brightness | main.cpp:116-118 | `get_brightness`, with the sine as input: for base ≥ 0 and a sine in [-1, 1] it lies in [0.3 · base, base] |
| Bodies.Twinkle | main.cpp:117 | the twinkle factor lies in [0.3, 1] for a sine in [-1, 1], reaching 1 at the crest and 0.3 at the trough |
| Bodies.ScaleBetween | main.cpp:117 | a non-negative base scaled by a factor in [0.3, 1] lies in [0.3 · base, base] |
| Bodies.StarBrightnessBounds | main.cpp:116-118 | with base ≥ 0 and sine in [-1, 1], the brightness equals the base at the crest and 0.3 · base at the trough, and is positive when the base is |
| Raster.StarGlyph | main.cpp:223-226 | a star stamps nothing exactly when its brightness is ≤ 0.2; otherwise it stamps one of '*', '+' or '.' |
| Raster.StarCellUntouched | main.cpp:217-229 | a cell no in-grid star stamps keeps its glyph |
| Raster.StarCellLastWins | main.cpp:217-229 | a stamped cell holds the glyph of the last star that stamps it: '*' above 0.7, '+' in (0.4, 0.7], '.' in (0.2, 0.4] |
| Raster.CellIntensityAppend | main.cpp:231-241 | the accumulated intensity is additive over concatenated particle lists |
| Raster.CellIntensityPermutation | main.cpp:231-241 | every cell's accumulated intensity is the same for any order of the particles |
| Raster.CellIntensityNoHits | main.cpp:231-241 | a cell no particle lands on keeps intensity 0, so out-of-grid particles contribute nothing |
| Raster.CellIntensityAtLeast | main.cpp:231-241 | with non-negative brightness, a cell is at least as bright as every particle that lands on it |
| Raster.CellIntensityNonNegative | main.cpp:231-241 | with non-negative brightness, every cell's intensity is non-negative |
| Raster.RampIndex | main.cpp:247-248 | the ramp position lies in [0, 9]; in [0, 10/3) it is the truncation of 3·i; from 10/3 on it is 9; below 1/3 (negative intensities included) it is 0 |
| Raster.RampIndexMonotone | main.cpp:247-248 | a higher intensity never gives a lower ramp position |
| Raster.ShadeCellCases | main.cpp:246-250 | intensity ≤ 0.1 keeps the glyph. Above 0.1 the result is a ramp glyph: ' ' below 1/3 (so truncation blanks a dim cell), '-' in [1, 4/3), '@' from 3 on |
| Raster.ComposeRows | main.cpp:153 | a frame has `height` rows of `width` cells |
| Raster.EmptyFrame | main.cpp:152-162 | a 10×6 frame with no stars and no particles is blank except row 3, which reads `    (@)   ` |
| Raster.RowStartIsProduct | main.cpp:270-272 | row y of the buffer starts at offset `y * (width + 1)` |
| Raster.RowStartOrdered | main.cpp:270-272 | rows start in order, each a full row plus newline after the previous |
| Raster.LinesLayout | main.cpp:270-272 | the row loop writes each cell of row y at `Offset(y, x)` and a newline at column `width`, and nothing else |
| Raster.FrameLayout | main.cpp:266-277 | the buffer is the grid of `height` lines of `width + 1` characters, followed by the footer |
| Raster.FooterTruncatesSeconds | main.cpp:274 | 7.9 seconds are written as ` Time: 7s` |
| Simulation.GridSize | main.cpp:288-289 | the grid is at most 120 columns and the terminal width, and at most 35 rows and the terminal height minus 3; each bound is reached by one of the two. The sizes are non-negative exactly when the terminal width is ≥ 0 and the terminal height is ≥ 3 |
| Simulation.DefaultGridSize | main.cpp:43-46 | the POSIX terminal size 120 × 40 gives a 120 × 35 grid |
| Simulation.CoreDrawnIff | main.cpp:131-132 | with the centre the constructor sets, the core marker fits exactly when the grid has at least 3 columns and at least 1 row |
| Simulation.Rows | main.cpp:270-271 | the rows of the grid, as strings: one row per grid line, each exactly `width` characters long (also for a zero-width grid), each character that grid cell |
| Simulation.RowOf | main.cpp:270-271 | a grid row as a string: `width` characters, each the cell in that column |
| Simulation.RowsOfComposed | main.cpp:152-162 | a grid whose every cell holds the composed frame cell reads as the composed rows |
| Simulation.Galaxy.constructor | main.cpp:131-138 | width, height, time 0, centre `(w / 2.0, h / 2.0)` and aspect 2. The arm particles and then the core particles appear in seed order, then the stars, all freshly allocated |
| Simulation.Galaxy.AddParticles | main.cpp:186 | appends one fresh particle per seed in order and keeps the existing ones |
| Simulation.Galaxy.AddStars | main.cpp:207-214 | appends one fresh star per seed in order and keeps the existing ones |
| Simulation.Galaxy.Update | main.cpp:140-150 | the clock advances by dt and every particle and every star has taken exactly one step, with no other field changed. The populations stay distinct, and an angle or phase in [0, 2π] stays there when its step fits |
| Simulation.Galaxy.AdvanceParticles | main.cpp:143-145 | every particle has taken exactly one step, with no other field changed |
| Simulation.Galaxy.AdvanceStars | main.cpp:147-149 | every star has taken exactly one step, with no other field changed |
| Simulation.Galaxy.RenderStars | main.cpp:217-229 | every grid cell ends as the star fold over the stars' truncated positions and brightness leaves it |
| Simulation.Galaxy.AccumulateParticles | main.cpp:231-241 | every grid cell gains exactly the summed brightness of the particles whose truncated projection is that cell |
| Simulation.Galaxy.ApplyIntensity | main.cpp:243-253 | every cell becomes `ShadeCell` of its previous glyph and its intensity: unchanged at ≤ 0.1, the ramp glyph above |
| Simulation.Galaxy.RenderCore | main.cpp:255-264 | when the marker fits, the three centre cells become '(', '@' and ')'; every other cell is unchanged, and nothing changes when it does not fit |
| Simulation.Galaxy.Output | main.cpp:266-277 | the buffer is every grid row followed by '\n', then the footer with the truncated seconds |
| Simulation.Galaxy.Illuminate | main.cpp:153-157 | fresh `height × width` grids after the star and particle passes: the star fold on a blank cell, and each cell's particle sum |
| Simulation.Galaxy.Shade | main.cpp:153-158 | after the first three passes on fresh grids, every cell is its star glyph shaded by its particle intensity |
| Simulation.Galaxy.Rasterise | main.cpp:152-160 | a fresh `height × width` grid where every cell is the composition of the four passes |
| Simulation.Galaxy.Render | main.cpp:152-162 | the buffer `render` hands to the terminal is the frame of the composed rows, followed by the footer |

## Left out

- Terminal control (`move_cursor_home`, `hide_cursor`, `clear_screen`,
  `get_terminal_size`, main.cpp:10-47) is console I/O. The terminal size
  is a parameter of `GridSize`.
- The driver loop, `steady_clock` timing and `sleep_for` (main.cpp:293-303)
  are wall-clock and scheduling. The elapsed seconds are a parameter of
  `Render`.
- The random generator and the layout generators `init_spiral_arms`,
  `init_core` and `init_background_stars` (main.cpp:57-62, 165-215) use
  library RNG and `sqrt`. The values they produce are seed parameters of
  the constructor; only the order in which populations are appended is
  modelled.
- `cos`, `sin` and `sqrt` (main.cpp:73-77, 99-100, 117) are transcendental.
  The results are inputs: the cosine and sine of each particle's angle,
  the sine of each star's phase, and the length for `Normalized` (a
  non-negative value whose square is the squared length).
- Writing and flushing to `cout` (main.cpp:275-276) are I/O; only the
  buffer string is modelled.
- Floating-point rounding: doubles are exact reals, so thresholds such as
  `> 0.1` are decided exactly.
- `static_cast<int>` of a value outside the int range is undefined in C++.
  The model truncates every real exactly.
- Negative grid sizes, where `vector` construction would throw, are
  excluded by the constructor's precondition. `GridSize` states exactly
  which terminal sizes give them.
