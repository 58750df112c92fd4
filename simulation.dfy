/** The `Galaxy` class of main.cpp: the particle and star populations, the
    simulation step, and the render pipeline that rasterises one frame
    into a character grid and serialises it. Also the grid sizing of
    `main`. */
module Simulation {
  import opened Numeric
  import opened Vectors
  import opened Bodies
  import opened Raster

  /** The values a particle is created with (`Particle(r, a, av, b)`). */
  datatype ParticleSeed = ParticleSeed(radius: real, angle: real, angularVelocity: real, brightness: real)

  /** The values a background star is created with. */
  datatype StarSeed = StarSeed(pos: Vec2, phase: real, speed: real, baseBrightness: real)

  ghost predicate CreatedFrom(p: Particle, s: ParticleSeed)
    reads p
  {
    p.pos == Vec2(0.0, 0.0) && p.radius == s.radius && p.angle == s.angle &&
    p.angularVelocity == s.angularVelocity && p.brightness == s.brightness
  }

  ghost predicate StarCreatedFrom(st: Star, s: StarSeed)
    reads st
  {
    st.pos == s.pos && st.phase == s.phase && st.speed == s.speed && st.baseBrightness == s.baseBrightness
  }

  /** The effective grid size `main` chooses for a terminal of the given
      size: at most 120 columns, and at most 35 rows with 3 terminal rows
      kept for the status block. */
  function GridSize(termWidth: int, termHeight: int): (size: (int, int))
    ensures size.0 <= 120 && size.0 <= termWidth && (size.0 == 120 || size.0 == termWidth)
    ensures size.1 <= 35 && size.1 <= termHeight - 3 && (size.1 == 35 || size.1 == termHeight - 3)
    ensures size.0 >= 0 <==> termWidth >= 0
    ensures size.1 >= 0 <==> termHeight >= 3
  {
    (Min(termWidth, 120), Min(termHeight - 3, 35))
  }

  /** The size reported on POSIX (120 x 40) gives a 120 x 35 grid. */
  lemma DefaultGridSize()
    ensures GridSize(120, 40) == (120, 35)
  {
  }

  /** For the centre a Galaxy is built with, `(w / 2.0, h / 2.0)`, the
      core marker is drawn exactly when the grid has at least 3 columns and
      at least 1 row. */
  lemma CoreDrawnIff(w: int, h: int)
    requires 0 <= w && 0 <= h
    ensures CoreFits(Trunc(w as real / 2.0), Trunc(h as real / 2.0), w, h) <==> (w >= 3 && h >= 1)
  {
    TruncHalf(w);
    TruncHalf(h);
  }

  /** The rows of an array grid, as strings. */
  function Rows(a: array2<char>): (rows: seq<string>)
    reads a
    ensures |rows| == a.Length0
    ensures forall y :: 0 <= y < a.Length0 ==> |rows[y]| == a.Length1
    ensures forall y, x :: 0 <= y < a.Length0 && 0 <= x < a.Length1 ==> rows[y][x] == a[y, x]
  {
    seq(a.Length0, y requires 0 <= y < a.Length0 reads a => RowOf(a, y))
  }

  function RowOf(a: array2<char>, y: int): (row: string)
    requires 0 <= y < a.Length0
    reads a
    ensures |row| == a.Length1
    ensures forall x :: 0 <= x < a.Length1 ==> row[x] == a[y, x]
  {
    seq(a.Length1, x requires 0 <= x < a.Length1 reads a => a[y, x])
  }

  /** A grid whose every cell holds the composed frame cell has the
      composed rows. */
  lemma RowsOfComposed(screen: array2<char>, stars: seq<Light>, particles: seq<Light>, cx: int, cy: int)
    requires forall y, x :: 0 <= y < screen.Length0 && 0 <= x < screen.Length1 ==>
      screen[y, x] == ComposeCell(stars, particles, y, x, cx, cy, screen.Length1, screen.Length0)
    ensures Rows(screen) == ComposeRows(stars, particles, cx, cy, screen.Length1, screen.Length0)
  {
    var rows := Rows(screen);
    var expected := ComposeRows(stars, particles, cx, cy, screen.Length1, screen.Length0);
    forall y | 0 <= y < screen.Length0
      ensures rows[y] == expected[y]
    {
      assert |rows[y]| == |expected[y]| == screen.Length1;
    }
  }

  class Galaxy {
    var particles: seq<Particle>
    var stars: seq<Star>
    var center: Vec2
    var width: int
    var height: int
    var time: real
    var aspectRatio: real

    /** The grid is non-negative in size and the two populations hold
        distinct objects (each is a vector of values in the source). */
    ghost predicate Valid()
      reads this
    {
      0 <= width && 0 <= height &&
      (forall i, j :: 0 <= i < j < |particles| ==> particles[i] != particles[j]) &&
      (forall i, j :: 0 <= i < j < |stars| ==> stars[i] != stars[j])
    }

    /** `Galaxy(w, h)`: centre at the grid midpoint, aspect ratio 2, time 0,
        then the spiral-arm particles, the core particles and the
        background stars are appended in that order. The generated values
        are parameters. */
    constructor (w: int, h: int, armSeeds: seq<ParticleSeed>, coreSeeds: seq<ParticleSeed>, starSeeds: seq<StarSeed>)
      requires 0 <= w && 0 <= h
      ensures Valid()
      ensures width == w && height == h && time == 0.0
      ensures center == Vec2(w as real / 2.0, h as real / 2.0) && aspectRatio == 2.0
      ensures |particles| == |armSeeds| + |coreSeeds| && |stars| == |starSeeds|
      ensures forall k :: 0 <= k < |particles| ==> fresh(particles[k]) && CreatedFrom(particles[k], (armSeeds + coreSeeds)[k])
      ensures forall k :: 0 <= k < |stars| ==> fresh(stars[k]) && StarCreatedFrom(stars[k], starSeeds[k])
    {
      width, height, time := w, h, 0.0;
      center := Vec2(w as real / 2.0, h as real / 2.0);
      aspectRatio := 2.0;
      particles, stars := [], [];
      new;
      AddParticles(armSeeds);
      ghost var arms := particles;
      AddParticles(coreSeeds);
      assert particles[..|armSeeds|] == arms;
      assert forall k :: 0 <= k < |armSeeds| ==> particles[k] == arms[k];
      AddStars(starSeeds);
    }

    /** Appends one freshly created particle per seed (`emplace_back` in
        `init_spiral_arms` and `init_core`). */
    method AddParticles(seeds: seq<ParticleSeed>)
      requires Valid()
      modifies this`particles
      ensures Valid()
      ensures |particles| == |old(particles)| + |seeds| && particles[..|old(particles)|] == old(particles)
      ensures forall j :: |old(particles)| <= j < |particles| ==>
        fresh(particles[j]) && CreatedFrom(particles[j], seeds[j - |old(particles)|])
    {
      ghost var n := |particles|;
      for k := 0 to |seeds|
        invariant Valid()
        invariant |particles| == n + k && particles[..n] == old(particles)
        invariant forall j :: n <= j < |particles| ==> fresh(particles[j]) && CreatedFrom(particles[j], seeds[j - n])
      {
        var s := seeds[k];
        var p := new Particle(s.radius, s.angle, s.angularVelocity, s.brightness);
        particles := particles + [p];
      }
    }

    /** Appends one freshly created star per seed (`init_background_stars`). */
    method AddStars(seeds: seq<StarSeed>)
      requires Valid()
      modifies this`stars
      ensures Valid()
      ensures |stars| == |old(stars)| + |seeds| && stars[..|old(stars)|] == old(stars)
      ensures forall j :: |old(stars)| <= j < |stars| ==>
        fresh(stars[j]) && StarCreatedFrom(stars[j], seeds[j - |old(stars)|])
    {
      ghost var n := |stars|;
      for k := 0 to |seeds|
        invariant Valid()
        invariant |stars| == n + k && stars[..n] == old(stars)
        invariant forall j :: n <= j < |stars| ==> fresh(stars[j]) && StarCreatedFrom(stars[j], seeds[j - n])
      {
        var s := seeds[k];
        var st := new Star(s.pos, s.phase, s.speed, s.baseBrightness);
        stars := stars + [st];
      }
    }

    /** `update(dt)`: advance the clock, every particle and every star.
        Only angles, phases and the clock change, and an angle or phase
        that starts within a turn stays within it when the step fits. */
    method Update(dt: real)
      requires Valid()
      modifies this`time, particles, stars
      ensures Valid()
      ensures time == old(time) + dt
      ensures forall k :: 0 <= k < |particles| ==> ParticleAdvanced(particles[k], dt)
      ensures forall k :: 0 <= k < |stars| ==> StarAdvanced(stars[k], dt)
      ensures forall k :: 0 <= k < |particles| ==>
        0.0 <= old(particles[k].angle) <= TWO_PI && -TWO_PI <= old(particles[k].angularVelocity) * dt <= TWO_PI ==>
        0.0 <= particles[k].angle <= TWO_PI
      ensures forall k :: 0 <= k < |stars| ==>
        0.0 <= old(stars[k].phase) <= TWO_PI && 0.0 <= old(stars[k].speed) * dt <= TWO_PI ==>
        0.0 <= stars[k].phase <= TWO_PI
    {
      time := time + dt;
      AdvanceParticles(dt);
      AdvanceStars(dt);
    }

    /** The particle loop of `update`: `p.update(dt)` for every particle. */
    method AdvanceParticles(dt: real)
      requires Valid()
      modifies particles
      ensures forall k :: 0 <= k < |particles| ==> ParticleAdvanced(particles[k], dt)
    {
      for k := 0 to |particles|
        invariant forall j :: 0 <= j < k ==> ParticleAdvanced(particles[j], dt)
        invariant forall j :: k <= j < |particles| ==> unchanged(particles[j])
      {
        particles[k].Update(dt);
      }
    }

    /** The star loop of `update`: `s.update(dt)` for every star. */
    method AdvanceStars(dt: real)
      requires Valid()
      modifies stars
      ensures forall k :: 0 <= k < |stars| ==> StarAdvanced(stars[k], dt)
    {
      for k := 0 to |stars|
        invariant forall j :: 0 <= j < k ==> StarAdvanced(stars[j], dt)
        invariant forall j :: k <= j < |stars| ==> unchanged(stars[j])
      {
        stars[k].Update(dt);
      }
    }

    /** The stars as points of light for a frame: the truncated cell of
        each star's position and its brightness for the given sine. */
    function StarLights(sinPhases: seq<real>): (ls: seq<Light>)
      requires |sinPhases| == |stars|
      reads this, stars
      ensures |ls| == |stars|
    {
      var ss := stars;
      seq(|ss|, k requires 0 <= k < |ss| reads ss =>
        Light(Trunc(ss[k].pos.y), Trunc(ss[k].pos.x), ss[k].Brightness(sinPhases[k])))
    }

    /** The particles as points of light for a frame: the truncated cell of
        each particle's projected position (given the cosine and sine of
        its angle) and its brightness. */
    function ParticleLights(cosSin: seq<(real, real)>): (ls: seq<Light>)
      requires |cosSin| == |particles|
      reads this, particles
      ensures |ls| == |particles|
    {
      var ps, c, aspect := particles, center, aspectRatio;
      seq(|ps|, k requires 0 <= k < |ps| reads ps =>
        var q := ps[k].Position(c, aspect, cosSin[k].0, cosSin[k].1);
        Light(Trunc(q.y), Trunc(q.x), ps[k].brightness))
    }

    /** `render_stars`: every in-grid cell ends as the star pass leaves it;
        stars outside the grid write nothing. */
    method RenderStars(screen: array2<char>, sinPhases: seq<real>)
      requires Valid() && screen.Length0 == height && screen.Length1 == width
      requires |sinPhases| == |stars|
      modifies screen
      ensures forall y, x :: 0 <= y < height && 0 <= x < width ==>
        screen[y, x] == StarCell(old(screen[y, x]), StarLights(sinPhases), y, x)
    {
      ghost var lights := StarLights(sinPhases);
      for k := 0 to |stars|
        invariant forall y, x :: 0 <= y < height && 0 <= x < width ==>
          screen[y, x] == StarCell(old(screen[y, x]), lights[..k], y, x)
      {
        var s := stars[k];
        var sx := Trunc(s.pos.x);
        var sy := Trunc(s.pos.y);
        assert lights[k] == Light(sy, sx, s.Brightness(sinPhases[k]));
        if sx >= 0 && sx < width && sy >= 0 && sy < height {
          var b := s.Brightness(sinPhases[k]);
          if b > 0.7 {
            screen[sy, sx] := '*';
          } else if b > 0.4 {
            screen[sy, sx] := '+';
          } else if b > 0.2 {
            screen[sy, sx] := '.';
          }
        }
        assert lights[..k + 1][..k] == lights[..k];
      }
      assert lights[..|stars|] == lights;
    }

    /** `accumulate_particles`: every in-grid cell gains the brightness of
        exactly the particles whose truncated projection is that cell. */
    method AccumulateParticles(intensity: array2<real>, cosSin: seq<(real, real)>)
      requires Valid() && intensity.Length0 == height && intensity.Length1 == width
      requires |cosSin| == |particles|
      modifies intensity
      ensures forall y, x :: 0 <= y < height && 0 <= x < width ==>
        intensity[y, x] == old(intensity[y, x]) + CellIntensity(ParticleLights(cosSin), y, x)
    {
      ghost var lights := ParticleLights(cosSin);
      for k := 0 to |particles|
        invariant forall y, x :: 0 <= y < height && 0 <= x < width ==>
          intensity[y, x] == old(intensity[y, x]) + CellIntensity(lights[..k], y, x)
      {
        var p := particles[k];
        var pos := p.Position(center, aspectRatio, cosSin[k].0, cosSin[k].1);
        var px := Trunc(pos.x);
        var py := Trunc(pos.y);
        if px >= 0 && px < width && py >= 0 && py < height {
          intensity[py, px] := intensity[py, px] + p.brightness;
        }
        assert lights[..k + 1][..k] == lights[..k];
      }
      assert lights[..|particles|] == lights;
    }

    /** `apply_intensity`: every cell whose intensity is above 0.1 takes its
        ramp glyph; every other cell keeps what it held. */
    method ApplyIntensity(screen: array2<char>, intensity: array2<real>)
      requires Valid() && screen.Length0 == height && screen.Length1 == width
      requires intensity.Length0 == height && intensity.Length1 == width
      modifies screen
      ensures forall y, x :: 0 <= y < height && 0 <= x < width ==>
        screen[y, x] == ShadeCell(old(screen[y, x]), intensity[y, x])
    {
      for y := 0 to height
        invariant forall i, j :: 0 <= i < height && 0 <= j < width ==>
          screen[i, j] == if i < y then ShadeCell(old(screen[i, j]), intensity[i, j]) else old(screen[i, j])
      {
        for x := 0 to width
          invariant forall i, j :: 0 <= i < height && 0 <= j < width ==>
            screen[i, j] == if i < y || (i == y && j < x) then ShadeCell(old(screen[i, j]), intensity[i, j])
                            else old(screen[i, j])
        {
          if intensity[y, x] > 0.1 {
            var idx := Trunc(intensity[y, x] * 3.0);
            idx := Clamp(idx, 0, |GRADIENT| - 1);
            screen[y, x] := GRADIENT[idx];
          }
        }
      }
    }

    /** `render_core`: when all three cells fit, the marker `(@)` is drawn
        at the truncated centre; no other cell changes. */
    method RenderCore(screen: array2<char>)
      requires Valid() && screen.Length0 == height && screen.Length1 == width
      modifies screen
      ensures forall y, x :: 0 <= y < height && 0 <= x < width ==>
        screen[y, x] == CoreCell(old(screen[y, x]), y, x, Trunc(center.x), Trunc(center.y), width, height)
      ensures var cx, cy := Trunc(center.x), Trunc(center.y);
        CoreFits(cx, cy, width, height) ==>
          screen[cy, cx - 1] == '(' && screen[cy, cx] == '@' && screen[cy, cx + 1] == ')'
    {
      var cx := Trunc(center.x);
      var cy := Trunc(center.y);
      if cx > 0 && cx < width - 1 && cy >= 0 && cy < height {
        screen[cy, cx] := '@';
        screen[cy, cx - 1] := '(';
        screen[cy, cx + 1] := ')';
      }
    }

    /** `output` (the buffer only): every row followed by a newline, then
        the footer with the truncated seconds. */
    method Output(screen: array2<char>, realElapsedSec: real) returns (buffer: string)
      ensures buffer == Frame(Rows(screen), realElapsedSec)
    {
      ghost var rows := Rows(screen);
      buffer := "";
      for y := 0 to screen.Length0
        invariant buffer == Lines(rows[..y])
      {
        var line := RowOf(screen, y);
        assert line == rows[y];
        assert rows[..y + 1][..y] == rows[..y];
        buffer := buffer + line + "\n";
      }
      assert rows[..screen.Length0] == rows;
      buffer := buffer + "\n Time: " + IntToString(Trunc(realElapsedSec)) + "s";
    }

    /** The star and particle passes of `render` on a fresh blank
        character grid and a fresh zero intensity grid. */
    method Illuminate(cosSin: seq<(real, real)>, sinPhases: seq<real>) returns (screen: array2<char>, intensity: array2<real>)
      requires Valid() && |cosSin| == |particles| && |sinPhases| == |stars|
      ensures fresh(screen) && screen.Length0 == height && screen.Length1 == width
      ensures fresh(intensity) && intensity.Length0 == height && intensity.Length1 == width
      ensures forall y, x :: 0 <= y < height && 0 <= x < width ==>
        screen[y, x] == StarCell(' ', StarLights(sinPhases), y, x)
      ensures forall y, x :: 0 <= y < height && 0 <= x < width ==>
        intensity[y, x] == CellIntensity(ParticleLights(cosSin), y, x)
    {
      screen := new char[height, width]((y, x) => ' ');
      intensity := new real[height, width]((y, x) => 0.0);
      RenderStars(screen, sinPhases);
      AccumulateParticles(intensity, cosSin);
    }

    /** The first three passes of `render`: every cell ends as its star
        glyph shaded by the particle intensity that fell on it. */
    method Shade(cosSin: seq<(real, real)>, sinPhases: seq<real>) returns (screen: array2<char>)
      requires Valid() && |cosSin| == |particles| && |sinPhases| == |stars|
      ensures fresh(screen) && screen.Length0 == height && screen.Length1 == width
      ensures forall y, x :: 0 <= y < height && 0 <= x < width ==>
        screen[y, x] == ShadeCell(StarCell(' ', StarLights(sinPhases), y, x),
                                  CellIntensity(ParticleLights(cosSin), y, x))
    {
      var intensity;
      screen, intensity := Illuminate(cosSin, sinPhases);
      ApplyIntensity(screen, intensity);
    }

    /** The grid part of `render`: the shaded grid with the core pass on
        top. Every cell ends as the composition of the passes. */
    method Rasterise(cosSin: seq<(real, real)>, sinPhases: seq<real>) returns (screen: array2<char>)
      requires Valid() && |cosSin| == |particles| && |sinPhases| == |stars|
      ensures fresh(screen) && screen.Length0 == height && screen.Length1 == width
      ensures forall y, x :: 0 <= y < height && 0 <= x < width ==>
        screen[y, x] == ComposeCell(StarLights(sinPhases), ParticleLights(cosSin), y, x,
                                    Trunc(center.x), Trunc(center.y), width, height)
    {
      screen := Shade(cosSin, sinPhases);
      ghost var starLights := StarLights(sinPhases);
      ghost var particleLights := ParticleLights(cosSin);
      RenderCore(screen);
      assert starLights == StarLights(sinPhases);
      assert particleLights == ParticleLights(cosSin);
    }

    /** `render(real_elapsed_sec)` up to the text buffer handed to the
        terminal: the frame whose every cell is the composition of the
        passes, followed by the footer. */
    method Render(cosSin: seq<(real, real)>, sinPhases: seq<real>, realElapsedSec: real) returns (buffer: string)
      requires Valid() && |cosSin| == |particles| && |sinPhases| == |stars|
      ensures buffer == Frame(ComposeRows(StarLights(sinPhases), ParticleLights(cosSin),
                                          Trunc(center.x), Trunc(center.y), width, height),
                              realElapsedSec)
    {
      var screen := Rasterise(cosSin, sinPhases);
      buffer := Output(screen, realElapsedSec);
      RowsOfComposed(screen, StarLights(sinPhases), ParticleLights(cosSin), Trunc(center.x), Trunc(center.y));
    }
  }
}
