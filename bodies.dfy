/** The two moving bodies of main.cpp: `Particle` (a point on an orbit
    around the galaxy's centre) and `Star` (a fixed background point that
    twinkles). Both are updated in place once per simulation step. The
    trigonometric values they need (`cos`/`sin` of the particle's angle,
    `sin` of the star's phase) are parameters. */
module Bodies {
  import opened Numeric
  import opened Vectors

  /** The particle's wrap rule (`Particle::update`, main.cpp:93-94): at most
      one turn is taken off when the angle is above 2*pi, then at most one
      turn is added when it is below 0. The test is `>`, so exactly 2*pi
      is kept. */
  function WrapAngle(a: real): (r: real)
    ensures r == a || r == a - TWO_PI || r == a + TWO_PI
    ensures 0.0 <= a <= TWO_PI ==> r == a
    ensures -TWO_PI <= a <= 2.0 * TWO_PI ==> 0.0 <= r <= TWO_PI
    ensures a < -TWO_PI ==> r < 0.0
    ensures TWO_PI < a ==> r == a - TWO_PI
    ensures a < 0.0 ==> r == a + TWO_PI
  {
    var a1 := if a > TWO_PI then a - TWO_PI else a;
    if a1 < 0.0 then a1 + TWO_PI else a1
  }

  /** The star's wrap rule (`Star::update`, main.cpp:113): only an upward
      wrap; a phase below 0 is left as it is. */
  function WrapPhase(p: real): (r: real)
    ensures r == p || r == p - TWO_PI
    ensures p <= TWO_PI ==> r == p
    ensures 0.0 <= p <= 2.0 * TWO_PI ==> 0.0 <= r <= TWO_PI
    ensures TWO_PI < p ==> r == p - TWO_PI
  {
    if p > TWO_PI then p - TWO_PI else p
  }

  /** The angle after one particle step of `dt`: the advanced angle,
      shifted by at most one turn, and kept within the turn when it starts
      within it and the step is at most a turn either way. */
  function StepAngle(angle: real, angularVelocity: real, dt: real): (r: real)
    ensures var a := angle + angularVelocity * dt; r == a || r == a - TWO_PI || r == a + TWO_PI
    ensures 0.0 <= angle <= TWO_PI && -TWO_PI <= angularVelocity * dt <= TWO_PI ==> 0.0 <= r <= TWO_PI
  {
    WrapAngle(angle + angularVelocity * dt)
  }

  /** The phase after one star step of `dt`: the advanced phase, lowered
      by at most one turn, and kept within the turn when it starts within
      it and the step is between 0 and a turn. */
  function StepPhase(phase: real, speed: real, dt: real): (r: real)
    ensures var p := phase + speed * dt; r == p || r == p - TWO_PI
    ensures 0.0 <= phase <= TWO_PI && 0.0 <= speed * dt <= TWO_PI ==> 0.0 <= r <= TWO_PI
  {
    WrapPhase(phase + speed * dt)
  }

  /** The angle of a particle after `Particle.Update` with each of `dts`
      in turn. `Update` leaves the angular velocity as it is, so every step
      uses the same one. */
  function AngleAfter(angle: real, angularVelocity: real, dts: seq<real>): real
    decreases |dts|
  {
    if |dts| == 0 then angle
    else AngleAfter(StepAngle(angle, angularVelocity, dts[0]), angularVelocity, dts[1..])
  }

  /** Any number of particle steps, each at most a turn either way, never
      leave the turn: the angle does not grow without bound. */
  lemma {:induction false} AngleAfterStaysInTurn(angle: real, angularVelocity: real, dts: seq<real>)
    requires 0.0 <= angle <= TWO_PI
    requires forall k :: 0 <= k < |dts| ==> -TWO_PI <= angularVelocity * dts[k] <= TWO_PI
    ensures 0.0 <= AngleAfter(angle, angularVelocity, dts) <= TWO_PI
    decreases |dts|
  {
    if |dts| > 0 {
      AngleAfterStaysInTurn(StepAngle(angle, angularVelocity, dts[0]), angularVelocity, dts[1..]);
    }
  }

  /** The phase of a star after `Star.Update` with each of `dts` in turn,
      at its unchanging speed. */
  function PhaseAfter(phase: real, speed: real, dts: seq<real>): real
    decreases |dts|
  {
    if |dts| == 0 then phase
    else PhaseAfter(StepPhase(phase, speed, dts[0]), speed, dts[1..])
  }

  /** Any number of star steps, each between 0 and a turn, never leave the
      turn. */
  lemma {:induction false} PhaseAfterStaysInTurn(phase: real, speed: real, dts: seq<real>)
    requires 0.0 <= phase <= TWO_PI
    requires forall k :: 0 <= k < |dts| ==> 0.0 <= speed * dts[k] <= TWO_PI
    ensures 0.0 <= PhaseAfter(phase, speed, dts) <= TWO_PI
    decreases |dts|
  {
    if |dts| > 0 {
      PhaseAfterStaysInTurn(StepPhase(phase, speed, dts[0]), speed, dts[1..]);
    }
  }

  /** The twinkle factor `0.3 + 0.7 * (0.5 + 0.5 * s)` of
      `Star::get_brightness` for `s = sin(phase)`. */
  function Twinkle(sinPhase: real): (f: real)
    ensures -1.0 <= sinPhase <= 1.0 ==> 0.3 <= f <= 1.0
    ensures sinPhase == 1.0 ==> f == 1.0
    ensures sinPhase == -1.0 ==> f == 0.3
  {
    0.3 + 0.7 * (0.5 + 0.5 * sinPhase)
  }

  /** Scaling a non-negative base by a factor in [0.3, 1] stays within
      [0.3 * base, base]. */
  lemma ScaleBetween(base: real, f: real)
    ensures base >= 0.0 && 0.3 <= f <= 1.0 ==> 0.3 * base <= base * f <= base
    ensures base > 0.0 && 0.3 <= f ==> base * f > 0.0
  {
    if base >= 0.0 && 0.3 <= f {
      assert base * (f - 0.3) >= 0.0;
      if f <= 1.0 {
        assert base * (1.0 - f) >= 0.0;
      }
    }
  }

  /** `Particle` of main.cpp:81-103. `pos` is declared there and never
      assigned after default construction. */
  class Particle {
    var pos: Vec2
    var angle: real
    var radius: real
    var angularVelocity: real
    var brightness: real

    constructor (r: real, a: real, av: real, b: real)
      ensures pos == Vec2(0.0, 0.0)
      ensures radius == r && angle == a && angularVelocity == av && brightness == b
    {
      pos := Vec2(0.0, 0.0);
      radius, angle, angularVelocity, brightness := r, a, av, b;
    }

    /** `update(dt)`: advance the angle and wrap it; nothing else changes. */
    method Update(dt: real)
      modifies this
      ensures angle == StepAngle(old(angle), old(angularVelocity), dt)
      ensures pos == old(pos) && radius == old(radius)
      ensures angularVelocity == old(angularVelocity) && brightness == old(brightness)
    {
      angle := angle + angularVelocity * dt;
      if angle > TWO_PI {
        angle := angle - TWO_PI;
      }
      if angle < 0.0 {
        angle := angle + TWO_PI;
      }
    }

    /** `get_position(center, aspect)`, given `cosAngle = cos(angle)` and
        `sinAngle = sin(angle)`. When these are the cosine and sine of one
        angle, the point lies on the ellipse of half-axes `radius * aspect`
        and `radius` around the centre. */
    function Position(center: Vec2, aspect: real, cosAngle: real, sinAngle: real): (p: Vec2)
      reads this
      ensures cosAngle * cosAngle + sinAngle * sinAngle == 1.0 ==>
        (p.x - center.x) * (p.x - center.x) + aspect * aspect * (p.y - center.y) * (p.y - center.y)
          == aspect * aspect * radius * radius
    {
      OrbitIdentity(radius, aspect, cosAngle, sinAngle);
      Vec2(center.x + radius * cosAngle * aspect, center.y + radius * sinAngle)
    }
  }

  /** The ellipse identity behind `Particle.Position`: with `c` and `s`
      on the unit circle, `(r c a, r s)` satisfies
      `X^2 + a^2 Y^2 = a^2 r^2`. */
  lemma OrbitIdentity(r: real, a: real, c: real, s: real)
    ensures c * c + s * s == 1.0 ==>
      (r * c * a) * (r * c * a) + a * a * (r * s) * (r * s) == a * a * r * r
  {
    calc {
      (r * c * a) * (r * c * a) + a * a * (r * s) * (r * s);
      a * a * r * r * (c * c + s * s);
    }
  }

  /** The two reference angles: at angle 0 the particle sits `radius * aspect`
      to the right of the centre; at a quarter turn, `radius` below it. */
  lemma PositionAtReferenceAngles(p: Particle, center: Vec2, aspect: real)
    ensures p.Position(center, aspect, 1.0, 0.0) == center.Add(Vec2(p.radius * aspect, 0.0))
    ensures p.Position(center, aspect, 0.0, 1.0) == center.Add(Vec2(0.0, p.radius))
  {
  }

  /** `p` has taken one `update(dt)` step between the two states: the angle
      advanced and wrapped, every other field as it was. */
  twostate predicate ParticleAdvanced(p: Particle, dt: real)
    reads p
  {
    p.angle == StepAngle(old(p.angle), old(p.angularVelocity), dt) &&
    p.pos == old(p.pos) && p.radius == old(p.radius) &&
    p.angularVelocity == old(p.angularVelocity) && p.brightness == old(p.brightness)
  }

  /** `s` has taken one `update(dt)` step between the two states. */
  twostate predicate StarAdvanced(s: Star, dt: real)
    reads s
  {
    s.phase == StepPhase(old(s.phase), old(s.speed), dt) &&
    s.pos == old(s.pos) && s.speed == old(s.speed) && s.baseBrightness == old(s.baseBrightness)
  }

  /** `Star` of main.cpp:105-119 (an aggregate whose fields are assigned
      one by one when it is created). */
  class Star {
    var pos: Vec2
    var phase: real
    var speed: real
    var baseBrightness: real

    constructor (position: Vec2, ph: real, sp: real, base: real)
      ensures pos == position && phase == ph && speed == sp && baseBrightness == base
    {
      pos, phase, speed, baseBrightness := position, ph, sp, base;
    }

    /** `update(dt)`: advance the phase and wrap it upward only; nothing
        else changes. */
    method Update(dt: real)
      modifies this
      ensures phase == StepPhase(old(phase), old(speed), dt)
      ensures pos == old(pos) && speed == old(speed) && baseBrightness == old(baseBrightness)
    {
      phase := phase + speed * dt;
      if phase > TWO_PI {
        phase := phase - TWO_PI;
      }
    }

    /** `get_brightness()`, given `sinPhase = sin(phase)`: between 30% and
        100% of a non-negative base brightness. */
    function Brightness(sinPhase: real): (b: real)
      reads this
      ensures baseBrightness >= 0.0 && -1.0 <= sinPhase <= 1.0 ==>
        0.3 * baseBrightness <= b <= baseBrightness
    {
      var b0, f := baseBrightness, Twinkle(sinPhase);
      ScaleBetween(b0, f);
      assert b0 >= 0.0 && -1.0 <= sinPhase <= 1.0 ==> 0.3 * b0 <= b0 * f <= b0;
      b0 * f
    }
  }

  /** The extremes of a star's brightness, beyond the bounds that
      `Star.Brightness` states: the base at the crest of the sine, 30% of
      it at the trough, and never dark when the base is lit. */
  lemma StarBrightnessBounds(s: Star, sinPhase: real)
    requires s.baseBrightness >= 0.0 && -1.0 <= sinPhase <= 1.0
    ensures sinPhase == 1.0 ==> s.Brightness(sinPhase) == s.baseBrightness
    ensures sinPhase == -1.0 ==> s.Brightness(sinPhase) == 0.3 * s.baseBrightness
    ensures s.baseBrightness > 0.0 ==> s.Brightness(sinPhase) > 0.0
  {
    var b, f := s.baseBrightness, Twinkle(sinPhase);
    assert 0.3 <= f <= 1.0;
    ScaleBetween(b, f);
    assert 0.3 * b <= b * f <= b;
    assert s.Brightness(sinPhase) == b * f;
  }
}
