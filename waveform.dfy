/** The input-voltage generator of the DC motor simulation: a pure map from
    simulation time to the voltage applied to the motor terminals, for the
    step, triangle and sine shapes, and 0 for any other kind.
    Floating point is modelled by exact reals. */
module Waveform {

  /** `np.pi` to the digits Python prints. */
  const Pi: real := 3.141592653589793

  /** The waveform selection. `kind` is the name the signal is chosen by
      ("step", "triangle", "sin"); any other name is accepted too. */
  datatype Signal = Signal(kind: string, amp: real, freq: real, duration: real)

  /** The signal can be evaluated without an error: only a triangle with zero
      frequency fails, dividing by zero in `1 / freq`. */
  predicate Defined(s: Signal) {
    s.kind == "triangle" ==> s.freq != 0.0
  }

  /** Python's `x % p` on floats: the floored remainder, which carries the
      sign of the divisor and differs from `x` by a whole multiple of `p`. */
  function FMod(x: real, p: real): (r: real)
    requires p != 0.0
    ensures p > 0.0 ==> 0.0 <= r < p
    ensures p < 0.0 ==> p < r <= 0.0
    ensures ((x - r) / p).Floor as real == (x - r) / p
  {
    FloorRemainder(x, p);
    x - p * (x / p).Floor as real
  }

  /** The fraction of a period elapsed at time `t`:
      `(t % (1 / freq)) * freq`, always in [0, 1). */
  function Phase(t: real, freq: real): (ph: real)
    requires freq != 0.0
    ensures 0.0 <= ph < 1.0
  {
    var m := FMod(t, 1.0 / freq);
    PhaseRange(freq, m);
    m * freq
  }

  /** One period of the unit triangle, `1 - 2 * |phase - 0.5|`: 0 at the
      ends of the period, 1 in the middle. */
  function Shape(phase: real): (f: real)
    requires 0.0 <= phase < 1.0
    ensures 0.0 <= f <= 1.0
  {
    1.0 - 2.0 * Abs(phase - 0.5)
  }

  /** The triangle's value once the phase is known: between 0 and `amp`. */
  function TriangleAt(phase: real, amp: real): (r: real)
    requires 0.0 <= phase < 1.0
    ensures 0.0 <= amp ==> 0.0 <= r <= amp
    ensures amp <= 0.0 ==> amp <= r <= 0.0
  {
    var f := Shape(phase);
    ScaledBetween(amp, f);
    Scale(amp, f)
  }

  /** The triangle branch, `amp * (1 - 2 * |(t % (1 / freq)) * freq - 0.5|)`.
      It lies between 0 and `amp`; it does not swing to `-amp`. */
  function Triangle(t: real, amp: real, freq: real): (r: real)
    requires freq != 0.0
    ensures 0.0 <= amp ==> 0.0 <= r <= amp
    ensures amp <= 0.0 ==> amp <= r <= 0.0
  {
    TriangleAt(Phase(t, freq), amp)
  }

  /** The argument of the sine, `2 * pi * freq * t`. */
  function Angle(freq: real, t: real): (x: real) {
    2.0 * Pi * freq * t
  }

  /** `input_voltage(t, type, amp, freq, duration)`, with the sine function
      passed in as `sin`. */
  function InputVoltage(t: real, s: Signal, sin: real -> real): (v: real)
    requires Defined(s)
    ensures s.kind == "step" ==> (v == s.amp <== t < s.duration)
    ensures s.kind == "step" ==> (v == 0.0 <== t >= s.duration)
    ensures s.kind == "triangle" && 0.0 <= s.amp ==> 0.0 <= v <= s.amp
    ensures s.kind == "triangle" && s.amp <= 0.0 ==> s.amp <= v <= 0.0
    ensures s.kind !in {"step", "triangle", "sin"} ==> v == 0.0
  {
    if s.kind == "step" then
      (if t < s.duration then s.amp else 0.0)
    else if s.kind == "triangle" then
      Triangle(t, s.amp, s.freq)
    else if s.kind == "sin" then
      Scale(s.amp, sin(Angle(s.freq, t)))
    else
      0.0
  }

  // ---------------------------------------------------------------------
  // Properties of the waveforms

  /** The step is discontinuous at `t == duration` and takes the value after
      the step there; before it, the value is the amplitude. */
  lemma StepBoundary(s: Signal, sin: real -> real)
    requires s.kind == "step"
    ensures InputVoltage(s.duration, s, sin) == 0.0
    ensures forall t :: t < s.duration ==> InputVoltage(t, s, sin) == s.amp
  {}

  /** Any name other than the three recognised ones is accepted, with any
      parameters, and yields 0. */
  lemma UnknownKindIsZero(s: Signal, t: real, sin: real -> real)
    requires s.kind != "step" && s.kind != "triangle" && s.kind != "sin"
    ensures Defined(s) && InputVoltage(t, s, sin) == 0.0
  {}

  /** Shifting the argument by a whole number of periods does not change the
      floored remainder. */
  lemma {:induction false} FModShift(x: real, p: real, k: int)
    requires p != 0.0
    ensures FMod(x + k as real * p, p) == FMod(x, p)
  {
    var q := (x / p).Floor;
    var x' := x + k as real * p;
    DivShift(x, p, k);
    FloorShift(x / p, k);
    assert (x' / p).Floor == q + k;
    MulAddInt(p, q, k);
    assert FMod(x', p) == x' - p * (q + k) as real;
  }

  /** The phase repeats after every whole number of periods. */
  lemma {:induction false} PhaseShift(t: real, freq: real, k: int)
    requires freq != 0.0
    ensures Phase(t + k as real / freq, freq) == Phase(t, freq)
  {
    var period := 1.0 / freq;
    DivAsMul(k as real, freq);
    assert t + k as real / freq == t + k as real * period;
    FModShift(t, period, k);
  }

  /** The triangle wave is periodic with period `1 / freq`. */
  lemma {:induction false} TrianglePeriodic(t: real, amp: real, freq: real, k: int)
    requires freq != 0.0
    ensures Triangle(t + k as real / freq, amp, freq) == Triangle(t, amp, freq)
  {
    PhaseShift(t, freq, k);
  }

  /** At the start of every period (`t` a whole multiple of `1 / freq`) the
      triangle is 0. */
  lemma {:induction false} TriangleZeroAtPeriodStart(amp: real, freq: real, k: int)
    requires freq != 0.0
    ensures Triangle(k as real / freq, amp, freq) == 0.0
  {
    PhaseShift(0.0, freq, k);
    FModZero(1.0 / freq);
    assert Phase(0.0, freq) == 0.0;
    assert 0.0 + k as real / freq == k as real / freq;
    assert Shape(0.0) == 0.0;
    assert Scale(amp, 0.0) == 0.0;
  }

  /** Half a period after each period start the triangle reaches its peak,
      the amplitude. */
  lemma {:induction false} TrianglePeakAtHalfPeriod(amp: real, freq: real, k: int)
    requires freq != 0.0
    ensures Triangle(k as real / freq + 0.5 / freq, amp, freq) == amp
  {
    HalfPeriodPhase(freq);
    PhaseShift(0.5 / freq, freq, k);
    assert 0.5 / freq + k as real / freq == k as real / freq + 0.5 / freq;
    assert Shape(0.5) == 1.0;
    assert Scale(amp, 1.0) == amp;
  }

  /** Over the first half of a period the triangle ramps up linearly from
      0 to `amp`. */
  lemma TriangleRampUp(t: real, amp: real, freq: real)
    requires freq > 0.0 && 0.0 <= t <= 0.5 / freq
    ensures Triangle(t, amp, freq) == 2.0 * amp * freq * t
  {
    HalfPeriodBounds(t, freq);
    PhaseInFirstPeriod(t, freq);
    var ph := t * freq;
    ShapeRising(ph);
    ScaleDouble(amp, ph);
    assert amp * ph == amp * freq * t;
  }

  /** Over the second half of a period the triangle ramps down linearly
      from `amp` towards 0. */
  lemma TriangleRampDown(t: real, amp: real, freq: real)
    requires freq > 0.0 && 0.5 / freq <= t < 1.0 / freq
    ensures Triangle(t, amp, freq) == 2.0 * amp * (1.0 - freq * t)
  {
    HalfPeriodBounds(t, freq);
    PhaseInFirstPeriod(t, freq);
    var ph := t * freq;
    ShapeFalling(ph);
    ScaleDouble(amp, 1.0 - ph);
  }

  /** A triangle signal is 0 at `t = 0` and equals its amplitude half a
      period later. */
  lemma TriangleSignalEndpoints(s: Signal, sin: real -> real)
    requires s.kind == "triangle" && s.freq != 0.0
    ensures InputVoltage(0.0, s, sin) == 0.0
    ensures InputVoltage(0.5 / s.freq, s, sin) == s.amp
  {
    TriangleZeroAtPeriodStart(s.amp, s.freq, 0);
    TrianglePeakAtHalfPeriod(s.amp, s.freq, 0);
    assert 0 as real / s.freq == 0.0;
    assert 0.0 + 0.5 / s.freq == 0.5 / s.freq;
  }

  /** The voltage is proportional to the amplitude, for every kind. */
  lemma AmplitudeScales(t: real, s: Signal, c: real, sin: real -> real)
    requires Defined(s)
    ensures Defined(s.(amp := c * s.amp))
    ensures InputVoltage(t, s.(amp := c * s.amp), sin) == c * InputVoltage(t, s, sin)
  {
    var s' := s.(amp := c * s.amp);
    if s.kind == "triangle" {
      var f := Shape(Phase(t, s.freq));
      assert InputVoltage(t, s', sin) == Scale(c * s.amp, f);
      assert InputVoltage(t, s, sin) == Scale(s.amp, f);
      ScaleAssoc(c, s.amp, f);
    } else if s.kind == "sin" {
      var x := sin(Angle(s.freq, t));
      assert InputVoltage(t, s', sin) == Scale(c * s.amp, x);
      assert InputVoltage(t, s, sin) == Scale(s.amp, x);
      ScaleAssoc(c, s.amp, x);
    }
  }

  /** The sine wave stays within its amplitude wherever the sine it is given
      stays within [-1, 1]. */
  lemma SineWithinAmplitude(t: real, s: Signal, sin: real -> real)
    requires s.kind == "sin"
    requires -1.0 <= sin(Angle(s.freq, t)) <= 1.0
    ensures -Abs(s.amp) <= InputVoltage(t, s, sin) <= Abs(s.amp)
  {
    var x := sin(Angle(s.freq, t));
    assert InputVoltage(t, s, sin) == Scale(s.amp, x);
    ScaleUnit(s.amp);
    if s.amp > 0.0 {
      ScaleMono(s.amp, -1.0, x);
      ScaleMono(s.amp, x, 1.0);
    } else if s.amp < 0.0 {
      ScaleAnti(s.amp, -1.0, x);
      ScaleAnti(s.amp, x, 1.0);
    }
  }

  /** With zero amplitude every kind of signal is identically 0. */
  lemma ZeroAmplitudeIsZero(t: real, s: Signal, sin: real -> real)
    requires Defined(s) && s.amp == 0.0
    ensures InputVoltage(t, s, sin) == 0.0
  {
    AmplitudeScales(t, s, 0.0, sin);
    assert s.(amp := 0.0 * s.amp) == s;
  }

  // ---------------------------------------------------------------------
  // Arithmetic helpers. Each states one step of real arithmetic in a small
  // context of its own; `Scale` names a product that a proof has to treat
  // as a unit.

  /** `a * f`, the amplitude scaling of a waveform. */
  function Scale(a: real, f: real): (r: real) {
    a * f
  }

  /** The range of `x - p * floor(x / p)`, from `floor(y) <= y < floor(y) + 1`. */
  lemma FloorRemainder(x: real, p: real)
    requires p != 0.0
    ensures var r := x - p * (x / p).Floor as real;
      (p > 0.0 ==> 0.0 <= r < p) && (p < 0.0 ==> p < r <= 0.0) &&
      (x - r) / p == (x / p).Floor as real
  {
    var q := (x / p).Floor as real;
    assert (x - (x - p * q)) / p == q;
    if p > 0.0 {
      FloorRemainderPos(x, p);
    } else {
      FloorRemainderNeg(x, p);
    }
  }

  lemma FloorRemainderPos(x: real, p: real)
    requires p > 0.0
    ensures var r := x - p * (x / p).Floor as real; 0.0 <= r < p
  {
    var y := x / p;
    var q := y.Floor as real;
    assert p * y == x;
    assert p * (q + 1.0) == p * q + p;
    MulLeft(p, q, y);
    MulLeft(p, y, q + 1.0);
    assert x < p * (q + 1.0);
  }

  lemma FloorRemainderNeg(x: real, p: real)
    requires p < 0.0
    ensures var r := x - p * (x / p).Floor as real; p < r <= 0.0
  {
    var y := x / p;
    var q := y.Floor as real;
    assert p * y == x;
    assert p * (q + 1.0) == p * q + p;
    MulLeftNeg(p, q, y);
    MulLeftNeg(p, y, q + 1.0);
    assert x > p * (q + 1.0);
  }

  /** A remainder modulo `1 / freq`, times `freq`, is a fraction in [0, 1). */
  lemma PhaseRange(freq: real, m: real)
    requires freq != 0.0
    requires freq > 0.0 ==> 0.0 <= m < 1.0 / freq
    requires freq < 0.0 ==> 1.0 / freq < m <= 0.0
    ensures 0.0 <= m * freq < 1.0
  {
    var period := 1.0 / freq;
    assert freq * period == 1.0;
    if freq > 0.0 {
      MulLeft(freq, 0.0, m);
      MulLeft(freq, m, period);
    } else {
      MulLeftNeg(freq, m, 0.0);
      MulLeftNeg(freq, period, m);
    }
    LessThenEqual(freq * m, freq * period, 1.0);
  }

  /** The phase at half a period is one half. */
  lemma HalfPeriodPhase(freq: real)
    requires freq != 0.0
    ensures Phase(0.5 / freq, freq) == 0.5
  {
    var period := 1.0 / freq;
    var h := 0.5 / freq;
    assert h / period == 0.5;
    assert (h / period).Floor == 0;
    assert FMod(h, period) == h;
    assert h * freq == 0.5;
  }

  lemma FModZero(p: real)
    requires p != 0.0
    ensures FMod(0.0, p) == 0.0
  {
    assert (0.0 / p).Floor == 0;
  }

  /** Within the first period the phase is the elapsed time in periods. */
  lemma PhaseInFirstPeriod(t: real, freq: real)
    requires freq > 0.0 && 0.0 <= t < 1.0 / freq
    ensures Phase(t, freq) == t * freq
  {
    var p := 1.0 / freq;
    DivLessOne(t, p);
    assert (t / p).Floor == 0;
    assert FMod(t, p) == t;
  }

  /** Where `t` lies against half a period and a period, its phase lies
      against one half and one. */
  lemma HalfPeriodBounds(t: real, freq: real)
    requires freq > 0.0
    ensures t <= 0.5 / freq <==> t * freq <= 0.5
    ensures t < 1.0 / freq <==> t * freq < 1.0
    ensures 0.0 <= t <==> 0.0 <= t * freq
  {
    CompareDiv(t, 0.5, freq);
    CompareDiv(t, 1.0, freq);
    CompareDiv(t, 0.0, freq);
  }

  /** Comparing with `c / freq` is comparing the product with `c`. */
  lemma CompareDiv(t: real, c: real, freq: real)
    requires freq > 0.0
    ensures t <= c / freq <==> t * freq <= c
    ensures t < c / freq <==> t * freq < c
  {
    assert freq * (c / freq) == c;
    if t <= c / freq {
      MulLeft(freq, t, c / freq);
    } else {
      MulLeft(freq, c / freq, t);
    }
  }

  /** The unit triangle rises as `2*phase` over the first half. */
  lemma ShapeRising(ph: real)
    requires 0.0 <= ph <= 0.5
    ensures Shape(ph) == 2.0 * ph
  {}

  /** The unit triangle falls as `2*(1 - phase)` over the second half. */
  lemma ShapeFalling(ph: real)
    requires 0.5 <= ph < 1.0
    ensures Shape(ph) == 2.0 * (1.0 - ph)
  {}

  lemma ScaleDouble(a: real, x: real)
    ensures Scale(a, 2.0 * x) == 2.0 * (a * x)
  {}

  /** A quotient of a non-negative number by a larger one is a fraction. */
  lemma DivLessOne(x: real, p: real)
    requires 0.0 <= x < p
    ensures 0.0 <= x / p < 1.0
  {}

  /** `a * f` lies between 0 and `a` when `f` is a fraction in [0, 1]. */
  lemma ScaledBetween(a: real, f: real)
    requires 0.0 <= f <= 1.0
    ensures 0.0 <= a ==> 0.0 <= Scale(a, f) <= a
    ensures a <= 0.0 ==> a <= Scale(a, f) <= 0.0
  {
    ScaleUnit(a);
    if a > 0.0 {
      ScaleMono(a, 0.0, f);
      ScaleMono(a, f, 1.0);
    } else if a < 0.0 {
      ScaleAnti(a, 0.0, f);
      ScaleAnti(a, f, 1.0);
    }
  }

  lemma ScaleUnit(a: real)
    ensures Scale(a, 0.0) == 0.0 && Scale(a, 1.0) == a && Scale(a, -1.0) == -a
    ensures forall f :: Scale(0.0, f) == 0.0
  {}

  lemma ScaleMono(p: real, a: real, b: real)
    requires p > 0.0 && a <= b
    ensures Scale(p, a) <= Scale(p, b)
  {
    MulLeft(p, a, b);
  }

  lemma ScaleAnti(p: real, a: real, b: real)
    requires p < 0.0 && a <= b
    ensures Scale(p, a) >= Scale(p, b)
  {
    MulLeftNeg(p, a, b);
  }

  lemma ScaleAssoc(c: real, a: real, f: real)
    ensures Scale(c * a, f) == c * Scale(a, f)
  {
    assert (c * a) * f == c * (a * f);
  }

  lemma MulLeft(p: real, a: real, b: real)
    requires p > 0.0 && a <= b
    ensures p * a <= p * b && (a < b ==> p * a < p * b)
  {}

  lemma MulLeftNeg(p: real, a: real, b: real)
    requires p < 0.0 && a <= b
    ensures p * a >= p * b && (a < b ==> p * a > p * b)
  {}

  /** A linear step the solver misses when both sides are products. */
  lemma LessThenEqual(a: real, b: real, c: real)
    requires a < b && b == c
    ensures a < c
  {}

  lemma DivShift(x: real, p: real, k: int)
    requires p != 0.0
    ensures (x + k as real * p) / p == x / p + k as real
  {}

  lemma FloorShift(y: real, k: int)
    ensures (y + k as real).Floor == y.Floor + k
  {}

  lemma MulAddInt(p: real, q: int, k: int)
    ensures p * (q + k) as real == p * q as real + k as real * p
  {}

  lemma DivAsMul(a: real, b: real)
    requires b != 0.0
    ensures a / b == a * (1.0 / b)
  {}

  function Abs(x: real): (r: real)
    ensures r >= 0.0 && (r == x || r == -x)
  {
    if x < 0.0 then -x else x
  }
}
