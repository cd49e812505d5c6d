/** The motor state integrator: one run of explicit (forward) Euler
    integration of the brushed DC motor's two state equations

      di/dt     = (V(t) - R*i - K_e*omega) / L
      domega/dt = (K_T*i - B*omega) / J

    on the uniform time grid 0, dt, 2*dt, ... below t_max, driven by the
    input voltage of the waveform generator. Reals stand for floats. */
module Motor {
  import opened Waveform

  /** The motor's electrical and mechanical constants. */
  datatype Params = Params(R: real, L: real, K_T: real, K_e: real, J: real, B: real)

  /** The integrator's carried state: current and angular velocity. */
  datatype State = State(i: real, omega: real)

  // ---------------------------------------------------------------------
  // The time grid

  /** The `n`-th point of the grid, `n * dt`, lies before the stop value
      `t_max` in the direction of the step. */
  predicate OnGrid(n: nat, t_max: real, dt: real) {
    if dt > 0.0 then n as real * dt < t_max else n as real * dt > t_max
  }

  /** The smallest integer not below `y`. */
  function Ceil(y: real): (c: int)
    ensures c as real >= y && (c - 1) as real < y
  {
    -((-y).Floor)
  }

  /** The length of `np.arange(0, t_max, dt)`: `ceil(t_max / dt)`, or 0 when
      that is not positive. */
  function GridLength(t_max: real, dt: real): (n: nat)
    requires dt != 0.0
    ensures n == 0 <==> t_max / dt <= 0.0
    ensures n > 0 ==> (n - 1) as real < t_max / dt <= n as real
  {
    var c := Ceil(t_max / dt);
    if c <= 0 then 0 else c
  }

  /** The grid has exactly the points that lie before `t_max`: index `n` is
      on it if and only if `n * dt` is on the near side of `t_max`. */
  lemma {:induction false} GridLengthCounts(t_max: real, dt: real, n: nat)
    requires dt != 0.0
    ensures n < GridLength(t_max, dt) <==> OnGrid(n, t_max, dt)
  {
    var y := t_max / dt;
    assert n < GridLength(t_max, dt) <==> n as real < y;
    if dt > 0.0 {
      DivLessPos(n as real, t_max, dt);
    } else {
      DivLessNeg(n as real, t_max, dt);
    }
  }

  /** With the default settings (`t_max = 5`, `dt = 0.001`) there are 5000
      samples. */
  lemma DefaultGridLength()
    ensures GridLength(5.0, 0.001) == 5000
  {
    assert 5.0 / 0.001 == 5000.0;
  }

  /** The `n`-th point of the grid, the time of sample `n`. */
  function GridPoint(n: nat, dt: real): (t: real) {
    n as real * dt
  }

  // ---------------------------------------------------------------------
  // One Euler step and the run it generates

  /** The rate of change of the current at state `st` under voltage `V`
      (`di_dt`). */
  function CurrentRate(p: Params, st: State, V: real): (di_dt: real)
    requires p.L != 0.0
    ensures p.L * di_dt == V - p.R * st.i - p.K_e * st.omega
  {
    (V - p.R * st.i - p.K_e * st.omega) / p.L
  }

  /** The rate of change of the angular velocity at state `st`
      (`domega_dt`). */
  function SpeedRate(p: Params, st: State): (domega_dt: real)
    requires p.J != 0.0
    ensures p.J * domega_dt == p.K_T * st.i - p.B * st.omega
  {
    (p.K_T * st.i - p.B * st.omega) / p.J
  }

  /** One forward-Euler update of a quantity changing at `rate` over `dt`. */
  function Advance(x: real, rate: real, dt: real): (y: real) {
    x + rate * dt
  }

  /** One explicit Euler step from `st` under input voltage `V`. Both rates
      are taken at the old state: the angular acceleration uses the current
      from before the step. */
  function EulerStep(p: Params, st: State, V: real, dt: real): (next: State)
    requires p.L != 0.0 && p.J != 0.0
    ensures st == State(0.0, 0.0) && V == 0.0 ==> next == st
  {
    State(Advance(st.i, CurrentRate(p, st, V), dt), Advance(st.omega, SpeedRate(p, st), dt))
  }

  /** The step is a forward difference of the motor equations: over a step
      of length `dt` each component changes at exactly the rate the
      equations give at the old state. */
  lemma EulerStepSlopes(p: Params, st: State, V: real, dt: real)
    requires p.L != 0.0 && p.J != 0.0 && dt != 0.0
    ensures var next := EulerStep(p, st, V, dt);
      (next.i - st.i) / dt == (V - p.R * st.i - p.K_e * st.omega) / p.L &&
      (next.omega - st.omega) / dt == (p.K_T * st.i - p.B * st.omega) / p.J
  {
    var next := EulerStep(p, st, V, dt);
    ForwardDifference(st.i, CurrentRate(p, st, V), dt);
    ForwardDifference(st.omega, SpeedRate(p, st), dt);
    assert next.i == Advance(st.i, CurrentRate(p, st, V), dt);
    assert next.omega == Advance(st.omega, SpeedRate(p, st), dt);
  }

  /** The voltage recorded at sample `n`: 0 at the anchor index 0, the
      waveform at the grid time of `n` after it. */
  function SampledVoltage(n: nat, s: Signal, dt: real, sin: real -> real): (v: real)
    requires n == 0 || Defined(s)
  {
    if n == 0 then 0.0 else InputVoltage(GridPoint(n, dt), s, sin)
  }

  /** The model's no-error condition up to sample `n`. Nothing is divided
      at index 0. After it, `L` and `J` must be non-zero and the signal
      defined. For `L` this is stricter than the source for triangle and sine
      signals, whose `numpy` voltages divide to infinity or NaN instead of
      raising. */
  predicate Computable(n: nat, p: Params, s: Signal) {
    n == 0 || (p.L != 0.0 && p.J != 0.0 && Defined(s))
  }

  /** The state at sample `n`: 0 at the anchor, then one Euler step per
      sample, each driven by that sample's voltage. */
  function EulerState(n: nat, p: Params, s: Signal, dt: real, sin: real -> real): (st: State)
    requires Computable(n, p, s)
  {
    if n == 0 then State(0.0, 0.0)
    else EulerStep(p, EulerState(n - 1, p, s, dt, sin), SampledVoltage(n, s, dt, sin), dt)
  }

  // ---------------------------------------------------------------------
  // The simulation loop

  /** `simulate_motor` up to its plotting: the grid and three zeroed traces,
      then the Euler loop. Returns the grid and the voltage, current and
      angular-velocity traces. */
  method SimulateMotor(p: Params, s: Signal, t_max: real, dt: real, sin: real -> real)
    returns (t_values: array<real>, v_values: array<real>, i_values: array<real>, omega_values: array<real>)
    requires dt != 0.0
    requires GridLength(t_max, dt) > 1 ==> Computable(1, p, s)
    ensures fresh(t_values) && fresh(v_values) && fresh(i_values) && fresh(omega_values)
    ensures t_values.Length == GridLength(t_max, dt)
    ensures v_values.Length == t_values.Length && i_values.Length == t_values.Length
    ensures omega_values.Length == t_values.Length
    ensures forall n :: 0 <= n < t_values.Length ==> t_values[n] == GridPoint(n, dt)
    ensures t_values.Length > 0 ==> v_values[0] == 0.0 && i_values[0] == 0.0 && omega_values[0] == 0.0
    ensures forall n :: 1 <= n < v_values.Length ==> v_values[n] == InputVoltage(GridPoint(n, dt), s, sin)
    ensures forall n :: 1 <= n < i_values.Length ==>
      State(i_values[n], omega_values[n]) ==
      EulerStep(p, State(i_values[n - 1], omega_values[n - 1]), v_values[n], dt)
    ensures forall n :: 0 <= n < i_values.Length ==>
      Computable(n, p, s) && State(i_values[n], omega_values[n]) == EulerState(n, p, s, dt, sin)
  {
    var N := GridLength(t_max, dt);
    t_values := new real[N](k => GridPoint(k, dt));
    i_values := new real[N](_ => 0.0);
    v_values := new real[N](_ => 0.0);
    omega_values := new real[N](_ => 0.0);
    EulerLoop(p, s, dt, sin, t_values, v_values, i_values, omega_values);
    forall k | 0 <= k < N
      ensures Computable(k, p, s) && State(i_values[k], omega_values[k]) == EulerState(k, p, s, dt, sin)
    {
      RecurrenceIsEulerState(p, s, dt, sin, i_values[..], omega_values[..], v_values[..], k);
    }
  }

  /** The loop of `simulate_motor`: starting from rest, each index
      1 .. N-1 gets the voltage at its grid time and the state one Euler step
      on from the index before. Index 0 and the grid are left as they are. */
  method EulerLoop(p: Params, s: Signal, dt: real, sin: real -> real,
                   t_values: array<real>, v_values: array<real>, i_values: array<real>, omega_values: array<real>)
    requires v_values.Length == t_values.Length && i_values.Length == t_values.Length
    requires omega_values.Length == t_values.Length
    requires t_values != v_values && t_values != i_values && t_values != omega_values
    requires v_values != i_values && v_values != omega_values && i_values != omega_values
    requires t_values.Length > 1 ==> Computable(1, p, s)
    requires forall n :: 0 <= n < t_values.Length ==> t_values[n] == GridPoint(n, dt)
    requires t_values.Length > 0 ==> v_values[0] == 0.0 && i_values[0] == 0.0 && omega_values[0] == 0.0
    modifies v_values, i_values, omega_values
    ensures t_values.Length > 0 ==> v_values[0] == 0.0 && i_values[0] == 0.0 && omega_values[0] == 0.0
    ensures forall n :: 1 <= n < v_values.Length ==> v_values[n] == InputVoltage(GridPoint(n, dt), s, sin)
    ensures forall n :: 1 <= n < i_values.Length ==>
      State(i_values[n], omega_values[n]) ==
      EulerStep(p, State(i_values[n - 1], omega_values[n - 1]), v_values[n], dt)
  {
    var N := t_values.Length;
    var i := 0.0;
    var omega := 0.0;

    var n := 1;
    while n < N
      invariant 1 <= n && (n <= N || n == 1)
      invariant N > 0 ==> v_values[0] == 0.0 && i_values[0] == 0.0 && omega_values[0] == 0.0
      invariant n - 1 < N ==> i == i_values[n - 1] && omega == omega_values[n - 1]
      invariant forall k :: 1 <= k < n && k < N ==> v_values[k] == InputVoltage(GridPoint(k, dt), s, sin)
      invariant forall k :: 1 <= k < n && k < N ==>
        State(i_values[k], omega_values[k]) == EulerStep(p, State(i_values[k - 1], omega_values[k - 1]), v_values[k], dt)
    {
      var t := t_values[n];
      var V := InputVoltage(t, s, sin);

      var di_dt := CurrentRate(p, State(i, omega), V);
      var domega_dt := SpeedRate(p, State(i, omega));

      i := Advance(i, di_dt, dt);
      omega := Advance(omega, domega_dt, dt);

      v_values[n] := V;
      i_values[n] := i;
      omega_values[n] := omega;
      n := n + 1;
    }
  }

  // ---------------------------------------------------------------------
  // Properties of the run

  /** Traces that start at rest and follow the loop's recurrence, as the
      ones `SimulateMotor` returns do, are the run: entry `n` is the state at
      sample `n`. */
  lemma {:induction false} RecurrenceIsEulerState(p: Params, s: Signal, dt: real, sin: real -> real,
                                                  cur: seq<real>, spd: seq<real>, volt: seq<real>, n: nat)
    requires |spd| == |cur| && |volt| == |cur| && n < |cur|
    requires |cur| > 1 ==> Computable(1, p, s)
    requires cur[0] == 0.0 && spd[0] == 0.0
    requires forall k :: 1 <= k < |cur| ==> volt[k] == InputVoltage(GridPoint(k, dt), s, sin)
    requires forall k :: 1 <= k < |cur| ==>
      State(cur[k], spd[k]) == EulerStep(p, State(cur[k - 1], spd[k - 1]), volt[k], dt)
    ensures Computable(n, p, s) && State(cur[n], spd[n]) == EulerState(n, p, s, dt, sin)
  {
    if n > 0 {
      RecurrenceIsEulerState(p, s, dt, sin, cur, spd, volt, n - 1);
    }
  }

  /** A motor driven by a zero-amplitude signal records zero current and
      zero angular velocity at every sample of traces the loop produced. */
  lemma ZeroAmplitudeTracesAtRest(p: Params, s: Signal, dt: real, sin: real -> real,
                                  cur: seq<real>, spd: seq<real>, volt: seq<real>, n: nat)
    requires |spd| == |cur| && |volt| == |cur| && n < |cur|
    requires |cur| > 1 ==> Computable(1, p, s)
    requires s.amp == 0.0
    requires cur[0] == 0.0 && spd[0] == 0.0
    requires forall k :: 1 <= k < |cur| ==> volt[k] == InputVoltage(GridPoint(k, dt), s, sin)
    requires forall k :: 1 <= k < |cur| ==>
      State(cur[k], spd[k]) == EulerStep(p, State(cur[k - 1], spd[k - 1]), volt[k], dt)
    ensures cur[n] == 0.0 && spd[n] == 0.0
  {
    RecurrenceIsEulerState(p, s, dt, sin, cur, spd, volt, n);
    ZeroAmplitudeNoMotion(p, s, dt, sin, n);
  }

  /** Zero forcing: when every sampled voltage is 0 the motor never leaves
      the zero state, since the equations are homogeneous without input. */
  lemma {:induction false} ZeroForcing(p: Params, s: Signal, dt: real, sin: real -> real, n: nat)
    requires Computable(n, p, s)
    requires forall k :: 1 <= k <= n ==> SampledVoltage(k, s, dt, sin) == 0.0
    ensures EulerState(n, p, s, dt, sin) == State(0.0, 0.0)
  {
    if n > 0 {
      ZeroForcing(p, s, dt, sin, n - 1);
    }
  }

  /** A signal of zero amplitude, of any kind, leaves current and angular
      velocity at 0 at every sample. */
  lemma ZeroAmplitudeNoMotion(p: Params, s: Signal, dt: real, sin: real -> real, n: nat)
    requires Computable(n, p, s) && s.amp == 0.0
    ensures EulerState(n, p, s, dt, sin) == State(0.0, 0.0)
  {
    forall k | 1 <= k <= n
      ensures SampledVoltage(k, s, dt, sin) == 0.0
    {
      ZeroAmplitudeIsZero(GridPoint(k, dt), s, sin);
    }
    ZeroForcing(p, s, dt, sin, n);
  }

  // ---------------------------------------------------------------------
  // Arithmetic helpers

  /** The forward difference of one Euler update gives back the rate. */
  lemma ForwardDifference(x: real, rate: real, dt: real)
    requires dt != 0.0
    ensures (Advance(x, rate, dt) - x) / dt == rate
  {}

  lemma DivLessPos(a: real, b: real, d: real)
    requires d > 0.0
    ensures a < b / d <==> a * d < b
  {}

  lemma DivLessNeg(a: real, b: real, d: real)
    requires d < 0.0
    ensures a < b / d <==> a * d > b
  {}
}
