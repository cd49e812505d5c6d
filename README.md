# DC motor simulator: waveform generator and Euler integrator

This project models the computational core of a small brushed-DC-motor
simulator (`sample.py`). It has two parts:

- **`Waveform`** (`waveform.dfy`) models `input_voltage`. It is a pure map
  from simulation time to the terminal voltage, selected by name:
  - `"step"` gives the amplitude before `duration` and 0 from `duration` on;
  - `"triangle"` gives `amp * (1 - 2*|(t % (1/freq))*freq - 0.5|)`, with
    Python's floored `%` written out;
  - `"sin"` gives `amp * sin(2*pi*freq*t)`;
  - any other name gives 0.
- **`Motor`** (`motor.dfy`) models the numerical part of `simulate_motor`:
  - the time grid of `np.arange(0, t_max, dt)`;
  - the three zero-initialised traces;
  - the explicit Euler loop over the two state equations
    `di/dt = (V - R*i - K_e*omega)/L` and `domega/dt = (K_T*i - B*omega)/J`.

  `SimulateMotor` allocates the grid and the three traces, and `EulerLoop`
  runs the loop as an imperative method over those arrays. `EulerLoop`
  ensures that each index is one `EulerStep` on from the index before.
  `SimulateMotor` also ensures that every index holds the recursively defined
  state `EulerState` at that sample, through the lemma
  `RecurrenceIsEulerState`.

Floats are modelled as exact reals. The sine function is passed in as a
parameter `sin: real -> real`, and `np.pi` is the constant `Pi`.

Despite its name, the `triangle` branch (`sample.py:10`) does not swing
between `+amp` and `-amp`:
- it stays within `[0, amp]`;
- it is 0 at the start of every period;
- it reaches `amp` at half a period;
- in between it is linear: `2*amp*freq*t` over the first half of the first
  period, and `2*amp*(1 - freq*t)` over the second half.

`Waveform.Triangle`, `Waveform.TriangleZeroAtPeriodStart`,
`Waveform.TrianglePeakAtHalfPeriod`, `Waveform.TriangleRampUp` and
`Waveform.TriangleRampDown` state this.

Error paths are modelled as preconditions:
- A triangle with `freq == 0` divides by zero, so evaluating it requires
  `freq != 0` (`Defined`).
  - Python accepts a negative frequency, and so does the model.
- `L != 0` and `J != 0` are required only when the grid has more than one
  point, because nothing is divided before the loop body runs
  (`Computable`).
  - `J == 0` raises ZeroDivisionError for every signal kind. At the first
    pass `i` and `omega` are still the integer 0, so the numerator of
    `sample.py:31` is a Python number.
  - `L == 0` raises only for step and unrecognised signals, whose voltage is
    a Python number. For triangle and sine signals the voltage is a `numpy`
    float, and `sample.py:30` gives infinity or NaN instead. The model
    requires `L != 0` for every kind, because reals hold no infinity or NaN.
- `dt == 0` makes `np.arange` fail, so `dt != 0` is required.
  - A negative `dt` gives the grid `numpy` gives it.

## Model

| member | source | states |
|---|---|---|
| Waveform.Defined | sample.py:9-10 | a signal can be evaluated unless it is a triangle with `freq == 0`, where `1 / freq` raises ZeroDivisionError |
| Waveform.FMod | sample.py:10 | Python's float `%`: the remainder lies in `[0, p)` for a positive divisor, in `(p, 0]` for a negative one, and differs from `x` by a whole multiple of `p` |
| Waveform.Phase | sample.py:10 | the triangle's phase `(t % (1/freq)) * freq` is a fraction in `[0, 1)` for any non-zero frequency |
| Waveform.Shape | sample.py:10 | the unit triangle `1 - 2*abs(phase - 0.5)` lies in `[0, 1]` |
| Waveform.TriangleAt | sample.py:10 | scaling the unit triangle by `amp` stays between 0 and `amp`, for either sign of `amp` |
| Waveform.Triangle | sample.py:9-10 | the triangle wave lies between 0 and `amp`, for either sign of `amp` |
| Waveform.Angle | sample.py:12 | the sine's argument `2*pi*freq*t` |
| Waveform.InputVoltage | sample.py:6-13 | step: `amp` before `duration` and 0 from it on; triangle: between 0 and `amp`; any name other than step/triangle/sin: 0 |
| Waveform.StepBoundary | sample.py:7-8 | the step takes its after-value 0 exactly at `t == duration`, and `amp` at every earlier time |
| Waveform.UnknownKindIsZero | sample.py:13 | an unrecognised kind is always defined and gives 0 at every time |
| Waveform.FModShift | sample.py:10 | the floored remainder is unchanged by adding any whole multiple of the divisor |
| Waveform.PhaseShift | sample.py:10 | the phase is unchanged by a shift of any whole number of periods `k/freq` |
| Waveform.TrianglePeriodic | sample.py:9-10 | the triangle wave is periodic with period `1/freq` (shifts by `k/freq` for every integer `k`) |
| Waveform.TriangleZeroAtPeriodStart | sample.py:9-10 | the triangle wave is 0 at the start of every period `k/freq` |
| Waveform.TrianglePeakAtHalfPeriod | sample.py:9-10 | the triangle wave is `amp` at the middle of every period `k/freq + 1/(2 freq)` |
| Waveform.TriangleRampUp | sample.py:10 | for a positive frequency and `0 <= t <= 1/(2 freq)`, the triangle wave is exactly `2*amp*freq*t`, rising from 0 to `amp` |
| Waveform.TriangleRampDown | sample.py:10 | for a positive frequency and `1/(2 freq) <= t < 1/freq`, the triangle wave is exactly `2*amp*(1 - freq*t)`, falling from `amp` towards 0 |
| Waveform.TriangleSignalEndpoints | sample.py:6-10 | a triangle signal gives 0 at `t = 0` and `amp` at half a period |
| Waveform.AmplitudeScales | sample.py:6-13 | for every kind, multiplying the amplitude by `c` multiplies the voltage by `c` |
| Waveform.SineWithinAmplitude | sample.py:11-12 | the sine signal stays within `[-abs(amp), abs(amp)]` wherever the given sine stays within `[-1, 1]` |
| Waveform.ZeroAmplitudeIsZero | sample.py:6-13 | a zero-amplitude signal of any kind is identically 0 |
| Motor.OnGrid | sample.py:18 | the `arange` membership test: `n*dt` lies strictly before `t_max` in the direction of the step; `Motor.GridLengthCounts` checks the grid length against it |
| Motor.GridPoint | sample.py:18 | `t_values[n]`, the grid time `n*dt` of sample `n`, read back at `sample.py:27` |
| Motor.GridLength | sample.py:18 | the length of `np.arange(0, t_max, dt)`: 0 exactly when `t_max/dt <= 0`, otherwise the integer `n` with `n - 1 < t_max/dt <= n` |
| Motor.Ceil | sample.py:18 | the integer returned is the ceiling: not below `y`, and less than `y + 1` |
| Motor.GridLengthCounts | sample.py:18 | index `n` is on the `arange` grid if and only if `n*dt` lies strictly before `t_max` in the direction of the step |
| Motor.DefaultGridLength | sample.py:16-18 | the defaults `t_max = 5`, `dt = 0.001` give 5000 samples |
| Motor.CurrentRate | sample.py:30 | `di_dt` solves `L * di_dt = V - R*i - K_e*omega` at the given state |
| Motor.SpeedRate | sample.py:31 | `domega_dt` solves `J * domega_dt = K_T*i - B*omega` at the given state |
| Motor.Advance | sample.py:33-34 | the update `x += rate * dt` |
| Motor.EulerStep | sample.py:30-34 | from rest with zero input, one step stays at rest |
| Motor.EulerStepSlopes | sample.py:30-34 | over one step, each of current and angular velocity changes by exactly `dt` times the rate the motor equations give at the old state; both rates use the state before the step |
| Motor.SampledVoltage | sample.py:26-28 | the voltage recorded at sample `n`: the zero anchor at index 0, and `input_voltage(n*dt)` after it; its uses are stated in `Motor.SimulateMotor` and `Motor.ZeroForcing` |
| Motor.Computable | sample.py:30-31 | the model's no-error condition up to sample `n`: nothing at index 0; after it `L`, `J` non-zero and the signal defined. It is stricter than Python for `L` with a triangle or sine signal |
| Motor.EulerState | sample.py:23-38 | the state at sample `n`: rest at index 0, then one Euler step per sample under that sample's voltage; `Motor.SimulateMotor` ensures every array entry equals it |
| Motor.SimulateMotor | sample.py:18-38 | returns four fresh arrays of the grid's length, with `t[n] = n*dt`, index 0 all zero, `v[n] = input_voltage(n*dt)` for `n >= 1`, each `(i[n], omega[n])` one Euler step from `(i[n-1], omega[n-1])` under `v[n]`, and `(i[n], omega[n])` equal to `EulerState(n)` at every index |
| Motor.EulerLoop | sample.py:23-38 | the loop leaves index 0 at rest, writes `input_voltage(n*dt)` into `v[n]` for `n >= 1`, and makes each `(i[n], omega[n])` one Euler step from `(i[n-1], omega[n-1])` under `v[n]`; it changes only the three traces |
| Motor.RecurrenceIsEulerState | sample.py:23-38 | traces that start at rest and follow the loop's recurrence are, sample by sample, the recursively defined Euler state |
| Motor.ZeroForcing | sample.py:23-38 | if every sampled voltage is 0, the motor state stays at rest at every sample |
| Motor.ZeroAmplitudeNoMotion | sample.py:6-38 | with a zero-amplitude signal of any kind, current and angular velocity are 0 at every sample |
| Motor.ZeroAmplitudeTracesAtRest | sample.py:18-38 | traces the loop produced for a zero-amplitude signal are 0 at every index |

## Left out

- Plotting (`sample.py:40-58`) is output only and changes no value.
- `start_simulation` and the tkinter window (`sample.py:61-134`) are user
  interface. This covers parsing the fields with `float(...)`, its
  `ValueError` message, and the sliders' and entries' default values.
- The values of `np.sin` are not modelled: the sine is a parameter of
  `InputVoltage`. Only its argument `2*pi*freq*t` and the amplitude scaling
  are modelled.
- Floating point is modelled by exact reals. This leaves out:
  - rounding;
  - overflow to infinity;
  - NaN;
  - the floating-point length of `np.arange`, which can differ by one from
    `ceil(t_max/dt)` when `t_max/dt` rounds.
  Numerical instability of a coarse `dt` is still modelled faithfully, since
  the recurrence is exact and nothing is clamped.
- Motor.Computable: requires `L != 0` for every signal kind. For triangle
  and sine signals the voltage is a `numpy` float, and `sample.py:30` then
  gives infinity or NaN with a warning instead of raising. Reals cannot hold
  that result. `Motor.EulerState`, `Motor.ZeroForcing` and
  `Motor.ZeroAmplitudeNoMotion` inherit this through `Computable`. The
  `J != 0` requirement matches the source exactly, since `J == 0` raises for
  every kind.
- Motor.SimulateMotor: requires `L != 0` for triangle and sine signals too,
  through `Computable`, for the reason above. Only this `L` case differs
  from Python.
- Motor.EulerLoop: requires `L != 0` on the same terms as `SimulateMotor`,
  for the same reason.
- Motor.SimulateMotor: returns the four arrays, while `simulate_motor`
  returns `None` after plotting them.
- The keyword defaults of `input_voltage` (`sample.py:6`) and
  `simulate_motor` (`sample.py:16-17`) are not modelled: `Signal` and
  `Params` carry every argument. No behaviour is lost, since every call
  passes all arguments (`sample.py:28`, `sample.py:63-76`).
- Python's dynamic typing (`type` as any value compared with `==`) is
  modelled by a string `kind`, and the integer start values (`i = 0`,
  `omega = 0`) by reals.
