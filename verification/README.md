# HOCl generation time: a Dafny model

The visualiser estimates how long electrolysis must run to bring a volume
of brine to a target concentration of hypochlorous acid (HOCl). It sweeps
fluid volume and electrode resistance over two ranges and shows the result
as a heat map. This project models the computation behind that heat map.

- `Electrolysis` (in `hocl_time.dfy`) holds the constants (Faraday's constant
  96485 C/mol, molar mass of HOCl 52.46 g/mol, 2 electrons per HOCl,
  0.0295735 L per fluid ounce). It also holds `TimeSeconds`, which follows
  the per-cell steps: litres from fluid ounces, grams, moles, charge
  (Faraday's law, divided by faradaic efficiency), current (Ohm's law,
  V/R), and time = charge / current. `ClosedFormTime` is the documented
  formula t = ppm · V_L · z · F / (1000 · I · M · η), with V_L the volume in litres. The lemmas connect the
  two formulas and state the sign, monotonicity and linearity of the time.
- `Sweep` holds `Linspace`, which builds each 50-sample axis the way the
  array library does: lo + k·step, with the last sample pinned to hi and a
  single sample giving just lo. It also holds the reference grid `Grid`, the
  loop `ComputeGrid` that mirrors the zeros-then-fill nested loop, and the
  whole sweep `ComputeTimeGrid` over the user's `Settings`.

All arithmetic is over mathematical reals. `TimeSeconds` requires only
that its three divisors (efficiency, voltage, resistance) are non-zero. The
sign and monotonicity lemmas also require the inputs to be strictly
positive. Throughout, V is the voltage and V_L the volume in litres.

The code takes volume in fluid ounces and converts it to litres. It has no
validation and no error values, so a zero divisor is simply excluded by
`requires`. As a worked value, 0.1 L at 100 ppm, η = 0.5, 7.2 V and 1.4 Ω
needs about 73.6 C at 5.14 A, which takes about 14.3 s
(`OneDecilitreExample`).

## Model

| member | source | states |
|---|---|---|
| Electrolysis.TimeSeconds | app.py:33-38 | Running for the computed time at current V/R, the fraction η of the delivered charge equals the charge Faraday's law needs: 1000 · M · (V/R) · t · η = ppm · V_L · 2 · F with V_L = floz · 0.0295735; for strictly positive inputs the time is strictly positive |
| Electrolysis.ClosedFormTime | text.py:19 | The documented formula's time satisfies 1000 · M · I · t · η = ppm · V_L · z · F, and is positive when ppm, V_L, I and η are |
| Electrolysis.StepwiseMatchesClosedForm | app.py:33-38 | The stepwise computation equals the closed form of Faraday's law given at text.py:19, with V_L = floz · 0.0295735 and I = V/R, for every input with non-zero divisors |
| Electrolysis.TimeFactored | app.py:33-38 | Time equals a fixed positive coefficient times ppm · floz · R / (η · V): proportional to ppm, volume and resistance, inversely proportional to efficiency and voltage |
| Electrolysis.TimeIncreasesWithPpm | app.py:33-38 | With all else fixed and positive, a higher target ppm gives a strictly longer time |
| Electrolysis.TimeIncreasesWithVolume | app.py:33-38 | With all else fixed and positive, a larger volume gives a strictly longer time |
| Electrolysis.TimeIncreasesWithResistance | app.py:37-38 | With all else fixed and positive, a larger resistance (smaller current V/R) gives a strictly longer time |
| Electrolysis.TimeDecreasesWithEfficiency | app.py:36-38 | With all else fixed and positive, a higher faradaic efficiency gives a strictly shorter time |
| Electrolysis.TimeDecreasesWithVoltage | app.py:37-38 | With all else fixed and positive, a higher voltage (larger current) gives a strictly shorter time |
| Electrolysis.TimeScalesWithPpm | app.py:33-38 | Multiplying the target ppm by k multiplies the time by k |
| Electrolysis.TimeScalesWithVolume | app.py:33-38 | Multiplying the volume by k multiplies the time by k |
| Electrolysis.OneDecilitreExample | app.py:6-9 | With the fixed constants, 0.1 L at 100 ppm, η = 0.5, 7.2 V and 1.4 Ω takes between 14.30 and 14.31 s |
| Sweep.Linspace | app.py:25-26 | An axis has exactly n samples; the first is the range's low end and the last its high end |
| Sweep.LinspaceOnLine | app.py:25-26 | Every sample, the pinned last one included, equals lo + k · (hi − lo)/(n − 1) |
| Sweep.LinspaceEvenlySpaced | app.py:25-26 | Consecutive samples differ by exactly (hi − lo)/(n − 1), the pinned last sample included |
| Sweep.LinspaceStrictlyIncreasing | app.py:25-26 | Over a range with lo < hi the samples strictly increase |
| Sweep.LinspaceWithinRange | app.py:25-26 | Over a range with lo ≤ hi every sample lies in [lo, hi] |
| Sweep.VolumeAxis | app.py:25 | The volume axis has 50 samples, from the range's low end to its high end |
| Sweep.ResistanceAxis | app.py:26 | The resistance axis has 50 samples, from the range's low end to its high end |
| Sweep.Grid | app.py:28-39 | The reference grid has one row per resistance and one column per volume; cell [i][j] is the time for resistances[i] and volumes[j] |
| Sweep.ComputeGrid | app.py:28-39 | The nested loop yields len(resistances) rows of len(volumes) columns; cell [i][j] is the time for resistances[i] and volumes[j] and nothing else; the result equals the reference grid |
| Sweep.AxesSpanRanges | app.py:25-26 | Consecutive samples on each 50-sample axis differ by exactly (hi − lo)/49 |
| Sweep.TimeGrid | app.py:25-39 | The sweep grid is 50 × 50; cell [i][j] is the time for resistance axis value i and volume axis value j; the top-left corner is the time at both low ends and the bottom-right corner the time at both high ends, the extent used at app.py:50 |
| Sweep.ComputeTimeGrid | app.py:25-39 | The sweep builds both axes from the settings and yields a 50 × 50 grid whose cell [i][j] is the time for resistance i and volume j |
| Sweep.PhysicalSettingsSweepable | app.py:22-26 | With positive efficiency and voltage and a resistance range 0 < lo ≤ hi (equal ends included), no resistance on the axis is zero, so every cell is defined |
| Sweep.TimeGridMonotone | app.py:25-39 | For positive ppm, η and V and positive ranges with lo ≤ hi, every cell is defined. When the volume range has lo < hi, the grid strictly increases along each row. When the resistance range has lo < hi, it strictly increases down each column. With both, the heat map drawn with the extent at app.py:50 is slowest at its bottom-right corner |
| Sweep.DefaultCorners | app.py:17-22 | With the slider defaults the fastest corner takes about 1.36 s and the slowest about 12.09 s |

## Left out

- The page set-up, title, sliders and explanatory text (app.py:11-22 and text.py) are presentation only. The sliders are modelled only as the `Settings` values they produce. Their bounds, step sizes and the integer-percent efficiency are not modelled.
- The heat-map rendering and its colour bands (app.py:42-59) are left out. The band edges [0, 2, 5, max] are interpreted by a plotting library that is not part of this model.
- Floating-point rounding is not modelled. Every quantity is a mathematical real, so the 50-sample axes and the times are the exact values that the double-precision code approximates. Division by zero is excluded by `requires`; the library's infinities are not modelled.
- The array library's `linspace` and `zeros` are written out as sequence comprehensions. Only the behaviour used here is modelled: an endpoint-inclusive axis, and a grid that starts at zero.
- app.py computes no power, battery current or time banding beyond the plot's colour map, so none is modelled.
