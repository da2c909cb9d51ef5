/**
  Electrolysis time estimate for generating a target concentration of
  hypochlorous acid (HOCl), and the resistance-by-volume grid of such
  estimates that the visualiser draws as a heat map.

  All quantities are mathematical reals: the model states what the
  double-precision computation approximates, not its rounding.
 */
module Electrolysis {

  /** Faraday's constant, in coulombs per mole of electrons. */
  const Faraday: real := 96485.0
  /** Molar mass of HOCl, in grams per mole. */
  const MolarMassHocl: real := 52.46
  /** Electrons transferred per mole of HOCl produced (one Cl2 per HOCl, two electrons per Cl2). */
  const ElectronsPerHocl: real := 2.0
  /** Litres in one US fluid ounce. */
  const FlozToLiters: real := 0.0295735

  /** The denominators of the stepwise computation are all non-zero. */
  predicate Defined(eff: real, voltage: real, resistance: real)
  {
    eff != 0.0 && voltage != 0.0 && resistance != 0.0
  }

  /** Every input lies in the physically meaningful range (all strictly positive). */
  predicate Physical(ppm: real, floz: real, eff: real, voltage: real, resistance: real)
  {
    ppm > 0.0 && floz > 0.0 && eff > 0.0 && voltage > 0.0 && resistance > 0.0
  }

  /**
    Seconds of electrolysis needed to bring `floz` fluid ounces of brine to
    `ppm` mg/L of HOCl at faradaic efficiency `eff`, with `voltage` volts
    across an electrode of `resistance` ohms. The steps are those of the
    per-cell computation: volume, mass, amount, charge, current, time.

    Running for `t` seconds at current V/R, the fraction `eff` of the charge
    delivered equals the charge Faraday's law needs for the HOCl in the
    brine; for physically meaningful inputs that time is positive.
   */
  function TimeSeconds(ppm: real, floz: real, eff: real, voltage: real, resistance: real): (t: real)
    requires Defined(eff, voltage, resistance)
    ensures 1000.0 * MolarMassHocl * (voltage / resistance) * t * eff
         == ppm * (floz * FlozToLiters) * ElectronsPerHocl * Faraday
    ensures Physical(ppm, floz, eff, voltage, resistance) ==> t > 0.0
  {
    var liters := floz * FlozToLiters;
    var grams := (ppm * liters) / 1000.0;
    var mols := grams / MolarMassHocl;
    var charge := (mols * ElectronsPerHocl * Faraday) / eff;
    var current := voltage / resistance;
    charge / current
  }

  /**
    The documented closed form of Faraday's law of electrolysis for this
    reaction: t = ppm * V * z * F / (1000 * I * M * eta), with V in litres
    and I in amperes.
   */
  function ClosedFormTime(ppm: real, liters: real, current: real, eff: real): (t: real)
    requires current != 0.0 && eff != 0.0
    ensures 1000.0 * MolarMassHocl * current * t * eff == ppm * liters * ElectronsPerHocl * Faraday
    ensures ppm > 0.0 && liters > 0.0 && current > 0.0 && eff > 0.0 ==> t > 0.0
  {
    (ppm * liters * ElectronsPerHocl * Faraday) / (1000.0 * current * MolarMassHocl * eff)
  }

  /** Seconds per (ppm * fl oz * ohm / volt) at unit efficiency. */
  const TimeCoefficient: real := FlozToLiters * ElectronsPerHocl * Faraday / (1000.0 * MolarMassHocl)

  /** The stepwise computation agrees with the closed form, with V = floz * 0.0295735 and I = V/R. */
  lemma StepwiseMatchesClosedForm(ppm: real, floz: real, eff: real, voltage: real, resistance: real)
    requires Defined(eff, voltage, resistance)
    ensures TimeSeconds(ppm, floz, eff, voltage, resistance)
         == ClosedFormTime(ppm, floz * FlozToLiters, voltage / resistance, eff)
  {
  }

  /**
    Time is proportional to ppm, volume and resistance and inversely
    proportional to efficiency and voltage.
   */
  lemma TimeFactored(ppm: real, floz: real, eff: real, voltage: real, resistance: real)
    requires Defined(eff, voltage, resistance)
    ensures TimeSeconds(ppm, floz, eff, voltage, resistance)
         == TimeCoefficient * (ppm * floz * resistance) / (eff * voltage)
  {
  }

  /** A positive multiple of a larger number is larger. */
  lemma MulStrictlyIncreasing(c: real, x: real, y: real)
    requires c > 0.0 && x < y
    ensures c * x < c * y
  {
  }

  /** A positive number divided by a larger positive number is smaller. */
  lemma DivStrictlyDecreasing(a: real, x: real, y: real)
    requires a > 0.0 && 0.0 < x < y
    ensures a / y < a / x
  {
    assert a / y * y == a;
    assert a / x * x == a;
    assert a / x > 0.0;
    MulStrictlyIncreasing(a / x, x, y);
  }

  /** A higher target concentration takes strictly longer. */
  lemma TimeIncreasesWithPpm(ppm1: real, ppm2: real, floz: real, eff: real, voltage: real, resistance: real)
    requires ppm1 < ppm2
    requires floz > 0.0 && eff > 0.0 && voltage > 0.0 && resistance > 0.0
    ensures TimeSeconds(ppm1, floz, eff, voltage, resistance) < TimeSeconds(ppm2, floz, eff, voltage, resistance)
  {
    TimeScalesWithPpm(1.0, ppm1, floz, eff, voltage, resistance);
    TimeScalesWithPpm(1.0, ppm2, floz, eff, voltage, resistance);
    assert Physical(1.0, floz, eff, voltage, resistance);
    MulStrictlyIncreasing(TimeSeconds(1.0, floz, eff, voltage, resistance), ppm1, ppm2);
  }

  /** A larger volume takes strictly longer. */
  lemma TimeIncreasesWithVolume(ppm: real, floz1: real, floz2: real, eff: real, voltage: real, resistance: real)
    requires floz1 < floz2
    requires ppm > 0.0 && eff > 0.0 && voltage > 0.0 && resistance > 0.0
    ensures TimeSeconds(ppm, floz1, eff, voltage, resistance) < TimeSeconds(ppm, floz2, eff, voltage, resistance)
  {
    TimeScalesWithVolume(ppm, 1.0, floz1, eff, voltage, resistance);
    TimeScalesWithVolume(ppm, 1.0, floz2, eff, voltage, resistance);
    assert Physical(ppm, 1.0, eff, voltage, resistance);
    MulStrictlyIncreasing(TimeSeconds(ppm, 1.0, eff, voltage, resistance), floz1, floz2);
  }

  /** A larger electrode resistance means a smaller current and strictly longer time. */
  lemma TimeIncreasesWithResistance(ppm: real, floz: real, eff: real, voltage: real, r1: real, r2: real)
    requires 0.0 < r1 < r2
    requires ppm > 0.0 && floz > 0.0 && eff > 0.0 && voltage > 0.0
    ensures TimeSeconds(ppm, floz, eff, voltage, r1) < TimeSeconds(ppm, floz, eff, voltage, r2)
  {
    TimeFactored(ppm, floz, eff, voltage, r1);
    TimeFactored(ppm, floz, eff, voltage, r2);
    var k := TimeCoefficient * (ppm * floz) / (eff * voltage);
    assert k > 0.0 by {
      assert ppm * floz > 0.0;
      assert eff * voltage > 0.0;
    }
    assert TimeCoefficient * (ppm * floz * r1) / (eff * voltage) == k * r1;
    assert TimeCoefficient * (ppm * floz * r2) / (eff * voltage) == k * r2;
    MulStrictlyIncreasing(k, r1, r2);
  }

  /** A higher faradaic efficiency takes strictly less time. */
  lemma TimeDecreasesWithEfficiency(ppm: real, floz: real, eff1: real, eff2: real, voltage: real, resistance: real)
    requires 0.0 < eff1 < eff2
    requires ppm > 0.0 && floz > 0.0 && voltage > 0.0 && resistance > 0.0
    ensures TimeSeconds(ppm, floz, eff2, voltage, resistance) < TimeSeconds(ppm, floz, eff1, voltage, resistance)
  {
    TimeFactored(ppm, floz, eff1, voltage, resistance);
    TimeFactored(ppm, floz, eff2, voltage, resistance);
    var a := TimeCoefficient * (ppm * floz * resistance) / voltage;
    assert a > 0.0 by {
      assert ppm * floz * resistance > 0.0;
    }
    assert TimeCoefficient * (ppm * floz * resistance) / (eff1 * voltage) == a / eff1;
    assert TimeCoefficient * (ppm * floz * resistance) / (eff2 * voltage) == a / eff2;
    DivStrictlyDecreasing(a, eff1, eff2);
  }

  /** A higher voltage drives a larger current and takes strictly less time. */
  lemma TimeDecreasesWithVoltage(ppm: real, floz: real, eff: real, v1: real, v2: real, resistance: real)
    requires 0.0 < v1 < v2
    requires ppm > 0.0 && floz > 0.0 && eff > 0.0 && resistance > 0.0
    ensures TimeSeconds(ppm, floz, eff, v2, resistance) < TimeSeconds(ppm, floz, eff, v1, resistance)
  {
    TimeFactored(ppm, floz, eff, v1, resistance);
    TimeFactored(ppm, floz, eff, v2, resistance);
    var a := TimeCoefficient * (ppm * floz * resistance) / eff;
    assert a > 0.0 by {
      assert ppm * floz * resistance > 0.0;
    }
    assert TimeCoefficient * (ppm * floz * resistance) / (eff * v1) == a / v1;
    assert TimeCoefficient * (ppm * floz * resistance) / (eff * v2) == a / v2;
    DivStrictlyDecreasing(a, v1, v2);
  }

  /**
    One decilitre brought to 100 ppm at 50 % efficiency, 7.2 V and 1.4 ohms:
    about 5.14 A, 73.6 C and 14.3 s.
   */
  lemma OneDecilitreExample()
    ensures 14.30 < TimeSeconds(100.0, 0.1 / FlozToLiters, 0.5, 7.2, 1.4) < 14.31
  {
  }

  /** Scaling the target concentration by k scales the time by k. */
  lemma TimeScalesWithPpm(ppm: real, k: real, floz: real, eff: real, voltage: real, resistance: real)
    requires Defined(eff, voltage, resistance)
    ensures TimeSeconds(k * ppm, floz, eff, voltage, resistance)
         == k * TimeSeconds(ppm, floz, eff, voltage, resistance)
  {
    TimeFactored(k * ppm, floz, eff, voltage, resistance);
    TimeFactored(ppm, floz, eff, voltage, resistance);
  }

  /** Scaling the volume by k scales the time by k. */
  lemma TimeScalesWithVolume(ppm: real, floz: real, k: real, eff: real, voltage: real, resistance: real)
    requires Defined(eff, voltage, resistance)
    ensures TimeSeconds(ppm, k * floz, eff, voltage, resistance)
         == k * TimeSeconds(ppm, floz, eff, voltage, resistance)
  {
    TimeFactored(ppm, k * floz, eff, voltage, resistance);
    TimeFactored(ppm, floz, eff, voltage, resistance);
  }
}

/**
  The parameter sweep: two evenly spaced axes of 50 samples each, and the
  grid of electrolysis times whose rows follow electrode resistance and
  whose columns follow fluid volume.
 */
module Sweep {
  import opened Electrolysis

  /** Number of samples on each axis. */
  const Samples: nat := 50

  /** A closed interval chosen on a range slider, low end first. */
  datatype Span = Span(lo: real, hi: real)

  /** The values the user supplies: the three fixed scalars and the two swept ranges. */
  datatype Settings = Settings(
    targetPpm: real,
    faradaicEff: real,
    voltage: real,
    volumeRange: Span,      // fluid ounces
    resistanceRange: Span   // ohms
  )

  /**
    `n` evenly spaced values from `lo` to `hi`, both ends included: the k-th
    value is lo + k * step with step = (hi - lo) / (n - 1), except that the
    last one is set to `hi` itself. A single sample is just `lo`.
   */
  function Linspace(lo: real, hi: real, n: nat): (r: seq<real>)
    ensures |r| == n
    ensures n >= 1 ==> r[0] == lo
    ensures n >= 2 ==> r[n - 1] == hi
  {
    if n == 1 then [lo]
    else if n == 0 then []
    else seq(n, k requires 0 <= k < n => if k == n - 1 then hi else lo + (k as real) * Step(lo, hi, n))
  }

  /** The distance between consecutive samples. */
  function Step(lo: real, hi: real, n: nat): (d: real)
    requires n >= 2
    ensures d * ((n - 1) as real) == hi - lo
  {
    (hi - lo) / ((n - 1) as real)
  }

  /** Every sample, the pinned last one included, lies on the line lo + k * step. */
  lemma LinspaceOnLine(lo: real, hi: real, n: nat, k: nat)
    requires n >= 2 && k < n
    ensures Linspace(lo, hi, n)[k] == lo + (k as real) * Step(lo, hi, n)
  {
    if k == n - 1 {
      var d := (n - 1) as real;
      assert Step(lo, hi, n) * d == hi - lo;
    }
  }

  /** Consecutive samples are exactly one step apart. */
  lemma LinspaceEvenlySpaced(lo: real, hi: real, n: nat)
    requires n >= 2
    ensures forall k :: 0 <= k < n - 1 ==>
      Linspace(lo, hi, n)[k + 1] - Linspace(lo, hi, n)[k] == Step(lo, hi, n)
  {
    forall k | 0 <= k < n - 1
      ensures Linspace(lo, hi, n)[k + 1] - Linspace(lo, hi, n)[k] == Step(lo, hi, n)
    {
      LinspaceOnLine(lo, hi, n, k);
      LinspaceOnLine(lo, hi, n, k + 1);
    }
  }

  /** Over a non-empty interval the samples strictly increase. */
  lemma LinspaceStrictlyIncreasing(lo: real, hi: real, n: nat)
    requires lo < hi
    ensures forall i, j :: 0 <= i < j < n ==> Linspace(lo, hi, n)[i] < Linspace(lo, hi, n)[j]
  {
    forall i, j | 0 <= i < j < n
      ensures Linspace(lo, hi, n)[i] < Linspace(lo, hi, n)[j]
    {
      SamplesOrdered(lo, hi, n, i, j);
    }
  }

  /** Of two samples over a non-empty interval, the later one is larger. */
  lemma SamplesOrdered(lo: real, hi: real, n: nat, i: nat, j: nat)
    requires lo < hi && i < j < n
    ensures Linspace(lo, hi, n)[i] < Linspace(lo, hi, n)[j]
  {
    LinspaceOnLine(lo, hi, n, i);
    LinspaceOnLine(lo, hi, n, j);
    StepPositive(lo, hi, n);
    LineIncreasing(lo, Step(lo, hi, n), i as real, j as real, Linspace(lo, hi, n)[i], Linspace(lo, hi, n)[j]);
  }

  /** Every sample lies within the interval. */
  lemma LinspaceWithinRange(lo: real, hi: real, n: nat)
    requires lo <= hi
    ensures forall k :: 0 <= k < n ==> lo <= Linspace(lo, hi, n)[k] <= hi
  {
    forall k | 0 <= k < n
      ensures lo <= Linspace(lo, hi, n)[k] <= hi
    {
      SampleWithinRange(lo, hi, n, k);
    }
  }

  /** A single sample lies within the interval. */
  lemma SampleWithinRange(lo: real, hi: real, n: nat, k: nat)
    requires lo <= hi && k < n
    ensures lo <= Linspace(lo, hi, n)[k] <= hi
  {
    if n >= 2 {
      LinspaceOnLine(lo, hi, n, k);
      LinspaceOnLine(lo, hi, n, n - 1);
      StepNonNegative(lo, hi, n);
      LineBetween(lo, hi, Step(lo, hi, n), k as real, (n - 1) as real, Linspace(lo, hi, n)[k]);
    }
  }

  /** Over a non-empty interval the step is positive. */
  lemma StepPositive(lo: real, hi: real, n: nat)
    requires lo < hi && n >= 2
    ensures Step(lo, hi, n) > 0.0
  {
  }

  /** Over an interval with lo <= hi the step is not negative. */
  lemma StepNonNegative(lo: real, hi: real, n: nat)
    requires lo <= hi && n >= 2
    ensures Step(lo, hi, n) >= 0.0
  {
  }

  /** A line with positive slope strictly increases. */
  lemma LineIncreasing(lo: real, step: real, x: real, y: real, a: real, b: real)
    requires step > 0.0 && x < y
    requires a == lo + x * step && b == lo + y * step
    ensures a < b
  {
    MulStrictlyIncreasing(step, x, y);
  }

  /** On a line from lo to hi with non-negative slope, a point between the ends lies between lo and hi. */
  lemma LineBetween(lo: real, hi: real, step: real, x: real, m: real, v: real)
    requires step >= 0.0 && 0.0 <= x <= m
    requires v == lo + x * step && hi == lo + m * step
    ensures lo <= v <= hi
  {
    assert 0.0 <= x * step;
    assert m * step - x * step == (m - x) * step;
    assert 0.0 <= (m - x) * step;
  }

  /** No value of the sequence is zero, so each can serve as a divisor. */
  predicate NonZero(s: seq<real>)
  {
    forall k :: 0 <= k < |s| ==> s[k] != 0.0
  }

  /**
    The time grid as a reference definition: cell [i][j] is the time for
    resistance `resistances[i]` and volume `volumes[j]`.
   */
  function Grid(ppm: real, eff: real, voltage: real, resistances: seq<real>, volumes: seq<real>): (g: seq<seq<real>>)
    requires eff != 0.0 && voltage != 0.0 && NonZero(resistances)
    ensures |g| == |resistances|
    ensures forall i :: 0 <= i < |g| ==> |g[i]| == |volumes|
    ensures forall i, j :: 0 <= i < |resistances| && 0 <= j < |volumes| ==>
      g[i][j] == TimeSeconds(ppm, volumes[j], eff, voltage, resistances[i])
  {
    seq(|resistances|, i requires 0 <= i < |resistances| =>
      seq(|volumes|, j requires 0 <= j < |volumes| =>
        TimeSeconds(ppm, volumes[j], eff, voltage, resistances[i])))
  }

  /**
    Fills the grid the way the sweep does: start from all zeros, then visit
    each resistance (outer loop) and each volume (inner loop) and store the
    time in that cell.
   */
  method ComputeGrid(ppm: real, eff: real, voltage: real, resistances: seq<real>, volumes: seq<real>)
    returns (z: seq<seq<real>>)
    requires eff != 0.0 && voltage != 0.0 && NonZero(resistances)
    ensures |z| == |resistances|
    ensures forall i :: 0 <= i < |z| ==> |z[i]| == |volumes|
    ensures forall i, j :: 0 <= i < |resistances| && 0 <= j < |volumes| ==>
      z[i][j] == TimeSeconds(ppm, volumes[j], eff, voltage, resistances[i])
    ensures z == Grid(ppm, eff, voltage, resistances, volumes)
  {
    var m := |resistances|;
    var n := |volumes|;
    z := seq(m, _ => seq(n, _ => 0.0));
    var i := 0;
    while i < m
      invariant 0 <= i <= m
      invariant |z| == m
      invariant forall r :: 0 <= r < m ==> |z[r]| == n
      invariant forall r, c :: 0 <= r < i && 0 <= c < n ==>
        z[r][c] == TimeSeconds(ppm, volumes[c], eff, voltage, resistances[r])
    {
      var j := 0;
      while j < n
        invariant 0 <= j <= n
        invariant |z| == m
        invariant forall r :: 0 <= r < m ==> |z[r]| == n
        invariant forall r, c :: 0 <= r < i && 0 <= c < n ==>
          z[r][c] == TimeSeconds(ppm, volumes[c], eff, voltage, resistances[r])
        invariant forall c :: 0 <= c < j ==>
          z[i][c] == TimeSeconds(ppm, volumes[c], eff, voltage, resistances[i])
      {
        var t := TimeSeconds(ppm, volumes[j], eff, voltage, resistances[i]);
        z := z[i := z[i][j := t]];
        j := j + 1;
      }
      i := i + 1;
    }
    ghost var g := Grid(ppm, eff, voltage, resistances, volumes);
    assert forall r :: 0 <= r < m ==> z[r] == g[r];
  }

  /** The volume axis (fluid ounces), one value per grid column. */
  function VolumeAxis(s: Settings): (v: seq<real>)
    ensures |v| == Samples
    ensures v[0] == s.volumeRange.lo && v[Samples - 1] == s.volumeRange.hi
  {
    Linspace(s.volumeRange.lo, s.volumeRange.hi, Samples)
  }

  /** The resistance axis (ohms), one value per grid row. */
  function ResistanceAxis(s: Settings): (r: seq<real>)
    ensures |r| == Samples
    ensures r[0] == s.resistanceRange.lo && r[Samples - 1] == s.resistanceRange.hi
  {
    Linspace(s.resistanceRange.lo, s.resistanceRange.hi, Samples)
  }

  /** The settings can be swept without dividing by zero. */
  predicate Sweepable(s: Settings)
  {
    s.faradaicEff != 0.0 && s.voltage != 0.0 && NonZero(ResistanceAxis(s))
  }

  /**
    The scalars are positive and each range is positive with its low end
    first; the two ends of a range may coincide.
   */
  predicate PhysicalSettings(s: Settings)
  {
    && s.targetPpm > 0.0 && s.faradaicEff > 0.0 && s.voltage > 0.0
    && 0.0 < s.volumeRange.lo <= s.volumeRange.hi
    && 0.0 < s.resistanceRange.lo <= s.resistanceRange.hi
  }

  /** The 50 x 50 time grid for the given settings. */
  function TimeGrid(s: Settings): (g: seq<seq<real>>)
    requires Sweepable(s)
    ensures |g| == Samples && forall i :: 0 <= i < Samples ==> |g[i]| == Samples
    ensures forall i, j :: 0 <= i < Samples && 0 <= j < Samples ==>
      g[i][j] == TimeSeconds(s.targetPpm, VolumeAxis(s)[j], s.faradaicEff, s.voltage, ResistanceAxis(s)[i])
    ensures g[0][0]
         == TimeSeconds(s.targetPpm, s.volumeRange.lo, s.faradaicEff, s.voltage, s.resistanceRange.lo)
    ensures g[Samples - 1][Samples - 1]
         == TimeSeconds(s.targetPpm, s.volumeRange.hi, s.faradaicEff, s.voltage, s.resistanceRange.hi)
  {
    Grid(s.targetPpm, s.faradaicEff, s.voltage, ResistanceAxis(s), VolumeAxis(s))
  }

  /** Each axis climbs from the low to the high end of its range in 49 equal steps. */
  lemma AxesSpanRanges(s: Settings)
    ensures forall k :: 0 <= k < Samples - 1 ==>
      VolumeAxis(s)[k + 1] - VolumeAxis(s)[k] == (s.volumeRange.hi - s.volumeRange.lo) / 49.0
    ensures forall k :: 0 <= k < Samples - 1 ==>
      ResistanceAxis(s)[k + 1] - ResistanceAxis(s)[k] == (s.resistanceRange.hi - s.resistanceRange.lo) / 49.0
  {
    LinspaceEvenlySpaced(s.volumeRange.lo, s.volumeRange.hi, Samples);
    LinspaceEvenlySpaced(s.resistanceRange.lo, s.resistanceRange.hi, Samples);
  }

  /** The whole sweep: builds both axes, then fills the 50 x 50 grid. */
  method ComputeTimeGrid(s: Settings) returns (volumes: seq<real>, resistances: seq<real>, z: seq<seq<real>>)
    requires Sweepable(s)
    ensures volumes == VolumeAxis(s) && resistances == ResistanceAxis(s)
    ensures |z| == Samples && forall i :: 0 <= i < Samples ==> |z[i]| == Samples
    ensures forall i, j :: 0 <= i < Samples && 0 <= j < Samples ==>
      z[i][j] == TimeSeconds(s.targetPpm, volumes[j], s.faradaicEff, s.voltage, resistances[i])
  {
    volumes := VolumeAxis(s);
    resistances := ResistanceAxis(s);
    z := ComputeGrid(s.targetPpm, s.faradaicEff, s.voltage, resistances, volumes);
  }

  /**
    Settings with positive efficiency and voltage and a positive resistance
    range (its two ends may coincide) can always be swept.
   */
  lemma PhysicalSettingsSweepable(s: Settings)
    requires s.faradaicEff > 0.0 && s.voltage > 0.0
    requires 0.0 < s.resistanceRange.lo <= s.resistanceRange.hi
    ensures Sweepable(s)
  {
    LinspaceWithinRange(s.resistanceRange.lo, s.resistanceRange.hi, Samples);
  }

  /**
    Across the heat map time strictly grows to the right (larger volume)
    when the volume range is not a single point, and downwards (larger
    resistance) when the resistance range is not a single point.
   */
  lemma TimeGridMonotone(s: Settings)
    requires PhysicalSettings(s)
    ensures Sweepable(s)
    ensures s.volumeRange.lo < s.volumeRange.hi ==>
      forall i, j, j' :: 0 <= i < Samples && 0 <= j < j' < Samples ==>
        TimeGrid(s)[i][j] < TimeGrid(s)[i][j']
    ensures s.resistanceRange.lo < s.resistanceRange.hi ==>
      forall i, i', j :: 0 <= i < i' < Samples && 0 <= j < Samples ==>
        TimeGrid(s)[i][j] < TimeGrid(s)[i'][j]
  {
    PhysicalSettingsSweepable(s);
    var vs := VolumeAxis(s);
    var rs := ResistanceAxis(s);
    var g := TimeGrid(s);
    LinspaceWithinRange(s.volumeRange.lo, s.volumeRange.hi, Samples);
    LinspaceWithinRange(s.resistanceRange.lo, s.resistanceRange.hi, Samples);
    if s.volumeRange.lo < s.volumeRange.hi {
      LinspaceStrictlyIncreasing(s.volumeRange.lo, s.volumeRange.hi, Samples);
      forall i, j, j' | 0 <= i < Samples && 0 <= j < j' < Samples
        ensures g[i][j] < g[i][j']
      {
        TimeIncreasesWithVolume(s.targetPpm, vs[j], vs[j'], s.faradaicEff, s.voltage, rs[i]);
      }
    }
    if s.resistanceRange.lo < s.resistanceRange.hi {
      LinspaceStrictlyIncreasing(s.resistanceRange.lo, s.resistanceRange.hi, Samples);
      forall i, i', j | 0 <= i < i' < Samples && 0 <= j < Samples
        ensures g[i][j] < g[i'][j]
      {
        TimeIncreasesWithResistance(s.targetPpm, vs[j], s.faradaicEff, s.voltage, rs[i], rs[i']);
      }
    }
  }

  /** The slider defaults: 100 ppm, 50 % efficiency, 7.2 V, 0.3-1.0 fl oz, 1.5-4.0 ohms. */
  const Defaults: Settings := Settings(100.0, 0.5, 7.2, Span(0.3, 1.0), Span(1.5, 4.0))

  /**
    With the default settings the fastest corner (least volume, least
    resistance) takes about 1.36 s and the slowest corner about 12.09 s.
   */
  lemma DefaultCorners()
    ensures Sweepable(Defaults)
    ensures 1.35 < TimeGrid(Defaults)[0][0] < 1.37
    ensures 12.08 < TimeGrid(Defaults)[Samples - 1][Samples - 1] < 12.10
  {
    PhysicalSettingsSweepable(Defaults);
  }
}
