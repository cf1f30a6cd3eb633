/** The run-scoped context every spore reads through its `sim` reference in
    Hyphaeizer/Simulator.cs and Hyphaeizer/Spores.cs: the configuration,
    `Math.PI`, `Math.Cos`/`Math.Sin` and `System.Random`. */
module Context {

  /** `Math.PI`, as the shortest decimal that rounds to that double. */
  const PI: real := 3.141592653589793

  /** `Simulator.Config` with its defaults (Simulator.cs:97-105). `float`
      and `double` fields are exact reals. */
  datatype Config = Config(
    speed: real,
    angleChangeModifier: real,
    iterations: int,
    splitProbability: real,
    penIntensity: real,
    initialSpores: int)

  const DefaultConfig: Config := Config(0.2, 0.5, 10_000, 0.0025, 8.0, 1)

  /** `Math.Cos` and `Math.Sin`, left uninterpreted: every use passes them in. */
  datatype Trig = Trig(cos: real -> real, sin: real -> real)

  /** The one fact about cosine and sine the simulation relies on. */
  ghost predicate Bounded(trig: Trig) {
    forall a: real :: -1.0 <= trig.cos(a) <= 1.0 && -1.0 <= trig.sin(a) <= 1.0
  }

  /** A value `Random.NextDouble` can return. */
  type Sample = u: real | 0.0 <= u < 1.0

  /** `Random.Next(minValue, maxValue)` for the sample `u` that the call
      draws: an integer in `[lo, hi)`, or `lo` when the range is empty. */
  function IntDraw(u: Sample, lo: int, hi: int): (n: int)
    requires lo <= hi
    ensures lo <= n && (n < hi || n == lo)
    ensures lo < hi ==> n < hi
    ensures lo == hi ==> n == lo
  {
    SampleScales(u, hi - lo);
    lo + (u * (hi - lo) as real).Floor
  }

  lemma SampleScales(u: Sample, n: int)
    requires n >= 0
    ensures 0.0 <= u * n as real
    ensures n > 0 ==> u * n as real < n as real
    ensures n == 0 ==> u * n as real == 0.0
  {
  }

  /** The random heading perturbation `(rng.NextDouble() - .5) * angleChangeModifier`:
      at most half the modifier either way. */
  function Nudge(u: Sample, angleChangeModifier: real): real {
    (u - 0.5) * angleChangeModifier
  }

  lemma NudgeBounds(u: Sample, a: real)
    ensures a >= 0.0 ==> -a / 2.0 <= Nudge(u, a) <= a / 2.0
    ensures a > 0.0 ==> Nudge(u, a) < a / 2.0
  {
    if a > 0.0 {
      assert (1.0 - u) * a > 0.0;
      assert u * a >= 0.0;
    }
  }

  /** `System.Random`: the values its calls return are the caller-supplied
      stream `samples`, one per call, in call order. */
  class Random {
    const samples: nat -> Sample
    var calls: nat

    constructor (samples: nat -> Sample)
      ensures this.samples == samples && calls == 0
    {
      this.samples := samples;
      calls := 0;
    }

    /** `NextDouble()`: the next sample. */
    method NextDouble() returns (u: Sample)
      modifies this`calls
      ensures calls == old(calls) + 1
      ensures u == samples(old(calls))
    {
      u := samples(calls);
      calls := calls + 1;
    }

    /** `Next(minValue, maxValue)`: throws when `minValue > maxValue`. */
    method Next(lo: int, hi: int) returns (n: int)
      requires lo <= hi
      modifies this`calls
      ensures calls == old(calls) + 1
      ensures n == IntDraw(samples(old(calls)), lo, hi)
      ensures lo <= n && (lo < hi ==> n < hi) && (lo == hi ==> n == lo)
    {
      n := IntDraw(samples(calls), lo, hi);
      calls := calls + 1;
    }
  }
}
