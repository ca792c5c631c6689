/** The reconnect delays (application/service/backoff.go). float64 is modelled by exact reals; conversion to
    time.Duration truncates. */
module Backoff {
  /** ReconnectConfig; delays are nanoseconds. */
  datatype Config = Config(min: int, max: int, factor: real, jitter: real) {
    /** What Config.Validate accepts. */
    predicate Valid() {
      0 < min <= max && factor > 1.0 && 0.0 <= jitter <= 1.0
    }
  }

  /** What rand.Float64 returns. */
  type Sample = x: real | 0.0 <= x < 1.0 witness 0.0

  function Trunc(x: real): int {
    if x >= 0.0 then x.Floor else -((-x).Floor)
  }

  function Scaled(cfg: Config, base: int): int {
    Trunc(base as real * cfg.factor)
  }

  /** Multiply, truncate, cap. */
  function Grow(cfg: Config, base: int): int {
    var next := Scaled(cfg, base);
    if next > cfg.max then cfg.max else next
  }

  /** The base delay after k calls of Next since the last Reset. */
  function Base(cfg: Config, k: nat): int {
    if k == 0 then cfg.min else Grow(cfg, Base(cfg, k - 1))
  }

  /** base * (1 + r * jitter), truncated, for the symmetric sample r in [-1, 1). */
  function Jittered(base: int, jitter: real, random: Sample): int {
    Trunc(base as real * (1.0 + (random * 2.0 - 1.0) * jitter))
  }

  /** The delay is where the sample is in the band from base * (1 - jitter) to base * (1 + jitter), in whole
      nanoseconds. */
  predicate AtSample(base: int, jitter: real, random: Sample, delay: int) {
    var low, width := base as real * (1.0 - jitter), 2.0 * base as real * jitter;
    low + random * width - 1.0 < delay as real <= low + random * width
  }

  /** A delay within the jitter band of its base, up to truncation. */
  predicate InBand(base: int, jitter: real, delay: int) {
    base as real * (1.0 - jitter) - 1.0 < delay as real <= base as real * (1.0 + jitter)
  }

  /** The delay a call of Next returns for a base and a sample. */
  function Delay(cfg: Config, base: int, random: Sample): nat
    requires cfg.Valid() && base > 0
  {
    if cfg.jitter > 0.0 then
      JitteredInBand(base, cfg.jitter, random);
      Jittered(base, cfg.jitter, random)
    else base
  }

  /** The delay of the k-th call since the last Reset. */
  function Wait(cfg: Config, k: nat, random: Sample): nat
    requires cfg.Valid()
  {
    BaseInRange(cfg, k);
    Delay(cfg, Base(cfg, k), random)
  }

  function Sum(waits: seq<nat>): nat {
    if waits == [] then 0 else Sum(waits[..|waits| - 1]) + waits[|waits| - 1]
  }

  /** The delays of the calls from the first on, for these samples; so much time has passed at least, where the
      context may have cut the last one short. */
  predicate Waited(cfg: Config, first: nat, samples: seq<Sample>, waits: seq<nat>, elapsed: int, cut: bool)
    requires cfg.Valid()
  {
    && |waits| <= |samples| && (cut ==> waits != [])
    && (forall i :: 0 <= i < |waits| ==> waits[i] == Wait(cfg, first + i, samples[i]))
    && elapsed >= Sum(if cut then waits[..|waits| - 1] else waits)
  }

  lemma OneMoreWait(cfg: Config, first: nat, samples: seq<Sample>, waits: seq<nat>, elapsed: int, delay: nat, more: int)
    requires cfg.Valid() && Waited(cfg, first, samples, waits, elapsed, false) && |waits| < |samples|
    requires delay == Wait(cfg, first + |waits|, samples[|waits|]) && elapsed <= more
    ensures Waited(cfg, first, samples, waits + [delay], more, true)
    ensures more >= elapsed + delay ==> Waited(cfg, first, samples, waits + [delay], more, false)
  {
    assert (waits + [delay])[..|waits|] == waits;
  }

  lemma MoreTime(cfg: Config, first: nat, samples: seq<Sample>, waits: seq<nat>, elapsed: int, more: int)
    requires cfg.Valid() && Waited(cfg, first, samples, waits, elapsed, false) && elapsed <= more
    ensures Waited(cfg, first, samples, waits, more, false)
  {
  }

  class Backoff {
    const cfg: Config
    var current: int
    ghost var calls: nat   // Next calls since the last Reset

    ghost predicate Valid()
      reads this
    {
      cfg.Valid() && current == Base(cfg, calls)
    }

    constructor (cfg: Config)
      requires cfg.Valid()
      ensures Valid() && this.cfg == cfg && calls == 0
    {
      this.cfg := cfg;
      current := cfg.min;
      calls := 0;
    }

    /** random is the sample in [0,1) that the jitter uses. */
    method Next(random: Sample) returns (delay: nat)
      requires Valid()
      modifies this
      ensures Valid() && calls == old(calls) + 1
      ensures InBand(Base(cfg, old(calls)), cfg.jitter, delay)
      ensures AtSample(Base(cfg, old(calls)), cfg.jitter, random, delay)
      ensures delay == Wait(cfg, old(calls), random)
    {
      BaseInRange(cfg, calls);
      JitteredInBand(current, cfg.jitter, random);
      var actual := current;
      if cfg.jitter > 0.0 {
        actual := Jittered(current, cfg.jitter, random);
      }
      if actual < 0 {
        actual := 0;
      }
      var next := Scaled(cfg, current);
      if next > cfg.max {
        next := cfg.max;
      }
      current := next;
      calls := calls + 1;
      delay := actual;
    }

    method Reset()
      requires Valid()
      modifies this
      ensures Valid() && calls == 0
    {
      current := cfg.min;
      calls := 0;
    }
  }

  lemma Product(x: real, y: real)
    requires x >= 0.0 && y >= 0.0
    ensures x * y >= 0.0
  {
  }

  lemma JitterBounds(base: real, random: Sample, jitter: real)
    requires base >= 0.0 && 0.0 <= jitter <= 1.0
    ensures var actual := base * (1.0 + (random * 2.0 - 1.0) * jitter);
            0.0 <= base * (1.0 - jitter) <= actual <= base * (1.0 + jitter)
  {
  }

  lemma Interpolates(base: real, jitter: real, random: Sample)
    ensures base * (1.0 + (random * 2.0 - 1.0) * jitter) == base * (1.0 - jitter) + random * (2.0 * base * jitter)
  {
    assert (random * 2.0 - 1.0) * jitter == random * (2.0 * jitter) - jitter;
    assert base * (random * (2.0 * jitter)) == random * (2.0 * base * jitter);
  }

  lemma JitteredInBand(base: int, jitter: real, random: Sample)
    requires base > 0 && 0.0 <= jitter <= 1.0
    ensures InBand(base, jitter, Jittered(base, jitter, random)) && Jittered(base, jitter, random) >= 0
    ensures AtSample(base, jitter, random, Jittered(base, jitter, random))
    ensures jitter == 0.0 ==> InBand(base, jitter, base) && AtSample(base, jitter, random, base)
  {
    var actual := base as real * (1.0 + (random * 2.0 - 1.0) * jitter);
    var low, high := base as real * (1.0 - jitter), base as real * (1.0 + jitter);
    assert 0.0 <= low <= actual <= high by {
      JitterBounds(base as real, random, jitter);
    }
    assert Jittered(base, jitter, random) == Trunc(actual);
    TruncBelow(actual, low, high);
    TruncBelow(actual, actual, actual);
    Interpolates(base as real, jitter, random);
  }

  lemma TruncBelow(x: real, low: real, high: real)
    requires 0.0 <= low <= x <= high
    ensures low - 1.0 < Trunc(x) as real <= high && Trunc(x) >= 0
  {
  }

  /** The shortest wait after a teardown that the reconnect configuration allows. */
  function ShortestWait(cfg: Config): int {
    Trunc(cfg.min as real * (1.0 - cfg.jitter))
  }

  lemma TruncMonotone(x: real, y: real)
    requires 0.0 <= x <= y
    ensures 0 <= Trunc(x) <= Trunc(y)
  {
  }

  lemma WaitAtLeast(cfg: Config, random: Sample)
    requires cfg.Valid()
    ensures 0 <= ShortestWait(cfg) <= Wait(cfg, 0, random)
    ensures random == 0.0 ==> Wait(cfg, 0, random) == ShortestWait(cfg)
  {
    var base, jitter := cfg.min as real, cfg.jitter;
    JitterBounds(base, random, jitter);
    TruncMonotone(base * (1.0 - jitter), base * (1.0 + (random * 2.0 - 1.0) * jitter));
  }

  /** The whole nanoseconds a delay grows by. */
  function Gain(cfg: Config, base: int): int {
    (base as real * (cfg.factor - 1.0)).Floor
  }

  lemma GrowIsGain(cfg: Config, base: int)
    requires cfg.Valid() && 0 < base
    ensures Gain(cfg, base) >= 0
    ensures Grow(cfg, base) == if base + Gain(cfg, base) > cfg.max then cfg.max else base + Gain(cfg, base)
  {
    Product(base as real, cfg.factor - 1.0);
    var d := base as real * (cfg.factor - 1.0);
    assert base as real * cfg.factor == base as real + d;
  }

  lemma GainIncreases(cfg: Config, base: int, base': int)
    requires cfg.Valid() && 0 < base <= base'
    ensures Gain(cfg, base) <= Gain(cfg, base')
  {
    Product((base' - base) as real, cfg.factor - 1.0);
    assert base' as real * (cfg.factor - 1.0)
           == base as real * (cfg.factor - 1.0) + (base' - base) as real * (cfg.factor - 1.0);
  }

  /** The base delay stays in [min, max] and never decreases. */
  lemma {:induction false} BaseInRange(cfg: Config, k: nat)
    requires cfg.Valid()
    ensures cfg.min <= Base(cfg, k) <= cfg.max
    ensures Base(cfg, k) <= Base(cfg, k + 1)
  {
    if k > 0 {
      BaseInRange(cfg, k - 1);
    }
    GrowIsGain(cfg, Base(cfg, k));
  }

  function Power(f: nat, k: nat): nat {
    if k == 0 then 1 else f * Power(f, k - 1)
  }

  /** With an integer factor the sequence is min * factor^k, capped. */
  lemma {:induction false} IntegerFactorIsGeometric(cfg: Config, f: nat, k: nat)
    requires cfg.Valid() && cfg.factor == f as real
    ensures Base(cfg, k) == if cfg.min * Power(f, k) <= cfg.max then cfg.min * Power(f, k) else cfg.max
  {
    if k > 0 {
      IntegerFactorIsGeometric(cfg, f, k - 1);
      BaseInRange(cfg, k - 1);
      GrowByInteger(cfg, f, Base(cfg, k - 1));
      PowerStep(cfg.min, f, k, cfg.max);
    }
  }

  lemma GrowByInteger(cfg: Config, f: nat, base: int)
    requires cfg.Valid() && cfg.factor == f as real && 0 < base
    ensures Grow(cfg, base) == if base * f > cfg.max then cfg.max else base * f
  {
  }

  lemma PowerStep(min: int, f: nat, k: nat, max: int)
    requires k > 0 && f > 1 && 0 < min <= max
    ensures min * Power(f, k) == min * Power(f, k - 1) * f
    ensures min * Power(f, k - 1) > max ==> min * Power(f, k) > max && max * f > max
  {
    var p := min * Power(f, k - 1);
    assert min * Power(f, k) == p * f;
    if p > max {
      Larger(p, f);
      Larger(max, f);
    }
  }

  lemma Larger(x: int, f: nat)
    requires x > 0 && f > 1
    ensures x * f > x
  {
  }

  /** min * (factor - 1) is at least one nanosecond. */
  predicate FirstStepCounts(cfg: Config) {
    cfg.min as real * (cfg.factor - 1.0) >= 1.0
  }

  lemma GainIsWhole(cfg: Config)
    ensures Gain(cfg, cfg.min) >= 1 <==> FirstStepCounts(cfg)
  {
  }

  /** Validate lets through factors for which the delay never grows. The maximum is reached exactly when the first
      step is at least a nanosecond, and then within max - min calls. */
  lemma MaximumReached(cfg: Config)
    requires cfg.Valid()
    ensures (exists k: nat :: Base(cfg, k) == cfg.max)
            <==> cfg.min == cfg.max || FirstStepCounts(cfg)
    ensures (exists k: nat :: Base(cfg, k) == cfg.max) ==> Base(cfg, cfg.max - cfg.min) == cfg.max
  {
    if cfg.min == cfg.max {
      assert Base(cfg, 0) == cfg.max;
    } else if Gain(cfg, cfg.min) >= 1 {
      GainIsWhole(cfg);
      GrowsToMaximum(cfg, cfg.max - cfg.min);
      BaseInRange(cfg, cfg.max - cfg.min);
    } else {
      GainIsWhole(cfg);
      forall k: nat ensures Base(cfg, k) == cfg.min {
        StaysAtMinimum(cfg, k);
      }
    }
  }

  /** For example one nanosecond with a factor of one and a half: accepted, and never two. */
  lemma NeverGrows(k: nat)
    ensures Config(1, 2, 1.5, 0.0).Valid() && Base(Config(1, 2, 1.5, 0.0), k) == 1
  {
    StaysAtMinimum(Config(1, 2, 1.5, 0.0), k);
  }

  lemma {:induction false} StaysAtMinimum(cfg: Config, k: nat)
    requires cfg.Valid() && cfg.min < cfg.max && Gain(cfg, cfg.min) < 1
    ensures Base(cfg, k) == cfg.min
  {
    if k > 0 {
      StaysAtMinimum(cfg, k - 1);
      GrowIsGain(cfg, cfg.min);
    }
  }

  /** Until it is at the maximum, each call adds at least one nanosecond. */
  lemma {:induction false} GrowsToMaximum(cfg: Config, k: nat)
    requires cfg.Valid() && Gain(cfg, cfg.min) >= 1
    ensures Base(cfg, k) == cfg.max || Base(cfg, k) >= cfg.min + k
  {
    if k > 0 {
      GrowsToMaximum(cfg, k - 1);
      BaseInRange(cfg, k - 1);
      GrowIsGain(cfg, Base(cfg, k - 1));
      GainIncreases(cfg, cfg.min, Base(cfg, k - 1));
    }
  }
}
