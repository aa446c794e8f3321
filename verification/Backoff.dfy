/** Reconnection delays that grow by a factor up to a maximum, with jitter added on top. Durations are
    whole nanoseconds; factors are real numbers. */
module Backoff {

  const SECOND := 1_000_000_000

  datatype Config = Config(initial: int, max: int, multiplier: real, jitter: real)

  const DEFAULT := Config(SECOND, 60 * SECOND, 2.0, 0.25)

  /** What the constructor makes of a configuration. */
  function Sanitised(c: Config): Config {
    Config(if c.initial <= 0 then DEFAULT.initial else c.initial,
           if c.max <= 0 then DEFAULT.max else c.max,
           if c.multiplier <= 1.0 then DEFAULT.multiplier else c.multiplier,
           if c.jitter < 0.0 then 0.0 else c.jitter)
  }

  ghost predicate Proper(c: Config) {
    c.initial > 0 && c.max > 0 && c.multiplier > 1.0 && c.jitter >= 0.0
  }

  function Min(a: int, b: int): int {
    if a <= b then a else b
  }

  /** Conversion of a real number to a whole one drops the fraction. */
  function Truncate(x: real): int {
    if x >= 0.0 then x.Floor else -((-x).Floor)
  }

  /** A product, named so that proofs can treat it as a whole. */
  function Times(x: real, y: real): real {
    x * y
  }

  function Advance(c: Config, base: int): int {
    Min(Truncate(Times(base as real, c.multiplier)), c.max)
  }

  /** The base delay after so many attempts since the last reset. */
  function Base(c: Config, attempts: nat): int {
    if attempts == 0 then c.initial else Advance(c, Base(c, attempts - 1))
  }

  /** "u" is the random draw. */
  function WithJitter(base: int, jitter: real, u: real): int {
    if jitter <= 0.0 then base else base + Truncate(Times(Times(base as real, jitter), u))
  }

  function BackoffSequence(): seq<int> {
    [SECOND, 2 * SECOND, 4 * SECOND, 8 * SECOND, 16 * SECOND, 32 * SECOND, 60 * SECOND]
  }

  function Pow2(k: nat): int {
    if k == 0 then 1 else 2 * Pow2(k - 1)
  }

  // ---- The base delays ----

  lemma Ordered(x: real, y: real, z: real)
    requires 0.0 <= x <= y && z >= 0.0
    ensures 0.0 <= Times(x, z) <= Times(y, z)
  {
  }

  lemma Spread(x: real, y: real, z: real)
    requires z == 1.0 + y
    ensures Times(x, z) == x + Times(x, y)
  {
  }

  lemma AdvanceRange(c: Config, base: int)
    requires Proper(c) && base > 0
    ensures Min(base, c.max) <= Advance(c, base) <= c.max
  {
    hide Times;
    var g := c.multiplier - 1.0;
    Spread(base as real, g, c.multiplier);
    Ordered(0.0, base as real, g);
  }

  lemma Doubles(c: Config, base: int)
    requires c.multiplier == 2.0 && base > 0
    ensures Advance(c, base) == Min(2 * base, c.max)
  {
  }

  /** A gain of a nanosecond at the initial delay is a gain of at least that at any larger one. */
  lemma Gains(c: Config, base: int)
    requires Proper(c) && c.initial <= base && Times(c.initial as real, c.multiplier - 1.0) >= 1.0
    ensures Advance(c, base) >= Min(base + 1, c.max)
  {
    hide Times;
    var g := c.multiplier - 1.0;
    Spread(base as real, g, c.multiplier);
    Ordered(c.initial as real, base as real, g);
  }

  /** Whatever the configuration, delays stay positive and, from the first on, below the larger limit. */
  lemma {:induction false} BaseRange(c: Config, k: nat)
    requires Proper(c)
    ensures 0 < Base(c, k) && Min(c.initial, c.max) <= Base(c, k)
    ensures k > 0 || c.initial <= c.max ==> Base(c, k) <= c.max
  {
    hide Advance, Times;
    if k > 0 {
      BaseRange(c, k - 1);
      AdvanceRange(c, Base(c, k - 1));
    }
  }

  /** The delays stay between the initial and the maximal one, and never decrease, exactly when the
      initial delay does not exceed the maximum. */
  lemma RangeIff(c: Config)
    requires Proper(c)
    ensures c.initial <= c.max <==> forall k: nat :: c.initial <= Base(c, k) <= c.max
    ensures c.initial <= c.max <==> forall j: nat, k: nat :: j <= k ==> Base(c, j) <= Base(c, k)
  {
    if c.initial <= c.max {
      forall k: nat ensures c.initial <= Base(c, k) <= c.max { BaseRange(c, k); }
      forall j: nat, k: nat | j <= k ensures Base(c, j) <= Base(c, k) { Monotone(c, j, k); }
    } else {
      BaseRange(c, 1);
      assert Base(c, 0) == c.initial;
    }
  }

  lemma {:induction false} Monotone(c: Config, j: nat, k: nat)
    requires Proper(c) && j <= k && c.initial <= c.max
    ensures Base(c, j) <= Base(c, k)
  {
    hide Advance, Times;
    if j < k {
      Monotone(c, j, k - 1);
      BaseRange(c, k - 1);
      AdvanceRange(c, Base(c, k - 1));
    }
  }

  /** Doubling has a closed form exactly when the initial delay does not exceed the maximum. */
  lemma ClosedFormIff(c: Config)
    requires Proper(c) && c.multiplier == 2.0
    ensures c.initial <= c.max <==> forall k: nat :: Base(c, k) == Min(c.initial * Pow2(k), c.max)
  {
    if c.initial <= c.max {
      forall k: nat ensures Base(c, k) == Min(c.initial * Pow2(k), c.max) { ClosedForm(c, k); }
    } else {
      assert Base(c, 0) == c.initial && Pow2(0) == 1;
    }
  }

  lemma {:induction false} ClosedForm(c: Config, k: nat)
    requires Proper(c) && c.multiplier == 2.0 && c.initial <= c.max
    ensures Base(c, k) == Min(c.initial * Pow2(k), c.max)
  {
    hide Advance, Times;
    if k > 0 {
      ClosedForm(c, k - 1);
      BaseRange(c, k - 1);
      Doubles(c, Base(c, k - 1));
      var i, p := c.initial, Pow2(k - 1);
      assert i * (2 * p) == 2 * (i * p);
    }
  }

  /** Truncation can hold a small delay in place for ever: the maximum is reached if and only if the
      first step already gains a whole nanosecond (or there is nothing to gain). */
  lemma ReachesMaxIff(c: Config)
    requires Proper(c)
    ensures (exists k: nat :: Base(c, k) == c.max) <==>
            c.initial >= c.max || Times(c.initial as real, c.multiplier - 1.0) >= 1.0
  {
    if c.initial == c.max {
      assert Base(c, 0) == c.max;
    } else if c.initial > c.max {
      AdvanceRange(c, c.initial);
      assert Base(c, 1) == Advance(c, Base(c, 0));
      assert Base(c, 1) == c.max;
    } else if Times(c.initial as real, c.multiplier - 1.0) >= 1.0 {
      var n := c.max - c.initial;
      GainsOne(c, n);
      BaseRange(c, n);
      assert Base(c, n) == c.max;
    } else {
      forall k: nat ensures Base(c, k) == c.initial { Held(c, k); }
    }
  }

  lemma {:induction false} GainsOne(c: Config, k: nat)
    requires Proper(c) && c.initial <= c.max && Times(c.initial as real, c.multiplier - 1.0) >= 1.0
    ensures Base(c, k) >= Min(c.initial + k, c.max)
  {
    hide Advance, Times;
    if k > 0 {
      GainsOne(c, k - 1);
      BaseRange(c, k - 1);
      Gains(c, Base(c, k - 1));
    }
  }

  lemma HoldsStill(c: Config)
    requires Proper(c) && c.initial <= c.max && Times(c.initial as real, c.multiplier - 1.0) < 1.0
    ensures Advance(c, c.initial) == c.initial
  {
    hide Times;
    var g := c.multiplier - 1.0;
    Spread(c.initial as real, g, c.multiplier);
    Ordered(0.0, c.initial as real, g);
  }

  lemma {:induction false} Held(c: Config, k: nat)
    requires Proper(c) && c.initial <= c.max && Times(c.initial as real, c.multiplier - 1.0) < 1.0
    ensures Base(c, k) == c.initial
  {
    hide Advance, Times;
    if k > 0 {
      Held(c, k - 1);
      HoldsStill(c);
    }
  }

  /** With default settings the base delays are the published sequence, which ends at the maximum. */
  lemma DefaultSequence(k: nat)
    ensures Base(DEFAULT, k) == BackoffSequence()[Min(k, |BackoffSequence()| - 1)]
    ensures BackoffSequence() == [1_000_000_000, 2_000_000_000, 4_000_000_000, 8_000_000_000, 16_000_000_000,
                                  32_000_000_000, 60_000_000_000]
  {
    ClosedForm(DEFAULT, k);
    if k <= 6 {
      assert Pow2(0) == 1 && Pow2(1) == 2 && Pow2(2) == 4 && Pow2(3) == 8 && Pow2(4) == 16 && Pow2(5) == 32 &&
             Pow2(6) == 64;
    } else {
      PowGrows(6, k);
      assert Pow2(3) == 8;
    }
  }

  lemma {:induction false} PowGrows(j: nat, k: nat)
    requires j <= k
    ensures 1 <= Pow2(j) <= Pow2(k)
  {
    if j < k {
      PowGrows(j, k - 1);
    } else if k > 0 {
      PowGrows(k - 1, k - 1);
    }
  }

  // ---- The jitter ----

  lemma Scaled(span: real, u: real)
    requires span >= 0.0 && 0.0 <= u < 1.0
    ensures 0.0 <= Times(span, u) && (if span > 0.0 then Times(span, u) < span else Times(span, u) == 0.0)
  {
    if span > 0.0 {
      assert span * (1.0 - u) > 0.0;
    }
  }

  lemma Quotient(x: real, y: real)
    requires 0.0 <= x < y
    ensures 0.0 <= x / y < 1.0 && Times(y, x / y) == x
  {
  }

  /** The jitter never shortens the delay, and lengthens it by less than its share of the base. */
  lemma JitterRange(base: int, jitter: real, u: real)
    requires base > 0 && jitter >= 0.0 && 0.0 <= u < 1.0
    ensures var d := WithJitter(base, jitter, u);
            d == base || (d > base && d as real < Times(base as real, 1.0 + jitter))
    ensures base as real <= Times(base as real, 1.0 + jitter)
  {
    hide Times;
    Spread(base as real, jitter, 1.0 + jitter);
    Ordered(0.0, base as real, jitter);
    Scaled(Times(base as real, jitter), u);
  }

  /** A delay can be returned for some random draw exactly when it is the base, or above it and less than
      the base times (1 + jitter). */
  lemma JitterExactly(base: int, jitter: real, d: int)
    requires base > 0 && jitter >= 0.0
    ensures (exists u: real :: 0.0 <= u < 1.0 && WithJitter(base, jitter, u) == d) <==>
            d == base || (d > base && d as real < Times(base as real, 1.0 + jitter))
  {
    hide Times;
    if u: real :| 0.0 <= u < 1.0 && WithJitter(base, jitter, u) == d {
      JitterRange(base, jitter, u);
    }
    if d == base {
      Ordered(0.0, base as real, jitter);
      NoDraw(Times(base as real, jitter));
      assert WithJitter(base, jitter, 0.0) == d;
    } else if d > base && d as real < Times(base as real, 1.0 + jitter) {
      var u := DrawFor(base, jitter, d);
      assert WithJitter(base, jitter, u) == d;
    }
  }

  lemma NoDraw(x: real)
    ensures Times(x, 0.0) == 0.0
  {
  }

  lemma DrawFor(base: int, jitter: real, d: int) returns (u: real)
    requires base > 0 && jitter >= 0.0
    requires d > base && d as real < Times(base as real, 1.0 + jitter)
    ensures 0.0 <= u < 1.0 && WithJitter(base, jitter, u) == d
  {
    hide Times;
    var span := Times(base as real, jitter);
    Spread(base as real, jitter, 1.0 + jitter);
    assert jitter > 0.0 by {
      NoDraw(base as real);
    }
    u := (d - base) as real / span;
    Quotient((d - base) as real, span);
  }

  // ---- The delays handed out ----

  class Backoff {
    var current: int
    const config: Config
    var attempts: nat

    ghost predicate Valid()
      reads this
    {
      Proper(config) && current == Base(config, attempts)
    }

    constructor (c: Config)
      ensures Valid() && config == Sanitised(c) && attempts == 0
      ensures config.initial == (if c.initial > 0 then c.initial else 1_000_000_000)
      ensures config.max == (if c.max > 0 then c.max else 60_000_000_000)
      ensures config.multiplier == (if c.multiplier > 1.0 then c.multiplier else 2.0)
      ensures config.jitter == (if c.jitter >= 0.0 then c.jitter else 0.0)
      ensures Proper(c) ==> config == c
    {
      config := Sanitised(c);
      current := Sanitised(c).initial;
      attempts := 0;
    }

    method Next(u: real) returns (delay: int)
      requires Valid() && 0.0 <= u < 1.0
      modifies this
      ensures Valid() && attempts == old(attempts) + 1
      ensures delay == WithJitter(Base(config, old(attempts)), config.jitter, u)
      ensures Base(config, old(attempts)) <= delay
      ensures delay as real <= Times(Base(config, old(attempts)) as real, 1.0 + config.jitter)
    {
      hide Truncate, WithJitter, Times;
      delay := WithJitter(current, config.jitter, u);
      BaseRange(config, attempts);
      JitterRange(current, config.jitter, u);
      attempts := attempts + 1;
      var next := Truncate(Times(current as real, config.multiplier));
      if next > config.max {
        next := config.max;
      }
      current := next;
    }

    method Peek(u: real) returns (delay: int)
      requires Valid() && 0.0 <= u < 1.0
      ensures delay == WithJitter(Base(config, attempts), config.jitter, u)
      ensures Base(config, attempts) <= delay
      ensures delay as real <= Times(Base(config, attempts) as real, 1.0 + config.jitter)
    {
      hide Truncate, WithJitter, Times;
      BaseRange(config, attempts);
      delay := WithJitter(current, config.jitter, u);
      JitterRange(current, config.jitter, u);
    }

    method Reset()
      requires Valid()
      modifies this
      ensures Valid() && attempts == 0 && current == config.initial
    {
      current := config.initial;
      attempts := 0;
    }
  }
}
