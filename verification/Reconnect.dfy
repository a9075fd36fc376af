/**
 * Reconnection backoff of client/src/network/reconnect.rs, over reals in seconds. The jitter
 * factor is what the random generator returned, a value in [0.8, 1.2).
 */
module Reconnect {

  datatype Config = Config(base: real, multiplier: real, cap: real, jitter: bool)

  ghost predicate Sensible(c: Config) { 0.0 < c.base && 1.0 < c.multiplier && 0.0 < c.cap }

  function Pow(m: real, k: nat): real { if k == 0 then 1.0 else m * Pow(m, k - 1) }

  function Min(a: real, b: real): real { if a < b then a else b }

  /** base * multiplier^k. */
  function Backoff(c: Config, k: nat): real { c.base * Pow(c.multiplier, k) }

  /** The k-th delay before jitter: the first one is not capped. */
  function Delay(c: Config, k: nat): real {
    if k == 0 then c.base else Min(Backoff(c, k), c.cap)
  }

  class ReconnectStrategy {
    const cfg: Config
    var attempt: nat
    var currentDelay: real

    constructor (cfg: Config)
      ensures this.cfg == cfg && attempt == 0 && currentDelay == cfg.base
    {
      this.cfg, attempt, currentDelay := cfg, 0, cfg.base;
    }

    method NextDelay(factor: real) returns (delay: real)
      requires 0.8 <= factor < 1.2
      modifies this
      ensures delay == Delay(cfg, old(attempt)) * (if cfg.jitter then factor else 1.0)
      ensures currentDelay == delay && attempt == old(attempt) + 1
      ensures Sensible(cfg) ==> 0.8 * Delay(cfg, old(attempt)) <= delay < 1.2 * Delay(cfg, old(attempt))
      ensures Sensible(cfg) && Delay(cfg, old(attempt)) == cfg.cap ==> (delay > cfg.cap <==> cfg.jitter && factor > 1.0)
    {
      var baseDuration: real;
      if attempt == 0 {
        baseDuration := cfg.base;
      } else {
        var backoff := Backoff(cfg, attempt);
        baseDuration := if backoff < cfg.cap then backoff else cfg.cap;
      }
      delay := if cfg.jitter then baseDuration * factor else baseDuration;
      WithinBand(cfg, attempt, factor, delay);
      currentDelay := delay;
      attempt := attempt + 1;
    }

    method Reset()
      modifies this
      ensures attempt == 0 && currentDelay == cfg.base
    {
      attempt := 0;
      currentDelay := cfg.base;
    }
  }

  // ---------------------------------------------------------------- growth

  lemma {:induction false} PowGrows(m: real, k: nat)
    requires 1.0 < m
    ensures 1.0 <= Pow(m, k) < Pow(m, k + 1)
  {
    if k > 0 { PowGrows(m, k - 1); }
  }

  function Line(k: nat, slope: real): real { k as real * slope }

  /** Each delay after the first is the one before times the multiplier, until the cap cuts it off. */
  lemma NextIsScaled(c: Config, k: nat)
    requires Sensible(c) && c.base <= c.cap
    ensures Delay(c, 0) == c.base
    ensures Delay(c, k) < c.cap ==> Delay(c, k + 1) == Min(Delay(c, k) * c.multiplier, c.cap)
    ensures Delay(c, k) == c.cap ==> Delay(c, k + 1) == c.cap
  {
    var p := Pow(c.multiplier, k);
    Reassociate(c.base, c.multiplier, p);
    PowGrows(c.multiplier, k);
    ScaleUp(c.base, p, Pow(c.multiplier, k + 1));
    ClosedForm(c, k);
    ClosedForm(c, k + 1);
  }

  lemma Reassociate(b: real, m: real, p: real)
    ensures b * (m * p) == (b * p) * m
  {
  }

  /** Bernoulli's bound. */
  lemma {:induction false} PowAboveLine(m: real, k: nat)
    requires 1.0 < m
    ensures Pow(m, k) >= 1.0 + Line(k, m - 1.0)
  {
    if k > 0 {
      PowAboveLine(m, k - 1);
      PowGrows(m, k - 1);
      var p, slope := Pow(m, k - 1), m - 1.0;
      assert Pow(m, k) == m * p;
      OneMore(slope, p);
      LineStep(k - 1, slope);
      LineGrows(1.0, p, slope);
    }
  }

  lemma OneMore(a: real, x: real)
    ensures (a + 1.0) * x == a * x + x && x * (a + 1.0) == x * a + x
  {
  }

  lemma LineStep(k: nat, slope: real)
    ensures Line(k + 1, slope) == Line(k, slope) + slope
  {
    assert (k + 1) as real == k as real + 1.0;
    OneMore(k as real, slope);
  }

  lemma ScaleUp(b: real, x: real, y: real)
    requires 0.0 < b && x <= y
    ensures b * x <= b * y
  {
  }

  /** The delays never shrink if and only if the base is within the cap. */
  lemma MonotoneIff(c: Config)
    requires Sensible(c)
    ensures (forall k: nat :: Delay(c, k) <= Delay(c, k + 1)) <==> c.base <= c.cap
  {
    if c.base <= c.cap {
      forall k: nat ensures Delay(c, k) <= Delay(c, k + 1) {
        PowGrows(c.multiplier, k);
        ScaleUp(c.base, Pow(c.multiplier, k), Pow(c.multiplier, k + 1));
        ScaleUp(c.base, 1.0, Pow(c.multiplier, k + 1));
      }
    } else {
      assert Delay(c, 1) <= c.cap;
      assert !(Delay(c, 0) <= Delay(c, 0 + 1));
    }
  }

  /** With the base within the cap, the k-th delay is base * m^k cut off at the cap. */
  lemma ClosedForm(c: Config, k: nat)
    requires Sensible(c) && c.base <= c.cap
    ensures Delay(c, k) == Min(Backoff(c, k), c.cap)
  {
    if k == 0 {
      ScaleUp(c.base, Pow(c.multiplier, k), 1.0);
      ScaleUp(c.base, 1.0, Pow(c.multiplier, k));
    }
  }

  lemma Quotient(a: real, b: real)
    requires 0.0 < b
    ensures b * (a / b) == a
  {
  }

  lemma AboveQuotient(a: real, b: real, p: real)
    requires 0.0 < b && p >= a / b
    ensures b * p >= a
  {
    Quotient(a, b);
    ScaleUp(b, a / b, p);
  }

  /**
   * The delay reaches the cap by the attempt number at which the straight line through the first
   * two steps does, and stays there.
   */
  lemma ReachesCap(c: Config, n: nat, k: nat)
    requires Sensible(c) && c.base <= c.cap
    requires Line(n, c.multiplier - 1.0) >= c.cap / c.base - 1.0 && n <= k && 1 <= k
    ensures Delay(c, k) == c.cap
  {
    PowAboveLine(c.multiplier, k);
    LineMonotone(n, k, c.multiplier - 1.0);
    AboveQuotient(c.cap, c.base, Pow(c.multiplier, k));
  }

  lemma LineGrows(n: real, k: real, slope: real)
    requires n <= k && 0.0 < slope
    ensures n * slope <= k * slope
  {
  }

  lemma LineMonotone(n: nat, k: nat, slope: real)
    requires n <= k && 0.0 < slope
    ensures Line(n, slope) <= Line(k, slope)
  {
    LineGrows(n as real, k as real, slope);
  }

  lemma LineReaches(target: real, slope: real) returns (n: nat)
    requires 0.0 < slope
    ensures n >= 1 && Line(n, slope) >= target
  {
    var x := target / slope;
    n := if x < 0.0 then 1 else x.Floor + 1;
    Quotient(target, slope);
    LineGrows(x, n as real, slope);
  }

  /** Such an attempt number exists. */
  lemma CapIsReached(c: Config) returns (n: nat)
    requires Sensible(c) && c.base <= c.cap
    ensures forall k: nat | k >= n :: Delay(c, k) == c.cap
  {
    n := LineReaches(c.cap / c.base - 1.0, c.multiplier - 1.0);
    forall k: nat | k >= n ensures Delay(c, k) == c.cap {
      ReachesCap(c, n, k);
    }
  }

  lemma DelayIsPositive(c: Config, k: nat)
    ensures Sensible(c) ==> 0.0 < Delay(c, k)
  {
    if Sensible(c) {
      PowGrows(c.multiplier, k);
      ScaleUp(c.base, 1.0, Pow(c.multiplier, k));
    }
  }

  /** Jitter keeps a delay within a fifth of itself, and can take one that is at the cap above it. */
  lemma JitterBand(d: real, factor: real, delay: real)
    requires 0.0 < d && 0.8 <= factor < 1.2 && delay == d * factor
    ensures 0.8 * d <= delay < 1.2 * d
    ensures delay > d <==> factor > 1.0
  {
    JitterBelow(d, factor, delay);
    JitterAbove(d, factor, delay);
    JitterRaises(d, factor, delay);
  }

  lemma JitterBelow(d: real, factor: real, delay: real)
    requires 0.0 < d && factor < 1.2 && delay == d * factor
    ensures delay < 1.2 * d
  {
    assert 1.2 * d - delay == d * (1.2 - factor);
    ScaleStrictly(d, 0.0, 1.2 - factor);
  }

  lemma JitterAbove(d: real, factor: real, delay: real)
    requires 0.0 < d && 0.8 <= factor && delay == d * factor
    ensures 0.8 * d <= delay
  {
    assert delay - 0.8 * d == d * (factor - 0.8);
    ScaleUp(d, 0.0, factor - 0.8);
  }

  lemma JitterRaises(d: real, factor: real, delay: real)
    requires 0.0 < d && delay == d * factor
    ensures delay > d <==> factor > 1.0
  {
    var rise := factor - 1.0;
    assert delay - d == d * rise;
    if factor > 1.0 { ScaleStrictly(d, 0.0, rise); } else { ScaleUp(d, rise, 0.0); }
  }

  lemma WithinBand(c: Config, k: nat, factor: real, delay: real)
    requires 0.8 <= factor < 1.2 && delay == if c.jitter then Delay(c, k) * factor else Delay(c, k)
    ensures Sensible(c) ==> 0.8 * Delay(c, k) <= delay < 1.2 * Delay(c, k)
    ensures Sensible(c) && Delay(c, k) == c.cap ==> (delay > c.cap <==> c.jitter && factor > 1.0)
  {
    DelayIsPositive(c, k);
    if Sensible(c) {
      JitteredBand(Delay(c, k), c.jitter, factor, delay);
    }
  }

  lemma JitteredBand(d: real, jitter: bool, factor: real, delay: real)
    requires 0.0 < d && 0.8 <= factor < 1.2 && delay == if jitter then d * factor else d
    ensures 0.8 * d <= delay < 1.2 * d
    ensures delay > d <==> jitter && factor > 1.0
  {
    if jitter { JitterBand(d, factor, delay); }
  }

  function Jittered(d: real, factor: real): real { d * factor }

  /** The k-th jittered delay keeps within the cap, for every factor, if and only if 1.2 times the delay does. */
  lemma JitterRespectsCapIff(c: Config, k: nat)
    requires Sensible(c)
    ensures (forall factor: real | 0.8 <= factor < 1.2 :: Jittered(Delay(c, k), factor) <= c.cap)
            <==> 1.2 * Delay(c, k) <= c.cap
  {
    DelayIsPositive(c, k);
    BandRespectsIff(Delay(c, k), c.cap);
  }

  lemma BandRespectsIff(d: real, cap: real)
    requires 0.0 < d
    ensures (forall factor: real | 0.8 <= factor < 1.2 :: Jittered(d, factor) <= cap) <==> 1.2 * d <= cap
  {
    if 1.2 * d <= cap {
      forall factor: real | 0.8 <= factor < 1.2 ensures Jittered(d, factor) <= cap {
        JitterBand(d, factor, Jittered(d, factor));
      }
    } else {
      var factor := FactorAbove(d, cap);
      assert !(Jittered(d, factor) <= cap);
    }
  }

  lemma QuotientBelow(d: real, cap: real)
    requires 0.0 < d && 1.2 * d > cap
    ensures cap / d < 1.2
  {
    Quotient(cap, d);
    if cap / d >= 1.2 { ScaleUp(d, 1.2, cap / d); }
  }

  /** Between cap / d and 1.2 there is room for a factor. */
  lemma FactorAbove(d: real, cap: real) returns (factor: real)
    requires 0.0 < d && 1.2 * d > cap
    ensures 0.8 <= factor < 1.2 && d * factor > cap
  {
    var q := cap / d;
    QuotientBelow(d, cap);
    Quotient(cap, d);
    factor := Between(q);
    ScaleStrictly(d, q, factor);
  }

  lemma Between(q: real) returns (factor: real)
    requires q < 1.2
    ensures 0.8 <= factor < 1.2 && q < factor
  {
    factor := if q < 0.8 then 0.8 else (q + 1.2) / 2.0;
  }

  lemma ScaleStrictly(b: real, x: real, y: real)
    requires 0.0 < b && x < y
    ensures b * x < b * y
  {
  }
}
