/** Counters that shrink by a factor at every interval and end at zero. */
module Decay {

  import opened Products

  /** A counter after one decay interval. */
  function Decayed(c: real, decay: real, decayToZero: real): real {
    if Times(c, decay) < decayToZero then 0.0 else Times(c, decay)
  }

  function DecayedTimes(c: real, d: real, z: real, n: nat): real {
    if n == 0 then c else Decayed(DecayedTimes(c, d, z, n - 1), d, z)
  }

  function Pow(d: real, n: nat): real { if n == 0 then 1.0 else Times(Pow(d, n - 1), d) }

  /** Decay leaves nothing negative whatever the factor, and nothing larger when the factor is at most one. */
  lemma DecayKeepsBounds(c: real, decay: real, z: real)
    requires z > 0.0
    ensures Decayed(c, decay, z) >= 0.0
    ensures 0.0 <= c && 0.0 <= decay <= 1.0 ==> Decayed(c, decay, z) <= c
  {
    hide Times;
    if 0.0 <= c && 0.0 <= decay <= 1.0 {
      TimesMono(decay, 1.0, c);
      TimesUnit(c);
    }
  }

  // ----- powers

  /** Powers of a factor below one fall at least as fast as a hyperbola. */
  lemma {:induction false} PowBounds(d: real, n: nat)
    requires 0.0 <= d < 1.0
    ensures 0.0 <= Pow(d, n) <= 1.0
    ensures Times(Pow(d, n), 1.0 + Times(n as real, 1.0 - d)) <= 1.0
  {
    hide Times;
    if n == 0 {
      TimesUnit(1.0 - d);
      TimesUnit(1.0);
    } else {
      PowBounds(d, n - 1);
      assert n as real == (n - 1) as real + 1.0;
      PowBoundStep(d, Pow(d, n - 1), (n - 1) as real);
    }
  }

  lemma PowBoundStep(d: real, x: real, m: real)
    requires 0.0 <= d < 1.0 && 0.0 <= x <= 1.0 && m >= 0.0
    requires Times(x, 1.0 + Times(m, 1.0 - d)) <= 1.0
    ensures 0.0 <= Times(x, d) <= 1.0
    ensures Times(Times(x, d), 1.0 + Times(m + 1.0, 1.0 - d)) <= 1.0
  {
    hide Times;
    var u, y := 1.0 - d, Times(x, d);
    var k := 1.0 + Times(m, u);
    TimesUnit(d);
    TimesUnit(x);
    TimesUnit(u);
    TimesMono(0.0, x, d);
    TimesMono(d, 1.0, x);
    TimesPlus(u, m, 1.0);
    TimesPlus(y, k, u);
    // the part growing with m stays below d, what is added stays below 1 - d
    TimesCommutes(x, d);
    TimesAssoc(d, x, k);
    TimesMono(Times(x, k), 1.0, d);
    TimesMono(y, 1.0, u);
  }

  /** Repeated decay is exact exponential decay, cut to zero below the threshold. */
  lemma {:induction false} DecayClosedForm(c: real, d: real, z: real, n: nat)
    requires c >= 0.0 && 0.0 <= d < 1.0 && z > 0.0 && n >= 1
    ensures DecayedTimes(c, d, z, n) == if Times(c, Pow(d, n)) >= z then Times(c, Pow(d, n)) else 0.0
  {
    hide Times;
    if n == 1 {
      TimesUnit(d);
      assert DecayedTimes(c, d, z, 0) == c && Pow(d, 0) == 1.0;
    } else {
      DecayClosedForm(c, d, z, n - 1);
      PowBounds(d, n - 1);
      var x := Pow(d, n - 1);
      var was := Times(c, x);
      TimesAssoc(c, x, d);
      TimesUnit(d);
      TimesUnit(x);
      TimesMono(0.0, c, x);
      TimesMono(d, 1.0, was);
      TimesUnit(was);
    }
  }

  /** After how many intervals a counter is certainly zero. */
  function ZeroAfter(c: real, d: real, z: real): (n: nat)
    requires c >= 0.0 && 0.0 <= d < 1.0 && z > 0.0
    ensures n >= 1 && c < Times(n as real, Times(z, 1.0 - d))
  {
    QuotientBound(c, z, 1.0 - d);
    (c / (z * (1.0 - d))).Floor + 1
  }

  lemma QuotientBound(c: real, z: real, u: real)
    requires c >= 0.0 && z > 0.0 && u > 0.0
    ensures z * u > 0.0
    ensures c / (z * u) >= 0.0 && c < Times(((c / (z * u)).Floor + 1) as real, Times(z, u))
  {
    var w := z * u;
    var q := c / w;
    assert Times(q, w) == c;
    hide Times;
    TimesUnit(w);
    if q < 0.0 {
      TimesStrict(q, 0.0, w);
    }
    TimesStrict(q, (q.Floor + 1) as real, w);
    assert Times(z, u) == w by { ProductIs(z, u); }
  }

  lemma ProductIs(x: real, y: real)
    ensures Times(x, y) == x * y
  {
  }

  lemma DecaysToZero(c: real, d: real, z: real, n: nat)
    requires c >= 0.0 && 0.0 <= d < 1.0 && z > 0.0 && n >= ZeroAfter(c, d, z)
    ensures DecayedTimes(c, d, z, n) == 0.0
  {
    hide Times;
    DecayClosedForm(c, d, z, n);
    PowBounds(d, n);
    hide ZeroAfter, DecayedTimes, Pow;
    var w := Times(z, 1.0 - d);
    TimesUnit(1.0 - d);
    TimesMono(0.0, z, 1.0 - d);
    TimesMono(ZeroAfter(c, d, z) as real, n as real, w);
    BelowThreshold(c, z, Pow(d, n), n as real, 1.0 - d);
  }

  lemma BelowThreshold(c: real, z: real, x: real, m: real, u: real)
    requires z > 0.0 && 0.0 <= x <= 1.0 && c < Times(m, Times(z, u)) && Times(x, 1.0 + Times(m, u)) <= 1.0
    ensures Times(c, x) < z
  {
    hide Times;
    TimesUnit(c);
    TimesUnit(z);
    if x > 0.0 {
      // c * x < m * z * u * x = z * (x * (1 + m * u) - x) <= z * (1 - x)
      var k := Times(m, u);
      TimesStrict(c, Times(m, Times(z, u)), x);
      Rearranged(m, z, u, x);
      TimesPlus(x, 1.0, k);
      TimesUnit(x);
      TimesMono(Times(x, k), 1.0 - x, z);
      TimesStrict(1.0 - x, 1.0, z);
    }
  }

  lemma Rearranged(m: real, z: real, u: real, x: real)
    ensures Times(Times(m, Times(z, u)), x) == Times(Times(x, Times(m, u)), z)
  {
    assert Times(m, Times(z, u)) == m * (z * u) == (m * u) * z;
    assert Times(x, Times(m, u)) == x * (m * u);
  }
}
