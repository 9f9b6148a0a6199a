/**
 * The learner profile of profile.py: five attributes fixed at construction
 * and three derived read-only quantities.  Being a datatype value, a
 * `Profile` cannot be changed after it is built, and its destructors
 * `id`, `age` and `education` return exactly the constructor arguments.
 */
module Profiles {

  /** The age at which both scores peak (the class constant `MAX_AGE`). */
  const PeakAge: int := 20

  /** Yearly decay factors `1 - deterioration_rate` of the two scores. */
  const IqRetention: real := 1.0 - 0.003
  const MidxRetention: real := 1.0 - 0.005

  /** The normaliser `cpd_max`: top education tier times the two top scores. */
  const CompoundMax: real := 3.0 * (150.0 + 150.0)

  datatype Profile = Profile(id: string, age: int, education: int, baseIq: int, baseMidx: int)
  {
    /** `abs(age - MAX_AGE)`, the number of years away from the peak. */
    function AgeDiff(): (n: nat)
      ensures n == 0 <==> age == PeakAge
    {
      if age >= PeakAge then age - PeakAge else PeakAge - age
    }

    /** The age-decayed IQ. */
    function CurrentIq(): (r: real)
      ensures age == PeakAge ==> r == baseIq as real
      ensures baseIq >= 0 ==> 0.0 <= r <= baseIq as real
    {
      Decayed(baseIq as real, IqRetention, AgeDiff())
    }

    /** The age-decayed memory index. */
    function CurrentMidx(): (r: real)
      ensures age == PeakAge ==> r == baseMidx as real
      ensures baseMidx >= 0 ==> 0.0 <= r <= baseMidx as real
    {
      Decayed(baseMidx as real, MidxRetention, AgeDiff())
    }

    /**
     * Education tier times the two current scores, over `cpd_max`.  For
     * tiers 1..3 and base scores in [0, 150], the bounds `cpd_max` is built
     * from, the index lies in [0, 1].
     */
    function CompoundIndex(): (r: real)
      ensures 1 <= education <= 3 && 0 <= baseIq <= 150 && 0 <= baseMidx <= 150 ==> 0.0 <= r <= 1.0
    {
      CompoundBound(education as real, CurrentIq() + CurrentMidx());
      education as real * (CurrentIq() + CurrentMidx()) / CompoundMax
    }
  }

  /** `base * pow(retention, years)`, the decay shared by both scores. */
  function Decayed(base: real, retention: real, years: nat): (r: real)
    ensures years == 0 ==> r == base
    ensures 0.0 <= base && 0.0 <= retention <= 1.0 ==> 0.0 <= r <= base
  {
    UnitScale(base, Pow(retention, years));
    base * Pow(retention, years)
  }

  /** `pow(b, n)` for a natural exponent; a power of a factor in [0, 1] stays in [0, 1]. */
  function Pow(b: real, n: nat): (r: real)
    ensures n == 0 ==> r == 1.0
    ensures 0.0 <= b <= 1.0 ==> 0.0 <= r <= 1.0
  {
    if n == 0 then 1.0
    else
      UnitScale(b, Pow(b, n - 1));
      b * Pow(b, n - 1)
  }

  /** Scaling `k` by 1 leaves it; scaling a non-negative `k` by a factor in [0, 1] keeps it in [0, k]. */
  lemma UnitScale(k: real, x: real)
    ensures x == 1.0 ==> k * x == k
    ensures 0.0 <= k && 0.0 <= x <= 1.0 ==> 0.0 <= k * x <= k
  {
    if 0.0 <= k && 0.0 <= x <= 1.0 {
      MulMonotone(k, x, 1.0);
      MulNonNegative(k, x);
    }
  }

  /** `e * s / cpd_max` lies in [0, 1] for a tier in [0, 3] and a score sum in [0, 300]. */
  lemma CompoundBound(e: real, s: real)
    ensures 0.0 <= e <= 3.0 && 0.0 <= s <= 300.0 ==> 0.0 <= e * s / CompoundMax <= 1.0
  {
    if 0.0 <= e <= 3.0 && 0.0 <= s <= 300.0 {
      var t := e * s;
      MulMonotone(s, e, 3.0);
      MulNonNegative(e, s);
      assert 0.0 <= t <= 900.0;
      assert CompoundMax == 900.0;
    }
  }

  lemma MulMonotone(k: real, x: real, y: real)
    requires 0.0 <= k && x <= y
    ensures k * x <= k * y
  {
    MulNonNegative(k, y - x);
    assert k * (y - x) == k * y - k * x;
  }

  lemma MulNonNegative(a: real, b: real)
    requires 0.0 <= a && 0.0 <= b
    ensures 0.0 <= a * b
  {
  }

  /** A power of a factor in [0, 1] does not grow with the exponent. */
  lemma {:induction false} PowAntitone(b: real, m: nat, n: nat)
    requires 0.0 <= b <= 1.0
    requires m <= n
    ensures Pow(b, n) <= Pow(b, m)
  {
    if m < n {
      calc {
        Pow(b, n);
      ==
        b * Pow(b, n - 1);
      <= { UnitScale(Pow(b, n - 1), b); }
        Pow(b, n - 1);
      <= { PowAntitone(b, m, n - 1); }
        Pow(b, m);
      }
    }
  }

  /** For a non-negative base, the decayed score does not grow with the number of years. */
  lemma {:induction false} DecayedAntitone(base: real, retention: real, m: nat, n: nat)
    requires 0.0 <= base && 0.0 <= retention <= 1.0 && m <= n
    ensures Decayed(base, retention, n) <= Decayed(base, retention, m)
  {
    calc {
      Decayed(base, retention, n);
    ==
      base * Pow(retention, n);
    <= { PowAntitone(retention, m, n); MulMonotone(base, Pow(retention, n), Pow(retention, m)); }
      base * Pow(retention, m);
    ==
      Decayed(base, retention, m);
    }
  }

  /** The decay is symmetric about the peak age: ages 20 + d and 20 - d give the same current scores. */
  lemma {:induction false} DecaySymmetric(p: Profile, d: nat)
    ensures p.(age := PeakAge + d).CurrentIq() == p.(age := PeakAge - d).CurrentIq()
    ensures p.(age := PeakAge + d).CurrentMidx() == p.(age := PeakAge - d).CurrentMidx()
    ensures p.(age := PeakAge + d).CompoundIndex() == p.(age := PeakAge - d).CompoundIndex()
  {
  }

  /**
   * For non-negative base scores, moving further from the peak age never
   * raises the current scores.
   */
  lemma {:induction false} DecayMonotone(p: Profile, q: Profile)
    requires p.baseIq == q.baseIq >= 0 && p.baseMidx == q.baseMidx >= 0
    requires p.AgeDiff() <= q.AgeDiff()
    ensures q.CurrentIq() <= p.CurrentIq()
    ensures q.CurrentMidx() <= p.CurrentMidx()
  {
    DecayedAntitone(p.baseIq as real, IqRetention, p.AgeDiff(), q.AgeDiff());
    DecayedAntitone(p.baseMidx as real, MidxRetention, p.AgeDiff(), q.AgeDiff());
  }
}
