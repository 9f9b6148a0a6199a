/**
 * The experience-contribution model of exprcontr.py: each past attempt on a
 * concept gets a contribution from a fixed transition table, later attempts
 * get linearly larger weights, and the weighted sum is blended with a
 * count-based prior (the Poisson CDF, passed in as a function).
 */
module Experience {
  import opened Wrappers

  datatype Error = InvalidArgument

  /**
   * The contribution of attempt `i` of history `h`, given the contributions
   * `earlier` already assigned to attempts 0 .. i-1.  The two-back test
   * reads the truthiness of the contribution two places back, not its outcome.
   */
  function Score(h: seq<bool>, i: nat, earlier: seq<real>): (r: real)
    requires i < |h| && |earlier| == i
    ensures IsTableValue(r)
  {
    if i == 0 then (if h[0] then 0.5 else 0.25)
    else if h[i - 1] then (if h[i] then 1.0 else 0.25)
    else if h[i] then 0.5
    else if i < 2 then 0.0
    else if earlier[i - 2] != 0.0 then 0.0
    else -0.25
  }

  /** The five values the table can assign. */
  predicate IsTableValue(x: real)
  {
    x == -0.25 || x == 0.0 || x == 0.25 || x == 0.5 || x == 1.0
  }

  /**
   * The contribution list of a history, built attempt by attempt as the
   * loop of `learning_contr` fills its array.
   */
  function Contributions(h: seq<bool>): (c: seq<real>)
    ensures |c| == |h|
    ensures forall i :: 0 <= i < |c| ==> IsTableValue(c[i]) && -0.25 <= c[i] <= 1.0
  {
    if h == [] then []
    else
      var earlier := Contributions(h[..|h| - 1]);
      earlier + [Score(h, |h| - 1, earlier)]
  }

  /** A contribution depends only on the attempts up to and including it. */
  lemma {:induction false} ContributionsPrefix(h: seq<bool>, k: nat)
    requires k <= |h|
    ensures Contributions(h)[..k] == Contributions(h[..k])
  {
    if k < |h| {
      var h' := h[..|h| - 1];
      ContributionsPrefix(h', k);
      assert h'[..k] == h[..k];
      assert Contributions(h)[..k] == Contributions(h')[..k];
    } else {
      assert h[..k] == h;
    }
  }

  /** Each contribution is the table entry for its attempt, given the contributions before it. */
  lemma {:induction false} ContributionAt(h: seq<bool>, i: nat)
    requires i < |h|
    ensures Contributions(h)[i] == Score(h, i, Contributions(h)[..i])
  {
    var h' := h[..i + 1];
    ContributionsPrefix(h, i + 1);
    ContributionsPrefix(h, i);
    assert h'[..|h'| - 1] == h[..i];
    assert Contributions(h)[..i + 1][..i] == Contributions(h)[..i];
    assert Contributions(h') == Contributions(h[..i]) + [Score(h', i, Contributions(h[..i]))];
    assert Score(h', i, Contributions(h)[..i]) == Score(h, i, Contributions(h)[..i]);
  }

  /**
   * The transition table, read off the finished contribution list: keyed on
   * the previous outcome, the current outcome and (after two failures) on
   * whether the contribution two attempts back is non-zero.
   */
  lemma {:induction false} ContributionTable(h: seq<bool>, i: nat)
    requires i < |h|
    ensures var c := Contributions(h);
      && (i == 0 && h[0] ==> c[0] == 0.5)
      && (i == 0 && !h[0] ==> c[0] == 0.25)
      && (i > 0 && h[i - 1] && h[i] ==> c[i] == 1.0)
      && (i > 0 && h[i - 1] && !h[i] ==> c[i] == 0.25)
      && (i > 0 && !h[i - 1] && h[i] ==> c[i] == 0.5)
      && (i == 1 && !h[0] && !h[1] ==> c[1] == 0.0)
      && (i >= 2 && !h[i - 1] && !h[i] ==> c[i] == if c[i - 2] != 0.0 then 0.0 else -0.25)
  {
    ContributionAt(h, i);
    if i >= 2 {
      assert Contributions(h)[..i][i - 2] == Contributions(h)[i - 2];
    }
  }

  /** `learning_contr`: fills a fresh array attempt by attempt, carrying the previous outcome. */
  method LearningContr(records: seq<bool>) returns (contrs: seq<real>)
    ensures contrs == Contributions(records)
  {
    if |records| == 0 {
      return [];
    }
    var a := new real[|records|];
    var vp := false;
    for i := 0 to |records|
      invariant a[..i] == Contributions(records[..i])
      invariant i > 0 ==> vp == records[i - 1]
    {
      var vc := records[i];
      if i == 0 {
        if vc { a[i] := 0.5; } else { a[i] := 0.25; }
      } else {
        if vp {
          if vc { a[i] := 1.0; } else { a[i] := 0.25; }
        } else {
          if vc {
            a[i] := 0.5;
          } else {
            var k := i - 2;
            if k < 0 {
              a[i] := 0.0;
            } else if a[k] != 0.0 {
              a[i] := 0.0;
            } else {
              a[i] := -0.25;
            }
          }
        }
      }
      vp := vc;
      assert records[..i + 1][..i] == records[..i];
      assert a[..i + 1] == a[..i] + [a[i]];
    }
    assert records[..|records|] == records;
    contrs := a[..];
  }

  /** `nfold * (nfold + 1) / 2`, the normaliser of the weights. */
  function Denom(n: nat): (r: real)
  {
    (n * (n + 1)) as real / 2.0
  }

  /** The weights for `n` attempts: the i-th (from 0) is `(i + 1) / denom`. */
  function Weights(n: nat): (w: seq<real>)
    ensures |w| == n
  {
    seq(n, i requires 0 <= i < n => (i + 1) as real / Denom(n))
  }

  /** `descending_weight`: rejects a non-positive count, else the weights. */
  function DescendingWeight(nfold: int): (r: Result<seq<real>, Error>)
    ensures nfold <= 0 <==> r == Failure(InvalidArgument)
    ensures r.Success? ==> |r.value| == nfold
  {
    if nfold <= 0 then Failure(InvalidArgument) else Success(Weights(nfold))
  }

  function Sum(s: seq<real>): (r: real)
  {
    if s == [] then 0.0 else Sum(s[..|s| - 1]) + s[|s| - 1]
  }

  /** `np.dot` of two equally long vectors. */
  function Dot(a: seq<real>, b: seq<real>): (r: real)
    requires |a| == |b|
  {
    if a == [] then 0.0 else Dot(a[..|a| - 1], b[..|b| - 1]) + a[|a| - 1] * b[|b| - 1]
  }

  /** The first k weights add up to 1 + 2 + ... + k over the normaliser. */
  lemma {:induction false} WeightsPrefixSum(n: nat, k: nat)
    requires 1 <= n && k <= n
    ensures Sum(Weights(n)[..k]) == Denom(k) / Denom(n)
  {
    var w := Weights(n);
    if k > 0 {
      DenomPositive(n);
      calc {
        Sum(w[..k]);
      == { assert w[..k][..k - 1] == w[..k - 1]; }
        Sum(w[..k - 1]) + w[k - 1];
      == { WeightsPrefixSum(n, k - 1); }
        Denom(k - 1) / Denom(n) + k as real / Denom(n);
      == { DivAdd(Denom(k - 1), k as real, Denom(n)); }
        (Denom(k - 1) + k as real) / Denom(n);
      == { DenomStep(k); }
        Denom(k) / Denom(n);
      }
    } else {
      assert w[..0] == [];
    }
  }

  lemma DivAdd(x: real, y: real, d: real)
    requires d > 0.0
    ensures x / d + y / d == (x + y) / d
  {
  }

  /** 1 + ... + k is 1 + ... + (k - 1) plus k. */
  lemma DenomStep(k: nat)
    requires k > 0
    ensures Denom(k) == Denom(k - 1) + k as real
  {
    assert k * (k + 1) == (k - 1) * k + 2 * k;
  }

  /** Every weight is positive. */
  lemma {:induction false} WeightsPositive(n: nat)
    ensures forall i :: 0 <= i < n ==> Weights(n)[i] > 0.0
  {
    forall i | 0 <= i < n
      ensures Weights(n)[i] > 0.0
    {
      DenomPositive(n);
      DivPositive((i + 1) as real, Denom(n));
    }
  }

  lemma DenomPositive(n: nat)
    requires n >= 1
    ensures Denom(n) > 0.0
  {
  }

  lemma DivPositive(x: real, d: real)
    requires x > 0.0 && d > 0.0
    ensures x / d > 0.0
  {
  }

  /** The weights of n >= 1 attempts sum to exactly 1. */
  lemma {:induction false} WeightsSumToOne(n: nat)
    requires n >= 1
    ensures Sum(Weights(n)) == 1.0
  {
    WeightsPrefixSum(n, n);
    assert Weights(n)[..n] == Weights(n);
    DenomPositive(n);
  }

  /**
   * For n >= 1 the weights are positive, strictly increase with recency
   * and sum to exactly 1.
   */
  lemma {:induction false} WeightsProperties(n: nat)
    requires n >= 1
    ensures DescendingWeight(n) == Success(Weights(n))
    ensures forall i :: 0 <= i < n ==> Weights(n)[i] > 0.0
    ensures forall i, j :: 0 <= i < j < n ==> Weights(n)[i] < Weights(n)[j]
    ensures Sum(Weights(n)) == 1.0
  {
    var w := Weights(n);
    DenomPositive(n);
    forall i, j | 0 <= i < j < n
      ensures w[i] < w[j]
    {
      DivMonotone((i + 1) as real, (j + 1) as real, Denom(n));
    }
    WeightsPositive(n);
    WeightsSumToOne(n);
  }

  lemma DivMonotone(x: real, y: real, d: real)
    requires x < y && d > 0.0
    ensures x / d < y / d
  {
  }

  /** A weighted sum of values in [-0.25, 1] with non-negative weights lies within -0.25 and 1 times the total weight. */
  lemma {:induction false} DotBounds(c: seq<real>, w: seq<real>)
    requires |c| == |w|
    requires forall i :: 0 <= i < |c| ==> -0.25 <= c[i] <= 1.0
    requires forall i :: 0 <= i < |w| ==> 0.0 <= w[i]
    ensures -0.25 * Sum(w) <= Dot(c, w) <= Sum(w)
  {
    if c != [] {
      var m := |c| - 1;
      DotBounds(c[..m], w[..m]);
      DotLastTerm(c, w);
      assert w[..m] + [w[m]] == w;
      assert Sum(w) == Sum(w[..m]) + w[m];
    }
  }

  /** The last term of a dot product lies within -0.25 and 1 times its weight. */
  lemma {:induction false} DotLastTerm(c: seq<real>, w: seq<real>)
    requires |c| == |w| > 0
    requires -0.25 <= c[|c| - 1] <= 1.0 && 0.0 <= w[|w| - 1]
    ensures var m := |c| - 1;
      -0.25 * w[m] <= Dot(c, w) - Dot(c[..m], w[..m]) <= w[m]
  {
    var m := |c| - 1;
    calc {
      Dot(c, w) - Dot(c[..m], w[..m]);
    ==
      c[m] * w[m];
    <= { ScaleBetween(c[m], w[m]); }
      w[m];
    }
    calc {
      Dot(c, w) - Dot(c[..m], w[..m]);
    ==
      c[m] * w[m];
    >= { ScaleBetween(c[m], w[m]); }
      -0.25 * w[m];
    }
  }

  lemma ScaleBetween(x: real, k: real)
    requires -0.25 <= x <= 1.0 && 0.0 <= k
    ensures -0.25 * k <= x * k <= k
  {
  }

  /**
   * `expr_pcontr`: zero for an empty history, otherwise one third of the
   * weighted contributions plus two thirds of the count prior `cdf(len)`.
   */
  function ExprPcontr(records: seq<bool>, cdf: nat -> real): (p: real)
    ensures records == [] ==> p == 0.0
  {
    if |records| == 0 then 0.0
    else
      var contrs := Contributions(records);
      var weights := Weights(|records|);
      1.0 / 3.0 * Dot(contrs, weights) + 2.0 / 3.0 * cdf(|records|)
  }

  /**
   * For a non-empty history the weighted contribution sum lies in
   * [-0.25, 1], so with a prior in [0, 1] the score lies in [-1/12, 1].
   */
  lemma {:induction false} ExprPcontrBounds(records: seq<bool>, cdf: nat -> real)
    requires records != []
    requires 0.0 <= cdf(|records|) <= 1.0
    ensures var tot := Dot(Contributions(records), Weights(|records|));
      && -0.25 <= tot <= 1.0
      && ExprPcontr(records, cdf) == 1.0 / 3.0 * tot + 2.0 / 3.0 * cdf(|records|)
      && -1.0 / 12.0 <= ExprPcontr(records, cdf) <= 1.0
  {
    var n := |records|;
    ContributionsDotBounds(records);
    assert ExprPcontr(records, cdf) == 1.0 / 3.0 * Dot(Contributions(records), Weights(n)) + 2.0 / 3.0 * cdf(n);
  }

  /** The weighted contribution sum of a non-empty history lies in [-0.25, 1]. */
  lemma {:induction false} ContributionsDotBounds(records: seq<bool>)
    requires records != []
    ensures -0.25 <= Dot(Contributions(records), Weights(|records|)) <= 1.0
  {
    var n := |records|;
    WeightsPositive(n);
    WeightsSumToOne(n);
    DotBounds(Contributions(records), Weights(n));
  }
}
