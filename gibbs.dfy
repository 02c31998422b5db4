/** The p-value rule of `gibbs_test`. The draws Z and their importance weights
    W, which the source obtains from the constrained samplers, are inputs. */
module GibbsTest {
  import opened Wrappers
  import opened LinAlg
  import opened Alternatives

  /** A p-value, or the decision of the external UMPU two-sided test. */
  datatype Outcome = PValue(p: real) | Decision(reject: bool)

  /** What `gibbs_test` returns besides the draws: its outcome and the weights used. */
  datatype TestResult = TestResult(outcome: Outcome, weights: Vector)

  /** `(W * (stats >= observed)).sum()` when `greater`, `(W * (stats <= observed)).sum()` otherwise. */
  function TailWeight(stats: Vector, w: Vector, observed: real, greater: bool): real
    requires |stats| == |w|
  {
    if |stats| == 0 then 0.0
    else
      (if (if greater then stats[0] >= observed else stats[0] <= observed) then w[0] else 0.0)
      + TailWeight(stats[1..], w[1..], observed, greater)
  }

  /** The weight of the draws whose statistic ties with the observed one. */
  function TieWeight(stats: Vector, w: Vector, observed: real): real
    requires |stats| == |w|
  {
    if |stats| == 0 then 0.0
    else (if stats[0] == observed then w[0] else 0.0) + TieWeight(stats[1..], w[1..], observed)
  }

  /** The weights actually used: unit weights when sigma is known. */
  function TestWeights(z: Matrix, w: Vector, sigmaKnown: bool): Vector {
    if sigmaKnown then Ones(|z|) else w
  }

  /** The inputs the rule needs: draws of dimension |eta|; when sigma is unknown,
      one weight per draw with a nonzero total (the sums divide by it); when it
      is known, at least one draw. */
  predicate TestInputs(z: Matrix, w: Vector, eta: Vector, y: Vector, sigmaKnown: bool) {
    && HasCols(z, |eta|) && |y| == |eta|
    && (sigmaKnown ==> |z| > 0)
    && (!sigmaKnown ==> |w| == |z| && Sum(w) != 0.0)
  }

  /** `gibbs_test` given the draws `z` and weights `w`: the weighted empirical tail
      fraction of `z eta` beyond `eta' Y`, folded for two-sided alternatives, or
      the UMPU decision of `umpuTest(stats, weights, observed, alpha)` (the
      external `discrete_family.two_sided_test`). */
  function GibbsTest(z: Matrix, w: Vector, eta: Vector, y: Vector, alternative: string,
                     umpu: bool, sigmaKnown: bool, alpha: real,
                     umpuTest: (Vector, Vector, real, real) -> bool): (r: Result<TestResult>)
    requires TestInputs(z, w, eta, y, sigmaKnown)
    ensures ParseAlternative(alternative).None? <==> r == Failure(InvalidAlternative)
    ensures r.Failure? <==> ParseAlternative(alternative).None?
    ensures r.Success? ==> r.value.weights == TestWeights(z, w, sigmaKnown)
    ensures r.Success? ==> (r.value.outcome.Decision? <==> alternative == "twosided" && umpu)
    ensures r.Success? && r.value.outcome.Decision? ==>
      r.value.outcome.reject == umpuTest(MatVec(z, eta), TestWeights(z, w, sigmaKnown), Dot(eta, y), alpha)
  {
    match ParseAlternative(alternative)
    case None => Failure(InvalidAlternative)
    case Some(alt) =>
      var weights := TestWeights(z, w, sigmaKnown);
      assert Sum(weights) != 0.0 by {
        if sigmaKnown { SumOnes(|z|); }
      }
      var stats := MatVec(z, eta);
      var observed := Dot(eta, y);
      var total := Sum(weights);
      match alt
      case Greater => Success(TestResult(PValue(TailWeight(stats, weights, observed, true) / total), weights))
      case Less => Success(TestResult(PValue(TailWeight(stats, weights, observed, false) / total), weights))
      case TwoSided =>
        if !umpu then
          Success(TestResult(PValue(TwoSidedFold(TailWeight(stats, weights, observed, false) / total)), weights))
        else
          Success(TestResult(Decision(umpuTest(stats, weights, observed, alpha)), weights))
  }

  /** With nonnegative weights a tail carries between none and all of the weight. */
  lemma {:induction false} TailWeightBounded(stats: Vector, w: Vector, observed: real, greater: bool)
    requires |stats| == |w| && forall i | 0 <= i < |w| :: w[i] >= 0.0
    ensures 0.0 <= TailWeight(stats, w, observed, greater) <= Sum(w)
  {
    if |stats| > 0 {
      TailWeightBounded(stats[1..], w[1..], observed, greater);
    }
  }

  /** The two tails together count every draw once and the ties twice. */
  lemma {:induction false} TailsCoverAll(stats: Vector, w: Vector, observed: real)
    requires |stats| == |w|
    ensures TailWeight(stats, w, observed, true) + TailWeight(stats, w, observed, false)
         == Sum(w) + TieWeight(stats, w, observed)
  {
    if |stats| > 0 {
      TailsCoverAll(stats[1..], w[1..], observed);
    }
  }

  /** With nonnegative weights of positive total, every p-value lies in [0, 1]. */
  lemma PValueInUnitInterval(z: Matrix, w: Vector, eta: Vector, y: Vector, alternative: string,
                             umpu: bool, sigmaKnown: bool, alpha: real,
                             umpuTest: (Vector, Vector, real, real) -> bool)
    requires TestInputs(z, w, eta, y, sigmaKnown)
    requires !sigmaKnown ==> Sum(w) > 0.0 && forall i | 0 <= i < |w| :: w[i] >= 0.0
    ensures var r := GibbsTest(z, w, eta, y, alternative, umpu, sigmaKnown, alpha, umpuTest);
      r.Success? && r.value.outcome.PValue? ==> 0.0 <= r.value.outcome.p <= 1.0
  {
    var weights := TestWeights(z, w, sigmaKnown);
    if sigmaKnown { SumOnes(|z|); }
    var stats, observed := MatVec(z, eta), Dot(eta, y);
    TailWeightBounded(stats, weights, observed, true);
    TailWeightBounded(stats, weights, observed, false);
    var greater := TailWeight(stats, weights, observed, true) / Sum(weights);
    var less := TailWeight(stats, weights, observed, false) / Sum(weights);
    FractionInUnit(TailWeight(stats, weights, observed, true), Sum(weights));
    FractionInUnit(TailWeight(stats, weights, observed, false), Sum(weights));
    var r := GibbsTest(z, w, eta, y, alternative, umpu, sigmaKnown, alpha, umpuTest);
    match ParseAlternative(alternative)
    case None =>
    case Some(alt) =>
      match alt
      case Greater => assert r.value.outcome == PValue(greater);
      case Less => assert r.value.outcome == PValue(less);
      case TwoSided =>
        if !umpu {
          assert r.value.outcome == PValue(TwoSidedFold(less));
        }
  }

  lemma FractionInUnit(part: real, total: real)
    requires total > 0.0 && 0.0 <= part <= total
    ensures 0.0 <= part / total <= 1.0
  {
  }

  /** Without UMPU the two-sided p-value is `2 min(p_less, 1 - p_less)`. */
  lemma TwoSidedFoldsLess(z: Matrix, w: Vector, eta: Vector, y: Vector, sigmaKnown: bool, alpha: real,
                          umpuTest: (Vector, Vector, real, real) -> bool)
    requires TestInputs(z, w, eta, y, sigmaKnown)
    ensures var less := GibbsTest(z, w, eta, y, "less", false, sigmaKnown, alpha, umpuTest);
      var two := GibbsTest(z, w, eta, y, "twosided", false, sigmaKnown, alpha, umpuTest);
      less.Success? && two.Success? && less.value.outcome.PValue? &&
      two.value.outcome == PValue(TwoSidedFold(less.value.outcome.p))
  {
  }

  /** The greater and less p-values sum to one plus the weight fraction of ties. */
  lemma OneSidedComplement(z: Matrix, w: Vector, eta: Vector, y: Vector, sigmaKnown: bool, alpha: real,
                           umpuTest: (Vector, Vector, real, real) -> bool)
    requires TestInputs(z, w, eta, y, sigmaKnown)
    ensures var g := GibbsTest(z, w, eta, y, "greater", false, sigmaKnown, alpha, umpuTest);
      var l := GibbsTest(z, w, eta, y, "less", false, sigmaKnown, alpha, umpuTest);
      var weights := TestWeights(z, w, sigmaKnown);
      Sum(weights) != 0.0 &&
      g.Success? && l.Success? && g.value.outcome.PValue? && l.value.outcome.PValue? &&
      g.value.outcome.p + l.value.outcome.p
        == 1.0 + TieWeight(MatVec(z, eta), weights, Dot(eta, y)) / Sum(weights)
  {
    var weights := TestWeights(z, w, sigmaKnown);
    if sigmaKnown { SumOnes(|z|); }
    var stats, observed := MatVec(z, eta), Dot(eta, y);
    TailsCoverAll(stats, weights, observed);
    var t := Sum(weights);
    var g, l := TailWeight(stats, weights, observed, true), TailWeight(stats, weights, observed, false);
    SplitFraction(g, l, t, TieWeight(stats, weights, observed));
  }

  lemma SplitFraction(g: real, l: real, t: real, ties: real)
    requires t != 0.0 && g + l == t + ties
    ensures g / t + l / t == 1.0 + ties / t
  {
    assert g / t + l / t == (g + l) / t;
    assert (t + ties) / t == t / t + ties / t;
    assert t / t == 1.0;
  }

  /** With sigma known every draw carries weight one, so a one-sided p-value
      is the fraction of draws in the tail. */
  lemma SigmaKnownUnitWeights(z: Matrix, w: Vector, eta: Vector, y: Vector, alpha: real,
                              umpuTest: (Vector, Vector, real, real) -> bool)
    requires TestInputs(z, w, eta, y, true)
    ensures var g := GibbsTest(z, w, eta, y, "greater", false, true, alpha, umpuTest);
      g.Success? && g.value.weights == Ones(|z|) &&
      g.value.outcome == PValue(TailWeight(MatVec(z, eta), Ones(|z|), Dot(eta, y), true) / (|z| as real))
  {
    SumOnes(|z|);
  }
}
