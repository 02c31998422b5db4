/** `one_parameter_MLE`: a stochastic Newton iteration for the natural parameter
    theta of the exponential family obtained by tilting a truncated Gaussian along
    a direction eta. Each iteration tilts a private copy of the constraints, draws
    a batch of the statistic eta'Z from it, and takes one Newton step on the
    pseudo-likelihood estimated by importance-reweighting every batch drawn so
    far to the current parameter. The sampler and `exp` are parameters. */
module Mle {
  import opened Wrappers
  import opened ExtReal
  import opened LinAlg
  import opened AffineSet
  import opened Truncation

  /** One entry of `samples`: the parameter a batch was drawn at, and the values
      of the sufficient statistic eta'Z of its draws. */
  datatype Batch = Batch(param: real, stats: Vector)

  /** The tuning arguments `niter`, `ndraw`, `step_size`, `hessian_min`, `tol`,
      `startMLE`. `ndraw` is the number of draws in every batch. */
  datatype Options = Options(
    niter: nat, ndraw: nat, stepSize: real, hessianMin: real, tol: real, startMLE: Option<real>)

  /** The stabiliser subtracts this much less than the largest exponent, so the
      largest importance weight is `exp(4)`. */
  const Margin: real := 4.0

  /** What the model needs of `np.exp`: it is never negative, and `exp(Margin)`
      is positive. */
  ghost predicate ExpLike(exp: real -> real) {
    (forall x :: exp(x) >= 0.0) && exp(Margin) > 0.0
  }

  /** `exp` is nondecreasing. */
  ghost predicate Monotone(exp: real -> real) {
    forall x, x' :: x <= x' ==> exp(x) <= exp(x')
  }

  predicate NonemptyBatches(h: seq<Batch>) {
    forall k | 0 <= k < |h| :: |h[k].stats| > 0
  }

  /** The unconstrained MLE `eta'y / eta'S eta`, or `startMLE` when given. */
  function Start(con: Constraints, y: Vector, eta: Vector, opts: Options): (theta: real)
    requires WellFormed(con) && |eta| == con.dim && |y| == con.dim
    requires opts.startMLE.Some? || Variance(con.covariance, eta) != 0.0
    ensures opts.startMLE.Some? ==> theta == opts.startMLE.value
    ensures opts.startMLE.None? ==> theta * Variance(con.covariance, eta) == Dot(eta, y)
  {
    if opts.startMLE.Some? then opts.startMLE.value
    else Dot(eta, y) / Variance(con.covariance, eta)
  }

  /** The working copy at parameter theta: the mean of `con` moved by
      `S (theta eta)`; the linear part, the offset and the covariance are kept. */
  function Tilted(con: Constraints, eta: Vector, theta: real): (t: Constraints)
    requires WellFormed(con) && |eta| == con.dim
    ensures WellFormed(t)
    ensures t.linearPart == con.linearPart && t.offset == con.offset
    ensures t.covariance == con.covariance && t.dim == con.dim
  {
    con.(mean := Add(con.mean, MatVec(con.covariance, Scale(theta, eta))))
  }

  /** The mean of the working copy moves linearly in theta along `S eta`, always
      from the caller's mean: tilting does not accumulate across iterations. */
  lemma TiltedMeanShift(con: Constraints, eta: Vector, theta: real)
    requires WellFormed(con) && |eta| == con.dim
    ensures Tilted(con, eta, theta).mean == Add(con.mean, Scale(theta, MatVec(con.covariance, eta)))
    ensures Tilted(con, eta, 0.0) == con
  {
    var z := Zeros(|eta|);
    assert Add(z, Scale(theta, eta)) == Scale(theta, eta);
    MatVecLinear(con.covariance, z, theta, eta);
    forall i | 0 <= i < con.dim ensures MatVec(con.covariance, z)[i] == 0.0 {
      DotZeros(con.covariance[i]);
    }
    assert Add(con.mean, MatVec(con.covariance, Scale(0.0, eta))) == con.mean by {
      assert Add(z, Scale(0.0, eta)) == Scale(0.0, eta);
      MatVecLinear(con.covariance, z, 0.0, eta);
    }
  }

  lemma {:induction false} DotZeros(w: Vector)
    ensures Dot(w, Zeros(|w|)) == 0.0
  {
    if |w| > 0 {
      assert Zeros(|w|)[1..] == Zeros(|w| - 1);
      DotZeros(w[1..]);
    }
  }

  /** The batch drawn at iteration k from the working copy: `np.dot(Z, eta)`. */
  function Draw(
    con: Constraints, eta: Vector, theta: real, k: nat, draw: (Constraints, nat) -> Matrix): (r: Vector)
    requires WellFormed(con) && |eta| == con.dim
    requires forall c: Constraints, i: nat :: HasCols(draw(c, i), |eta|)
    ensures |r| == |draw(Tilted(con, eta, theta), k)|
  {
    MatVec(draw(Tilted(con, eta, theta), k), eta)
  }

  /** `(MLE - prev_param) * prev_sufficient_stat`: the log importance ratio of each
      draw of a batch for the current parameter theta. */
  function Exponents(theta: real, b: Batch): (e: Vector)
    ensures |e| == |b.stats|
  {
    Scale(theta - b.param, b.stats)
  }

  /** The running `max(weight_adjust, ...)` over the history, starting at -inf. */
  function HistoryMax(theta: real, h: seq<Batch>): (m: Ext)
    requires NonemptyBatches(h)
    ensures m.Fin? <==> |h| > 0
  {
    if |h| == 0 then NegInf
    else
      var init := h[..|h| - 1];
      assert forall k | 0 <= k < |init| :: init[k] == h[k];
      Max(HistoryMax(theta, init), Fin(VectorMax(Exponents(theta, h[|h| - 1]))))
  }

  /** The running maximum bounds every exponent of the history. */
  lemma {:induction false} HistoryMaxBounds(theta: real, h: seq<Batch>)
    requires NonemptyBatches(h)
    ensures forall k, j | 0 <= k < |h| && 0 <= j < |h[k].stats| :: Exponents(theta, h[k])[j] <= HistoryMax(theta, h).r
  {
    if |h| > 0 {
      var init, last := h[..|h| - 1], |h| - 1;
      assert forall k | 0 <= k < |init| :: init[k] == h[k];
      HistoryMaxBounds(theta, init);
      var prev, top := HistoryMax(theta, init), VectorMax(Exponents(theta, h[last]));
      assert HistoryMax(theta, h) == Max(prev, Fin(top));
    }
  }

  /** A nonempty history attains its running maximum. */
  lemma {:induction false} HistoryMaxAttained(theta: real, h: seq<Batch>)
    requires NonemptyBatches(h) && |h| > 0
    ensures exists k, j | 0 <= k < |h| && 0 <= j < |h[k].stats| :: Exponents(theta, h[k])[j] == HistoryMax(theta, h).r
  {
    var init, last := h[..|h| - 1], |h| - 1;
    assert forall k | 0 <= k < |init| :: init[k] == h[k];
    var prev, top := HistoryMax(theta, init), VectorMax(Exponents(theta, h[last]));
    var j :| 0 <= j < |h[last].stats| && Exponents(theta, h[last])[j] == top;
    if HistoryMax(theta, h).r != top {
      HistoryMaxAttained(theta, init);
      var k, j' :| 0 <= k < |init| && 0 <= j' < |init[k].stats| && Exponents(theta, init[k])[j'] == prev.r;
      assert Exponents(theta, h[k])[j'] == HistoryMax(theta, h).r;
    }
  }

  /** `weight_adjust` after `-= 4.`: every stabilised exponent is at most 4, and
      one of them is exactly 4. */
  function Stabiliser(theta: real, h: seq<Batch>): (c: real)
    requires NonemptyBatches(h) && |h| > 0
    ensures forall k, j | 0 <= k < |h| && 0 <= j < |h[k].stats| :: Exponents(theta, h[k])[j] - c <= Margin
    ensures exists k, j | 0 <= k < |h| && 0 <= j < |h[k].stats| :: Exponents(theta, h[k])[j] - c == Margin
  {
    HistoryMaxBounds(theta, h);
    HistoryMaxAttained(theta, h);
    HistoryMax(theta, h).r - Margin
  }

  /** `weight_correction`: the stabilised importance weight of each draw of a batch. */
  function Weights(exp: real -> real, theta: real, c: real, b: Batch): (w: Vector)
    ensures |w| == |b.stats|
    ensures forall j | 0 <= j < |w| :: w[j] == exp(Exponents(theta, b)[j] - c)
  {
    var e := Exponents(theta, b);
    seq(|e|, j requires 0 <= j < |e| => exp(e[j] - c))
  }

  /** `sum_weights.sum()`: the total importance weight of the history. */
  function Mass(exp: real -> real, theta: real, c: real, h: seq<Batch>): real {
    if |h| == 0 then 0.0
    else Mass(exp, theta, c, h[..|h| - 1]) + Sum(Weights(exp, theta, c, h[|h| - 1]))
  }

  /** `sum_mean.sum()`: the weighted total of the statistic. */
  function FirstMoment(exp: real -> real, theta: real, c: real, h: seq<Batch>): real {
    if |h| == 0 then 0.0
    else
      var b := h[|h| - 1];
      FirstMoment(exp, theta, c, h[..|h| - 1]) + Dot(Weights(exp, theta, c, b), b.stats)
  }

  /** `sum_second_moment.sum()`: the weighted total of the squared statistic. */
  function SecondMoment(exp: real -> real, theta: real, c: real, h: seq<Batch>): real {
    if |h| == 0 then 0.0
    else
      var b := h[|h| - 1];
      SecondMoment(exp, theta, c, h[..|h| - 1]) + WeightedSquares(Weights(exp, theta, c, b), b.stats)
  }

  /** The total weight of a history is at least that of any one batch in it. */
  lemma {:induction false} MassAtLeastBatch(exp: real -> real, theta: real, c: real, h: seq<Batch>, k: nat)
    requires ExpLike(exp) && k < |h|
    ensures Mass(exp, theta, c, h) >= Sum(Weights(exp, theta, c, h[k]))
  {
    var init := h[..|h| - 1];
    var last := Weights(exp, theta, c, h[|h| - 1]);
    SumNonnegative(last);
    if k < |h| - 1 {
      assert init[k] == h[k];
      MassAtLeastBatch(exp, theta, c, init, k);
    } else {
      MassNonnegative(exp, theta, c, init);
    }
  }

  lemma {:induction false} MassNonnegative(exp: real -> real, theta: real, c: real, h: seq<Batch>)
    requires ExpLike(exp)
    ensures Mass(exp, theta, c, h) >= 0.0
  {
    if |h| > 0 {
      MassNonnegative(exp, theta, c, h[..|h| - 1]);
      SumNonnegative(Weights(exp, theta, c, h[|h| - 1]));
    }
  }

  /** The stabilised weights never all underflow: the draw with the largest
      exponent has weight `exp(4)`, so `sum_weights` is at least that and the
      weighted moments are well defined. */
  lemma MassPositive(exp: real -> real, theta: real, h: seq<Batch>)
    requires ExpLike(exp) && NonemptyBatches(h) && |h| > 0
    ensures Mass(exp, theta, Stabiliser(theta, h), h) >= exp(Margin) > 0.0
  {
    var c := Stabiliser(theta, h);
    var k, j :| 0 <= k < |h| && 0 <= j < |h[k].stats| && Exponents(theta, h[k])[j] - c == Margin;
    var w := Weights(exp, theta, c, h[k]);
    assert w[j] == exp(Margin);
    SumAtLeastEntry(w, j);
    MassAtLeastBatch(exp, theta, c, h, k);
  }

  /** For a nondecreasing `exp`, no stabilised weight exceeds `exp(4)`: the
      stabiliser keeps the weights from overflowing. */
  lemma WeightsBounded(exp: real -> real, theta: real, h: seq<Batch>, k: nat, j: nat)
    requires Monotone(exp) && NonemptyBatches(h) && k < |h| && j < |h[k].stats|
    ensures Weights(exp, theta, Stabiliser(theta, h), h[k])[j] <= exp(Margin)
  {
    var c := Stabiliser(theta, h);
    assert Exponents(theta, h[k])[j] - c <= Margin;
  }

  /** The weighted spread of the whole history about m. */
  function HistoryCentered(exp: real -> real, theta: real, c: real, h: seq<Batch>, m: real): real {
    if |h| == 0 then 0.0
    else
      var b := h[|h| - 1];
      HistoryCentered(exp, theta, c, h[..|h| - 1], m) + Centered(Weights(exp, theta, c, b), b.stats, m)
  }

  lemma {:induction false} HistoryCenteredExpands(exp: real -> real, theta: real, c: real, h: seq<Batch>, m: real)
    ensures HistoryCentered(exp, theta, c, h, m)
         == Expansion(SecondMoment(exp, theta, c, h), FirstMoment(exp, theta, c, h), Mass(exp, theta, c, h), m)
  {
    if |h| > 0 {
      var init := h[..|h| - 1];
      var b := h[|h| - 1];
      var w := Weights(exp, theta, c, b);
      HistoryCenteredExpands(exp, theta, c, init, m);
      CenteredExpands(w, b.stats, m);
      Regroup(SecondMoment(exp, theta, c, init), FirstMoment(exp, theta, c, init), Mass(exp, theta, c, init),
              WeightedSquares(w, b.stats), Dot(w, b.stats), Sum(w), m);
    }
  }

  lemma {:induction false} HistoryCenteredNonnegative(exp: real -> real, theta: real, c: real, h: seq<Batch>, m: real)
    requires ExpLike(exp)
    ensures HistoryCentered(exp, theta, c, h, m) >= 0.0
  {
    if |h| > 0 {
      var b := h[|h| - 1];
      HistoryCenteredNonnegative(exp, theta, c, h[..|h| - 1], m);
      CenteredNonnegative(Weights(exp, theta, c, b), b.stats, m);
    }
  }

  /** The quantities of one Newton step: the gradient and the Hessian of the
      negative log pseudo-likelihood, the divisor `max(hessian, hessian_min)`,
      the updated parameter and whether the stopping test fired. */
  datatype NewtonStep = NewtonStep(grad: real, hessian: real, divisor: real, next: real, converged: bool)

  /** The step from theta: `MLE += -step_size * grad / max(hessian, hessian_min)`,
      and the test `sqrt(grad**2 / max(hessian, hessian_min)) < tol` written without
      the square root (the radicand is nonnegative; see `ConvergedIsRootTest`). */
  function Step(grad: real, hessian: real, theta: real, opts: Options): (s: NewtonStep)
    requires opts.hessianMin > 0.0
    ensures s.grad == grad && s.hessian == hessian
    ensures s.divisor >= opts.hessianMin && s.divisor >= hessian
    ensures s.divisor == hessian || s.divisor == opts.hessianMin
    ensures grad == 0.0 ==> s.next == theta && (opts.tol > 0.0 ==> s.converged)
  {
    var d := if hessian >= opts.hessianMin then hessian else opts.hessianMin;
    var ratio := Quotient(Square(grad), d);
    PositiveSquare(opts.tol);
    NewtonStep(grad, hessian, d, theta + Quotient(-opts.stepSize * grad, d),
               opts.tol > 0.0 && ratio < Square(opts.tol))
  }

  /** The stopping test agrees with `sqrt(grad**2 / divisor) < tol` for the
      nonnegative square root. */
  lemma ConvergedIsRootTest(grad: real, hessian: real, theta: real, opts: Options, root: real)
    requires opts.hessianMin > 0.0
    requires root >= 0.0
    requires Square(root) == Quotient(Square(grad), Step(grad, hessian, theta, opts).divisor)
    ensures Step(grad, hessian, theta, opts).converged <==> root < opts.tol
  {
    var t := opts.tol;
    if root < t {
      SquareMonotone(root, t);
    }
    if t > 0.0 && Square(root) < Square(t) {
      if root >= t {
        SquareMonotone(t, root);
      }
    }
  }

  /** Squaring is increasing on the nonnegative reals. */
  lemma SquareMonotone(a: real, b: real)
    requires 0.0 <= a <= b
    ensures Square(a) <= Square(b)
    ensures a < b ==> Square(a) < Square(b)
  {
    var p, q, r := a * a, a * b, b * b;
    assert p <= q;
    assert q <= r;
    if a < b {
      assert q < r;
    }
  }

  lemma PositiveSquare(t: real)
    ensures t > 0.0 ==> Square(t) > 0.0
  {
    if t > 0.0 {
      SquareMonotone(0.0, t);
    }
  }

  /** The floor on the Hessian bounds every step, and with a positive step size
      the step goes against the gradient. */
  lemma StepBounded(grad: real, hessian: real, theta: real, opts: Options)
    requires opts.hessianMin > 0.0 && opts.stepSize >= 0.0
    ensures var s := Step(grad, hessian, theta, opts);
      Abs(s.next - theta) <= opts.stepSize * Abs(grad) / opts.hessianMin
    ensures var s := Step(grad, hessian, theta, opts);
      opts.stepSize > 0.0 ==> (grad > 0.0 ==> s.next < theta) && (grad < 0.0 ==> s.next > theta)
  {
    var s := Step(grad, hessian, theta, opts);
    var d := s.divisor;
    var q := Quotient(-opts.stepSize * grad, d);
    assert s.next - theta == q;
    QuotientBound(opts.stepSize * Abs(grad), d, opts.hessianMin);
    assert Abs(q) * d == opts.stepSize * Abs(grad);
    assert Abs(q) * d <= opts.stepSize * Abs(grad) / opts.hessianMin * d;
    if opts.stepSize > 0.0 {
      assert q * d == -opts.stepSize * grad;
    }
  }

  /** `x / d <= x / m` for `x >= 0` and `d >= m > 0`, stated with `q*d == x`. */
  lemma QuotientBound(x: real, d: real, m: real)
    requires x >= 0.0 && d >= m > 0.0
    ensures x <= x / m * d
  {
    var r := x / m;
    assert r * m == x;
    assert r >= 0.0;
    assert r * m <= r * d;
  }

  /** One iteration over the history h, whose last batch was drawn at the
      current parameter: reweight all batches to it, then step. */
  function NewtonAt(exp: real -> real, h: seq<Batch>, observed: real, opts: Options): (s: NewtonStep)
    requires ExpLike(exp) && NonemptyBatches(h) && |h| > 0 && opts.hessianMin > 0.0
  {
    var theta := h[|h| - 1].param;
    var c := Stabiliser(theta, h);
    MassPositive(exp, theta, h);
    StepFromSums(FirstMoment(exp, theta, c, h), SecondMoment(exp, theta, c, h), Mass(exp, theta, c, h),
                 theta, observed, opts)
  }

  /** The step from the three running sums: the weighted mean and second moment
      give the gradient `mean - observed` and the Hessian `second - mean**2`. */
  function StepFromSums(first: real, second: real, mass: real, theta: real, observed: real, opts: Options): NewtonStep
    requires mass > 0.0 && opts.hessianMin > 0.0
  {
    var mean := Quotient(first, mass);
    Step(mean - observed, Quotient(second, mass) - Square(mean), theta, opts)
  }

  /** The Hessian estimate `weighted_second_moment - weighted_mean**2` is the
      variance of the statistic under the importance weights, so in exact
      arithmetic it is never negative: the floor `hessian_min` only guards a
      degenerate or numerically cancelled estimate. */
  lemma HessianNonnegative(exp: real -> real, h: seq<Batch>, observed: real, opts: Options)
    requires ExpLike(exp) && NonemptyBatches(h) && |h| > 0 && opts.hessianMin > 0.0
    ensures NewtonAt(exp, h, observed, opts).hessian >= 0.0
  {
    var theta := h[|h| - 1].param;
    MassPositive(exp, theta, h);
    WeightedVarianceNonnegative(exp, theta, Stabiliser(theta, h), h);
  }

  /** The weighted second moment minus the squared weighted mean is the
      weighted spread about that mean over the total weight. */
  lemma WeightedVarianceNonnegative(exp: real -> real, theta: real, c: real, h: seq<Batch>)
    requires ExpLike(exp) && Mass(exp, theta, c, h) > 0.0
    ensures Quotient(SecondMoment(exp, theta, c, h), Mass(exp, theta, c, h))
      - Square(Quotient(FirstMoment(exp, theta, c, h), Mass(exp, theta, c, h))) >= 0.0
  {
    var w := Mass(exp, theta, c, h);
    var m1 := FirstMoment(exp, theta, c, h);
    var m2 := SecondMoment(exp, theta, c, h);
    HistorySpreadNonnegative(exp, theta, c, h, Quotient(m1, w));
    VarianceFromSpread(m2, m1, w);
  }

  /** The history's weighted spread about any m, in terms of the running sums. */
  lemma HistorySpreadNonnegative(exp: real -> real, theta: real, c: real, h: seq<Batch>, m: real)
    requires ExpLike(exp)
    ensures Expansion(SecondMoment(exp, theta, c, h), FirstMoment(exp, theta, c, h), Mass(exp, theta, c, h), m) >= 0.0
  {
    HistoryCenteredExpands(exp, theta, c, h, m);
    HistoryCenteredNonnegative(exp, theta, c, h, m);
  }

  /** A spread about the weighted mean, divided by the total weight, is the
      second moment minus the squared mean. */
  lemma VarianceFromSpread(a: real, b: real, c: real)
    requires c > 0.0 && Expansion(a, b, c, Quotient(b, c)) >= 0.0
    ensures Quotient(a, c) - Square(Quotient(b, c)) >= 0.0
  {
    var mean, second := Quotient(b, c), Quotient(a, c);
    var v := second - Square(mean);
    assert Expansion(a, b, c, mean) == v * c;
  }

  /** What `one_parameter_MLE` needs of its inputs: a well-formed set with Y and
      eta of its dimension; a starting point (given, or `eta' Y / eta' S eta`
      with a nonzero denominator); a positive Hessian floor; and a sampler that
      returns `ndraw` draws with one column per coordinate. */
  ghost predicate RunInputs(
    con: Constraints, y: Vector, eta: Vector, opts: Options,
    draw: (Constraints, nat) -> Matrix, exp: real -> real)
  {
    && WellFormed(con) && |eta| == con.dim && |y| == con.dim
    && (opts.startMLE.Some? || Variance(con.covariance, eta) != 0.0)
    && opts.hessianMin > 0.0 && ExpLike(exp)
    && (forall c: Constraints, i: nat :: HasCols(draw(c, i), |eta|))
    && (forall c: Constraints, i: nat :: |draw(c, i)| == opts.ndraw)
  }

  /** Batch k+1 was drawn at the Newton step from the first k+1 batches, and
      that step's stopping test did not fire. */
  predicate Stepped(exp: real -> real, h: seq<Batch>, k: nat, observed: real, opts: Options)
    requires ExpLike(exp) && k + 1 < |h| && NonemptyBatches(h[..k + 1]) && opts.hessianMin > 0.0
  {
    var s := NewtonAt(exp, h[..k + 1], observed, opts);
    h[k + 1].param == s.next && !s.converged
  }

  /** Every parameter after the first is the Newton step from the history
      before it, and none of those steps met the stopping test. */
  predicate StepsRecorded(exp: real -> real, h: seq<Batch>, observed: real, opts: Options)
    requires ExpLike(exp) && opts.hessianMin > 0.0
  {
    forall k | 0 <= k < |h| - 1 :: NonemptyBatches(h[..k + 1]) && Stepped(exp, h, k, observed, opts)
  }

  /** What a run recorded: the first batch was drawn at the starting point; batch
      k was drawn from the working copy tilted to its parameter with the
      sampler's k-th call; and each later parameter is the Newton step from the
      history before it, whose stopping test did not fire. */
  predicate Trace(
    con: Constraints, y: Vector, eta: Vector, opts: Options,
    draw: (Constraints, nat) -> Matrix, exp: real -> real, h: seq<Batch>)
    requires RunInputs(con, y, eta, opts, draw, exp)
  {
    && (|h| > 0 ==> h[0].param == Start(con, y, eta, opts))
    && (forall k | 0 <= k < |h| :: h[k].stats == Draw(con, eta, h[k].param, k, draw))
    && StepsRecorded(exp, h, Dot(eta, y), opts)
  }

  /** Appending the batch drawn at the next parameter extends a trace. */
  lemma TraceExtend(
    con: Constraints, y: Vector, eta: Vector, opts: Options,
    draw: (Constraints, nat) -> Matrix, exp: real -> real, h: seq<Batch>, b: Batch)
    requires RunInputs(con, y, eta, opts, draw, exp)
    requires Trace(con, y, eta, opts, draw, exp, h) && NonemptyBatches(h)
    requires |h| == 0 ==> b.param == Start(con, y, eta, opts)
    requires |h| > 0 ==>
      var s := NewtonAt(exp, h, Dot(eta, y), opts);
      b.param == s.next && !s.converged
    requires b.stats == Draw(con, eta, b.param, |h|, draw)
    ensures Trace(con, y, eta, opts, draw, exp, h + [b])
  {
    DrawsExtend(con, eta, draw, h, b);
    StepsExtend(exp, h, b, Dot(eta, y), opts);
    if |h| > 0 {
      assert (h + [b])[0] == h[0];
    }
  }

  lemma DrawsExtend(
    con: Constraints, eta: Vector, draw: (Constraints, nat) -> Matrix, h: seq<Batch>, b: Batch)
    requires WellFormed(con) && |eta| == con.dim
    requires forall c: Constraints, i: nat :: HasCols(draw(c, i), |eta|)
    requires forall k | 0 <= k < |h| :: h[k].stats == Draw(con, eta, h[k].param, k, draw)
    requires b.stats == Draw(con, eta, b.param, |h|, draw)
    ensures forall k | 0 <= k < |h + [b]| ::
      (h + [b])[k].stats == Draw(con, eta, (h + [b])[k].param, k, draw)
  {
    var h' := h + [b];
    forall k | 0 <= k < |h'|
      ensures h'[k].stats == Draw(con, eta, h'[k].param, k, draw)
    {
      if k < |h| {
        assert h'[k] == h[k];
      }
    }
  }

  lemma StepsExtend(exp: real -> real, h: seq<Batch>, b: Batch, observed: real, opts: Options)
    requires ExpLike(exp) && opts.hessianMin > 0.0 && NonemptyBatches(h)
    requires StepsRecorded(exp, h, observed, opts)
    requires |h| > 0 ==>
      var s := NewtonAt(exp, h, observed, opts);
      b.param == s.next && !s.converged
    ensures StepsRecorded(exp, h + [b], observed, opts)
  {
    var h' := h + [b];
    forall k | 0 <= k < |h'| - 1
      ensures NonemptyBatches(h'[..k + 1]) && Stepped(exp, h', k, observed, opts)
    {
      assert h'[..k + 1] == h[..k + 1];
      if k + 1 < |h| {
        assert h'[k + 1] == h[k + 1];
        assert Stepped(exp, h, k, observed, opts);
      } else {
        assert h[..k + 1] == h;
        assert h'[k + 1] == b;
      }
    }
  }

  /** The body of one iteration once its batch is appended: reweight the history
      to the current parameter and take the Newton step. */
  method NewtonIteration(exp: real -> real, h: seq<Batch>, observed: real, opts: Options)
    returns (r: Result<NewtonStep>)
    requires ExpLike(exp) && |h| > 0 && opts.hessianMin > 0.0
    ensures r.Failure? <==> !NonemptyBatches(h)
    ensures r.Failure? ==> r.error == EmptyReduction
    ensures r.Success? ==> r.value == NewtonAt(exp, h, observed, opts)
  {
    var theta := h[|h| - 1].param;
    var adjust := StabiliserOf(theta, h);
    if adjust.Failure? {
      return Failure(adjust.error);
    }
    ghost var c := Stabiliser(theta, h);
    assert adjust.value == c;
    var first, second, mass := Moments(exp, theta, adjust.value, h);
    MassPositive(exp, theta, h);
    assert mass == Mass(exp, theta, c, h) > 0.0;
    r := Success(StepFromSums(first, second, mass, theta, observed, opts));
  }

  /** The running `weight_adjust`, minus 4; a batch with no draws makes `.max()`
      raise. */
  method StabiliserOf(theta: real, h: seq<Batch>) returns (r: Result<real>)
    requires |h| > 0
    ensures r.Failure? <==> !NonemptyBatches(h)
    ensures r.Failure? ==> r.error == EmptyReduction
    ensures r.Success? ==> r.value == Stabiliser(theta, h)
  {
    var adjust := NegInf;
    var i := 0;
    while i < |h|
      invariant 0 <= i <= |h|
      invariant NonemptyBatches(h[..i])
      invariant adjust == HistoryMax(theta, h[..i])
    {
      if |h[i].stats| == 0 {
        return Failure(EmptyReduction);
      }
      HistoryMaxExtend(theta, h, i);
      adjust := Max(adjust, Fin(VectorMax(Exponents(theta, h[i]))));
      i := i + 1;
    }
    assert h[..i] == h;
    r := Success(adjust.r - Margin);
  }

  /** One more batch with draws: the running maximum takes in its largest exponent. */
  lemma HistoryMaxExtend(theta: real, h: seq<Batch>, i: nat)
    requires i < |h| && NonemptyBatches(h[..i]) && |h[i].stats| > 0
    ensures NonemptyBatches(h[..i + 1])
    ensures HistoryMax(theta, h[..i + 1]) == Max(HistoryMax(theta, h[..i]), Fin(VectorMax(Exponents(theta, h[i]))))
  {
    var p := h[..i + 1];
    assert p[..i] == h[..i];
    assert p[i] == h[i];
  }

  /** The second loop over the history: accumulate the weights and the weighted
      first and second moments. */
  method Moments(exp: real -> real, theta: real, c: real, h: seq<Batch>)
    returns (first: real, second: real, mass: real)
    ensures first == FirstMoment(exp, theta, c, h)
    ensures second == SecondMoment(exp, theta, c, h)
    ensures mass == Mass(exp, theta, c, h)
  {
    first, second, mass := 0.0, 0.0, 0.0;
    var i := 0;
    while i < |h|
      invariant 0 <= i <= |h|
      invariant first == FirstMoment(exp, theta, c, h[..i])
      invariant second == SecondMoment(exp, theta, c, h[..i])
      invariant mass == Mass(exp, theta, c, h[..i])
    {
      var w := Weights(exp, theta, c, h[i]);
      assert h[..i + 1][..i] == h[..i];
      first := first + Dot(w, h[i].stats);
      second := second + WeightedSquares(w, h[i].stats);
      mass := mass + Sum(w);
      i := i + 1;
    }
    assert h[..i] == h;
  }

  /** One pass of the loop of `one_parameter_MLE`: tilt the working copy to
      theta, draw a batch, append it, and take the Newton step from the whole
      history. */
  method Advance(
    con: Constraints, y: Vector, eta: Vector, opts: Options,
    draw: (Constraints, nat) -> Matrix, exp: real -> real, h: seq<Batch>, theta: real)
    returns (r: Result<NewtonStep>, h': seq<Batch>)
    requires RunInputs(con, y, eta, opts, draw, exp)
    requires Trace(con, y, eta, opts, draw, exp, h) && NonemptyBatches(h)
    requires |h| == 0 ==> theta == Start(con, y, eta, opts)
    requires |h| > 0 ==>
      var s := NewtonAt(exp, h, Dot(eta, y), opts);
      theta == s.next && !s.converged
    ensures h' == h + [Batch(theta, Draw(con, eta, theta, |h|, draw))] && h'[..|h|] == h
    ensures Trace(con, y, eta, opts, draw, exp, h')
    ensures r.Failure? <==> |h'[|h|].stats| == 0
    ensures r.Failure? <==> opts.ndraw == 0
    ensures r.Failure? ==> r.error == EmptyReduction
    ensures r.Success? ==> NonemptyBatches(h') && r.value == NewtonAt(exp, h', Dot(eta, y), opts)
  {
    var working := Tilted(con, eta, theta);
    var stats := MatVec(draw(working, |h|), eta);
    TraceExtend(con, y, eta, opts, draw, exp, h, Batch(theta, stats));
    h' := h + [Batch(theta, stats)];
    NonemptyAppend(h, Batch(theta, stats));
    r := NewtonIteration(exp, h', Dot(eta, y), opts);
  }

  /** Appending a batch to a history without empty batches keeps it so exactly
      when the new batch has draws. */
  lemma NonemptyAppend(h: seq<Batch>, b: Batch)
    requires NonemptyBatches(h)
    ensures NonemptyBatches(h + [b]) <==> |b.stats| > 0
  {
    assert (h + [b])[|h|] == b;
    assert forall k | 0 <= k < |h| :: (h + [b])[k] == h[k];
  }

  /** `one_parameter_MLE`. Runs at most `niter` iterations and stops early once
      the stopping test fires; returns the final parameter together with the
      history of batches. An iteration whose batch has no draws fails, as
      numpy's `.max()` of an empty array does. */
  method OneParameterMLE(
    con: Constraints, y: Vector, eta: Vector, opts: Options,
    draw: (Constraints, nat) -> Matrix, exp: real -> real)
    returns (mle: Result<real>, history: seq<Batch>)
    requires RunInputs(con, y, eta, opts, draw, exp)
    ensures |history| <= opts.niter
    ensures Trace(con, y, eta, opts, draw, exp, history)
    ensures mle.Failure? <==> opts.niter > 0 && opts.ndraw == 0
    ensures mle.Failure? ==>
      && mle.error == EmptyReduction
      && |history| > 0 && |history[|history| - 1].stats| == 0
      && NonemptyBatches(history[..|history| - 1])
    ensures mle.Success? ==>
      && NonemptyBatches(history)
      && (opts.niter > 0 <==> |history| > 0)
      && (|history| == 0 ==> mle.value == Start(con, y, eta, opts))
      && (|history| > 0 ==>
            var s := NewtonAt(exp, history, Dot(eta, y), opts);
            mle.value == s.next && (|history| < opts.niter ==> s.converged))
  {
    var observed := Dot(eta, y);
    var theta := Start(con, y, eta, opts);
    history := [];
    var k := 0;
    while k < opts.niter
      invariant 0 <= k <= opts.niter && |history| == k
      invariant NonemptyBatches(history)
      invariant k > 0 ==> opts.ndraw > 0
      invariant Trace(con, y, eta, opts, draw, exp, history)
      invariant k == 0 ==> theta == Start(con, y, eta, opts)
      invariant k > 0 ==>
        var s := NewtonAt(exp, history, observed, opts);
        theta == s.next && !s.converged
    {
      var iteration;
      iteration, history := Advance(con, y, eta, opts, draw, exp, history, theta);
      if iteration.Failure? {
        mle := Failure(iteration.error);
        return;
      }
      var step := iteration.value;
      theta := step.next;
      k := k + 1;
      if step.converged {
        mle := Success(theta);
        return;
      }
    }
    mle := Success(theta);
  }
}
