/** `interval_constraints`, `constraints.bounds` and `constraints.pivot`: the
    slice of the polyhedron {z : A z <= b} along a direction eta through an
    observed point Y, and the truncated-Gaussian pivot built on it. */
module Truncation {
  import opened Wrappers
  import opened ExtReal
  import opened LinAlg
  import opened Alternatives
  import opened AffineSet

  /** What `interval_constraints` returns: `(lower_bound, V, upper_bound, sigma)`,
      with the variance sigma^2 in place of its square root. */
  datatype Slice = Slice(lower: Ext, observed: real, upper: Ext, variance: real)

  /** Default relative tolerance of `interval_constraints`. */
  const SliceTol: real := 0.0001

  /** A is q-by-p, b has q entries, covariance is p-by-p, Y and eta have p entries. */
  predicate SliceShapes(a: Matrix, b: Vector, s: Matrix, y: Vector, w: Vector) {
    |w| == |y| && IsMatrix(a, |b|, |y|) && IsMatrix(s, |y|, |y|)
  }

  /** The variance `eta' S eta` of the statistic `eta' Y`. */
  function Variance(s: Matrix, w: Vector): real
    requires IsMatrix(s, |w|, |w|)
  {
    Dot(w, MatVec(s, w))
  }

  /** The sensitivities `alpha = A S eta / sigma^2` of each row to moving `eta' Y`. */
  function Sensitivities(a: Matrix, s: Matrix, w: Vector): (alpha: Vector)
    requires IsMatrix(s, |w|, |w|) && HasCols(a, |w|) && Variance(s, w) != 0.0
    ensures |alpha| == |a|
    ensures forall i | 0 <= i < |a| :: alpha[i] * Variance(s, w) == MatVec(a, MatVec(s, w))[i]
  {
    Divide(MatVec(a, MatVec(s, w)), Variance(s, w))
  }

  /** `RHS = (-U + V alpha) / alpha`, with `nan` (here None) on the rows where
      `alpha` is zero. Off those rows it is the value `V - U_i / alpha_i` of
      `eta' Y` at which row i becomes tight when only `eta' Y` moves. */
  function Rhs(u: Vector, v: real, alpha: Vector): (rhs: seq<Option<real>>)
    requires |u| == |alpha|
    ensures |rhs| == |alpha|
    ensures forall i | 0 <= i < |alpha| :: rhs[i].None? <==> alpha[i] == 0.0
  {
    seq(|alpha|, i requires 0 <= i < |alpha| => RowRhs(u[i], v, alpha[i]))
  }

  /** One entry of `RHS`. */
  function RowRhs(u: real, v: real, alpha: real): (r: Option<real>)
    ensures r.None? <==> alpha == 0.0
  {
    if alpha == 0.0 then None else Some((-u + v * alpha) / alpha)
  }

  /** Off the zero rows, `(-U_i + V alpha_i) / alpha_i` is `V - U_i / alpha_i`. */
  lemma RhsClosedForm(u: Vector, v: real, alpha: Vector, i: nat)
    requires |u| == |alpha| && i < |alpha| && alpha[i] != 0.0
    ensures Rhs(u, v, alpha)[i] == Some(v - u[i] / alpha[i])
  {
    RowRhsClosedForm(u[i], v, alpha[i]);
  }

  lemma RowRhsClosedForm(u: real, v: real, alpha: real)
    requires alpha != 0.0
    ensures RowRhs(u, v, alpha) == Some(v - u / alpha)
  {
    var r := v - u / alpha;
    assert -u + v * alpha == r * alpha;
    CancelFactor(r, alpha);
  }

  lemma CancelFactor(r: real, d: real)
    requires d != 0.0
    ensures (r * d) / d == r
  {
  }

  /** `RHS[alpha > thr].min()`, or `+inf` when no row qualifies. */
  function UpperBound(alpha: Vector, rhs: seq<Option<real>>, thr: real): (ub: Ext)
    requires |alpha| == |rhs| && thr >= 0.0
    requires forall i | 0 <= i < |alpha| :: rhs[i].None? ==> alpha[i] == 0.0
    ensures ub == PosInf <==> forall i | 0 <= i < |alpha| :: alpha[i] <= thr
    ensures forall i | 0 <= i < |alpha| && alpha[i] > thr :: ub.Le(Fin(rhs[i].value))
    ensures ub != PosInf ==> exists i | 0 <= i < |alpha| :: alpha[i] > thr && ub == Fin(rhs[i].value)
    ensures ub != NegInf
  {
    if |alpha| == 0 then PosInf
    else
      var rest := UpperBound(alpha[1..], rhs[1..], thr);
      assert forall i | 1 <= i < |alpha| :: alpha[i] == alpha[1..][i - 1] && rhs[i] == rhs[1..][i - 1];
      if alpha[0] > thr then Min(Fin(rhs[0].value), rest) else rest
  }

  /** `RHS[alpha < -thr].max()`, or `-inf` when no row qualifies. */
  function LowerBound(alpha: Vector, rhs: seq<Option<real>>, thr: real): (lb: Ext)
    requires |alpha| == |rhs| && thr >= 0.0
    requires forall i | 0 <= i < |alpha| :: rhs[i].None? ==> alpha[i] == 0.0
    ensures lb == NegInf <==> forall i | 0 <= i < |alpha| :: alpha[i] >= -thr
    ensures forall i | 0 <= i < |alpha| && alpha[i] < -thr :: Fin(rhs[i].value).Le(lb)
    ensures lb != NegInf ==> exists i | 0 <= i < |alpha| :: alpha[i] < -thr && lb == Fin(rhs[i].value)
    ensures lb != PosInf
  {
    if |alpha| == 0 then NegInf
    else
      var rest := LowerBound(alpha[1..], rhs[1..], thr);
      assert forall i | 1 <= i < |alpha| :: alpha[i] == alpha[1..][i - 1] && rhs[i] == rhs[1..][i - 1];
      if alpha[0] < -thr then Max(Fin(rhs[0].value), rest) else rest
  }

  /** `tol * np.fabs(alpha).max()`: how large a sensitivity must be to count as
      nonzero. */
  function Threshold(tol: real, alpha: Vector): (t: real)
    requires |alpha| > 0
    ensures tol >= 0.0 ==> t >= 0.0
  {
    tol * MaxAbs(alpha)
  }

  /** `interval_constraints(A, b, S, Y, eta, tol)`. With no rows, numpy's `max`
      of the empty residual raises. */
  function IntervalConstraints(a: Matrix, b: Vector, s: Matrix, y: Vector, w: Vector, tol: real)
    : (r: Result<Slice>)
    requires SliceShapes(a, b, s, y, w) && Variance(s, w) > 0.0 && tol >= 0.0
    ensures r.Failure? <==> |a| == 0
    ensures r.Failure? ==> r.error == EmptyReduction
    ensures r.Success? ==> r.value.observed == Dot(w, y) && r.value.variance == Variance(s, w)
  {
    if |a| == 0 then Failure(EmptyReduction)
    else
      var u := Sub(MatVec(a, y), b);
      var alpha := Sensitivities(a, s, w);
      var v := Dot(w, y);
      var rhs := Rhs(u, v, alpha);
      var thr := Threshold(tol, alpha);
      Success(Slice(LowerBound(alpha, rhs, thr), v, UpperBound(alpha, rhs, thr), Variance(s, w)))
  }

  /** Bound containment: at a feasible Y (every residual nonpositive) the
      slice contains the observed `eta' Y`. */
  lemma SliceContainsObserved(a: Matrix, b: Vector, s: Matrix, y: Vector, w: Vector, tol: real)
    requires SliceShapes(a, b, s, y, w) && Variance(s, w) > 0.0 && tol >= 0.0 && |a| > 0
    requires forall i | 0 <= i < |a| :: Sub(MatVec(a, y), b)[i] <= 0.0
    ensures var sl := IntervalConstraints(a, b, s, y, w, tol).value;
      sl.lower.Le(Fin(sl.observed)) && Fin(sl.observed).Le(sl.upper)
  {
    var alpha := Sensitivities(a, s, w);
    var u := Sub(MatVec(a, y), b);
    var v := Dot(w, y);
    var thr := Threshold(tol, alpha);
    assert IntervalConstraints(a, b, s, y, w, tol)
      == Success(Slice(LowerBound(alpha, Rhs(u, v, alpha), thr), v, UpperBound(alpha, Rhs(u, v, alpha), thr), Variance(s, w)));
    EndpointsContain(u, alpha, v, thr);
  }

  /** The endpoints computed from nonpositive residuals enclose V. */
  lemma EndpointsContain(u: Vector, alpha: Vector, v: real, thr: real)
    requires |u| == |alpha| && thr >= 0.0
    requires forall i | 0 <= i < |u| :: u[i] <= 0.0
    ensures LowerBound(alpha, Rhs(u, v, alpha), thr).Le(Fin(v))
    ensures Fin(v).Le(UpperBound(alpha, Rhs(u, v, alpha), thr))
  {
    var rhs := Rhs(u, v, alpha);
    var ub := UpperBound(alpha, rhs, thr);
    if ub != PosInf {
      var i :| 0 <= i < |alpha| && alpha[i] > thr && ub == Fin(rhs[i].value);
      RhsClosedForm(u, v, alpha, i);
      RowBoundAbove(u[i], v, alpha[i]);
    }
    var lb := LowerBound(alpha, rhs, thr);
    if lb != NegInf {
      var i :| 0 <= i < |alpha| && alpha[i] < -thr && lb == Fin(rhs[i].value);
      RhsClosedForm(u, v, alpha, i);
      RowBoundBelow(u[i], v, alpha[i]);
    }
  }

  /** On a row with positive sensitivity and nonpositive residual the bound lies above V. */
  lemma RowBoundAbove(u: real, v: real, alpha: real)
    requires u <= 0.0 && alpha > 0.0
    ensures v - u / alpha >= v
  {
    assert u / alpha <= 0.0 by {
      assert (u / alpha) * alpha == u;
    }
  }

  /** On a row with negative sensitivity and nonpositive residual the bound lies below V. */
  lemma RowBoundBelow(u: real, v: real, alpha: real)
    requires u <= 0.0 && alpha < 0.0
    ensures v - u / alpha <= v
  {
    assert u / alpha >= 0.0 by {
      assert (u / alpha) * alpha == u;
    }
  }

  /** Bound independence: moving Y to `Y + c S eta / (eta' S eta)` shifts
      `eta' Y` by exactly c and leaves both endpoints and the variance
      unchanged, so the endpoints do not depend on `eta' Y`. */
  lemma SliceEndpointsIndependent(a: Matrix, b: Vector, s: Matrix, y: Vector, w: Vector, tol: real, c: real)
    requires SliceShapes(a, b, s, y, w) && Variance(s, w) > 0.0 && tol >= 0.0 && |a| > 0
    ensures var y' := Add(y, Scale(c / Variance(s, w), MatVec(s, w)));
      var sl, sl' := IntervalConstraints(a, b, s, y, w, tol).value, IntervalConstraints(a, b, s, y', w, tol).value;
      sl'.observed == sl.observed + c && sl'.lower == sl.lower && sl'.upper == sl.upper
      && sl'.variance == sl.variance
  {
    var y' := Add(y, Scale(c / Variance(s, w), MatVec(s, w)));
    var alpha := Sensitivities(a, s, w);
    var u := Sub(MatVec(a, y), b);
    var v := Dot(w, y);
    ShiftMovesStatistic(a, b, s, y, w, c);
    ShiftMovesResiduals(a, b, s, y, w, c);
    RhsShift(u, alpha, v, c);
    var rhs, thr := Rhs(u, v, alpha), Threshold(tol, alpha);
    assert Rhs(Sub(MatVec(a, y'), b), Dot(w, y'), alpha) == rhs;
    assert IntervalConstraints(a, b, s, y', w, tol).value
        == Slice(LowerBound(alpha, rhs, thr), v + c, UpperBound(alpha, rhs, thr), Variance(s, w));
  }

  /** The shift moves `eta' Y` by exactly c. */
  lemma ShiftMovesStatistic(a: Matrix, b: Vector, s: Matrix, y: Vector, w: Vector, c: real)
    requires SliceShapes(a, b, s, y, w) && Variance(s, w) > 0.0
    ensures Dot(w, Add(y, Scale(c / Variance(s, w), MatVec(s, w)))) == Dot(w, y) + c
  {
    var sw := MatVec(s, w);
    var sigma2 := Variance(s, w);
    var k := c / sigma2;
    DotLinear(w, y, k, sw);
    ScaledSensitivity(k, sigma2, c, sigma2, 1.0);
  }

  /** The shift moves residual i by `c alpha_i`. */
  lemma ShiftMovesResiduals(a: Matrix, b: Vector, s: Matrix, y: Vector, w: Vector, c: real)
    requires SliceShapes(a, b, s, y, w) && Variance(s, w) > 0.0
    ensures Sub(MatVec(a, Add(y, Scale(c / Variance(s, w), MatVec(s, w)))), b)
         == Add(Sub(MatVec(a, y), b), Scale(c, Sensitivities(a, s, w)))
  {
    var sw := MatVec(s, w);
    var sigma2 := Variance(s, w);
    var k := c / sigma2;
    var y' := Add(y, Scale(k, sw));
    var alpha := Sensitivities(a, s, w);
    var u, u' := Sub(MatVec(a, y), b), Sub(MatVec(a, y'), b);
    forall i | 0 <= i < |a| ensures u'[i] == Add(u, Scale(c, alpha))[i] {
      ScaledSensitivity(k, sigma2, c, MatVec(a, sw)[i], alpha[i]);
      RowResidualShift(a[i], y, sw, b[i], k, c * alpha[i]);
    }
  }

  /** Moving Y by `k sw` moves a residual by `k (row . sw)`. */
  lemma RowResidualShift(row: Vector, y: Vector, sw: Vector, bi: real, k: real, t: real)
    requires |row| == |y| == |sw| && k * Dot(row, sw) == t
    ensures Dot(row, Add(y, Scale(k, sw))) - bi == (Dot(row, y) - bi) + t
  {
    DotLinear(row, y, k, sw);
  }

  /** Moving Y by `c / sigma^2` times a vector whose image is `alpha sigma^2`
      moves that image by `c alpha`. */
  lemma ScaledSensitivity(k: real, sigma2: real, c: real, m: real, alpha: real)
    requires sigma2 != 0.0 && k == c / sigma2 && m == alpha * sigma2
    ensures k * m == c * alpha
  {
    assert k * sigma2 == c;
    assert k * m == (k * sigma2) * alpha;
  }

  /** Moving V by c and every residual by `c alpha` leaves every row's bound put. */
  lemma RhsShift(u: Vector, alpha: Vector, v: real, c: real)
    requires |u| == |alpha|
    ensures Rhs(Add(u, Scale(c, alpha)), v + c, alpha) == Rhs(u, v, alpha)
  {
    var u' := Add(u, Scale(c, alpha));
    var rhs, rhs' := Rhs(u, v, alpha), Rhs(u', v + c, alpha);
    forall i | 0 <= i < |alpha| ensures rhs'[i] == rhs[i] {
      if alpha[i] != 0.0 {
        RhsClosedForm(u, v, alpha, i);
        RhsClosedForm(u', v + c, alpha, i);
        ShiftedRowBound(u[i], v, alpha[i], c);
      }
    }
  }

  /** A shift of c along the direction moves V by c and the residual by
      `c alpha`, so the row's bound stays put. */
  lemma ShiftedRowBound(u: real, v: real, alpha: real, c: real)
    requires alpha != 0.0
    ensures (v + c) - (u + c * alpha) / alpha == v - u / alpha
  {
    assert (u + c * alpha) / alpha == u / alpha + c by {
      assert (u / alpha + c) * alpha == u + c * alpha;
    }
  }

  /** Rows with zero sensitivity never contribute: changing their offsets
      leaves the slice as it is. */
  lemma ZeroSensitivityRowsIgnored(a: Matrix, b: Vector, b': Vector, s: Matrix, y: Vector, w: Vector, tol: real)
    requires SliceShapes(a, b, s, y, w) && |b'| == |b| && Variance(s, w) > 0.0 && tol >= 0.0
    requires forall i | 0 <= i < |a| && b'[i] != b[i] :: MatVec(a, MatVec(s, w))[i] == 0.0
    ensures IntervalConstraints(a, b', s, y, w, tol) == IntervalConstraints(a, b, s, y, w, tol)
  {
    if |a| > 0 {
      var alpha := Sensitivities(a, s, w);
      var v := Dot(w, y);
      var rhs, rhs' := Rhs(Sub(MatVec(a, y), b), v, alpha), Rhs(Sub(MatVec(a, y), b'), v, alpha);
      forall i | 0 <= i < |a| ensures rhs'[i] == rhs[i] {

      }
      assert rhs' == rhs;
    }
  }

  /** Degenerate directions: when `A S eta` vanishes no row qualifies on
      either side and the slice is the whole line. */
  lemma DegenerateDirection(a: Matrix, b: Vector, s: Matrix, y: Vector, w: Vector, tol: real)
    requires SliceShapes(a, b, s, y, w) && Variance(s, w) > 0.0 && tol >= 0.0 && |a| > 0
    requires forall i | 0 <= i < |a| :: MatVec(a, MatVec(s, w))[i] == 0.0
    ensures var sl := IntervalConstraints(a, b, s, y, w, tol).value;
      sl.lower == NegInf && sl.upper == PosInf
  {
    var alpha := Sensitivities(a, s, w);
    assert forall i | 0 <= i < |a| :: alpha[i] == 0.0;
  }

  /** The doctest of the class: the nonnegative orthant A = -I, b = 0 with the
      default reference law, Y = [3, 4.4] and eta = [1, 1] give lower = 1.4,
      V = 7.4, upper = +inf and sigma^2 = 2. */
  lemma PositiveOrthantExample()
    ensures var c := Create([[-1.0, 0.0], [0.0, -1.0]], [0.0, 0.0], 2, None, None);
      WellFormed(c) && Variance(c.covariance, [1.0, 1.0]) == 2.0 &&
      Bounds(c, [1.0, 1.0], [3.0, 4.4]) == Success(Slice(Fin(1.4), 7.4, PosInf, 2.0))
  {
    var c := Create([[-1.0, 0.0], [0.0, -1.0]], [0.0, 0.0], 2, None, None);
    assert c.covariance[0] == [1.0, 0.0] && c.covariance[1] == [0.0, 1.0];
    assert c.covariance == [[1.0, 0.0], [0.0, 1.0]];
    OrthantSlice();
  }

  lemma OrthantSlice()
    ensures var a, b, s, y, w := [[-1.0, 0.0], [0.0, -1.0]], [0.0, 0.0], [[1.0, 0.0], [0.0, 1.0]], [3.0, 4.4], [1.0, 1.0];
      SliceShapes(a, b, s, y, w) && Variance(s, w) == 2.0 &&
      IntervalConstraints(a, b, s, y, w, SliceTol) == Success(Slice(Fin(1.4), 7.4, PosInf, 2.0))
  {
    var a, b, s, y, w := [[-1.0, 0.0], [0.0, -1.0]], [0.0, 0.0], [[1.0, 0.0], [0.0, 1.0]], [3.0, 4.4], [1.0, 1.0];
    var sw := MatVec(s, w);
    assert Dot(s[0], w) == 1.0 && Dot(s[1], w) == 1.0;
    assert sw == [1.0, 1.0];
    assert Dot(w, sw) == 2.0;
    var asw := MatVec(a, sw);
    assert Dot(a[0], sw) == -1.0 && Dot(a[1], sw) == -1.0;
    assert asw == [-1.0, -1.0];
    var alpha := Sensitivities(a, s, w);
    assert alpha == [-0.5, -0.5];
    var ay := MatVec(a, y);
    assert Dot(a[0], y) == -3.0 && Dot(a[1], y) == -4.4;
    var u := Sub(ay, b);
    assert u == [-3.0, -4.4];
    var v := Dot(w, y);
    assert v == 7.4;
    OrthantBounds(u, v, alpha);
  }

  lemma OrthantBounds(u: Vector, v: real, alpha: Vector)
    requires u == [-3.0, -4.4] && v == 7.4 && alpha == [-0.5, -0.5]
    ensures var thr := Threshold(SliceTol, alpha);
      UpperBound(alpha, Rhs(u, v, alpha), thr) == PosInf &&
      LowerBound(alpha, Rhs(u, v, alpha), thr) == Fin(1.4)
  {
    var rhs := Rhs(u, v, alpha);
    RhsClosedForm(u, v, alpha, 0);
    RhsClosedForm(u, v, alpha, 1);
    assert rhs == [Some(1.4), Some(-1.4)];
    assert MaxAbs(alpha[1..]) == 0.5;
    assert MaxAbs(alpha) == 0.5;
    var thr := Threshold(SliceTol, alpha);
    assert thr == SliceTol * 0.5;
    assert LowerBound(alpha[1..][1..], rhs[1..][1..], thr) == NegInf;
    assert LowerBound(alpha[1..], rhs[1..], thr) == Fin(-1.4);
  }

  // ---------------------------------------------------------------------
  // constraints.bounds and constraints.pivot

  /** `con.bounds(eta, Y)`: the slice of the set's own system with the default
      tolerance; at a feasible Y it contains `eta' Y`. */
  function Bounds(c: Constraints, eta: Vector, y: Vector): (r: Result<Slice>)
    requires WellFormed(c) && |y| == |eta| == c.dim && Variance(c.covariance, eta) > 0.0
    ensures r.Failure? <==> |c.offset| == 0
    ensures r.Success? ==> r.value.observed == Dot(eta, y)
    ensures r.Success? && (forall i | 0 <= i < |c.offset| :: Residual(c, y)[i] <= 0.0) ==>
      r.value.lower.Le(Fin(r.value.observed)) && Fin(r.value.observed).Le(r.value.upper)
  {
    FeasibleSliceContainsObserved(c, eta, y);
    IntervalConstraints(c.linearPart, c.offset, c.covariance, y, eta, SliceTol)
  }

  /** `SliceContainsObserved` for the set's own system at a feasible Y. */
  lemma FeasibleSliceContainsObserved(c: Constraints, eta: Vector, y: Vector)
    requires WellFormed(c) && |y| == |eta| == c.dim && Variance(c.covariance, eta) > 0.0
    ensures var r := IntervalConstraints(c.linearPart, c.offset, c.covariance, y, eta, SliceTol);
      r.Success? && (forall i | 0 <= i < |c.offset| :: Residual(c, y)[i] <= 0.0) ==>
        r.value.lower.Le(Fin(r.value.observed)) && Fin(r.value.observed).Le(r.value.upper)
  {
    if |c.offset| > 0 && forall i | 0 <= i < |c.offset| :: Residual(c, y)[i] <= 0.0 {
      assert Residual(c, y) == Sub(MatVec(c.linearPart, y), c.offset);
      SliceContainsObserved(c.linearPart, c.offset, c.covariance, y, eta, SliceTol);
    }
  }

  /** One-sided and two-sided p-values from the pivot F: `1 - F`, `F`, `2 min(F, 1 - F)`. */
  function PivotTail(alt: Alternative, p: real): (q: real)
    ensures 0.0 <= p <= 1.0 ==> 0.0 <= q <= 1.0
  {
    match alt
    case Greater => 1.0 - p
    case Less => p
    case TwoSided => TwoSidedFold(p)
  }

  /** `con.pivot(eta, Y, alternative)`. `sd` is sqrt(eta' S eta), which the
      caller supplies because the reals of this model have no square root;
      `cdf(x, l, u)` is `truncnorm_cdf`, the standard normal restricted to
      [l, u] and evaluated at x. An unknown alternative raises before anything
      else is computed. */
  function Pivot(c: Constraints, eta: Vector, y: Vector, alternative: string, sd: real,
                 cdf: (real, Ext, Ext) -> real): (r: Result<real>)
    requires WellFormed(c) && |y| == |eta| == c.dim && Variance(c.covariance, eta) > 0.0
    requires sd > 0.0 && sd * sd == Variance(c.covariance, eta)
    ensures ParseAlternative(alternative).None? ==> r == Failure(InvalidAlternative)
    ensures r.Failure? <==> ParseAlternative(alternative).None? || |c.offset| == 0
    ensures r.Success? && (forall x, l, u :: 0.0 <= cdf(x, l, u) <= 1.0) ==> 0.0 <= r.value <= 1.0
  {
    match ParseAlternative(alternative)
    case None => Failure(InvalidAlternative)
    case Some(alt) =>
      match Bounds(c, eta, y)
      case Failure(e) => Failure(e)
      case Success(sl) => Success(PivotTail(alt, SliceCdf(sl, Dot(eta, c.mean), sd, cdf)))
  }

  /** `truncnorm_cdf((observed - mean) / sd, (lower - mean) / sd, (upper - mean) / sd)`. */
  function SliceCdf(sl: Slice, mean: real, sd: real, cdf: (real, Ext, Ext) -> real): real
    requires sd > 0.0
  {
    cdf((sl.observed - mean) / sd, Standardize(sl.lower, mean, sd), Standardize(sl.upper, mean, sd))
  }

  /** The p-value for a known alternative when the constraints are not empty. */
  lemma PivotOf(c: Constraints, eta: Vector, y: Vector, alternative: string, sd: real, cdf: (real, Ext, Ext) -> real)
    requires WellFormed(c) && |y| == |eta| == c.dim && Variance(c.covariance, eta) > 0.0
    requires sd > 0.0 && sd * sd == Variance(c.covariance, eta)
    requires |c.offset| > 0 && ParseAlternative(alternative).Some?
    ensures Bounds(c, eta, y).Success?
    ensures Pivot(c, eta, y, alternative, sd, cdf)
         == Success(PivotTail(ParseAlternative(alternative).value, SliceCdf(Bounds(c, eta, y).value, Dot(eta, c.mean), sd, cdf)))
  {
  }

  /** The greater and less p-values are complementary, and the two-sided one is
      twice the smaller of them. */
  lemma PivotAlternativesAgree(c: Constraints, eta: Vector, y: Vector, sd: real, cdf: (real, Ext, Ext) -> real)
    requires WellFormed(c) && |y| == |eta| == c.dim && Variance(c.covariance, eta) > 0.0
    requires sd > 0.0 && sd * sd == Variance(c.covariance, eta)
    requires |c.offset| > 0
    ensures var g, l, t := Pivot(c, eta, y, "greater", sd, cdf), Pivot(c, eta, y, "less", sd, cdf),
                           Pivot(c, eta, y, "twosided", sd, cdf);
      g.Success? && l.Success? && t.Success? &&
      g.value + l.value == 1.0 && t.value == 2.0 * (if g.value <= l.value then g.value else l.value)
  {
    assert ParseAlternative("greater") == Some(Greater);
    assert ParseAlternative("less") == Some(Less);
    assert ParseAlternative("twosided") == Some(TwoSided);
    PivotOf(c, eta, y, "greater", sd, cdf);
    PivotOf(c, eta, y, "less", sd, cdf);
    PivotOf(c, eta, y, "twosided", sd, cdf);
  }
}
