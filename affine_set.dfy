/** The `constraints` value of affine.py: the polyhedron {z : A z <= b}
    together with the reference Gaussian N(mean, covariance) that is
    truncated to it. */
module AffineSet {
  import opened Wrappers
  import opened LinAlg

  /** `dim` is the column count of the linear part (`linear_part.shape[1]`). */
  datatype Constraints = Constraints(
    linearPart: Matrix,
    offset: Vector,
    covariance: Matrix,
    mean: Vector,
    dim: nat)

  /** The shapes the methods of `constraints` rely on. */
  predicate WellFormed(c: Constraints) {
    && IsMatrix(c.linearPart, |c.offset|, c.dim)
    && IsMatrix(c.covariance, c.dim, c.dim)
    && |c.mean| == c.dim
  }

  /** Default tolerance of the membership test `__call__`. */
  const MembershipTol: real := 0.001

  /** The constructor: the covariance defaults to the identity and the mean to zero. */
  function Create(a: Matrix, b: Vector, cols: nat, covariance: Option<Matrix>, mean: Option<Vector>)
    : (c: Constraints)
    ensures c.linearPart == a && c.offset == b && c.dim == cols
    ensures covariance.Some? ==> c.covariance == covariance.value
    ensures mean.Some? ==> c.mean == mean.value
    ensures covariance.None? ==> (IsMatrix(c.covariance, cols, cols) &&
      forall i, j | 0 <= i < cols && 0 <= j < cols :: c.covariance[i][j] == (if i == j then 1.0 else 0.0))
    ensures mean.None? ==> (|c.mean| == cols && forall i | 0 <= i < cols :: c.mean[i] == 0.0)
    ensures (&& IsMatrix(a, |b|, cols)
             && (covariance.Some? ==> IsMatrix(covariance.value, cols, cols))
             && (mean.Some? ==> |mean.value| == cols)) ==> WellFormed(c)
  {
    Constraints(a, b,
      if covariance.None? then Identity(cols) else covariance.value,
      if mean.None? then Zeros(cols) else mean.value,
      cols)
  }

  /** The residual `A y - b`; y is feasible when it is nonpositive. */
  function Residual(c: Constraints, y: Vector): (u: Vector)
    requires WellFormed(c) && |y| == c.dim
    ensures |u| == |c.offset|
  {
    Sub(MatVec(c.linearPart, y), c.offset)
  }

  /** `con(Y, tol)`: every residual lies below `tol` times the largest residual
      magnitude. numpy's `max` of the empty residual of a row-less set raises. */
  function Contains(c: Constraints, y: Vector, tol: real): (r: Result<bool>)
    requires WellFormed(c) && |y| == c.dim
    ensures r.Failure? <==> |c.offset| == 0
    ensures r.Failure? ==> r.error == EmptyReduction
  {
    if |c.offset| == 0 then Failure(EmptyReduction)
    else
      var u := Residual(c, y);
      Success(forall i | 0 <= i < |u| :: u[i] < tol * MaxAbs(u))
  }

  /** A strictly feasible point is a member, for every nonnegative tolerance. */
  lemma ContainsStrictlyFeasible(c: Constraints, y: Vector, tol: real)
    requires WellFormed(c) && |y| == c.dim && |c.offset| > 0 && tol >= 0.0
    requires forall i | 0 <= i < |c.offset| :: Residual(c, y)[i] < 0.0
    ensures Contains(c, y, tol) == Success(true)
  {
    var u := Residual(c, y);
    var m := MaxAbs(u);
    assert Abs(u[0]) <= m;
    assert tol * m >= 0.0;
  }

  /** A point on every face (all residuals zero) is not a member: the
      relative test compares against `tol * 0`. */
  lemma ContainsOnAllFaces(c: Constraints, y: Vector, tol: real)
    requires WellFormed(c) && |y| == c.dim && |c.offset| > 0
    requires forall i | 0 <= i < |c.offset| :: Residual(c, y)[i] == 0.0
    ensures Contains(c, y, tol) == Success(false)
  {
    var u := Residual(c, y);
    var m := MaxAbs(u);
    var i :| 0 <= i < |u| && Abs(u[i]) == m;
    assert u[i] == 0.0;
    assert tol * m == 0.0;
    assert !(u[0] < tol * m);
  }

  /** With zero tolerance membership is exactly strict feasibility. */
  lemma ContainsZeroTolerance(c: Constraints, y: Vector)
    requires WellFormed(c) && |y| == c.dim && |c.offset| > 0
    ensures Contains(c, y, 0.0) == Success(true) <==>
      forall i | 0 <= i < |c.offset| :: Residual(c, y)[i] < 0.0
  {
  }

  /** The doctest of `__call__`: A = [[1,-1],[1,-1]], b = [1,1], Y = [-1,1]. */
  lemma ContainsExample()
    ensures Contains(Create([[1.0, -1.0], [1.0, -1.0]], [1.0, 1.0], 2, None, None),
                     [-1.0, 1.0], MembershipTol) == Success(true)
  {
    var c := Create([[1.0, -1.0], [1.0, -1.0]], [1.0, 1.0], 2, None, None);
    var y := [-1.0, 1.0];
    assert Dot(c.linearPart[0], y) == -2.0;
    assert Dot(c.linearPart[1], y) == -2.0;
    assert Residual(c, y) == [-3.0, -3.0];
    ContainsStrictlyFeasible(c, y, MembershipTol);
  }

  // ---------------------------------------------------------------------
  // stack

  /** The linear parts of `cons`, one below the other (`np.vstack`). */
  function StackedRows(cons: seq<Constraints>): Matrix {
    if |cons| == 0 then [] else StackedRows(cons[..|cons| - 1]) + cons[|cons| - 1].linearPart
  }

  /** The offsets of `cons`, one after the other (`np.hstack`). */
  function StackedOffsets(cons: seq<Constraints>): Vector {
    if |cons| == 0 then [] else StackedOffsets(cons[..|cons| - 1]) + cons[|cons| - 1].offset
  }

  /** The number of rows of the first `k` sets. */
  function RowsBefore(cons: seq<Constraints>, k: nat): nat
    requires k <= |cons|
  {
    if k == 0 then 0 else RowsBefore(cons, k - 1) + |cons[k - 1].linearPart|
  }

  /** All sets have `dim` columns. */
  predicate SameDim(cons: seq<Constraints>, dim: nat) {
    forall k | 0 <= k < |cons| :: cons[k].dim == dim
  }

  /** The stacked matrix has as many rows as all inputs together, and row i of
      block k sits at row `RowsBefore(cons, k) + i`. */
  lemma {:induction false} StackedRowsLayout(cons: seq<Constraints>)
    ensures |StackedRows(cons)| == RowsBefore(cons, |cons|)
    ensures forall k, i | 0 <= k < |cons| && 0 <= i < |cons[k].linearPart| ::
      RowsBefore(cons, k) + i < |StackedRows(cons)| &&
      StackedRows(cons)[RowsBefore(cons, k) + i] == cons[k].linearPart[i]
  {
    StackedRowsLength(cons);
    forall k, i | 0 <= k < |cons| && 0 <= i < |cons[k].linearPart|
      ensures RowsBefore(cons, k) + i < |StackedRows(cons)| &&
        StackedRows(cons)[RowsBefore(cons, k) + i] == cons[k].linearPart[i]
    {
      StackedRowAt(cons, k, i);
    }
  }

  lemma {:induction false} StackedRowsLength(cons: seq<Constraints>)
    ensures |StackedRows(cons)| == RowsBefore(cons, |cons|)
  {
    if |cons| > 0 {
      var n := |cons| - 1;
      StackedRowsLength(cons[..n]);
      RowsBeforePrefixAt(cons, n, n);
    }
  }

  lemma {:induction false} StackedRowAt(cons: seq<Constraints>, k: nat, i: nat)
    requires k < |cons| && i < |cons[k].linearPart|
    ensures RowsBefore(cons, k) + i < |StackedRows(cons)|
    ensures StackedRows(cons)[RowsBefore(cons, k) + i] == cons[k].linearPart[i]
  {
    var n := |cons| - 1;
    var init := cons[..n];
    StackedRowsLength(init);
    RowsBeforePrefixAt(cons, n, n);
    assert StackedRows(cons) == StackedRows(init) + cons[n].linearPart;
    if k < n {
      assert init[k] == cons[k];
      StackedRowAt(init, k, i);
      RowsBeforePrefixAt(cons, n, k);
    }
  }

  /** Counting rows of a prefix does not look past the prefix. */
  lemma {:induction false} RowsBeforePrefixAt(cons: seq<Constraints>, n: nat, k: nat)
    requires k <= n <= |cons|
    ensures RowsBefore(cons[..n], k) == RowsBefore(cons, k)
  {
    if k > 0 {
      RowsBeforePrefixAt(cons, n, k - 1);
      assert cons[..n][k - 1] == cons[k - 1];
    }
  }

  /** Likewise for the stacked offsets. */
  lemma {:induction false} StackedOffsetsLayout(cons: seq<Constraints>)
    requires forall k | 0 <= k < |cons| :: |cons[k].offset| == |cons[k].linearPart|
    ensures |StackedOffsets(cons)| == RowsBefore(cons, |cons|)
    ensures forall k, i | 0 <= k < |cons| && 0 <= i < |cons[k].offset| ::
      RowsBefore(cons, k) + i < |StackedOffsets(cons)| &&
      StackedOffsets(cons)[RowsBefore(cons, k) + i] == cons[k].offset[i]
  {
    StackedOffsetsLength(cons);
    forall k, i | 0 <= k < |cons| && 0 <= i < |cons[k].offset|
      ensures RowsBefore(cons, k) + i < |StackedOffsets(cons)| &&
        StackedOffsets(cons)[RowsBefore(cons, k) + i] == cons[k].offset[i]
    {
      StackedOffsetAt(cons, k, i);
    }
  }

  lemma {:induction false} StackedOffsetsLength(cons: seq<Constraints>)
    requires forall k | 0 <= k < |cons| :: |cons[k].offset| == |cons[k].linearPart|
    ensures |StackedOffsets(cons)| == RowsBefore(cons, |cons|)
  {
    if |cons| > 0 {
      var n := |cons| - 1;
      assert forall k | 0 <= k < n :: cons[..n][k] == cons[k];
      StackedOffsetsLength(cons[..n]);
      RowsBeforePrefixAt(cons, n, n);
    }
  }

  lemma {:induction false} StackedOffsetAt(cons: seq<Constraints>, k: nat, i: nat)
    requires forall j | 0 <= j < |cons| :: |cons[j].offset| == |cons[j].linearPart|
    requires k < |cons| && i < |cons[k].offset|
    ensures RowsBefore(cons, k) + i < |StackedOffsets(cons)|
    ensures StackedOffsets(cons)[RowsBefore(cons, k) + i] == cons[k].offset[i]
  {
    var n := |cons| - 1;
    var init := cons[..n];
    assert forall j | 0 <= j < n :: init[j] == cons[j];
    StackedOffsetsLength(init);
    RowsBeforePrefixAt(cons, n, n);
    assert StackedOffsets(cons) == StackedOffsets(init) + cons[n].offset;
    if k < n {
      StackedOffsetAt(init, k, i);
      RowsBeforePrefixAt(cons, n, k);
    }
  }

  /** Stacking sets of a common dimension keeps every row of width `dim`. */
  lemma {:induction false} StackedRowsCols(cons: seq<Constraints>, dim: nat)
    requires SameDim(cons, dim) && forall k | 0 <= k < |cons| :: WellFormed(cons[k])
    ensures HasCols(StackedRows(cons), dim)
  {
    if |cons| > 0 {
      StackedRowsCols(cons[..|cons| - 1], dim);
    }
  }

  /** `stack(*cons)`: one set whose inequalities are those of all inputs, in
      order, with the default reference law (zero mean, identity covariance). */
  method Stack(cons: seq<Constraints>) returns (r: Result<Constraints>)
    ensures cons == [] ==> r == Failure(EmptyConcatenation)
    ensures cons != [] && !SameDim(cons, cons[0].dim) ==> r == Failure(ShapeMismatch)
    ensures cons != [] && SameDim(cons, cons[0].dim) ==>
      r == Success(Create(StackedRows(cons), StackedOffsets(cons), cons[0].dim, None, None))
  {
    var ineq: Matrix := [];
    var ineqOff: Vector := [];
    var sameDim := true;
    var i := 0;
    while i < |cons|
      invariant 0 <= i <= |cons|
      invariant ineq == StackedRows(cons[..i])
      invariant ineqOff == StackedOffsets(cons[..i])
      invariant |cons| > 0 ==> (sameDim <==> SameDim(cons[..i], cons[0].dim))
    {
      assert cons[..i + 1][..i] == cons[..i];
      ineq := ineq + cons[i].linearPart;
      ineqOff := ineqOff + cons[i].offset;
      sameDim := sameDim && cons[i].dim == cons[0].dim;
      i := i + 1;
    }
    assert cons[..|cons|] == cons;
    if |cons| == 0 {
      return Failure(EmptyConcatenation);
    }
    if !sameDim {
      return Failure(ShapeMismatch);
    }
    r := Success(Create(ineq, ineqOff, cons[0].dim, None, None));
  }

  /** Stacking well-formed sets of one dimension gives a well-formed set whose
      row count is the sum of theirs. */
  lemma StackWellFormed(cons: seq<Constraints>)
    requires cons != [] && SameDim(cons, cons[0].dim)
    requires forall k | 0 <= k < |cons| :: WellFormed(cons[k])
    ensures WellFormed(Create(StackedRows(cons), StackedOffsets(cons), cons[0].dim, None, None))
    ensures |StackedOffsets(cons)| == RowsBefore(cons, |cons|)
  {
    StackedRowsLayout(cons);
    StackedOffsetsLayout(cons);
    StackedRowsCols(cons, cons[0].dim);
  }
}
