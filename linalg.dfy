/** Dense vectors and matrices over the reals: the numpy primitives the
    constraint engine is written in (`np.dot`, elementwise arithmetic, `sum`,
    `np.fabs(..).max()`). A matrix is a sequence of rows. */
module LinAlg {

  type Vector = seq<real>
  type Matrix = seq<Vector>

  /** Every row of `a` has `n` entries. */
  predicate HasCols(a: Matrix, n: nat) {
    forall i | 0 <= i < |a| :: |a[i]| == n
  }

  /** `a` is an m-by-n matrix. */
  predicate IsMatrix(a: Matrix, m: nat, n: nat) {
    |a| == m && HasCols(a, n)
  }

  function Sum(x: Vector): real {
    if |x| == 0 then 0.0 else x[0] + Sum(x[1..])
  }

  /** The inner product `(x * y).sum()`. */
  function Dot(x: Vector, y: Vector): real
    requires |x| == |y|
  {
    if |x| == 0 then 0.0 else x[0] * y[0] + Dot(x[1..], y[1..])
  }

  /** The matrix-vector product `np.dot(a, x)`. */
  function MatVec(a: Matrix, x: Vector): (r: Vector)
    requires HasCols(a, |x|)
    ensures |r| == |a|
    ensures forall i | 0 <= i < |a| :: r[i] == Dot(a[i], x)
  {
    seq(|a|, i requires 0 <= i < |a| => Dot(a[i], x))
  }

  function Add(x: Vector, y: Vector): (r: Vector)
    requires |x| == |y|
    ensures |r| == |x|
    ensures forall i | 0 <= i < |x| :: r[i] == x[i] + y[i]
  {
    seq(|x|, i requires 0 <= i < |x| => x[i] + y[i])
  }

  function Sub(x: Vector, y: Vector): (r: Vector)
    requires |x| == |y|
    ensures |r| == |x|
    ensures forall i | 0 <= i < |x| :: r[i] == x[i] - y[i]
  {
    seq(|x|, i requires 0 <= i < |x| => x[i] - y[i])
  }

  function Scale(k: real, x: Vector): (r: Vector)
    ensures |r| == |x|
    ensures forall i | 0 <= i < |x| :: r[i] == k * x[i]
  {
    seq(|x|, i requires 0 <= i < |x| => k * x[i])
  }

  /** Elementwise division `x / d` by a nonzero scalar. */
  function Divide(x: Vector, d: real): (r: Vector)
    requires d != 0.0
    ensures |r| == |x|
    ensures forall i | 0 <= i < |x| :: r[i] == Quotient(x[i], d)
  {
    seq(|x|, i requires 0 <= i < |x| => Quotient(x[i], d))
  }

  function Quotient(x: real, d: real): (q: real)
    requires d != 0.0
    ensures q * d == x
    ensures q == 0.0 <==> x == 0.0
  {
    x / d
  }

  function Zeros(n: nat): (r: Vector)
    ensures |r| == n && forall i | 0 <= i < n :: r[i] == 0.0
  {
    seq(n, i => 0.0)
  }

  /** `np.ones(n)`. */
  function Ones(n: nat): (r: Vector)
    ensures |r| == n && forall i | 0 <= i < n :: r[i] == 1.0
  {
    seq(n, i => 1.0)
  }

  /** n ones sum to n. */
  lemma {:induction false} SumOnes(n: nat)
    ensures Sum(Ones(n)) == n as real
  {
    if n > 0 {
      assert Ones(n)[1..] == Ones(n - 1);
      SumOnes(n - 1);
    }
  }

  /** `np.identity(n)`. */
  function Identity(n: nat): (r: Matrix)
    ensures IsMatrix(r, n, n)
    ensures forall i, j | 0 <= i < n && 0 <= j < n :: r[i][j] == (if i == j then 1.0 else 0.0)
  {
    seq(n, i => seq(n, j => if i == j then 1.0 else 0.0))
  }

  function Abs(x: real): (r: real)
    ensures r >= 0.0 && (r == x || r == -x)
  {
    if x < 0.0 then -x else x
  }

  /** `np.fabs(x).max()`, which numpy refuses on an empty array. */
  function MaxAbs(x: Vector): (m: real)
    requires |x| > 0
    ensures forall i | 0 <= i < |x| :: Abs(x[i]) <= m
    ensures exists i | 0 <= i < |x| :: Abs(x[i]) == m
  {
    if |x| == 1 then Abs(x[0])
    else
      var rest := MaxAbs(x[1..]);
      assert forall i | 1 <= i < |x| :: x[i] == x[1..][i - 1];
      if Abs(x[0]) >= rest then Abs(x[0]) else rest
  }

  /** `x.max()`, which numpy refuses on an empty array. */
  function VectorMax(x: Vector): (m: real)
    requires |x| > 0
    ensures forall i | 0 <= i < |x| :: x[i] <= m
    ensures exists i | 0 <= i < |x| :: x[i] == m
  {
    if |x| == 1 then x[0]
    else
      var rest := VectorMax(x[1..]);
      assert forall i | 1 <= i < |x| :: x[i] == x[1..][i - 1];
      if x[0] >= rest then x[0] else rest
  }

  /** `x**2` of a scalar. */
  function Square(x: real): real {
    x * x
  }

  /** A sum of nonnegative entries is at least each entry. */
  lemma {:induction false} SumAtLeastEntry(x: Vector, i: nat)
    requires i < |x| && forall j | 0 <= j < |x| :: x[j] >= 0.0
    ensures Sum(x) >= x[i]
  {
    if i == 0 {
      SumNonnegative(x[1..]);
    } else {
      SumAtLeastEntry(x[1..], i - 1);
    }
  }

  /** A sum of nonnegative entries is nonnegative. */
  lemma {:induction false} SumNonnegative(x: Vector)
    requires forall j | 0 <= j < |x| :: x[j] >= 0.0
    ensures Sum(x) >= 0.0
  {
    if |x| > 0 {
      SumNonnegative(x[1..]);
    }
  }

  lemma NonnegProduct(x: real, y: real)
    requires x >= 0.0 && y >= 0.0
    ensures x * y >= 0.0
  {
  }

  /** The inner product is linear in its second argument. */
  lemma DotLinear(w: Vector, x: Vector, k: real, y: Vector)
    requires |w| == |x| == |y|
    ensures Dot(w, Add(x, Scale(k, y))) == Dot(w, x) + k * Dot(w, y)
  {
    DotAdd(w, x, Scale(k, y));
    DotScale(w, k, y);
  }

  lemma {:induction false} DotAdd(w: Vector, x: Vector, y: Vector)
    requires |w| == |x| == |y|
    ensures Dot(w, Add(x, y)) == Dot(w, x) + Dot(w, y)
  {
    if |w| > 0 {
      AddTail(x, y);
      DotAdd(w[1..], x[1..], y[1..]);
      Distribute(w[0], x[0], y[0]);
    }
  }

  lemma {:induction false} DotScale(w: Vector, k: real, y: Vector)
    requires |w| == |y|
    ensures Dot(w, Scale(k, y)) == k * Dot(w, y)
  {
    if |w| > 0 {
      ScaleTail(k, y);
      DotScale(w[1..], k, y[1..]);
      Reassociate(w[0], k, y[0]);
      Distribute(k, w[0] * y[0], Dot(w[1..], y[1..]));
    }
  }

  /** Dropping the first entry commutes with `x + y`. */
  lemma AddTail(x: Vector, y: Vector)
    requires |x| == |y| > 0
    ensures Add(x, y)[1..] == Add(x[1..], y[1..])
  {
    var z := Add(x, y);
    forall i | 0 <= i < |z| - 1 ensures z[1..][i] == Add(x[1..], y[1..])[i] {
      assert z[1..][i] == z[i + 1];
    }
  }

  /** Dropping the first entry commutes with `k y`. */
  lemma ScaleTail(k: real, y: Vector)
    requires |y| > 0
    ensures Scale(k, y)[1..] == Scale(k, y[1..])
  {
    var z := Scale(k, y);
    forall i | 0 <= i < |z| - 1 ensures z[1..][i] == Scale(k, y[1..])[i] {
      assert z[1..][i] == z[i + 1];
    }
  }

  lemma Distribute(a: real, b: real, c: real)
    ensures a * (b + c) == a * b + a * c
  {
  }

  lemma Reassociate(a: real, b: real, c: real)
    ensures a * (b * c) == b * (a * c)
  {
  }

  /** The matrix-vector product is linear in the vector. */
  lemma MatVecLinear(a: Matrix, x: Vector, k: real, y: Vector)
    requires |x| == |y| && HasCols(a, |x|)
    ensures MatVec(a, Add(x, Scale(k, y))) == Add(MatVec(a, x), Scale(k, MatVec(a, y)))
  {
    forall i | 0 <= i < |a|
      ensures MatVec(a, Add(x, Scale(k, y)))[i] == Add(MatVec(a, x), Scale(k, MatVec(a, y)))[i]
    {
      DotLinear(a[i], x, k, y);
    }
  }

  /** `(w * s**2).sum()`: the weighted sum of squares of a batch. */
  function WeightedSquares(w: Vector, s: Vector): real
    requires |w| == |s|
  {
    if |w| == 0 then 0.0 else w[0] * Square(s[0]) + WeightedSquares(w[1..], s[1..])
  }

  /** `sum_j w[j] * (s[j] - m)**2`: the weighted spread of a batch about m. */
  function Centered(w: Vector, s: Vector, m: real): real
    requires |w| == |s|
  {
    if |w| == 0 then 0.0 else w[0] * Square(s[0] - m) + Centered(w[1..], s[1..], m)
  }

  lemma {:induction false} CenteredNonnegative(w: Vector, s: Vector, m: real)
    requires |w| == |s| && forall j | 0 <= j < |w| :: w[j] >= 0.0
    ensures Centered(w, s, m) >= 0.0
  {
    if |w| > 0 {
      SquareNonnegative(s[0] - m);
      NonnegProduct(w[0], Square(s[0] - m));
      CenteredNonnegative(w[1..], s[1..], m);
    }
  }

  lemma SquareNonnegative(x: real)
    ensures Square(x) >= 0.0
  {
    if x >= 0.0 {
      NonnegProduct(x, x);
    } else {
      NonnegProduct(-x, -x);
    }
  }

  /** `a - 2 m b + m^2 c`: the spread about m of a weighted sample with second
      moment sum a, first moment sum b and total weight c. */
  function Expansion(a: real, b: real, c: real, m: real): real {
    a - 2.0 * m * b + m * m * c
  }

  /** One term: `w (s - m)**2` is the expansion of the single-draw sums. */
  lemma TermExpands(w: real, s: real, m: real)
    ensures w * Square(s - m) == Expansion(w * Square(s), w * s, w, m)
  {
  }

  /** Collecting two copies of `a - 2 m b + m^2 c`. */
  lemma Regroup(a: real, b: real, c: real, a': real, b': real, c': real, m: real)
    ensures Expansion(a, b, c, m) + Expansion(a', b', c', m) == Expansion(a + a', b + b', c + c', m)
  {
  }

  /** The first step of each of the four sums over a nonempty batch. */
  lemma SumsUnfold(w: Vector, s: Vector, m: real)
    requires |w| == |s| > 0
    ensures Centered(w, s, m) == w[0] * Square(s[0] - m) + Centered(w[1..], s[1..], m)
    ensures WeightedSquares(w, s) == w[0] * Square(s[0]) + WeightedSquares(w[1..], s[1..])
    ensures Dot(w, s) == w[0] * s[0] + Dot(w[1..], s[1..])
    ensures Sum(w) == w[0] + Sum(w[1..])
  {
  }

  /** One inductive step of `CenteredExpands`, on the sums as plain numbers. */
  lemma ExpandsStep(l: real, t: real, l': real, a: real, b: real, c: real, a': real, b': real, c': real, m: real)
    requires t == Expansion(a, b, c, m) && l' == Expansion(a', b', c', m) && l == t + l'
    ensures l == Expansion(a + a', b + b', c + c', m)
  {
    Regroup(a, b, c, a', b', c', m);
  }

  /** The weighted spread expands into the three weighted sums. */
  lemma {:induction false} CenteredExpands(w: Vector, s: Vector, m: real)
    requires |w| == |s|
    ensures Centered(w, s, m) == Expansion(WeightedSquares(w, s), Dot(w, s), Sum(w), m)
  {
    if |w| > 0 {
      var w', s' := w[1..], s[1..];
      SumsUnfold(w, s, m);
      CenteredExpands(w', s', m);
      TermExpands(w[0], s[0], m);
      ExpandsStep(Centered(w, s, m), w[0] * Square(s[0] - m), Centered(w', s', m),
                  w[0] * Square(s[0]), w[0] * s[0], w[0], WeightedSquares(w', s'), Dot(w', s'), Sum(w'), m);
    }
  }
}
