# Affine constraints for selective inference, in Dafny

This project models the affine-constraint engine of `selection/constraints/affine.py`. A
`constraints` value is a polyhedron `{z : A z <= b}` together with the reference Gaussian
`N(mean, covariance)` that is truncated to it. The engine offers:

- the membership test `con(Y, tol)`;
- `stack`, which intersects several sets;
- `interval_constraints` and `con.bounds`, which compute the slice of the polyhedron along a
  direction eta through an observed point Y: the truncation bounds of `eta' Y`;
- the truncated-Gaussian `pivot` built on that slice, with its three alternatives;
- the p-value rule of `gibbs_test`, given weighted draws;
- `one_parameter_MLE`, a stochastic Newton iteration. Each iteration tilts a private copy of the
  constraints, draws a batch of `eta' Z` from it, and steps on an importance-reweighted
  pseudo-likelihood built from every batch so far.

Everything is over Dafny's exact `real`s. `+inf` and `-inf` are the extended reals of `ExtReal`.
The `ValueError`s that matter, raised by numpy or by the source, become `Failure` values of `Wrappers.Result`:

- `max` of an empty array;
- `vstack` of nothing;
- a column mismatch in `vstack`;
- an unknown alternative.

Modules, one per part of the source:

| module | file | models |
|---|---|---|
| `Wrappers` | `wrappers.dfy` | `Option`, `Result`, the error kinds |
| `ExtReal` | `ext_real.dfy` | reals with `-inf` and `+inf`, `min`/`max`, standardisation |
| `LinAlg` | `linalg.dfy` | `np.dot`, elementwise arithmetic, `sum`, `max`, `np.fabs(..).max()`, identity, zeros, weighted sums of squares and spreads |
| `Alternatives` | `alternatives.dfy` | the `alternative` strings and the two-sided fold |
| `AffineSet` | `affine_set.dfy` | the `constraints` value, its constructor, `__call__`, `stack` |
| `Truncation` | `truncation.dfy` | `interval_constraints`, `bounds`, `pivot` |
| `GibbsTest` | `gibbs.dfy` | the p-value/decision rule of `gibbs_test` |
| `Mle` | `mle.dfy` | `one_parameter_MLE`: the history, the stabiliser, the two inner loops, the Newton step |

`constraints` is a datatype, because the only in-place update in the core is the MLE's write to
its own copy's mean. The MLE models that copy as a local that is reassigned with
`Tilted(con, eta, theta)`. `stack` and the MLE loops are methods with loop invariants, proved
against recursive specification functions. The vectorised numpy expressions are functions with
lemmas.

In `pivot`, `truncnorm_cdf` is a function parameter `cdf`. In `gibbs_test`, `discrete_family`'s
two-sided test is a parameter `umpuTest`, and the draws and weights are inputs. In the MLE, the
sampler is a parameter `draw(working copy, iteration)` that returns the draws `Z`, and `np.exp`
is a parameter `exp`. The model assumes of `exp` only that it is never negative and that
`exp(4) > 0`, and, for one lemma, that it is monotone.

## Model

| member | source | states |
|---|---|---|
| AffineSet.Create | selection/constraints/affine.py:96-110 | keeps A and b and takes the dimension `cols` as an argument (it is the column count of A when the shapes are consistent); a given covariance and mean are kept, a missing covariance is the identity and a missing mean is zero; consistent shapes give a well-formed set |
| AffineSet.Contains | selection/constraints/affine.py:140-152 | a set without rows fails (numpy `max` of an empty residual); otherwise succeeds with the membership verdict |
| AffineSet.Residual | selection/constraints/affine.py:151 | `A Y - b`, one entry per row of the set (`V1` in `__call__`, `U` in `interval_constraints`) |
| AffineSet.ContainsStrictlyFeasible | selection/constraints/affine.py:151-152 | a point with every residual negative is a member for every tolerance `tol >= 0` |
| AffineSet.ContainsOnAllFaces | selection/constraints/affine.py:151-152 | a point with every residual exactly zero is not a member (the relative threshold is 0) |
| AffineSet.ContainsZeroTolerance | selection/constraints/affine.py:151-152 | with `tol = 0` membership holds exactly when every residual is negative |
| AffineSet.ContainsExample | selection/constraints/affine.py:144-149 | the doctest: A = [[1,-1],[1,-1]], b = [1,1], Y = [-1,1] is a member |
| AffineSet.StackedRows | selection/constraints/affine.py:402 | `np.vstack` of the linear parts: the rows of the inputs one after the other; its layout is `StackedRowsLayout` |
| AffineSet.StackedOffsets | selection/constraints/affine.py:403 | `np.hstack` of the offsets: the offsets of the inputs one after the other; its layout is `StackedOffsetsLayout` |
| AffineSet.StackedRowsLayout | selection/constraints/affine.py:396-403 | the stacked matrix has as many rows as all inputs together, and row i of input k sits at that input's offset plus i |
| AffineSet.StackedOffsetsLayout | selection/constraints/affine.py:396-403 | the stacked offsets are the inputs' offsets in order, at the same row positions |
| AffineSet.StackedRowsCols | selection/constraints/affine.py:402-403 | stacking inputs of one dimension gives rows of that dimension |
| AffineSet.Stack | selection/constraints/affine.py:374-404 | no inputs fails (empty `vstack`); mismatched column counts fail; otherwise the result is the constructor applied to the concatenated rows and offsets, so its mean is zero and its covariance the identity |
| AffineSet.StackWellFormed | selection/constraints/affine.py:393-404 | the stacked set is well formed and its row count is the sum of the inputs' |
| Alternatives.ParseAlternative | selection/constraints/affine.py:275-276 | exactly "greater", "less" and "twosided" are accepted, each to its own alternative |
| Alternatives.TwoSidedFold | selection/constraints/affine.py:285 | `2 min(p, 1-p)` lies in [0,1] for p in [0,1] and is at most twice either tail |
| ExtReal.Min | selection/constraints/affine.py:486-490 | the minimum is below both arguments and is one of them |
| ExtReal.Max | selection/constraints/affine.py:698 | the maximum is above both arguments and is one of them |
| ExtReal.Standardize | selection/constraints/affine.py:279 | `(x - m) / s` keeps finite values finite and maps each infinity to itself |
| ExtReal.StandardizeMonotone | selection/constraints/affine.py:279 | standardising by a positive scale preserves the order, in both directions |
| LinAlg.DotLinear | selection/constraints/affine.py:469-476 | `np.dot(w, x + k y) = np.dot(w, x) + k np.dot(w, y)`, the linearity behind moving Y along `S eta` |
| LinAlg.WeightedSquares | selection/constraints/affine.py:708 | `(w * s**2).sum()` for one batch: the definition of a batch's second-moment sum |
| LinAlg.Centered | selection/constraints/affine.py:715 | `sum_j w[j] (s[j] - m)**2`, the weighted spread of a batch about m; its meaning is given by `CenteredExpands` |
| LinAlg.CenteredNonnegative | selection/constraints/affine.py:715 | a weighted spread with nonnegative weights is nonnegative |
| LinAlg.CenteredExpands | selection/constraints/affine.py:707-709 | a batch's spread about m is `second - 2 m first + m^2 mass` of its weighted sums |
| LinAlg.MaxAbs | selection/constraints/affine.py:152 | `np.fabs(x).max()` bounds every magnitude and is attained |
| LinAlg.VectorMax | selection/constraints/affine.py:698 | `x.max()` bounds every entry and is attained |
| Truncation.Variance | selection/constraints/affine.py:473-474 | `eta' S eta`, the square of `sigma`; it is the variance every slice carries |
| Truncation.Sensitivities | selection/constraints/affine.py:473-475 | each `alpha_i` times `eta' S eta` is `(A S eta)_i` |
| Truncation.Rhs | selection/constraints/affine.py:482-484 | a row's bound is undefined (`nan`) exactly when its sensitivity is zero |
| Truncation.RhsClosedForm | selection/constraints/affine.py:483 | off the zero rows, `(-U_i + V alpha_i) / alpha_i = V - U_i / alpha_i` |
| Truncation.UpperBound | selection/constraints/affine.py:486-490 | `+inf` exactly when no row exceeds the threshold; otherwise the least bound of the qualifying rows, attained by one of them |
| Truncation.LowerBound | selection/constraints/affine.py:491-495 | `-inf` exactly when no row is below minus the threshold; otherwise the greatest bound of the qualifying rows, attained by one of them |
| Truncation.Threshold | selection/constraints/affine.py:486 | `tol * max abs(alpha)` is nonnegative for `tol >= 0` |
| Truncation.IntervalConstraints | selection/constraints/affine.py:466-497 | no rows fails (numpy `max` of an empty array); otherwise V is `eta' Y` and the variance is `eta' S eta` |
| Truncation.SliceContainsObserved | selection/constraints/affine.py:469-497 | when every residual is nonpositive, lower <= V <= upper |
| Truncation.EndpointsContain | selection/constraints/affine.py:483-495 | with nonpositive residuals the lower end is at most V and the upper end at least V |
| Truncation.RowBoundAbove | selection/constraints/affine.py:486-488 | a row with positive sensitivity and nonpositive residual bounds V from above |
| Truncation.RowBoundBelow | selection/constraints/affine.py:491-493 | a row with negative sensitivity and nonpositive residual bounds V from below |
| Truncation.ShiftMovesStatistic | selection/constraints/affine.py:476 | moving Y by `c S eta / (eta' S eta)` moves `V = eta' Y` by exactly c |
| Truncation.ShiftMovesResiduals | selection/constraints/affine.py:469-475 | the same move shifts each residual `U_i` by `c alpha_i` |
| Truncation.SliceEndpointsIndependent | selection/constraints/affine.py:421-424 | moving Y to `Y + c S eta / (eta' S eta)` moves V to V + c and leaves both endpoints and the variance unchanged |
| Truncation.RhsShift | selection/constraints/affine.py:483 | shifting V by c and each residual by `c alpha_i` leaves every row's bound unchanged |
| Truncation.ZeroSensitivityRowsIgnored | selection/constraints/affine.py:480-484 | changing the offset of rows with `(A S eta)_i = 0` does not change the result |
| Truncation.DegenerateDirection | selection/constraints/affine.py:486-495 | an all-zero `A S eta` gives the slice (-inf, +inf) |
| Truncation.PositiveOrthantExample | selection/constraints/affine.py:54-62 | the class doctest: A = -I, b = 0, Y = [3, 4.4], eta = [1, 1] give lower 1.4, V 7.4, upper +inf, variance 2 |
| Truncation.OrthantSlice | selection/constraints/affine.py:54-62 | the same doctest at the level of `interval_constraints` |
| Truncation.OrthantBounds | selection/constraints/affine.py:54-62 | with alpha = [-0.5, -0.5] the two bounds are 1.4 and +inf |
| Truncation.Bounds | selection/constraints/affine.py:194-233 | the slice of the set's own system; fails without rows; at a feasible Y it contains `eta' Y` |
| Truncation.FeasibleSliceContainsObserved | selection/constraints/affine.py:194-233 | for the set's own system, a Y with every residual nonpositive lies in its slice |
| Truncation.PivotTail | selection/constraints/affine.py:277-285 | `1 - F`, `F` and `2 min(F, 1 - F)` lie in [0,1] for F in [0,1] |
| Truncation.Pivot | selection/constraints/affine.py:235-285 | an unknown alternative fails before anything else; it fails exactly then or without rows; for a cdf into [0,1] the p-value lies in [0,1] |
| Truncation.SliceCdf | selection/constraints/affine.py:279-283 | `truncnorm_cdf` at the standardised V with the standardised endpoints |
| Truncation.PivotOf | selection/constraints/affine.py:267-285 | for a known alternative and a set with rows, the pivot succeeds with that alternative's tail of the standardised cdf |
| Truncation.PivotAlternativesAgree | selection/constraints/affine.py:267-271 | the greater and less p-values sum to one, and the two-sided one is twice the smaller |
| GibbsTest.TailWeight | selection/constraints/affine.py:969-971 | `(W*(null_statistics >= observed)).sum()` or, for the lower tail, with `<=`: the weight of the draws on one side of the observation; bounded by `TailWeightBounded` |
| GibbsTest.TestWeights | selection/constraints/affine.py:964 | the given weights, or `np.ones` over the draws when sigma is known |
| GibbsTest.GibbsTest | selection/constraints/affine.py:941-979 | an unknown alternative fails, and only then; the weights used are the given ones, or unit weights when sigma is known; the result is a decision exactly for twosided with UMPU, and that decision is `umpuTest` applied to the null statistics `Z eta`, the weights, the observed `eta' Y` and alpha |
| GibbsTest.TailWeightBounded | selection/constraints/affine.py:969-971 | with nonnegative weights a tail carries between none and all of the weight |
| GibbsTest.TailsCoverAll | selection/constraints/affine.py:969-971 | the two tails together count every draw once and the ties twice |
| GibbsTest.PValueInUnitInterval | selection/constraints/affine.py:966-974 | with nonnegative weights of positive total every p-value lies in [0,1] |
| GibbsTest.TwoSidedFoldsLess | selection/constraints/affine.py:972-974 | twosided without UMPU is `2 min(p_less, 1 - p_less)` |
| GibbsTest.OneSidedComplement | selection/constraints/affine.py:968-971 | p_greater + p_less is one plus the weight fraction of ties |
| GibbsTest.SigmaKnownUnitWeights | selection/constraints/affine.py:962-964 | with sigma known the weights are all one and the denominator is the number of draws |
| Mle.Start | selection/constraints/affine.py:647-651 | the first parameter is `startMLE` when given, and otherwise the unconstrained MLE theta with `theta eta'S eta = eta'y` |
| Mle.Tilted | selection/constraints/affine.py:655-658 | the working copy keeps the caller's linear part, offset, covariance and dimension, and stays well formed |
| Mle.TiltedMeanShift | selection/constraints/affine.py:657-658 | the copy's mean is the caller's mean plus `theta S eta`, always from the caller's mean; at theta = 0 the copy is the caller's set |
| Mle.Draw | selection/constraints/affine.py:668-680 | `Zeta = np.dot(Z, eta)` for the draws Z that the sampler returns for the tilted copy at an iteration, one entry per draw |
| Mle.Exponents | selection/constraints/affine.py:698 | `(MLE - prev_param) * prev_sufficient_stat`, one exponent per draw of the batch |
| Mle.HistoryMax | selection/constraints/affine.py:687-698 | the running max from -inf is finite exactly for a nonempty history |
| Mle.HistoryMaxBounds | selection/constraints/affine.py:690-698 | the running max bounds every exponent of every batch |
| Mle.HistoryMaxAttained | selection/constraints/affine.py:690-698 | a nonempty history attains its running max at some draw |
| Mle.Weights | selection/constraints/affine.py:705 | `weight_correction`: one weight per draw, `exp` of the stabilised exponent |
| Mle.Mass | selection/constraints/affine.py:709-712 | `sum_weights.sum()`, the total weight over the history; positive by `MassPositive` |
| Mle.FirstMoment | selection/constraints/affine.py:707-711 | `sum_mean.sum()`, the weighted total of the statistic over the history |
| Mle.SecondMoment | selection/constraints/affine.py:708-712 | `sum_second_moment.sum()`, the weighted total of the squared statistic over the history |
| Mle.Stabiliser | selection/constraints/affine.py:687-700 | after subtracting 4 every stabilised exponent is at most 4 and one is exactly 4 |
| Mle.MassAtLeastBatch | selection/constraints/affine.py:709 | the total weight is at least that of any one batch |
| Mle.MassPositive | selection/constraints/affine.py:700-712 | the total weight is at least `exp(4) > 0`, so the weighted moments are defined |
| Mle.WeightsBounded | selection/constraints/affine.py:700-705 | for a monotone exp no weight exceeds `exp(4)` |
| Mle.HistoryCenteredExpands | selection/constraints/affine.py:702-709 | the history's spread about m is `second - 2 m first + m^2 mass` of the accumulated sums |
| Mle.HistoryCenteredNonnegative | selection/constraints/affine.py:702-709 | the history's spread is nonnegative |
| Mle.WeightedVarianceNonnegative | selection/constraints/affine.py:711-715 | `weighted_second_moment - weighted_mean**2` is never negative when the total weight is positive |
| Mle.HessianNonnegative | selection/constraints/affine.py:711-715 | the Hessian estimate is a weighted variance and is never negative |
| Mle.Step | selection/constraints/affine.py:717-721 | the divisor is `max(hessian, hessian_min)`, at least both; a zero gradient leaves theta unchanged and, for `tol > 0`, stops the loop |
| Mle.StepFromSums | selection/constraints/affine.py:711-718 | the Newton step from the three sums: gradient `first/mass - observed`, Hessian `second/mass - (first/mass)**2` |
| Mle.NewtonAt | selection/constraints/affine.py:683-718 | the Newton step of a history at its last parameter, with the stabiliser of that history |
| Mle.ConvergedIsRootTest | selection/constraints/affine.py:720 | the stopping test agrees with `sqrt(grad^2 / divisor) < tol` |
| Mle.StepBounded | selection/constraints/affine.py:717-718 | every step is at most `step_size abs(grad) / hessian_min` in size, and goes against the gradient |
| Mle.TraceExtend | selection/constraints/affine.py:656-681 | appending the batch drawn at the next parameter extends a recorded run |
| Mle.DrawsExtend | selection/constraints/affine.py:678-681 | the record of which draw call produced each batch extends by one |
| Mle.StepsExtend | selection/constraints/affine.py:711-718 | the record of Newton steps extends by one |
| Mle.StabiliserOf | selection/constraints/affine.py:687-700 | the first inner loop: fails on a batch without draws, otherwise returns the stabiliser |
| Mle.Moments | selection/constraints/affine.py:702-709 | the second inner loop: returns the weighted first and second moment sums and the total weight |
| Mle.Advance | selection/constraints/affine.py:656-718 | one pass of the loop: the history grows by the batch that the iteration's draw call gives for the copy tilted to theta, and the run record extends; the step fails exactly when that batch is empty, which is exactly when `ndraw = 0`, and otherwise it is the Newton step of the new history |
| Mle.NewtonIteration | selection/constraints/affine.py:683-718 | one iteration after the append: fails on an empty batch, otherwise returns the Newton step of the history |
| Mle.OneParameterMLE | selection/constraints/affine.py:636-728 | at most `niter` batches, one per iteration; the first starts from `startMLE` or `eta'y / eta'S eta`; batch k comes from the k-th draw of the copy tilted to its parameter; each later parameter is the Newton step of the history before it, which did not stop; an early exit happens only after a step that met the stopping test; the run fails exactly when `niter > 0` and `ndraw = 0`, since every batch then has no draws |

## Left out

- Default arguments become explicit arguments. The source's defaults are
  `alternative='greater'` for `pivot` (line 236); `alternative='twosided'`, `UMPU=True`,
  `sigma_known=False` and `alpha=0.05` for `gibbs_test` (lines 878-881); and `ndraw=500`,
  `niter=20`, `step_size=0.9`, `hessian_min=1.` and `tol=1e-5` for `one_parameter_MLE` (lines
  569-575). The default tolerances of `__call__` (line 140) and of
  `interval_constraints` are defined as the constants `MembershipTol` and `SliceTol`.
- `constraints.whiten`, `_sqrt_cov`/`_sqrt_inv` and their copying: eigendecomposition, matrix rank
  and square roots are floating-point linear algebra. The sampler parameter of the MLE stands for
  whitening, sampling and un-whitening together.
- `constraints.conditional`: it needs a pseudo-inverse.
- `selection_interval` and `constraints.interval`: their intervals come from an external
  truncated-Gaussian package that is not part of this model.
- `sample_from_constraints`, `sample_from_sphere` and the samplers they call are random and
  external. `gibbs_test` takes their draws and weights as inputs; the MLE takes a draw function.
- `truncnorm_cdf`, `discrete_family.two_sided_test` and `np.exp` are function parameters.
- The `WARNINGS` flag and its `warn` call, `_repr_latex_` and the `DEBUG` print do not affect any
  result.
- The test files under `selection/randomized/tests/` and `selection/sampling/randomized/intervals/lasso_fixedX.py`
  are experiment scripts over code outside this model.
- A one-dimensional `linear_part` (the `ndim != 2` branch of the constructor) is not modelled. The
  linear part is always a matrix.
- NaN and the infinities that numpy's float division would produce are not modelled. These become
  requires instead:
  - `tol >= 0` and `eta' S eta > 0` for `interval_constraints`, `bounds` and `pivot`;
  - `hessian_min > 0` for the MLE;
  - a nonzero weight total for `gibbs_test`.
- Truncation.IntervalConstraints: returns the variance `eta' S eta` in place of `sigma`, because
  the reals here have no square root.
- Truncation.Pivot: takes `sd` with `sd > 0 && sd * sd == eta' S eta` as an input.
- Mle.OneParameterMLE: needs `startMLE`, or a nonzero `eta' S eta`. numpy would compute an
  infinite or NaN unconstrained start and then ignore it when `startMLE` is given.
- Mle.Step: writes `sqrt(x) < tol` as `tol > 0 && x < tol^2`. `Mle.ConvergedIsRootTest` proves the
  two agree for the nonnegative root.
- Mle.Moments: accumulates each batch's sums as scalars. The source adds whole arrays and sums
  them at the end. The sampler returns `ndraw` draws on every call, so all batches have the same
  length, and the totals are the same sums in another order. That reordering matters only in
  floating point. Batches of unequal length are not modelled: numpy would raise on lengths 2
  then 3 and broadcast a single draw on lengths 2 then 1.
- Mle.OneParameterMLE: covers `white=False` only. With `white=True` the source reads `white_Y` and
  `white_direction_of_interest` (lines 670-671), which only the `not white` branch assigns
  (lines 662-663), so the call raises `UnboundLocalError` on its first iteration.
- Mle.OneParameterMLE: does not model `how_often` and `burnin`. They only configure the sampler,
  which is a parameter here. `ndraw` is modelled as the length of every batch the sampler returns.
- Mle.WeightsBounded: assumes `exp` is monotone. The rest of the MLE assumes only that `exp` is
  nonnegative and positive at 4, so the weights may underflow to zero and the proofs still hold.
