# Gaussian-process buckling surrogate: training core and material catalogue

This project models two parts of the machine-learning buckling repository.

**The training script for stiffened panels** (`2_stiffened_panels/2_train_model.py`) covers:
- the default 16-entry hyperparameter vector and its bound table;
- the complex-step kernel derivative `kernel_deriv`;
- the random shuffle of the data and its split into a training block and a test block;
- the Gram matrix `K_y` of the negative log-posterior `nMAP`;
- the gradient loop of `nMAP_grad`, with one dK/dtheta_j and one trace per hyperparameter;
- the cross-covariance prediction and the averaged relative error of `post_evaluate`.

**The composite-material record** (`ml_buckling/composite_material.py`) covers:
- optional moduli that fall back to isotropic values;
- the reciprocal Poisson ratio;
- the registry of five factory class methods;
- `get_material_from_str`, which selects a factory by substring of its qualified name;
- the factories themselves: each names its material after itself and passes the ply angle through.

Modules:
- `Wrappers` (`wrappers.dfy`): `Option`.
- `TrainModel` (`train_model.dfy`): `relu`, `theta0`, the bounds and their lower and upper columns, and the complex-step perturbation and derivative.
- `DataSplit` (`data_split.dfy`): the permutation, fancy indexing, Python slice normalisation, and the shuffle-and-split method.
- `Covariance` (`covariance.dfy`): the Gram and cross-covariance matrices, dK/dtheta_j, the matrix algebra of the gradient entry and the `nMAP_grad` loop.
- `Evaluation` (`evaluation.dfy`): the prediction product, the relative errors and their mean in `post_evaluate`.
- `Materials` (`composite_material.dfy`): the `CompositeMaterial` record, the registry, the lookup and the factories.

The kernel function is not part of this model, and neither is the composite-material utility that rotates a ply. Each enters as a function-typed parameter:
- The kernel is a `Kernel` that accepts complex hyperparameter vectors. This is the holomorphic extension that the complex-step derivative evaluates. At a real vector its real part is the ordinary kernel.
- The ply rotation is a `PlyRotation`.
- Three other effects are parameters too: the random permutation (required only to be a permutation), `np.exp` (required only to be positive) and `np.linalg.solve` (required only to return a result of its right-hand side's shape).

Where Python raises, the model returns `None`:
- a negative size for `np.eye`;
- a row index past the end;
- a linear solve with mismatched shapes;
- a gradient over no training rows: the comprehension for dK/dtheta_j at lines 192-197 is then a one-dimensional empty array, and `np.trace` at line 206 refuses it;
- a division by zero;
- an empty test set: the prediction product `K_test_cross @ alpha` at line 279 fails for an empty cross-covariance, and a mean over no values would be NaN;
- the failed assertion in `get_material_from_str`.

One place where the code is followed over its docstring: `nMAP_grad` forms the inner matrix as `alpha alpha^T dK - (-solve(K_y, dK))`. It therefore ADDS `K_y^-1 dK`, while its docstring subtracts it. `Covariance.GradientEntry` states the resulting sign: each entry is `-1/2 tr(alpha alpha^T dK) - 1/2 tr(K_y^-1 dK)`. That is the derivative of the absolute log-determinant term of `nMAP` whenever 0 < det K_y < 1, as for the positive-definite K_y the design intends.

## Model

| member | source | states |
|---|---|---|
| TrainModel.Relu | 2_stiffened_panels/2_train_model.py:57-58 | the result is the larger of 0 and x: it is at least both, and equals one of them |
| TrainModel.LowerBounds | 2_stiffened_panels/2_train_model.py:110 | one entry per bound, entry i is the lower end of bound i |
| TrainModel.UpperBounds | 2_stiffened_panels/2_train_model.py:111 | one entry per bound, entry i is the upper end of bound i |
| TrainModel.BoundsWellFormed | 2_stiffened_panels/2_train_model.py:90-111 | there are 16 bounds, one per entry of theta0, and every lower end is at most its upper end |
| TrainModel.Theta0InBounds | 2_stiffened_panels/2_train_model.py:68-111 | the default vector theta0 lies inside every bound, so the optimizer starts feasible |
| TrainModel.InBoundsNoisePositive | 2_stiffened_panels/2_train_model.py:108 | every feasible vector has noise standard deviation at least 1e-3, hence positive |
| TrainModel.PerturbationVector | 2_stiffened_panels/2_train_model.py:116-117 | the zero array with one entry set has length ntheta, 1e-30 at idx and 0 elsewhere |
| TrainModel.ComplexStep | 2_stiffened_panels/2_train_model.py:118 | theta + dtheta*1j has theta as real parts and dtheta as imaginary parts, entry by entry |
| TrainModel.PerturbedArgument | 2_stiffened_panels/2_train_model.py:116-118 | the kernel is evaluated at theta moved by i*1e-30 in coordinate idx and at no other coordinate |
| TrainModel.KernelDeriv | 2_stiffened_panels/2_train_model.py:113-119 | the result is the imaginary part of the kernel at the perturbed vector divided by the step 1e-30 |
| DataSplit.Gather | 2_stiffened_panels/2_train_model.py:126-127 | fancy indexing: entry k of the result is row perm[k] |
| DataSplit.ShuffleIsPermutation | 2_stiffened_panels/2_train_model.py:125-127 | shuffling by a permutation neither drops nor duplicates rows (same multiset) |
| DataSplit.ShuffleKeepsPairs | 2_stiffened_panels/2_train_model.py:125-127 | shuffling X and Y by the same permutation keeps every row with its own target |
| DataSplit.PermutationDistinct | 2_stiffened_panels/2_train_model.py:125 | no index occurs twice in the permutation |
| DataSplit.Slice | 2_stiffened_panels/2_train_model.py:131-134 | `s[start:stop]` has max(0, hi - lo) entries for the normalised bounds lo and hi, and entry k is s[lo + k] |
| DataSplit.SliceIndex | 2_stiffened_panels/2_train_model.py:131-134 | a slice bound is normalised as Python does: negative bounds count from the end, and all bounds are clamped to 0..N |
| DataSplit.TestEnd | 2_stiffened_panels/2_train_model.py:133-135 | the test block ends no earlier than the training block ends and no later than N |
| DataSplit.SplitRanges | 2_stiffened_panels/2_train_model.py:131-134 | the training and test blocks are consecutive index ranges; with the remaining rows they rebuild the shuffled data |
| DataSplit.SplitSizes | 2_stiffened_panels/2_train_model.py:131-135 | for non-negative sizes, the training block has min(n_train, N) rows and the test block max(0, min(n_test, N - n_train)) rows, so n_test is clipped |
| DataSplit.SplitRowsDisjoint | 2_stiffened_panels/2_train_model.py:125-134 | no original data row is in both the training block and the test block |
| DataSplit.ShuffleAndSplit | 2_stiffened_panels/2_train_model.py:125-135 | the four blocks are the Python slices of the shuffled X and Y, and the overwritten n_test is the actual size of the test block |
| Covariance.GramMatrix | 2_stiffened_panels/2_train_model.py:145-150 | K_y exists exactly when 0 <= n_train <= rows; it is n-by-n with entry (j,i) equal to kernel(x_i, x_j) plus sigma_n^2 on the diagonal |
| Covariance.GramSymmetric | 2_stiffened_panels/2_train_model.py:172-177 | a symmetric kernel gives a symmetric K_y |
| Covariance.GramDiagonalNoise | 2_stiffened_panels/2_train_model.py:150 | inside the bounds, every diagonal entry of K_y strictly exceeds the kernel's self-covariance |
| Covariance.CrossCovariance | 2_stiffened_panels/2_train_model.py:270-278 | test-by-train matrix whose entry (j,i) is kernel(train_i, test_j) |
| Covariance.GramIsSelfCrossPlusNoise | 2_stiffened_panels/2_train_model.py:145-150 | K_y is the cross-covariance of the training rows with themselves plus sigma_n^2 on the diagonal |
| Covariance.KernelGradMatrix | 2_stiffened_panels/2_train_model.py:191-197 | n-by-n matrix whose entry (j,i) is the complex-step derivative for x_i, x_j and index t |
| Covariance.NoiseGradMatrix | 2_stiffened_panels/2_train_model.py:198-199 | dK/dsigma_n is 2 sigma_n on the diagonal and 0 off it |
| Covariance.GradMatrix | 2_stiffened_panels/2_train_model.py:191-199 | Kgrad of pass t is n-by-n: complex-step kernel derivatives for t < ntheta - 1, and 2 sigma_n on the diagonal (0 off it) for the noise index |
| Covariance.MatMul | 2_stiffened_panels/2_train_model.py:202 | `a @ b` of a p-by-q and a q-by-r matrix is p-by-r, and entry (i,j) is the dot product of row i of a with column j of b |
| Covariance.TraceSub | 2_stiffened_panels/2_train_model.py:204-206 | `np.trace` of a difference is the difference of the traces |
| Covariance.TraceScale | 2_stiffened_panels/2_train_model.py:203-206 | `np.trace` of s times a matrix is s times its trace |
| Covariance.GradMatricesSymmetric | 2_stiffened_panels/2_train_model.py:191-199 | for a symmetric kernel every dK/dtheta_t is symmetric, and the noise one has diagonal 2 sigma_n |
| Covariance.GradientEntry | 2_stiffened_panels/2_train_model.py:201-206 | -0.5 times the trace of the inner matrix alpha alpha^T dK - (-solve(K_y, dK)) equals -1/2 tr(alpha alpha^T dK) minus 1/2 tr(solve(K_y, dK)): the inner matrix adds the solve term |
| Covariance.NoiseDataFitTrace | 2_stiffened_panels/2_train_model.py:199-202 | for the noise index, tr(alpha alpha^T dK) is 2 sigma_n times the squared length of alpha |
| Covariance.NMapGrad | 2_stiffened_panels/2_train_model.py:172-208 | the gradient exists exactly when n_train equals the number of training rows and is positive; it has ntheta entries, and entry t is -1/2 the trace of the inner matrix built from K_y, dK/dtheta_t and alpha = solve(K_y, Y_train) |
| Evaluation.MatVec | 2_stiffened_panels/2_train_model.py:279 | entry j of `K_test_cross @ alpha` is the dot product of row j with alpha, and as a column it equals the matrix product with alpha as an n-by-1 column |
| Evaluation.RelativeError | 2_stiffened_panels/2_train_model.py:284-285 | the relative error is non-negative, zero exactly for an exact prediction, and times the true load equals the absolute error |
| Evaluation.RelativeErrors | 2_stiffened_panels/2_train_model.py:281-285 | one non-negative error per test point, zero exactly where the predicted load equals the true load |
| Evaluation.Mean | 2_stiffened_panels/2_train_model.py:286 | the mean is defined exactly for a non-empty array; it is non-negative for non-negative entries and zero when all entries are zero |
| Evaluation.PostEvaluate | 2_stiffened_panels/2_train_model.py:268-287 | the average relative error exists exactly when the test set is non-empty; it is non-negative and is zero when the prediction reproduces the test targets |
| Materials.CompositeMaterial.E22 | ml_buckling/composite_material.py:31-36 | the given E22, or E11 when none was given |
| Materials.CompositeMaterial.G12 | ml_buckling/composite_material.py:38-44 | the given G12; otherwise defined exactly when 1 + nu12 != 0, and then 2 (1 + nu12) G12 = E11 |
| Materials.CompositeMaterial.Nu21 | ml_buckling/composite_material.py:26-29 | defined exactly when E11 != 0, and then nu21 E11 = nu12 E22 |
| Materials.DefaultConstructorIsotropic | ml_buckling/composite_material.py:6-44 | `CompositeMaterial(E11, nu12)` leaves all six optional fields unset, so E22 = E11, nu21 = nu12 (for E11 != 0), and G12 = E11 / (2 (1 + nu12)) when nu12 != -1 and fails when nu12 = -1 |
| Materials.IsotropicDefaults | ml_buckling/composite_material.py:26-44 | without E22 and G12: E22 = E11, G12 = E22 / (2 (1 + nu12)) and nu21 = nu12 |
| Materials.PoissonReciprocity | ml_buckling/composite_material.py:26-36 | nu21 / E22 = nu12 / E11 whenever both moduli are non-zero |
| Materials.GetMaterials | ml_buckling/composite_material.py:45-53 | five factories, each exactly once, at its fixed position |
| Materials.LastMatchIndex | ml_buckling/composite_material.py:60-62 | the position found contains the name and no later position does; no position is found only when none contains it |
| Materials.GetMaterialFromStr | ml_buckling/composite_material.py:55-64 | a factory is returned exactly when some qualified name contains mat_name; it contains it, and no factory later in the registry does |
| Materials.FindMaterialSelectsLast | ml_buckling/composite_material.py:57-63 | the lookup succeeds exactly when some qualified name contains the string; the factory selected matches and no factory after it in the registry does |
| Materials.MethodNameRoundTrip | ml_buckling/composite_material.py:45-64 | looking up a factory's own method name returns that factory |
| Materials.ClassPrefixSelectsLast | ml_buckling/composite_material.py:57-62 | a prefix of "CompositeMaterial." (the empty string included) matches every factory, so the last one, victrexAE, is returned |
| Materials.UnknownCharacterFails | ml_buckling/composite_material.py:59-63 | a name with a character that no qualified name has makes the assertion fail |
| Materials.Factory | ml_buckling/composite_material.py:71-175 | the material is named after the factory, carries the given ply angle (0.0 by default) and no G23/G13, and takes E11, nu12, E22 and G12 from the rotated base properties |
| Materials.FactoryDefaultAngle | ml_buckling/composite_material.py:72 | a factory called without an angle builds its material at ply angle 0.0 |
| Materials.FactoryLabelRoundTrip | ml_buckling/composite_material.py:45-175 | the name a factory stamps on its material looks that factory up again |

## Left out

- The kernel function `kernel` is not part of this model. It is a parameter, and its `include_sigma` flag is folded into that parameter.
- The objective value of `nMAP` is left out: its log-determinant and the constant term. They are floating-point linear algebra, and the value does not feed the gradient.
- `np.linalg.solve` is a parameter. A singular K_y, which makes numpy raise, is not modelled.
- `soft_relu` and `soft_abs` are left out. They are smooth helpers that no core operation calls.
- Complex arithmetic inside the kernel is left out. So is the claim that the complex-step result approximates the real derivative: that is a statement about floating point and analytic functions.
- The optimizer call, MPI communicator, argument parsing, CSV reading and printing, environment and file output are left out. They are I/O and third-party code.
- The derivative-check debug path (`checkderivs`, `debug1`) is left out, as are the plotting and demo scripts.
- The seeded random generator is left out; the permutation it produces is a parameter.
- `kernel_deriv` with an `idx` outside 0..ntheta-1 is not modelled: numpy would wrap a negative one and raise IndexError for one of ntheta or more, but the gradient loop only passes 0..ntheta-2.
- NMapGrad: Y_train is modelled as a one-dimensional array turned into an n-by-1 column, not as the two-dimensional slice numpy carries.
- Materials.Factory: `rotate_ply` of the composite-material utility is a parameter, so the rotated moduli are stated in terms of it rather than computed.
- Floating-point rounding, infinities and NaN are left out: all arithmetic is on exact reals. In particular a numpy zero E11, which gives inf rather than raising, is modelled as the ZeroDivisionError a Python float raises.
- Python's `float` and numpy array types are not distinguished: rows, vectors and matrices are sequences of reals.
