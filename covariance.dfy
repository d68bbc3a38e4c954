/** Matrix assembly around the Gaussian-process objective
    (2_stiffened_panels/2_train_model.py): the Gram matrix of `nMAP` and
    `nMAP_grad`, the per-hyperparameter matrices dK/dtheta and the loop that
    fills the gradient, and the cross-covariance of `post_evaluate`.

    Matrix products, differences and traces are written out; the linear solve
    is a parameter known only to preserve shapes. */
module Covariance {
  import opened Wrappers
  import opened TrainModel

  /** A real hyperparameter vector, seen as complex with zero imaginary parts. */
  function RealTheta(theta: seq<real>): (z: seq<Complex>)
    ensures |z| == |theta|
    ensures forall i :: 0 <= i < |z| ==> z[i] == Complex(theta[i], 0.0)
  {
    seq(|theta|, i requires 0 <= i < |theta| => Complex(theta[i], 0.0))
  }

  /** `kernel(xp, xq, theta)` at a real hyperparameter vector. */
  function KernelValue(k: Kernel, xp: Row, xq: Row, theta: seq<real>): real
  {
    k(xp, xq, RealTheta(theta)).re
  }

  /** The kernel is symmetric in its two feature rows, for every hyperparameter vector. */
  ghost predicate SymmetricKernel(k: Kernel)
  {
    forall xp, xq, z :: k(xp, xq, z) == k(xq, xp, z)
  }

  ghost predicate IsSquare(m: Matrix, n: nat)
  {
    |m| == n && forall j :: 0 <= j < n ==> |m[j]| == n
  }

  ghost predicate IsSymmetric(m: Matrix, n: nat)
    requires IsSquare(m, n)
  {
    forall i, j :: 0 <= i < n && 0 <= j < n ==> m[i][j] == m[j][i]
  }

  /** `sigma_n ** 2`, the noise variance added to the diagonal. */
  function NoiseVariance(theta: seq<real>): real
    requires |theta| == NTheta
  {
    theta[NoiseIndex] * theta[NoiseIndex]
  }

  /** `K_y`: row j, column i holds kernel(x_i, x_j, theta), plus sigma_n^2 on the
      diagonal. Python builds it over `range(n_train)` on the rows of `X_train`:
      with more requested rows than `X_train` has, indexing fails; with a
      negative count, `np.eye` refuses the shape. Both are `None`. */
  function GramMatrix(k: Kernel, xs: seq<Row>, n: int, theta: seq<real>): (r: Option<Matrix>)
    requires |theta| == NTheta
    ensures r.Some? <==> 0 <= n <= |xs|
    ensures r.Some? ==> IsSquare(r.value, n)
    ensures r.Some? ==> forall i, j :: 0 <= i < n && 0 <= j < n ==>
      r.value[j][i] == KernelValue(k, xs[i], xs[j], theta) + (if i == j then NoiseVariance(theta) else 0.0)
  {
    if 0 <= n <= |xs| then
      Some(seq(n, j requires 0 <= j < n =>
        seq(n, i requires 0 <= i < n =>
          KernelValue(k, xs[i], xs[j], theta) + (if i == j then NoiseVariance(theta) else 0.0))))
    else
      None
  }

  /** A symmetric kernel gives a symmetric Gram matrix. */
  lemma GramSymmetric(k: Kernel, xs: seq<Row>, n: int, theta: seq<real>)
    requires |theta| == NTheta && 0 <= n <= |xs|
    requires SymmetricKernel(k)
    ensures IsSquare(GramMatrix(k, xs, n, theta).value, n)
    ensures IsSymmetric(GramMatrix(k, xs, n, theta).value, n)
  {
    var m := GramMatrix(k, xs, n, theta).value;
    forall i, j | 0 <= i < n && 0 <= j < n ensures m[i][j] == m[j][i] {
      assert k(xs[i], xs[j], RealTheta(theta)) == k(xs[j], xs[i], RealTheta(theta));
    }
  }

  /** Inside the bounds the noise term is strictly positive, so every diagonal
      entry of K_y strictly exceeds the kernel's own self-covariance. */
  lemma GramDiagonalNoise(k: Kernel, xs: seq<Row>, n: int, theta: seq<real>, i: nat)
    requires InBounds(theta) && 0 <= n <= |xs| && i < n
    ensures GramMatrix(k, xs, n, theta).value[i][i] > KernelValue(k, xs[i], xs[i], theta)
  {
    InBoundsNoisePositive(theta);
  }

  /** `K_test_cross`: one row per test point and one column per training point;
      row j, column i holds kernel(train_i, test_j, theta). */
  function CrossCovariance(k: Kernel, xTrain: seq<Row>, xTest: seq<Row>, theta: seq<real>): (r: Matrix)
    ensures |r| == |xTest|
    ensures forall j :: 0 <= j < |xTest| ==> |r[j]| == |xTrain|
    ensures forall i, j :: 0 <= i < |xTrain| && 0 <= j < |xTest| ==>
      r[j][i] == KernelValue(k, xTrain[i], xTest[j], theta)
  {
    seq(|xTest|, j requires 0 <= j < |xTest| =>
      seq(|xTrain|, i requires 0 <= i < |xTrain| => KernelValue(k, xTrain[i], xTest[j], theta)))
  }

  /** The two assemblies agree: K_y is the cross-covariance of the training rows
      with themselves, plus sigma_n^2 on the diagonal. */
  lemma GramIsSelfCrossPlusNoise(k: Kernel, xs: seq<Row>, theta: seq<real>, i: nat, j: nat)
    requires |theta| == NTheta && i < |xs| && j < |xs|
    ensures GramMatrix(k, xs, |xs|, theta).value[j][i] ==
      CrossCovariance(k, xs, xs, theta)[j][i] + (if i == j then NoiseVariance(theta) else 0.0)
  {
  }

  /** dK/dtheta_t for a kernel hyperparameter (t < ntheta - 1): row j, column i
      holds kernel_deriv(x_i, x_j, theta, t). */
  function KernelGradMatrix(k: Kernel, xs: seq<Row>, n: nat, theta: seq<real>, t: nat): (dK: Matrix)
    requires |theta| == NTheta && t < NTheta && n <= |xs|
    ensures IsSquare(dK, n)
    ensures forall i, j :: 0 <= i < n && 0 <= j < n ==>
      dK[j][i] == KernelDerivative(k, xs[i], xs[j], theta, t)
  {
    seq(n, j requires 0 <= j < n =>
      seq(n, i requires 0 <= i < n => KernelDerivative(k, xs[i], xs[j], theta, t)))
  }

  /** dK/dsigma_n = `2 * theta[ntheta-1] * np.eye(n_train)`. */
  function NoiseGradMatrix(n: nat, theta: seq<real>): (dK: Matrix)
    requires |theta| == NTheta
    ensures IsSquare(dK, n)
    ensures forall i, j :: 0 <= i < n && 0 <= j < n ==>
      dK[j][i] == if i == j then 2.0 * theta[NoiseIndex] else 0.0
  {
    seq(n, j requires 0 <= j < n => seq(n, i requires 0 <= i < n => if i == j then 2.0 * theta[NoiseIndex] else 0.0))
  }

  /** The matrix `Kgrad` of pass t of the gradient loop. */
  function GradMatrix(k: Kernel, xs: seq<Row>, n: nat, theta: seq<real>, t: nat): (dK: Matrix)
    requires |theta| == NTheta && t < NTheta && n <= |xs|
    ensures IsSquare(dK, n)
    ensures t < NoiseIndex ==> forall i, j :: 0 <= i < n && 0 <= j < n ==>
      dK[j][i] == KernelDerivative(k, xs[i], xs[j], theta, t)
    ensures t == NoiseIndex ==> forall i, j :: 0 <= i < n && 0 <= j < n ==>
      dK[j][i] == if i == j then 2.0 * theta[NoiseIndex] else 0.0
  {
    if t < NoiseIndex then KernelGradMatrix(k, xs, n, theta, t) else NoiseGradMatrix(n, theta)
  }

  /** For a kernel symmetric at every complex argument, every dK/dtheta_t is
      symmetric, and the noise derivative is the diagonal matrix 2 sigma_n I,
      whose entries are the derivative of sigma_n^2 in the Gram matrix's diagonal. */
  lemma GradMatricesSymmetric(k: Kernel, xs: seq<Row>, n: nat, theta: seq<real>, t: nat)
    requires |theta| == NTheta && t < NTheta && n <= |xs|
    requires SymmetricKernel(k)
    ensures IsSquare(GradMatrix(k, xs, n, theta, t), n)
    ensures IsSymmetric(GradMatrix(k, xs, n, theta, t), n)
    ensures t == NoiseIndex ==> forall i :: 0 <= i < n ==>
      GradMatrix(k, xs, n, theta, t)[i][i] == 2.0 * theta[NoiseIndex]
  {
    var dK := GradMatrix(k, xs, n, theta, t);
    if t < NoiseIndex {
      forall i, j | 0 <= i < n && 0 <= j < n ensures dK[i][j] == dK[j][i] {
        var z := ComplexStep(theta, Perturbation(t));
        assert k(xs[i], xs[j], z) == k(xs[j], xs[i], z);
      }
    }
  }

  /** A matrix of `rows` rows with `cols` entries each. */
  ghost predicate HasShape(m: Matrix, rows: nat, cols: nat)
  {
    |m| == rows && forall j :: 0 <= j < rows ==> |m[j]| == cols
  }

  /** Column i of m. */
  function Column(m: Matrix, i: nat): (c: seq<real>)
    requires forall j :: 0 <= j < |m| ==> i < |m[j]|
    ensures |c| == |m| && forall j :: 0 <= j < |m| ==> c[j] == m[j][i]
  {
    seq(|m|, j requires 0 <= j < |m| => m[j][i])
  }

  /** `m.T`. */
  function Transpose(m: Matrix, rows: nat, cols: nat): (t: Matrix)
    requires HasShape(m, rows, cols)
    ensures HasShape(t, cols, rows)
    ensures forall i, j :: 0 <= i < cols && 0 <= j < rows ==> t[i][j] == m[j][i]
  {
    seq(cols, i requires 0 <= i < cols => Column(m, i))
  }

  /** `a @ b` for a p-by-q and a q-by-r matrix. */
  function MatMul(a: Matrix, b: Matrix, p: nat, q: nat, r: nat): (c: Matrix)
    requires HasShape(a, p, q) && HasShape(b, q, r)
    ensures HasShape(c, p, r)
    ensures forall i, j :: 0 <= i < p && 0 <= j < r ==> c[i][j] == Dot(a[i], Column(b, j))
  {
    seq(p, i requires 0 <= i < p => seq(r, j requires 0 <= j < r => Dot(a[i], Column(b, j))))
  }

  /** `a - b`, entry by entry. */
  function Sub(a: Matrix, b: Matrix, p: nat, q: nat): (c: Matrix)
    requires HasShape(a, p, q) && HasShape(b, p, q)
    ensures HasShape(c, p, q)
    ensures forall i, j :: 0 <= i < p && 0 <= j < q ==> c[i][j] == a[i][j] - b[i][j]
  {
    seq(p, i requires 0 <= i < p => seq(q, j requires 0 <= j < q => a[i][j] - b[i][j]))
  }

  /** `s * m`, entry by entry. */
  function Scale(s: real, m: Matrix, p: nat, q: nat): (c: Matrix)
    requires HasShape(m, p, q)
    ensures HasShape(c, p, q)
    ensures forall i, j :: 0 <= i < p && 0 <= j < q ==> c[i][j] == s * m[i][j]
  {
    seq(p, i requires 0 <= i < p => seq(q, j requires 0 <= j < q => s * m[i][j]))
  }

  function Diagonal(m: Matrix, n: nat): (d: seq<real>)
    requires HasShape(m, n, n)
    ensures |d| == n && forall i :: 0 <= i < n ==> d[i] == m[i][i]
  {
    seq(n, i requires 0 <= i < n => m[i][i])
  }

  /** `np.trace`. */
  function Trace(m: Matrix, n: nat): real
    requires HasShape(m, n, n)
  {
    Sum(Diagonal(m, n))
  }

  /** A one-dimensional array of targets as the n-by-1 matrix `Y_train`. */
  function ColumnVector(v: seq<real>): (m: Matrix)
    ensures HasShape(m, |v|, 1)
    ensures forall j :: 0 <= j < |v| ==> m[j][0] == v[j]
  {
    seq(|v|, j requires 0 <= j < |v| => [v[j]])
  }

  /** `np.linalg.solve(a, b)`: the linear solve is a parameter, known only to
      return a result of b's shape for a square a. */
  type Solver = (Matrix, Matrix) -> Matrix

  ghost predicate SolverShape(solve: Solver)
  {
    forall a, b, p, q {:trigger HasShape(solve(a, b), p, q)} ::
      HasShape(a, p, p) && HasShape(b, p, q) ==> HasShape(solve(a, b), p, q)
  }

  /** Entry t of the gradient, given K_y, dK/dtheta_t and alpha = K_y^-1 Y:
      `-0.5 * trace(alpha alpha^T dK - (-solve(K_y, dK)))`. By linearity of
      the trace this is the data-fit part -1/2 tr(alpha alpha^T dK) minus the
      complexity part 1/2 tr(K_y^-1 dK): the inner matrix adds K_y^-1 dK where
      the gradient of +1/2 log det K_y would subtract it, which is the
      derivative of the absolute log-determinant that `nMAP` minimises
      whenever 0 < det K_y < 1. */
  function GradientEntry(Ky: Matrix, dK: Matrix, alpha: Matrix, n: nat, solve: Solver): (g: real)
    requires SolverShape(solve)
    requires HasShape(Ky, n, n) && HasShape(dK, n, n) && HasShape(alpha, n, 1)
    ensures g ==
      -0.5 * Trace(MatMul(MatMul(alpha, Transpose(alpha, n, 1), n, 1, n), dK, n, n, n), n)
      - 0.5 * Trace(solve(Ky, dK), n)
  {
    var outer := MatMul(alpha, Transpose(alpha, n, 1), n, 1, n);
    var term1 := MatMul(outer, dK, n, n, n);
    var term2 := Scale(-1.0, solve(Ky, dK), n, n);
    TraceSub(term1, term2, n);
    TraceScale(-1.0, solve(Ky, dK), n);
    -0.5 * Trace(Sub(term1, term2, n, n), n)
  }

  lemma TraceSub(a: Matrix, b: Matrix, n: nat)
    requires HasShape(a, n, n) && HasShape(b, n, n)
    ensures Trace(Sub(a, b, n, n), n) == Trace(a, n) - Trace(b, n)
  {
    SumMinus(Diagonal(a, n), Diagonal(b, n));
    assert Diagonal(Sub(a, b, n, n), n) == Minus(Diagonal(a, n), Diagonal(b, n));
  }

  lemma TraceScale(s: real, m: Matrix, n: nat)
    requires HasShape(m, n, n)
    ensures Trace(Scale(s, m, n, n), n) == s * Trace(m, n)
  {
    SumTimes(s, Diagonal(m, n));
    assert forall i :: 0 <= i < n ==> Diagonal(Scale(s, m, n, n), n)[i] == Times(s, Diagonal(m, n))[i];
    assert Diagonal(Scale(s, m, n, n), n) == Times(s, Diagonal(m, n));
  }

  /** For the noise index dK = 2 sigma_n I, so the data-fit trace is
      2 sigma_n times the squared length of alpha. */
  lemma NoiseDataFitTrace(alpha: Matrix, n: nat, theta: seq<real>)
    requires |theta| == NTheta && HasShape(alpha, n, 1)
    ensures Trace(MatMul(MatMul(alpha, Transpose(alpha, n, 1), n, 1, n), NoiseGradMatrix(n, theta), n, n, n), n)
      == 2.0 * theta[NoiseIndex] * Dot(Column(alpha, 0), Column(alpha, 0))
  {
    var a := Column(alpha, 0);
    var c := 2.0 * theta[NoiseIndex];
    NoiseDiagonal(alpha, n, theta);
    SumTimes(c, Product(a, a));
    DotIsSum(a, a);
  }

  /** The diagonal of alpha alpha^T (2 sigma_n I) is 2 sigma_n alpha_i^2, entry by entry. */
  lemma NoiseDiagonal(alpha: Matrix, n: nat, theta: seq<real>)
    requires |theta| == NTheta && HasShape(alpha, n, 1)
    ensures Diagonal(MatMul(MatMul(alpha, Transpose(alpha, n, 1), n, 1, n), NoiseGradMatrix(n, theta), n, n, n), n)
      == Times(2.0 * theta[NoiseIndex], Product(Column(alpha, 0), Column(alpha, 0)))
  {
    var outer := MatMul(alpha, Transpose(alpha, n, 1), n, 1, n);
    var term1 := MatMul(outer, NoiseGradMatrix(n, theta), n, n, n);
    var a := Column(alpha, 0);
    var c := 2.0 * theta[NoiseIndex];
    forall i | 0 <= i < n
      ensures Diagonal(term1, n)[i] == Times(c, Product(a, a))[i]
    {
      TimesScaledIdentity(outer, NoiseGradMatrix(n, theta), n, c, i);
      OuterDiagonal(alpha, n, i);
    }
  }

  /** Entry (i, i) of m @ (c I) is c m[i][i]. */
  lemma TimesScaledIdentity(m: Matrix, d: Matrix, n: nat, c: real, i: nat)
    requires HasShape(m, n, n) && HasShape(d, n, n) && i < n
    requires forall p, q :: 0 <= p < n && 0 <= q < n ==> d[p][q] == if p == q then c else 0.0
    ensures MatMul(m, d, n, n, n)[i][i] == m[i][i] * c
  {
    DotOneHot(m[i], Column(d, i), i);
  }

  /** Entry (i, i) of alpha @ alpha.T is alpha_i squared. */
  lemma OuterDiagonal(alpha: Matrix, n: nat, i: nat)
    requires HasShape(alpha, n, 1) && i < n
    ensures MatMul(alpha, Transpose(alpha, n, 1), n, 1, n)[i][i] == alpha[i][0] * alpha[i][0]
  {
    var col := Column(Transpose(alpha, n, 1), i);
    assert col[0] == alpha[i][0];
    assert Dot(alpha[i][1..], col[1..]) == 0.0;
    assert Dot(alpha[i], col) == alpha[i][0] * col[0] + Dot(alpha[i][1..], col[1..]);
  }

  /** The loop of `nMAP_grad`. Alpha = solve(K_y, Y_train) needs K_y to have
      one row per training target, so the call fails (`None`) unless the
      requested count equals the number of training rows. With no training
      rows at all the comprehension for dK is a one-dimensional empty array,
      whose trace numpy refuses, so that call fails too. For each index t it
      builds dK/dtheta_t (by the complex-step kernel derivative for
      t < ntheta - 1, analytically as 2 sigma_n I for the noise index), forms
      the inner matrix and stores -0.5 times its trace in grad[t]. */
  method NMapGrad(k: Kernel, xs: seq<Row>, ys: seq<real>, n: int, theta: seq<real>, solve: Solver)
    returns (grad: Option<seq<real>>)
    requires |theta| == NTheta && |ys| == |xs|
    requires SolverShape(solve)
    ensures grad.Some? <==> 0 < n == |xs|
    ensures grad.Some? ==> |grad.value| == NTheta
    ensures grad.Some? ==> forall t :: 0 <= t < NTheta ==>
      grad.value[t] == GradientEntry(GramMatrix(k, xs, n, theta).value, GradMatrix(k, xs, n, theta, t),
                                     solve(GramMatrix(k, xs, n, theta).value, ColumnVector(ys)), n, solve)
  {
    var Ky := GramMatrix(k, xs, n, theta);
    if Ky.None? || n != |xs| || n == 0 {
      return None;
    }
    var alpha := solve(Ky.value, ColumnVector(ys));
    var g := new real[NTheta](_ => 0.0);
    for t := 0 to NTheta
      invariant forall u :: 0 <= u < t ==> g[u] == GradientEntry(Ky.value, GradMatrix(k, xs, n, theta, u), alpha, n, solve)
      invariant forall u :: t <= u < NTheta ==> g[u] == 0.0
    {
      var Kgrad;
      if t < NoiseIndex {
        Kgrad := KernelGradMatrix(k, xs, n, theta, t);
      } else {
        Kgrad := NoiseGradMatrix(n, theta);
      }
      var term1Inner := MatMul(MatMul(alpha, Transpose(alpha, n, 1), n, 1, n), Kgrad, n, n, n);
      var term2Inner := Scale(-1.0, solve(Ky.value, Kgrad), n, n);
      var inner := Sub(term1Inner, term2Inner, n, n);
      g[t] := -0.5 * Trace(inner, n);
    }
    return Some(g[..]);
  }

  function Dot(u: seq<real>, v: seq<real>): real
    requires |u| == |v|
  {
    if u == [] then 0.0 else u[0] * v[0] + Dot(u[1..], v[1..])
  }

  function Sum(s: seq<real>): real
  {
    if s == [] then 0.0 else s[0] + Sum(s[1..])
  }

  function Minus(u: seq<real>, v: seq<real>): (w: seq<real>)
    requires |u| == |v|
    ensures |w| == |u| && forall i :: 0 <= i < |u| ==> w[i] == u[i] - v[i]
  {
    seq(|u|, i requires 0 <= i < |u| => u[i] - v[i])
  }

  function Times(s: real, u: seq<real>): (w: seq<real>)
    ensures |w| == |u| && forall i :: 0 <= i < |u| ==> w[i] == s * u[i]
  {
    seq(|u|, i requires 0 <= i < |u| => s * u[i])
  }

  lemma {:induction false} SumMinus(u: seq<real>, v: seq<real>)
    requires |u| == |v|
    ensures Sum(Minus(u, v)) == Sum(u) - Sum(v)
  {
    if u != [] {
      SumMinus(u[1..], v[1..]);
      assert Minus(u, v)[1..] == Minus(u[1..], v[1..]);
    }
  }

  lemma {:induction false} SumTimes(s: real, u: seq<real>)
    ensures Sum(Times(s, u)) == s * Sum(u)
  {
    if u != [] {
      SumTimes(s, u[1..]);
      assert forall i :: 0 <= i < |u| - 1 ==> Times(s, u)[1..][i] == Times(s, u[1..])[i];
      assert Times(s, u)[1..] == Times(s, u[1..]);
    }
  }

  function Product(u: seq<real>, v: seq<real>): (w: seq<real>)
    requires |u| == |v|
    ensures |w| == |u| && forall i :: 0 <= i < |u| ==> w[i] == u[i] * v[i]
  {
    seq(|u|, i requires 0 <= i < |u| => u[i] * v[i])
  }

  lemma {:induction false} DotIsSum(u: seq<real>, v: seq<real>)
    requires |u| == |v|
    ensures Dot(u, v) == Sum(Product(u, v))
  {
    if u != [] {
      DotIsSum(u[1..], v[1..]);
      assert forall i :: 0 <= i < |u| - 1 ==> Product(u, v)[1..][i] == Product(u[1..], v[1..])[i];
      assert Product(u, v)[1..] == Product(u[1..], v[1..]);
    }
  }

  /** A dot product with a vector that is zero off position i picks out position i. */
  lemma {:induction false} DotOneHot(u: seq<real>, v: seq<real>, i: nat)
    requires |u| == |v| && i < |u|
    requires forall j :: 0 <= j < |v| && j != i ==> v[j] == 0.0
    ensures Dot(u, v) == u[i] * v[i]
  {
    if i == 0 {
      DotZero(u[1..], v[1..]);
    } else {
      DotOneHot(u[1..], v[1..], i - 1);
    }
  }

  lemma {:induction false} DotZero(u: seq<real>, v: seq<real>)
    requires |u| == |v|
    requires forall j :: 0 <= j < |v| ==> v[j] == 0.0
    ensures Dot(u, v) == 0.0
  {
    if u != [] {
      DotZero(u[1..], v[1..]);
    }
  }
}
