/** The hyperparameter table of the Gaussian-process training script
    (2_stiffened_panels/2_train_model.py): the plain ReLU helper, the default
    hyperparameter vector and its bounds, and the complex-step perturbation
    built by `kernel_deriv`.

    The kernel itself lives in a module this model does not see. It enters as
    a parameter of type `Kernel`: one opaque function that accepts a
    complex-valued hyperparameter vector (the holomorphic extension the
    complex-step method relies on). Called at a real vector it is the ordinary
    real kernel. */
module TrainModel {

  /** One feature row: log(1+xi), log(rho_0), log(1+10^3 zeta), log(1+gamma). */
  type Row = seq<real>

  type Matrix = seq<seq<real>>

  /** A complex number, used only for the complex-step derivative. */
  datatype Complex = Complex(re: real, im: real)

  /** The unseen kernel, evaluated at two feature rows and a (complex) hyperparameter vector. */
  type Kernel = (Row, Row, seq<Complex>) -> Complex

  /** `relu(x) = max([0.0, x])`: the larger of 0 and x. */
  function Relu(x: real): (r: real)
    ensures r >= 0.0 && r >= x
    ensures r == 0.0 || r == x
  {
    if x > 0.0 then x else 0.0
  }

  /** The default hyperparameter vector `theta0`; index 15 is the noise standard deviation. */
  const Theta0: seq<real> := [
    0.1,   // 0 - boundary-layer kernel constant
    0.05,  // 1 - SE kernel factor
    0.2,   // 2 - length scale, rho_0 direction
    0.3,   // 3 - length scale, gamma direction
    0.01,  // 4 - SE kernel factor, secondary dimensions
    0.5,   // 5 - length scale, xi dimension
    0.3,   // 6 - length scale, zeta dimension
    1.0,   // 7 - window boundary, rho_0 direction
    0.3,   // 8 - window boundary, gamma SE kernel
    1.0,   // 9 - gamma kernel constant
    0.1,   // 10 - gamma kernel slope
    0.1,   // 11 - xi linear slope
    0.01,  // 12 - xi quadratic slope
    0.02,  // 13 - zeta linear slope
    0.01,  // 14 - zeta quadratic slope
    1e-1   // 15 - noise sigma_n
  ]

  /** `ntheta = theta0.shape[0]`. */
  const NTheta: nat := |Theta0|

  /** Index of the noise standard deviation, `ntheta - 1`. */
  const NoiseIndex: nat := NTheta - 1

  /** The `bounds` table: one (lower, upper) pair per hyperparameter. */
  const Bounds: seq<(real, real)> := [
    (0.02, 0.3),
    (0.01, 1.0),
    (0.05, 1.0),
    (0.05, 1.0),
    (1e-3, 0.3),
    (0.1, 1.0),
    (0.1, 1.0),
    (0.5, 2.0),
    (0.1, 1.0),
    (0.01, 5.0),
    (0.01, 3.0),
    (0.01, 3.0),
    (1e-3, 0.1),
    (1e-3, 0.1),
    (1e-3, 0.1),
    (1e-3, 1e0)
  ]

  /** `lbounds`: the first component of every bound, in order. */
  function LowerBounds(): (r: seq<real>)
    ensures |r| == |Bounds|
    ensures forall i :: 0 <= i < |r| ==> r[i] == Bounds[i].0
  {
    seq(|Bounds|, i requires 0 <= i < |Bounds| => Bounds[i].0)
  }

  /** `ubounds`: the second component of every bound, in order. */
  function UpperBounds(): (r: seq<real>)
    ensures |r| == |Bounds|
    ensures forall i :: 0 <= i < |r| ==> r[i] == Bounds[i].1
  {
    seq(|Bounds|, i requires 0 <= i < |Bounds| => Bounds[i].1)
  }

  /** A hyperparameter vector the optimizer may visit: right length, every entry inside its bound. */
  ghost predicate InBounds(theta: seq<real>)
  {
    |theta| == NTheta == |Bounds| &&
    forall i :: 0 <= i < NTheta ==> LowerBounds()[i] <= theta[i] <= UpperBounds()[i]
  }

  /** The bounds table has one well-formed interval per hyperparameter. */
  lemma BoundsWellFormed()
    ensures |Bounds| == NTheta == 16
    ensures |LowerBounds()| == |UpperBounds()| == NTheta
    ensures forall i :: 0 <= i < NTheta ==> LowerBounds()[i] <= UpperBounds()[i]
  {
  }

  /** The optimizer starts from a feasible point. */
  lemma Theta0InBounds()
    ensures InBounds(Theta0)
  {
  }

  /** Every feasible vector has a strictly positive noise standard deviation. */
  lemma InBoundsNoisePositive(theta: seq<real>)
    requires InBounds(theta)
    ensures theta[NoiseIndex] >= 1e-3 > 0.0
  {
    assert LowerBounds()[NoiseIndex] == 1e-3;
  }

  /** The complex-step size of `kernel_deriv`. */
  const Step: real := 1e-30

  /** The one-hot perturbation vector with `Step` at `idx`. */
  function Perturbation(idx: nat): (d: seq<real>)
    requires idx < NTheta
  {
    seq(NTheta, j => if j == idx then Step else 0.0)
  }

  /** Builds the perturbation the way `kernel_deriv` does: a zero array, then one entry set. */
  method PerturbationVector(idx: nat) returns (d: seq<real>)
    requires idx < NTheta
    ensures |d| == NTheta && d[idx] == Step
    ensures forall j :: 0 <= j < NTheta && j != idx ==> d[j] == 0.0
    ensures d == Perturbation(idx)
  {
    var dtheta := new real[NTheta](_ => 0.0);
    dtheta[idx] := Step;
    d := dtheta[..];
  }

  /** `theta + dtheta * 1j`: real part theta, imaginary part dtheta. */
  function ComplexStep(theta: seq<real>, dtheta: seq<real>): (z: seq<Complex>)
    requires |theta| == |dtheta|
    ensures |z| == |theta|
    ensures forall i :: 0 <= i < |z| ==> z[i].re == theta[i] && z[i].im == dtheta[i]
  {
    seq(|theta|, i requires 0 <= i < |theta| => Complex(theta[i], dtheta[i]))
  }

  /** The value `kernel_deriv` returns: the imaginary part of the kernel at the
      perturbed vector, divided by the step. */
  function KernelDerivative(k: Kernel, xp: Row, xq: Row, theta: seq<real>, idx: nat): real
    requires |theta| == NTheta && idx < NTheta
  {
    k(xp, xq, ComplexStep(theta, Perturbation(idx))).im / Step
  }

  /** The kernel is evaluated exactly at theta, shifted by i*Step in coordinate `idx` and nowhere else. */
  lemma PerturbedArgument(theta: seq<real>, idx: nat)
    requires |theta| == NTheta && idx < NTheta
    ensures var z := ComplexStep(theta, Perturbation(idx));
      |z| == NTheta &&
      z[idx] == Complex(theta[idx], Step) &&
      forall j :: 0 <= j < NTheta && j != idx ==> z[j] == Complex(theta[j], 0.0)
  {
  }

  /** `kernel_deriv(xp, xq, theta, idx)`, step by step as the source does it. */
  method KernelDeriv(k: Kernel, xp: Row, xq: Row, theta: seq<real>, idx: nat) returns (d: real)
    requires |theta| == NTheta && idx < NTheta
    ensures d == KernelDerivative(k, xp, xq, theta, idx)
  {
    var dtheta := PerturbationVector(idx);
    var f1 := k(xp, xq, ComplexStep(theta, dtheta));
    d := f1.im / Step;
  }
}
