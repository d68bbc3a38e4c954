/** The evaluation step of the training script (`post_evaluate` in
    2_stiffened_panels/2_train_model.py): predict the held-out log-loads
    through the cross-covariance, exponentiate to critical loads, and average
    the relative errors. `exp` is a parameter known only to be positive. */
module Evaluation {
  import opened Wrappers
  import opened TrainModel
  import opened Covariance

  function Abs(x: real): (r: real)
    ensures r >= 0.0 && (r == x || r == -x)
  {
    if x < 0.0 then -x else x
  }

  /** `K_test_cross @ alpha`: with alpha as the n-by-1 column numpy carries,
      the product is the column of the row-by-row dot products. */
  function MatVec(m: Matrix, v: seq<real>): (r: seq<real>)
    requires forall j :: 0 <= j < |m| ==> |m[j]| == |v|
    ensures |r| == |m| && forall j :: 0 <= j < |m| ==> r[j] == Dot(m[j], v)
    ensures HasShape(m, |m|, |v|) && ColumnVector(r) == MatMul(m, ColumnVector(v), |m|, |v|, 1)
  {
    var r := seq(|m|, j requires 0 <= j < |m| => Dot(m[j], v));
    var p := MatMul(m, ColumnVector(v), |m|, |v|, 1);
    assert Column(ColumnVector(v), 0) == v;
    assert forall j :: 0 <= j < |m| ==> p[j] == [p[j][0]] == ColumnVector(r)[j];
    r
  }

  lemma {:induction false} SumNonNegative(s: seq<real>)
    requires forall j :: 0 <= j < |s| ==> s[j] >= 0.0
    ensures Sum(s) >= 0.0
  {
    if s != [] {
      SumNonNegative(s[1..]);
    }
  }

  lemma {:induction false} SumZeros(s: seq<real>)
    ensures (forall j :: 0 <= j < |s| ==> s[j] == 0.0) ==> Sum(s) == 0.0
  {
    if s != [] {
      SumZeros(s[1..]);
      assert forall j :: 0 <= j < |s[1..]| ==> s[1..][j] == s[j + 1];
    }
  }


  lemma PositiveAt(exp: real -> real, v: real)
    requires forall x :: exp(x) > 0.0
    ensures exp(v) > 0.0
  {
  }

  /** `abs((predicted - actual) / actual)` for a positive actual load. */
  function RelativeError(predicted: real, actual: real): (r: real)
    requires actual > 0.0
    ensures r >= 0.0
    ensures r == 0.0 <==> predicted == actual
    ensures r * actual == Abs(predicted - actual)
  {
    Abs((predicted - actual) / actual)
  }

  /** `abs((exp(pred) - exp(y)) / exp(y))`, entry by entry. */
  function RelativeErrors(exp: real -> real, pred: seq<real>, y: seq<real>): (r: seq<real>)
    requires forall x :: exp(x) > 0.0
    requires |pred| == |y|
    ensures |r| == |y|
    ensures forall j :: 0 <= j < |y| ==> r[j] >= 0.0
    ensures forall j :: 0 <= j < |y| ==> (r[j] == 0.0 <==> exp(pred[j]) == exp(y[j]))
  {
    seq(|y|, j requires 0 <= j < |y| => PositiveAt(exp, y[j]); RelativeError(exp(pred[j]), exp(y[j])))
  }

  /** `np.mean`, with `None` for the NaN the mean of an empty array gives. */
  function Mean(s: seq<real>): (r: Option<real>)
    requires forall j :: 0 <= j < |s| ==> s[j] >= 0.0
    ensures r.Some? <==> |s| > 0
    ensures r.Some? ==> r.value >= 0.0
    ensures r.Some? && (forall j :: 0 <= j < |s| ==> s[j] == 0.0) ==> r.value == 0.0
  {
    if |s| == 0 then None
    else
      SumNonNegative(s);
      SumZeros(s);
      Some(Sum(s) / (|s| as real))
  }

  /** `post_evaluate(theta, alpha)`: predict the held-out log-loads through the
      cross-covariance and report the averaged relative error of the loads.
      It runs only after `nMAP` has built a Gram matrix over the `n_train`
      training rows and solved for alpha, so alpha has one entry per training
      row. An empty test block gives no result: the prediction product fails
      for an empty cross-covariance, and a mean over no values would be NaN. */
  function PostEvaluate(k: Kernel, exp: real -> real, theta: seq<real>, alpha: seq<real>,
                        xTrain: seq<Row>, xTest: seq<Row>, yTest: seq<real>): (r: Option<real>)
    requires forall x :: exp(x) > 0.0
    requires |alpha| == |xTrain| && |yTest| == |xTest|
    ensures r.Some? <==> |xTest| > 0
    ensures r.Some? ==> r.value >= 0.0
    ensures MatVec(CrossCovariance(k, xTrain, xTest, theta), alpha) == yTest ==> r.None? || r.value == 0.0
  {
    var pred := MatVec(CrossCovariance(k, xTrain, xTest, theta), alpha);
    Mean(RelativeErrors(exp, pred, yTest))
  }
}
