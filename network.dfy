/**
  The forward pass, the prediction and one training step of the 6-20-1 network,
  as functions of the two weight matrices. These are the specifications that the
  methods of Engine.MainWindow are proved against.
 */
module Network {
  import opened Config
  import opened Activation
  import opened Quantizer
  import opened Matrices

  /** weightsIH (InputSize x HiddenSize) and weightsHO (HiddenSize x OutputSize). */
  datatype Weights = Weights(ih: Matrix, ho: Matrix)

  /** One row of the training data: six inputs and the expected label. */
  datatype Example = Example(input: seq<real>, target: real)

  predicate WellShaped(w: Weights) {
    IsShape(w.ih, InputSize, HiddenSize) && IsShape(w.ho, HiddenSize, OutputSize)
  }

  /** input[0] * ih[0][j] + ... + input[n-1] * ih[n-1][j], summed in loop order. */
  function HiddenSum(input: seq<real>, ih: Matrix, j: nat, n: nat): real
    requires n <= |input| && n <= |ih| && forall k :: 0 <= k < n ==> j < |ih[k]|
  {
    if n == 0 then 0.0 else HiddenSum(input, ih, j, n - 1) + input[n - 1] * ih[n - 1][j]
  }

  /** The activations of the hidden layer. */
  function HiddenLayer(sigmoid: real -> real, ih: Matrix, input: seq<real>): (h: seq<real>)
    requires IsShape(ih, InputSize, HiddenSize) && |input| >= InputSize
    ensures |h| == HiddenSize
  {
    seq(HiddenSize, j requires 0 <= j < HiddenSize => sigmoid(HiddenSum(input, ih, j, InputSize)))
  }

  /** hidden[0] * ho[0][o] + ... + hidden[n-1] * ho[n-1][o], summed in loop order. */
  function OutputSum(hidden: seq<real>, ho: Matrix, o: nat, n: nat): real
    requires n <= |hidden| && n <= |ho| && forall j :: 0 <= j < n ==> o < |ho[j]|
  {
    if n == 0 then 0.0 else OutputSum(hidden, ho, o, n - 1) + hidden[n - 1] * ho[n - 1][o]
  }

  /** The (unquantized) output of the network for one input. */
  function Forward(sigmoid: real -> real, w: Weights, input: seq<real>): (output: real)
    requires WellShaped(w) && |input| >= InputSize
    ensures IsSquashing(sigmoid) ==> 0.0 < output < 1.0
  {
    sigmoid(OutputSum(HiddenLayer(sigmoid, w.ih, input), w.ho, 0, HiddenSize))
  }

  /**
    What Predict returns: every output unit's activation, rounded to the
    nearest label. There are OutputSize outputs and each one is a label.
   */
  function Prediction(sigmoid: real -> real, w: Weights, input: seq<real>): (p: seq<real>)
    requires WellShaped(w) && |input| >= InputSize
    ensures |p| == OutputSize
    ensures forall o :: 0 <= o < |p| ==> IsLabel(p[o])
  {
    var hidden := HiddenLayer(sigmoid, w.ih, input);
    var p := seq(OutputSize, o requires 0 <= o < OutputSize =>
      RoundToNearest(sigmoid(OutputSum(hidden, w.ho, o, HiddenSize))));
    assert p[0] == RoundToNearest(sigmoid(OutputSum(hidden, w.ho, 0, HiddenSize)));
    p
  }

  lemma PredictionAt(sigmoid: real -> real, w: Weights, input: seq<real>, o: nat)
    requires WellShaped(w) && |input| >= InputSize && o < OutputSize
    ensures Prediction(sigmoid, w, input)[o] ==
      RoundToNearest(sigmoid(OutputSum(HiddenLayer(sigmoid, w.ih, input), w.ho, o, HiddenSize)))
  {
  }

  /** Predict's single output is the quantized Forward output that training uses. */
  lemma PredictionIsQuantizedForward(sigmoid: real -> real, w: Weights, input: seq<real>)
    requires WellShaped(w) && |input| >= InputSize
    ensures Prediction(sigmoid, w, input) == [RoundToNearest(Forward(sigmoid, w, input))]
  {
  }

  /** The error of the network on one example: target - output. */
  function Error(sigmoid: real -> real, w: Weights, ex: Example): real
    requires WellShaped(w) && |ex.input| >= InputSize
  {
    ex.target - Forward(sigmoid, w, ex.input)
  }

  /**
    outputDeltas[j] (and deltaHO, which equals it): the error, times the
    derivative taken at the already squashed output, times the hidden-to-output
    weight as it was before the step.
   */
  function OutputDelta(sigmoid: real -> real, w: Weights, ex: Example, j: nat): real
    requires WellShaped(w) && |ex.input| >= InputSize && j < HiddenSize
  {
    var output := Forward(sigmoid, w, ex.input);
    Error(sigmoid, w, ex) * SigmoidDerivative(sigmoid, output) * w.ho[j][0]
  }

  /**
    One training step on one example. Every update is computed from the weights
    as they were before the step: weightsHO[j, 0] grows by learningRate *
    outputDeltas[j], and weightsIH[k, j] by learningRate * deltaHO *
    SigmoidDerivative(hidden[j]) * input[k], the derivative again being taken
    at an already squashed value.
   */
  function Step(sigmoid: real -> real, lr: real, w: Weights, ex: Example): (w': Weights)
    requires WellShaped(w) && |ex.input| >= InputSize
    ensures WellShaped(w')
  {
    var hidden := HiddenLayer(sigmoid, w.ih, ex.input);
    Weights(
      seq(InputSize, k requires 0 <= k < InputSize =>
        seq(HiddenSize, j requires 0 <= j < HiddenSize =>
          w.ih[k][j] + lr * OutputDelta(sigmoid, w, ex, j) * SigmoidDerivative(sigmoid, hidden[j]) * ex.input[k])),
      seq(HiddenSize, j requires 0 <= j < HiddenSize =>
        [w.ho[j][0] + lr * OutputDelta(sigmoid, w, ex, j)]))
  }

  /** The entries of a step, one at a time. */
  lemma StepAt(sigmoid: real -> real, lr: real, w: Weights, ex: Example, k: nat, j: nat)
    requires WellShaped(w) && |ex.input| >= InputSize && k < InputSize && j < HiddenSize
    ensures var delta := Error(sigmoid, w, ex) * SigmoidDerivative(sigmoid, Forward(sigmoid, w, ex.input)) * w.ho[j][0];
      && Step(sigmoid, lr, w, ex).ih[k][j] ==
        w.ih[k][j] + lr * delta * SigmoidDerivative(sigmoid, HiddenLayer(sigmoid, w.ih, ex.input)[j]) * ex.input[k]
      && Step(sigmoid, lr, w, ex).ho[j][0] == w.ho[j][0] + lr * delta
  {
  }

  /** The factor by which one step scales every hidden-to-output weight. */
  function OutputScale(sigmoid: real -> real, lr: real, w: Weights, ex: Example): real
    requires WellShaped(w) && |ex.input| >= InputSize
  {
    1.0 + lr * Error(sigmoid, w, ex) * SigmoidDerivative(sigmoid, Forward(sigmoid, w, ex.input))
  }

  /**
    Because outputDeltas[j] is proportional to weightsHO[j, 0] itself, a step
    multiplies all hidden-to-output weights by one common factor.
   */
  lemma StepScalesOutputWeights(sigmoid: real -> real, lr: real, w: Weights, ex: Example)
    requires WellShaped(w) && |ex.input| >= InputSize
    ensures forall j :: 0 <= j < HiddenSize ==>
      Step(sigmoid, lr, w, ex).ho[j][0] == w.ho[j][0] * OutputScale(sigmoid, lr, w, ex)
  {
    forall j | 0 <= j < HiddenSize
      ensures Step(sigmoid, lr, w, ex).ho[j][0] == w.ho[j][0] * OutputScale(sigmoid, lr, w, ex)
    {
      var e := Error(sigmoid, w, ex);
      var g := SigmoidDerivative(sigmoid, Forward(sigmoid, w, ex.input));
      var x := w.ho[j][0];
      assert OutputDelta(sigmoid, w, ex, j) == e * g * x;
      assert x + lr * (e * g * x) == x * (1.0 + lr * e * g);
    }
  }

  /**
    A hidden unit whose hidden-to-output weight is zero learns nothing in a step:
    that weight stays zero and the unit's incoming weights are unchanged.
   */
  lemma StepFreezesDeadUnit(sigmoid: real -> real, lr: real, w: Weights, ex: Example, j: nat)
    requires WellShaped(w) && |ex.input| >= InputSize && j < HiddenSize
    requires w.ho[j][0] == 0.0
    ensures Step(sigmoid, lr, w, ex).ho[j][0] == 0.0
    ensures forall k :: 0 <= k < InputSize ==> Step(sigmoid, lr, w, ex).ih[k][j] == w.ih[k][j]
  {
    assert OutputDelta(sigmoid, w, ex, j) == 0.0;
  }

  /**
    With a squashing sigmoid, a target in [0, 1] and a learning rate in (0, 1],
    the common factor is positive: no step changes the sign of a
    hidden-to-output weight.
   */
  lemma OutputScalePositive(sigmoid: real -> real, lr: real, w: Weights, ex: Example)
    requires IsSquashing(sigmoid) && 0.0 < lr <= 1.0 && 0.0 <= ex.target <= 1.0
    requires WellShaped(w) && |ex.input| >= InputSize
    ensures OutputScale(sigmoid, lr, w, ex) > 0.0
  {
    var output := Forward(sigmoid, w, ex.input);
    var e := Error(sigmoid, w, ex);
    var g := SigmoidDerivative(sigmoid, output);
    assert 0.0 < output < 1.0;
    assert -1.0 < e < 1.0;
    SquashingDerivativeBounds(sigmoid, output);
    assert -0.25 < e * g < 0.25 by {
      if e >= 0.0 {
        assert e * g <= e * 0.25;
      } else {
        assert e * g >= e * 0.25;
      }
    }
    assert lr * (e * g) > -1.0 by {
      if e * g < 0.0 {
        assert lr * (e * g) >= e * g;
      }
    }
    assert lr * e * g == lr * (e * g);
  }
}
