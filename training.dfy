/**
  Training as a sequence of single-example steps: examples in list order, epoch
  after epoch, each step seeing the weights the previous one left; and the
  progress values reported along the way.
 */
module Training {
  import opened Config
  import opened Activation
  import opened Quantizer
  import opened Matrices
  import opened Network

  /** Every example has at least the six inputs the network reads. */
  predicate ValidExamples(data: seq<Example>) {
    forall i :: 0 <= i < |data| ==> |data[i].input| >= InputSize
  }

  /** Pairs inputsList[i] with outputsList[i], for every index of inputsList. */
  function Examples(inputsList: seq<seq<real>>, outputsList: seq<real>): (data: seq<Example>)
    requires |inputsList| <= |outputsList|
    ensures |data| == |inputsList|
    ensures forall i :: 0 <= i < |data| ==> data[i] == Example(inputsList[i], outputsList[i])
  {
    seq(|inputsList|, i requires 0 <= i < |inputsList| => Example(inputsList[i], outputsList[i]))
  }

  /** The weights after one step per example, in order, no batching. */
  function ApplyAll(sigmoid: real -> real, lr: real, w: Weights, data: seq<Example>): (w': Weights)
    requires WellShaped(w) && ValidExamples(data)
    ensures WellShaped(w')
  {
    if data == [] then w
    else Step(sigmoid, lr, ApplyAll(sigmoid, lr, w, data[..|data| - 1]), data[|data| - 1])
  }

  /** The weights after `epochs` passes over the data. */
  function Train(sigmoid: real -> real, lr: real, w: Weights, data: seq<Example>, epochs: nat): (w': Weights)
    requires WellShaped(w) && ValidExamples(data)
    ensures WellShaped(w')
  {
    if epochs == 0 then w
    else ApplyAll(sigmoid, lr, Train(sigmoid, lr, w, data, epochs - 1), data)
  }

  /** One more epoch is one more pass over the data. */
  lemma TrainOneMore(sigmoid: real -> real, lr: real, w: Weights, data: seq<Example>, epochs: nat)
    requires WellShaped(w) && ValidExamples(data)
    ensures Train(sigmoid, lr, w, data, epochs + 1) == ApplyAll(sigmoid, lr, Train(sigmoid, lr, w, data, epochs), data)
  {
  }

  /** The data listed n times over. */
  function Repeat(data: seq<Example>, n: nat): seq<Example> {
    if n == 0 then [] else Repeat(data, n - 1) + data
  }

  lemma {:induction false} ApplyAllAppend(sigmoid: real -> real, lr: real, w: Weights, a: seq<Example>, b: seq<Example>)
    requires WellShaped(w) && ValidExamples(a) && ValidExamples(b)
    ensures ValidExamples(a + b)
    ensures ApplyAll(sigmoid, lr, w, a + b) == ApplyAll(sigmoid, lr, ApplyAll(sigmoid, lr, w, a), b)
  {
    if b == [] {
      assert a + b == a;
    } else {
      assert (a + b)[..|a + b| - 1] == a + b[..|b| - 1];
      ApplyAllAppend(sigmoid, lr, w, a, b[..|b| - 1]);
    }
  }

  /**
    A run of `epochs` epochs is exactly epochs * |data| single steps, taken over
    the data repeated in order.
   */
  lemma {:induction false} TrainIsRepeatedSteps(sigmoid: real -> real, lr: real, w: Weights, data: seq<Example>, epochs: nat)
    requires WellShaped(w) && ValidExamples(data)
    ensures |Repeat(data, epochs)| == epochs * |data|
    ensures ValidExamples(Repeat(data, epochs))
    ensures Train(sigmoid, lr, w, data, epochs) == ApplyAll(sigmoid, lr, w, Repeat(data, epochs))
  {
    if epochs > 0 {
      TrainIsRepeatedSteps(sigmoid, lr, w, data, epochs - 1);
      ApplyAllAppend(sigmoid, lr, w, Repeat(data, epochs - 1), data);
      assert (epochs - 1) * |data| + |data| == epochs * |data|;
    }
  }

  /** A hidden unit whose output weight is zero keeps it zero, and keeps its incoming weights, through any run of steps. */
  lemma {:induction false} DeadUnitStaysFrozen(sigmoid: real -> real, lr: real, w: Weights, data: seq<Example>, j: nat)
    requires WellShaped(w) && ValidExamples(data) && j < HiddenSize
    requires w.ho[j][0] == 0.0
    ensures ApplyAll(sigmoid, lr, w, data).ho[j][0] == 0.0
    ensures forall k :: 0 <= k < InputSize ==> ApplyAll(sigmoid, lr, w, data).ih[k][j] == w.ih[k][j]
  {
    if data != [] {
      var prefix := data[..|data| - 1];
      DeadUnitStaysFrozen(sigmoid, lr, w, prefix, j);
      StepFreezesDeadUnit(sigmoid, lr, ApplyAll(sigmoid, lr, w, prefix), data[|data| - 1], j);
    }
  }

  predicate TargetsInUnitRange(data: seq<Example>) {
    forall i :: 0 <= i < |data| ==> 0.0 <= data[i].target <= 1.0
  }

  /** A non-empty run is the run over all but the last example, followed by one step on the last. */
  lemma LastStep(sigmoid: real -> real, lr: real, w: Weights, data: seq<Example>)
    requires WellShaped(w) && ValidExamples(data) && data != []
    ensures ValidExamples(data[..|data| - 1])
    ensures ApplyAll(sigmoid, lr, w, data) ==
      Step(sigmoid, lr, ApplyAll(sigmoid, lr, w, data[..|data| - 1]), data[|data| - 1])
  {
  }

  /** -1, 0 or 1 as x is negative, zero or positive. */
  function Sign(x: real): int {
    if x > 0.0 then 1 else if x < 0.0 then -1 else 0
  }

  /** xa : xb == wa : wb, written without division. */
  predicate Proportional(xa: real, xb: real, wa: real, wb: real) {
    xa * wb == xb * wa
  }

  lemma SignScaled(x: real, y: real, c: real)
    requires c > 0.0 && x == y * c
    ensures Sign(x) == Sign(y)
  {
    if y > 0.0 {
      assert y * c > 0.0;
    } else if y < 0.0 {
      assert y * c < 0.0;
    }
  }

  lemma ProportionalScaled(xa: real, xb: real, ya: real, yb: real, wa: real, wb: real, c: real)
    requires xa == ya * c && xb == yb * c
    requires Proportional(ya, yb, wa, wb)
    ensures Proportional(xa, xb, wa, wb)
  {
    calc {
      xa * wb;
      == (ya * c) * wb;
      == c * (ya * wb);
      == c * (yb * wa);
      == (yb * c) * wa;
      == xb * wa;
    }
  }

  /**
    With a squashing sigmoid, a target in [0, 1] and a learning rate in (0, 1],
    one step keeps the sign of every hidden-to-output weight.
   */
  lemma StepKeepsSign(sigmoid: real -> real, lr: real, before: Weights, ex: Example, j: nat)
    requires IsSquashing(sigmoid) && 0.0 < lr <= 1.0 && 0.0 <= ex.target <= 1.0
    requires WellShaped(before) && |ex.input| >= InputSize && j < HiddenSize
    ensures Sign(Step(sigmoid, lr, before, ex).ho[j][0]) == Sign(before.ho[j][0])
  {
    StepScalesOutputWeights(sigmoid, lr, before, ex);
    OutputScalePositive(sigmoid, lr, before, ex);
    SignScaled(Step(sigmoid, lr, before, ex).ho[j][0], before.ho[j][0], OutputScale(sigmoid, lr, before, ex));
  }

  /** One step keeps any two hidden-to-output weights in the proportion they were in. */
  lemma StepKeepsProportion(sigmoid: real -> real, lr: real, before: Weights, ex: Example, a: nat, b: nat, wa: real, wb: real)
    requires WellShaped(before) && |ex.input| >= InputSize && a < HiddenSize && b < HiddenSize
    requires Proportional(before.ho[a][0], before.ho[b][0], wa, wb)
    ensures Proportional(Step(sigmoid, lr, before, ex).ho[a][0], Step(sigmoid, lr, before, ex).ho[b][0], wa, wb)
  {
    StepScalesOutputWeights(sigmoid, lr, before, ex);
    ProportionalScaled(Step(sigmoid, lr, before, ex).ho[a][0], Step(sigmoid, lr, before, ex).ho[b][0],
      before.ho[a][0], before.ho[b][0], wa, wb, OutputScale(sigmoid, lr, before, ex));
  }

  /**
    With a squashing sigmoid, targets in [0, 1] (as the four labels are) and a
    learning rate in (0, 1], training never changes the sign of a
    hidden-to-output weight.
   */
  lemma {:induction false} OutputWeightSignsKept(sigmoid: real -> real, lr: real, w: Weights, data: seq<Example>, j: nat)
    requires IsSquashing(sigmoid) && 0.0 < lr <= 1.0
    requires WellShaped(w) && ValidExamples(data) && TargetsInUnitRange(data) && j < HiddenSize
    ensures Sign(ApplyAll(sigmoid, lr, w, data).ho[j][0]) == Sign(w.ho[j][0])
  {
    if data != [] {
      var prefix := data[..|data| - 1];
      LastStep(sigmoid, lr, w, data);
      OutputWeightSignsKept(sigmoid, lr, w, prefix, j);
      StepKeepsSign(sigmoid, lr, ApplyAll(sigmoid, lr, w, prefix), data[|data| - 1], j);
    }
  }

  /**
    All hidden-to-output weights are scaled together, so the ratio between any
    two of them never changes during training.
   */
  lemma {:induction false} OutputWeightRatiosKept(sigmoid: real -> real, lr: real, w: Weights, data: seq<Example>, a: nat, b: nat)
    requires WellShaped(w) && ValidExamples(data) && a < HiddenSize && b < HiddenSize
    ensures Proportional(ApplyAll(sigmoid, lr, w, data).ho[a][0], ApplyAll(sigmoid, lr, w, data).ho[b][0], w.ho[a][0], w.ho[b][0])
  {
    if data != [] {
      var prefix := data[..|data| - 1];
      LastStep(sigmoid, lr, w, data);
      OutputWeightRatiosKept(sigmoid, lr, w, prefix, a, b);
      StepKeepsProportion(sigmoid, lr, ApplyAll(sigmoid, lr, w, prefix), data[|data| - 1], a, b, w.ho[a][0], w.ho[b][0]);
    }
  }

  /** The value shown on the progress bar at the end of an epoch: epoch / Epochs * 100. */
  function ProgressValue(epoch: nat): real {
    epoch as real / Epochs as real * 100.0
  }

  /**
    The values reported during the first n epochs: one per epoch divisible by
    ReportInterval. Each one is at least 0 and below the value of epoch n.
   */
  function ProgressReports(n: nat): (reports: seq<real>)
    ensures forall r :: 0 <= r < |reports| ==> 0.0 <= reports[r] < ProgressValue(n)
  {
    if n == 0 then []
    else
      assert ProgressValue(n - 1) < ProgressValue(n) by {
        assert (n - 1) as real / Epochs as real < n as real / Epochs as real;
      }
      ProgressReports(n - 1) + (if (n - 1) % ReportInterval == 0 then [ProgressValue(n - 1)] else [])
  }

  /** Epoch n adds its report when n is divisible by ReportInterval. */
  lemma ProgressReportsOneMore(n: nat)
    ensures ProgressReports(n + 1) == ProgressReports(n) + (if n % ReportInterval == 0 then [ProgressValue(n)] else [])
  {
  }

  /** The r-th report is made at epoch r * ReportInterval, and there are ceil(n / ReportInterval) of them. */
  lemma {:induction false} ProgressReportsShape(n: nat)
    ensures |ProgressReports(n)| == (n + ReportInterval - 1) / ReportInterval
    ensures forall r :: 0 <= r < |ProgressReports(n)| ==>
      r * ReportInterval < n && ProgressReports(n)[r] == ProgressValue(r * ReportInterval)
  {
    if n > 0 {
      ProgressReportsShape(n - 1);
      var m := n - 1;
      if m % ReportInterval == 0 {
        assert (m + ReportInterval - 1) / ReportInterval == m / ReportInterval;
        assert (n + ReportInterval - 1) / ReportInterval == m / ReportInterval + 1;
        assert (m / ReportInterval) * ReportInterval == m;
      } else {
        assert (n + ReportInterval - 1) / ReportInterval == (m + ReportInterval - 1) / ReportInterval;
      }
    }
  }

  /** A full run reports 80 times, each value in [0, 100). */
  lemma FullRunProgress()
    ensures |ProgressReports(Epochs)| == 80
    ensures forall r :: 0 <= r < |ProgressReports(Epochs)| ==>
      0.0 <= ProgressReports(Epochs)[r] < 100.0
  {
    ProgressReportsShape(Epochs);
    forall r | 0 <= r < |ProgressReports(Epochs)|
      ensures 0.0 <= ProgressReports(Epochs)[r] < 100.0
    {
      var e := r * ReportInterval;
      assert e < Epochs;
      assert e as real / Epochs as real < 1.0;
    }
  }

  /**
    The verification in AutomateTraining succeeds: every prediction equals its
    expected output. A prediction is always one of the four labels, so this can
    only hold when every expected output is a label.
   */
  predicate AllPredictionsMatch(sigmoid: real -> real, w: Weights, inputsList: seq<seq<real>>, outputsList: seq<real>)
    requires WellShaped(w) && |inputsList| <= |outputsList|
    requires forall i :: 0 <= i < |inputsList| ==> |inputsList[i]| >= InputSize
    ensures AllPredictionsMatch(sigmoid, w, inputsList, outputsList) ==>
      forall i :: 0 <= i < |inputsList| ==> IsLabel(outputsList[i])
  {
    forall i :: 0 <= i < |inputsList| ==> Prediction(sigmoid, w, inputsList[i])[0] == outputsList[i]
  }

  /**
    Two examples with the same input and different expected outputs can never
    both be matched, whatever the weights: verification then fails on every round.
   */
  lemma ConflictingLabelsNeverMatch(sigmoid: real -> real, w: Weights, inputsList: seq<seq<real>>, outputsList: seq<real>, i: nat, j: nat)
    requires WellShaped(w) && |inputsList| <= |outputsList|
    requires forall k :: 0 <= k < |inputsList| ==> |inputsList[k]| >= InputSize
    requires i < |inputsList| && j < |inputsList|
    requires inputsList[i] == inputsList[j] && outputsList[i] != outputsList[j]
    ensures !AllPredictionsMatch(sigmoid, w, inputsList, outputsList)
  {
  }
}
