/**
  The window's network as an object: the two weight arrays it updates in place,
  and the operations of MainWindow.xaml.cs over them, each proved against the
  functions of Network, Training, Initialization and Storage.
 */
module Engine {
  import opened Config
  import opened Activation
  import opened Quantizer
  import opened Matrices
  import opened Network
  import opened Initialization
  import opened Storage
  import opened Training

  /**
    The two weight tables of the database (modelweights_ih and modelweights_ho),
    each the sequence of rows it holds, in insertion order.
   */
  class WeightStore {
    var ih: seq<WeightRow>
    var ho: seq<WeightRow>

    constructor()
      ensures ih == [] && ho == []
    {
      ih := [];
      ho := [];
    }

    /** ClearWeightsInDatabaseAsync: both tables emptied. */
    method Clear()
      modifies this
      ensures ih == [] && ho == []
    {
      ih := [];
      ho := [];
    }
  }

  /**
    next is w after the updates of lines 128 and 130, with the given inputs,
    hidden activations, output and error.
   */
  ghost predicate IsUpdate(sigmoid: real -> real, lr: real, w: Weights, next: Weights,
                           input: seq<real>, hidden: seq<real>, output: real, error: real)
    requires WellShaped(w) && WellShaped(next) && |input| >= InputSize && |hidden| == HiddenSize
  {
    && (forall k, j :: 0 <= k < InputSize && 0 <= j < HiddenSize ==>
         next.ih[k][j] == w.ih[k][j] + lr * (error * SigmoidDerivative(sigmoid, output) * w.ho[j][0])
           * SigmoidDerivative(sigmoid, hidden[j]) * input[k])
    && (forall j :: 0 <= j < HiddenSize ==>
         next.ho[j][0] == w.ho[j][0] + lr * (error * SigmoidDerivative(sigmoid, output) * w.ho[j][0]))
  }

  /**
    The arithmetic of lines 97-131, written out on values, gives exactly the
    weights of one Step: when the activations are the hidden layer and the
    output is the forward pass, every weight of the Step is the old one plus
    the update of line 128 or line 130.
   */
  lemma StepOf(sigmoid: real -> real, lr: real, w: Weights, input: seq<real>, target: real,
               hidden: seq<real>, output: real, error: real)
    requires WellShaped(w) && |input| >= InputSize
    requires hidden == HiddenLayer(sigmoid, w.ih, input)
    requires output == Forward(sigmoid, w, input)
    requires error == target - output
    ensures IsUpdate(sigmoid, lr, w, Step(sigmoid, lr, w, Example(input, target)), input, hidden, output, error)
  {
    forall k, j | 0 <= k < InputSize && 0 <= j < HiddenSize
      ensures Step(sigmoid, lr, w, Example(input, target)).ih[k][j] ==
        w.ih[k][j] + lr * (error * SigmoidDerivative(sigmoid, output) * w.ho[j][0]) * SigmoidDerivative(sigmoid, hidden[j]) * input[k]
      ensures Step(sigmoid, lr, w, Example(input, target)).ho[j][0] ==
        w.ho[j][0] + lr * (error * SigmoidDerivative(sigmoid, output) * w.ho[j][0])
    {
      StepAt(sigmoid, lr, w, Example(input, target), k, j);
    }
  }

  /** What ReadDataFromDatabaseAsync returns: the six inputs and the tag of every row. */
  datatype Dataset = Dataset(inputsList: seq<seq<real>>, outputsList: seq<real>)

  /** The reader fills both lists together, with six inputs per row. */
  predicate ValidDataset(d: Dataset) {
    |d.inputsList| == |d.outputsList| && forall i :: 0 <= i < |d.inputsList| ==> |d.inputsList[i]| == InputSize
  }

  /** Weights saved and loaded back: every NaN turned to 0. */
  function Sanitized(w: Weights, isNaN: real -> bool): (w': Weights)
    requires WellShaped(w)
    ensures WellShaped(w')
  {
    Weights(SanitizeMatrix(w.ih, isNaN), SanitizeMatrix(w.ho, isNaN))
  }

  /** The weights after one round: trained, then saved and loaded back. */
  function RoundWeights(sigmoid: real -> real, isNaN: real -> bool, w: Weights, d: Dataset): (w': Weights)
    requires WellShaped(w) && ValidDataset(d)
    ensures WellShaped(w')
  {
    Sanitized(Train(sigmoid, LearningRate, w, Examples(d.inputsList, d.outputsList), Epochs), isNaN)
  }

  /** The weights after one round per dataset, in order. */
  function RunRounds(sigmoid: real -> real, isNaN: real -> bool, w: Weights, datasets: seq<Dataset>): (w': Weights)
    requires WellShaped(w) && forall r :: 0 <= r < |datasets| ==> ValidDataset(datasets[r])
    ensures WellShaped(w')
  {
    if datasets == [] then w
    else RoundWeights(sigmoid, isNaN, RunRounds(sigmoid, isNaN, w, datasets[..|datasets| - 1]), datasets[|datasets| - 1])
  }

  /** Writing the k-th row into the array holding the first k rows loaded gives the first k + 1 rows loaded. */
  lemma LoadStep(m0: Matrix, rows: seq<WeightRow>, k: nat, before: Matrix, after: Matrix, height: nat, width: nat)
    requires k < |rows| && InBounds(m0, rows) && IsShape(m0, height, width)
    requires InBounds(m0, rows[..k]) && before == Load(m0, rows[..k])
    requires IsShape(after, height, width)
    requires forall i, j :: 0 <= i < height && 0 <= j < width ==>
      after[i][j] == if i == rows[k].row && j == rows[k].col then rows[k].weight else before[i][j]
    ensures InBounds(m0, rows[..k + 1])
    ensures after == Load(m0, rows[..k + 1])
  {
    assert rows[..k + 1][..k] == rows[..k];
    var next := Load(m0, rows[..k + 1]);
    assert next == Store(before, rows[k]);
    StoreEntries(before, rows[k]);
    MatrixEquality(after, next, height, width);
  }

  class MainWindow {
    /** The activation function 1 / (1 + e^-x), which the reals cannot compute. */
    const sigmoid: real -> real
    /** double.IsNaN, which the reals cannot express. */
    const isNaN: real -> bool
    const learningRate: real := LearningRate
    const store: WeightStore

    var weightsIH: array2<real>
    var weightsHO: array2<real>
    var areWeightsLoaded: bool

    ghost predicate Valid()
      reads this
    {
      weightsIH.Length0 == InputSize && weightsIH.Length1 == HiddenSize &&
      weightsHO.Length0 == HiddenSize && weightsHO.Length1 == OutputSize
    }

    /** The weights as values. */
    ghost function State(): (w: Weights)
      requires Valid()
      reads this, weightsIH, weightsHO
      ensures WellShaped(w)
    {
      Weights(Snapshot(weightsIH), Snapshot(weightsHO))
    }

    /** MainWindow(): the window starts with freshly drawn weights, not loaded from the store. */
    constructor(sigmoid: real -> real, isNaN: real -> bool, store: WeightStore, draws: seq<real>, stdIH: real, stdHO: real)
      requires |draws| == InitialDrawCount
      ensures Valid() && fresh(weightsIH) && fresh(weightsHO)
      ensures this.sigmoid == sigmoid && this.isNaN == isNaN && this.store == store
      ensures State() == InitialWeights(draws, stdIH, stdHO)
      ensures !areWeightsLoaded
    {
      this.sigmoid := sigmoid;
      this.isNaN := isNaN;
      this.store := store;
      weightsIH := new real[0, 0];
      weightsHO := new real[0, 0];
      areWeightsLoaded := false;
      new;
      InitializeWeights(draws, stdIH, stdHO);
    }

    /** Fresh arrays, every weight one draw stretched to [-std, std), the draws taken in loop order. */
    method InitializeWeights(draws: seq<real>, stdIH: real, stdHO: real)
      requires |draws| == InitialDrawCount
      modifies this`weightsIH, this`weightsHO
      ensures Valid() && fresh(weightsIH) && fresh(weightsHO)
      ensures State() == InitialWeights(draws, stdIH, stdHO)
    {
      var ih := new real[InputSize, HiddenSize];
      var ho := new real[HiddenSize, OutputSize];
      var next := 0;

      var i := 0;
      while i < InputSize
        invariant 0 <= i <= InputSize && next == i * HiddenSize
        invariant forall i', h :: 0 <= i' < i && 0 <= h < HiddenSize ==>
          ih[i', h] == UniformWeight(draws[InputDrawIndex(i', h)], stdIH)
      {
        FillRow(ih, i, draws, next, stdIH);
        next := next + HiddenSize;
        i := i + 1;
      }

      var h := 0;
      while h < HiddenSize
        invariant 0 <= h <= HiddenSize && next == InputSize * HiddenSize + h * OutputSize
        invariant forall i', h' :: 0 <= i' < InputSize && 0 <= h' < HiddenSize ==>
          ih[i', h'] == UniformWeight(draws[InputDrawIndex(i', h')], stdIH)
        invariant forall h', o :: 0 <= h' < h && 0 <= o < OutputSize ==>
          ho[h', o] == UniformWeight(draws[OutputDrawIndex(h', o)], stdHO)
      {
        FillRow(ho, h, draws, next, stdHO);
        next := next + OutputSize;
        h := h + 1;
      }

      weightsIH, weightsHO := ih, ho;
      ghost var w := InitialWeights(draws, stdIH, stdHO);
      MatrixEquality(Snapshot(weightsIH), w.ih, InputSize, HiddenSize);
      MatrixEquality(Snapshot(weightsHO), w.ho, HiddenSize, OutputSize);
    }

    /**
      The inner loops of lines 42-45 and 50-53: entry [r, c] of row r gets the
      next draw, draws[start + c], times std * 2, minus std. Other rows are untouched.
     */
    static method FillRow(a: array2<real>, r: nat, draws: seq<real>, start: nat, std: real)
      requires r < a.Length0 && start + a.Length1 <= |draws|
      modifies a
      ensures forall c :: 0 <= c < a.Length1 ==> a[r, c] == UniformWeight(draws[start + c], std)
      ensures forall r', c :: 0 <= r' < a.Length0 && r' != r && 0 <= c < a.Length1 ==> a[r', c] == old(a[r', c])
    {
      var c := 0;
      while c < a.Length1
        invariant 0 <= c <= a.Length1
        invariant forall c' :: 0 <= c' < c ==> a[r, c'] == UniformWeight(draws[start + c'], std)
        invariant forall r', c' :: 0 <= r' < a.Length0 && r' != r && 0 <= c' < a.Length1 ==> a[r', c'] == old(a[r', c'])
      {
        a[r, c] := draws[start + c] * std * 2.0 - std;
        c := c + 1;
      }
    }

    /**
      The hidden layer pass, written out twice in the source (lines 98-107 for
      training, 225-234 for prediction): each hidden unit sums its weighted
      inputs in index order and squashes the sum.
     */
    method HiddenOutputs(input: seq<real>) returns (hiddenOutputs: array<real>)
      requires Valid() && |input| >= InputSize
      ensures fresh(hiddenOutputs)
      ensures hiddenOutputs[..] == HiddenLayer(sigmoid, Snapshot(weightsIH), input)
    {
      ghost var hidden := HiddenLayer(sigmoid, Snapshot(weightsIH), input);
      hiddenOutputs := new real[HiddenSize];
      var i := 0;
      while i < HiddenSize
        modifies hiddenOutputs
        invariant 0 <= i <= HiddenSize
        invariant forall i' :: 0 <= i' < i ==> hiddenOutputs[i'] == hidden[i']
      {
        HiddenUnit(input, hiddenOutputs, i);
        i := i + 1;
      }
    }

    /** One pass of the outer loop of lines 98-107 (or 225-234): unit i's weighted sum, squashed. */
    method HiddenUnit(input: seq<real>, hiddenOutputs: array<real>, i: nat)
      requires Valid() && |input| >= InputSize && i < HiddenSize == hiddenOutputs.Length
      modifies hiddenOutputs
      ensures hiddenOutputs[i] == sigmoid(HiddenSum(input, Snapshot(weightsIH), i, InputSize))
      ensures forall i' :: 0 <= i' < HiddenSize && i' != i ==> hiddenOutputs[i'] == old(hiddenOutputs[i'])
    {
      ghost var ih := Snapshot(weightsIH);
      hiddenOutputs[i] := 0.0;
      var j := 0;
      while j < InputSize
        invariant 0 <= j <= InputSize
        invariant hiddenOutputs[i] == HiddenSum(input, ih, i, j)
        invariant forall i' :: 0 <= i' < HiddenSize && i' != i ==> hiddenOutputs[i'] == old(hiddenOutputs[i'])
      {
        hiddenOutputs[i] := hiddenOutputs[i] + input[j] * weightsIH[j, i];
        j := j + 1;
      }
      hiddenOutputs[i] := sigmoid(hiddenOutputs[i]);
    }

    /**
      The output layer pass of lines 236-245: each output unit sums its
      weighted hidden activations in index order and squashes the sum.
     */
    method OutputActivations(hiddenOutputs: array<real>) returns (finalOutputs: array<real>)
      requires Valid() && hiddenOutputs.Length == HiddenSize
      ensures fresh(finalOutputs) && finalOutputs.Length == OutputSize
      ensures finalOutputs[0] == sigmoid(OutputSum(hiddenOutputs[..], Snapshot(weightsHO), 0, HiddenSize))
    {
      ghost var hidden := hiddenOutputs[..];
      ghost var ho := Snapshot(weightsHO);
      finalOutputs := new real[OutputSize];
      var o := 0;
      while o < OutputSize
        modifies finalOutputs
        invariant 0 <= o <= OutputSize
        invariant forall o' :: 0 <= o' < o ==> finalOutputs[o'] == sigmoid(OutputSum(hidden, ho, o', HiddenSize))
      {
        finalOutputs[o] := 0.0;
        var j := 0;
        while j < HiddenSize
          modifies finalOutputs
          invariant 0 <= j <= HiddenSize
          invariant finalOutputs[o] == OutputSum(hidden, ho, o, j)
        {
          finalOutputs[o] := finalOutputs[o] + hiddenOutputs[j] * weightsHO[j, o];
          j := j + 1;
        }
        finalOutputs[o] := sigmoid(finalOutputs[o]);
        o := o + 1;
      }
    }

    /** Lines 247-250: every output (there is OutputSize = 1 of them) replaced by the label nearest to it. */
    static method RoundOutputs(finalOutputs: array<real>)
      requires finalOutputs.Length == OutputSize
      modifies finalOutputs
      ensures finalOutputs[0] == RoundToNearest(old(finalOutputs[0]))
    {
      ghost var activation := finalOutputs[0];
      var i := 0;
      while i < finalOutputs.Length
        invariant 0 <= i <= finalOutputs.Length
        invariant finalOutputs[0] == if i == 0 then activation else RoundToNearest(activation)
      {
        finalOutputs[i] := RoundToNearest(finalOutputs[i]);
        i := i + 1;
      }
    }

    lemma PredictionOf(sigmoid: real -> real, w: Weights, input: seq<real>, hidden: seq<real>, activation: real, out: real)
      requires WellShaped(w) && |input| >= InputSize
      requires hidden == HiddenLayer(sigmoid, w.ih, input)
      requires activation == sigmoid(OutputSum(hidden, w.ho, 0, HiddenSize))
      requires out == RoundToNearest(activation)
      ensures Prediction(sigmoid, w, input) == [out]
    {
      PredictionAt(sigmoid, w, input, 0);
    }

    /**
      Predict (lines 223-253): the hidden pass, the output pass, then every
      output rounded to the nearest label. The result is the prediction the
      network makes with the current weights.
     */
    method Predict(input: seq<real>) returns (finalOutputs: array<real>)
      requires Valid() && |input| >= InputSize
      ensures fresh(finalOutputs)
      ensures finalOutputs[..] == Prediction(sigmoid, State(), input)
    {
      var hiddenOutputs := HiddenOutputs(input);
      finalOutputs := OutputActivations(hiddenOutputs);
      ghost var activation := finalOutputs[0];
      RoundOutputs(finalOutputs);
      PredictionOf(sigmoid, State(), input, hiddenOutputs[..], activation, finalOutputs[0]);
      assert finalOutputs[..] == [finalOutputs[0]];
    }

    /**
      Lines 97-114: the hidden activations, then the single output unit's
      weighted sum of them, squashed: the forward pass of the current weights.
     */
    method ForwardPass(inputs: seq<real>) returns (hiddenOutputs: array<real>, output: real)
      requires Valid() && |inputs| >= InputSize
      ensures fresh(hiddenOutputs) && hiddenOutputs.Length == HiddenSize
      ensures hiddenOutputs[..] == HiddenLayer(sigmoid, State().ih, inputs)
      ensures output == Forward(sigmoid, State(), inputs)
    {
      hiddenOutputs := HiddenOutputs(inputs);
      ghost var ho := Snapshot(weightsHO);
      output := 0.0;
      var j := 0;
      while j < HiddenSize
        invariant 0 <= j <= HiddenSize
        invariant output == OutputSum(hiddenOutputs[..], ho, 0, j)
      {
        output := output + hiddenOutputs[j] * weightsHO[j, 0];
        j := j + 1;
      }
      output := sigmoid(output);
    }

    /** Lines 117-121: outputDeltas[j] = error * SigmoidDerivative(output) * weightsHO[j, 0]. */
    method OutputDeltas(error: real, output: real, ghost w: Weights) returns (outputDeltas: array<real>)
      requires Valid() && w == State()
      ensures fresh(outputDeltas) && outputDeltas.Length == HiddenSize
      ensures forall j :: 0 <= j < HiddenSize ==>
        outputDeltas[j] == error * SigmoidDerivative(sigmoid, output) * w.ho[j][0]
    {
      outputDeltas := new real[HiddenSize];
      var j := 0;
      while j < HiddenSize
        modifies outputDeltas
        invariant 0 <= j <= HiddenSize
        invariant forall j' :: 0 <= j' < j ==>
          outputDeltas[j'] == error * SigmoidDerivative(sigmoid, output) * weightsHO[j', 0]
      {
        outputDeltas[j] := error * SigmoidDerivative(sigmoid, output) * weightsHO[j, 0];
        j := j + 1;
      }
    }

    /**
      Lines 123-131: hidden unit by hidden unit, deltaHO is computed from
      weightsHO[j, 0] before that weight is updated, every incoming weight of
      the unit moves by learningRate * deltaHO * SigmoidDerivative(hidden[j]) * input[k],
      and then weightsHO[j, 0] moves by learningRate * outputDeltas[j]. When
      next holds those updated weights, the arrays end up holding next.
     */
    method UpdateWeights(inputs: seq<real>, hiddenOutputs: array<real>, outputDeltas: array<real>, error: real, output: real,
                         ghost w: Weights, ghost hidden: seq<real>, ghost next: Weights)
      requires Valid() && |inputs| >= InputSize && w == State() && WellShaped(next)
      requires hiddenOutputs.Length == HiddenSize && hidden == hiddenOutputs[..] && outputDeltas.Length == HiddenSize
      requires forall j :: 0 <= j < HiddenSize ==> outputDeltas[j] == error * SigmoidDerivative(sigmoid, output) * w.ho[j][0]
      requires IsUpdate(sigmoid, learningRate, w, next, inputs, hidden, output, error)
      modifies weightsIH, weightsHO
      ensures State() == next
    {
      var j := 0;
      while j < HiddenSize
        invariant 0 <= j <= HiddenSize
        invariant forall k, j' :: 0 <= k < InputSize && 0 <= j' < HiddenSize ==>
          weightsIH[k, j'] == if j' < j then next.ih[k][j'] else w.ih[k][j']
        invariant forall j' :: 0 <= j' < HiddenSize ==>
          weightsHO[j', 0] == if j' < j then next.ho[j'][0] else w.ho[j'][0]
      {
        var deltaHO := UpdateUnit(inputs, j, error, output, hiddenOutputs[j], outputDeltas[j], w, next);
        j := j + 1;
      }
      MatrixEquality(Snapshot(weightsIH), next.ih, InputSize, HiddenSize);
      ColumnEquality(Snapshot(weightsHO), next.ho, HiddenSize);
    }

    /**
      One pass of the loop of lines 123-131, for hidden unit j: deltaHO from the
      weight weightsHO[j, 0] as it is on entry, the unit's incoming weights
      updated with it, then weightsHO[j, 0] updated with outputDelta. Column j
      of weightsIH and row j of weightsHO go from the weights of w to those of next.
      Because weightsHO[j, 0] is written only after both reads, deltaHO equals
      outputDeltas[j].
     */
    method UpdateUnit(inputs: seq<real>, j: nat, error: real, output: real, hiddenOutput: real, outputDelta: real,
                      ghost w: Weights, ghost next: Weights) returns (deltaHO: real)
      requires Valid() && |inputs| >= InputSize && j < HiddenSize && WellShaped(w) && WellShaped(next)
      requires forall k :: 0 <= k < InputSize ==> weightsIH[k, j] == w.ih[k][j]
      requires weightsHO[j, 0] == w.ho[j][0] && outputDelta == error * SigmoidDerivative(sigmoid, output) * w.ho[j][0]
      requires forall k :: 0 <= k < InputSize ==>
        next.ih[k][j] == w.ih[k][j] + learningRate * (error * SigmoidDerivative(sigmoid, output) * w.ho[j][0])
          * SigmoidDerivative(sigmoid, hiddenOutput) * inputs[k]
      requires next.ho[j][0] == w.ho[j][0] + learningRate * outputDelta
      modifies weightsIH, weightsHO
      ensures forall k, j' :: 0 <= k < InputSize && 0 <= j' < HiddenSize ==>
        weightsIH[k, j'] == if j' == j then next.ih[k][j] else old(weightsIH[k, j'])
      ensures forall j' :: 0 <= j' < HiddenSize ==>
        weightsHO[j', 0] == if j' == j then next.ho[j][0] else old(weightsHO[j', 0])
      ensures deltaHO == outputDelta
    {
      deltaHO := error * SigmoidDerivative(sigmoid, output) * weightsHO[j, 0];
      UpdateColumn(inputs, j, deltaHO, SigmoidDerivative(sigmoid, hiddenOutput));
      weightsHO[j, 0] := weightsHO[j, 0] + learningRate * outputDelta;
    }

    /** The inner loop of lines 126-129: weightsIH[k, j] += learningRate * deltaHO * derivative * input[k] for every k. */
    method UpdateColumn(inputs: seq<real>, j: nat, deltaHO: real, derivative: real)
      requires Valid() && |inputs| >= InputSize && j < HiddenSize
      modifies weightsIH
      ensures forall k, j' :: 0 <= k < InputSize && 0 <= j' < HiddenSize ==>
        weightsIH[k, j'] == if j' == j then old(weightsIH[k, j']) + learningRate * deltaHO * derivative * inputs[k] else old(weightsIH[k, j'])
    {
      var k := 0;
      while k < InputSize
        invariant 0 <= k <= InputSize
        invariant forall k', j' :: 0 <= k' < InputSize && 0 <= j' < HiddenSize ==>
          weightsIH[k', j'] == if j' == j && k' < k then old(weightsIH[k', j']) + learningRate * deltaHO * derivative * inputs[k'] else old(weightsIH[k', j'])
      {
        weightsIH[k, j] := weightsIH[k, j] + learningRate * deltaHO * derivative * inputs[k];
        k := k + 1;
      }
    }

    /**
      The body of the inner loop of TrainNetworkAsync (lines 97-131): one
      training step on one example, in place. The new weights are the Step of
      the old ones.
     */
    method TrainStep(inputs: seq<real>, target: real)
      requires Valid() && |inputs| >= InputSize
      modifies weightsIH, weightsHO
      ensures State() == Step(sigmoid, learningRate, old(State()), Example(inputs, target))
    {
      ghost var w := State();
      var hiddenOutputs, output := ForwardPass(inputs);
      var error := target - output;
      ghost var hidden := hiddenOutputs[..];
      var outputDeltas := OutputDeltas(error, output, w);
      StepOf(sigmoid, learningRate, w, inputs, target, hidden, output, error);
      UpdateWeights(inputs, hiddenOutputs, outputDeltas, error, output, w, hidden, Step(sigmoid, learningRate, w, Example(inputs, target)));
    }

    /**
      TrainNetworkAsync (lines 90-138): Epochs passes over the examples in list
      order, one TrainStep per example, and a progress report at every epoch
      divisible by ReportInterval. The weights end as Train of the old weights,
      and the reports are ProgressReports(Epochs).
     */
    method TrainNetwork(inputsList: seq<seq<real>>, outputsList: seq<real>) returns (progress: seq<real>)
      requires Valid() && |inputsList| <= |outputsList|
      requires forall i :: 0 <= i < |inputsList| ==> |inputsList[i]| >= InputSize
      modifies weightsIH, weightsHO
      ensures State() == Train(sigmoid, learningRate, old(State()), Examples(inputsList, outputsList), Epochs)
      ensures progress == ProgressReports(Epochs)
    {
      ghost var data := Examples(inputsList, outputsList);
      assert ValidExamples(data);
      ghost var w0 := State();
      progress := [];
      var epoch := 0;
      while epoch < Epochs
        invariant 0 <= epoch <= Epochs
        invariant State() == Train(sigmoid, learningRate, w0, data, epoch)
        invariant progress == ProgressReports(epoch)
      {
        TrainEpoch(inputsList, outputsList, w0, epoch);
        ProgressReportsOneMore(epoch);
        if epoch % ReportInterval == 0 {
          progress := progress + [ProgressValue(epoch)];
        }
        epoch := epoch + 1;
      }
    }

    /**
      The loop of lines 95-132: one step per example, in list order. When the
      weights are those after `epoch` epochs, they end as those after epoch + 1.
     */
    method TrainEpoch(inputsList: seq<seq<real>>, outputsList: seq<real>, ghost w0: Weights, ghost epoch: nat)
      requires Valid() && |inputsList| <= |outputsList|
      requires forall i :: 0 <= i < |inputsList| ==> |inputsList[i]| >= InputSize
      requires WellShaped(w0) && State() == Train(sigmoid, learningRate, w0, Examples(inputsList, outputsList), epoch)
      modifies weightsIH, weightsHO
      ensures State() == Train(sigmoid, learningRate, w0, Examples(inputsList, outputsList), epoch + 1)
    {
      ghost var data := Examples(inputsList, outputsList);
      ghost var start := State();
      var i := 0;
      while i < |inputsList|
        invariant 0 <= i <= |inputsList|
        invariant State() == ApplyAll(sigmoid, learningRate, start, data[..i])
      {
        TrainStep(inputsList[i], outputsList[i]);
        assert data[..i + 1][..i] == data[..i];
        LastStep(sigmoid, learningRate, start, data[..i + 1]);
        i := i + 1;
      }
      assert data[..i] == data;
      TrainOneMore(sigmoid, learningRate, w0, data, epoch);
    }

    /**
      The check of lines 275-288: predictions are compared with the expected
      outputs in list order. The result is true exactly when every prediction
      matches; the scan stops at the first mismatch, row stoppedAt, so every
      row before it matched and the rows after it are never predicted.
     */
    method CheckPredictions(inputsList: seq<seq<real>>, outputsList: seq<real>)
      returns (predictionsMatch: bool, ghost stoppedAt: nat)
      requires Valid() && |inputsList| <= |outputsList|
      requires forall i :: 0 <= i < |inputsList| ==> |inputsList[i]| >= InputSize
      ensures predictionsMatch <==> AllPredictionsMatch(sigmoid, State(), inputsList, outputsList)
      ensures stoppedAt <= |inputsList| && (predictionsMatch <==> stoppedAt == |inputsList|)
      ensures forall i :: 0 <= i < stoppedAt ==> Prediction(sigmoid, State(), inputsList[i])[0] == outputsList[i]
      ensures !predictionsMatch ==>
        Prediction(sigmoid, State(), inputsList[stoppedAt])[0] != outputsList[stoppedAt]
    {
      predictionsMatch := true;
      var i := 0;
      while i < |inputsList|
        invariant 0 <= i <= |inputsList| && predictionsMatch
        invariant forall i' :: 0 <= i' < i ==> Prediction(sigmoid, State(), inputsList[i'])[0] == outputsList[i']
      {
        var prediction := Predict(inputsList[i]);
        if prediction[0] != outputsList[i] {
          predictionsMatch := false;
          break;
        }
        i := i + 1;
      }
      stoppedAt := i;
    }

    /**
      The insert loops of SaveWeightsAsync (lines 170-184): one (i, j, weight)
      row per entry of the first `rows` rows and `cols` columns, in row-major
      order, NaN written as 0.
     */
    method SaveWeights(weights: array2<real>, rows: nat, cols: nat) returns (inserted: seq<WeightRow>)
      requires rows <= weights.Length0 && cols <= weights.Length1
      ensures inserted == SaveTriples(Snapshot(weights), rows, cols, isNaN)
    {
      ghost var m := Snapshot(weights);
      inserted := [];
      var i := 0;
      while i < rows
        invariant 0 <= i <= rows
        invariant inserted == SaveTriples(m, i, cols, isNaN)
      {
        inserted := SaveRow(weights, i, cols, inserted);
        i := i + 1;
      }
    }

    /** The inner loop of lines 172-183: row i's first cols weights appended in column order, NaN written as 0. */
    method SaveRow(weights: array2<real>, i: nat, cols: nat, inserted: seq<WeightRow>) returns (inserted': seq<WeightRow>)
      requires i < weights.Length0 && cols <= weights.Length1
      ensures inserted' == inserted + RowTriples(Snapshot(weights), i, cols, isNaN)
    {
      ghost var m := Snapshot(weights);
      inserted' := inserted;
      var j := 0;
      while j < cols
        invariant 0 <= j <= cols
        invariant inserted' == inserted + RowTriples(m, i, j, isNaN)
      {
        var weight := if isNaN(weights[i, j]) then 0.0 else weights[i, j];
        inserted' := inserted' + [WeightRow(i, j, weight)];
        j := j + 1;
      }
    }

    /**
      SaveWeightsToDatabaseAsync (lines 148-161): each table is emptied and
      refilled with the rows SaveWeights inserts for it.
     */
    method SaveWeightsToDatabase()
      requires Valid()
      modifies store
      ensures store.ih == SaveTriples(State().ih, InputSize, HiddenSize, isNaN)
      ensures store.ho == SaveTriples(State().ho, HiddenSize, OutputSize, isNaN)
    {
      var ih := SaveWeights(weightsIH, InputSize, HiddenSize);
      var ho := SaveWeights(weightsHO, HiddenSize, OutputSize);
      store.ih := ih;
      store.ho := ho;
    }

    /**
      One reader loop of LoadWeightsFromDatabaseAsync (lines 197-206 or
      209-218): every row read overwrites its entry, in the order read.
     */
    static method LoadTable(weights: array2<real>, rows: seq<WeightRow>)
      requires InBounds(Snapshot(weights), rows)
      modifies weights
      ensures Snapshot(weights) == Load(old(Snapshot(weights)), rows)
    {
      ghost var m0 := Snapshot(weights);
      var k := 0;
      while k < |rows|
        invariant 0 <= k <= |rows|
        invariant InBounds(m0, rows[..k])
        invariant Snapshot(weights) == Load(m0, rows[..k])
      {
        ghost var before := Snapshot(weights);
        var r := rows[k];
        weights[r.row, r.col] := r.weight;
        LoadStep(m0, rows, k, before, Snapshot(weights), weights.Length0, weights.Length1);
        k := k + 1;
      }
      assert rows[..k] == rows;
    }

    /**
      LoadWeightsFromDatabaseAsync (lines 189-221): both tables read back into
      the weight arrays, then AreWeightsLoaded set. Every stored index must lie
      inside its array: an index outside it would throw.
     */
    method LoadWeights()
      requires Valid() && InBounds(State().ih, store.ih) && InBounds(State().ho, store.ho)
      modifies weightsIH, weightsHO, this`areWeightsLoaded
      ensures Valid()
      ensures State() == Weights(Load(old(State()).ih, store.ih), Load(old(State()).ho, store.ho))
      ensures areWeightsLoaded
    {
      LoadTable(weightsIH, store.ih);
      LoadTable(weightsHO, store.ho);
      areWeightsLoaded := true;
    }

    /**
      Lines 270-273: the weights are saved, then loaded back over themselves.
      The store then holds every weight, and the arrays hold the weights with
      NaN turned to 0.
     */
    method SaveAndReload()
      requires Valid()
      modifies weightsIH, weightsHO, this`areWeightsLoaded, store
      ensures Valid() && areWeightsLoaded
      ensures State() == Sanitized(old(State()), isNaN)
      ensures store.ih == SaveTriples(old(State()).ih, InputSize, HiddenSize, isNaN)
      ensures store.ho == SaveTriples(old(State()).ho, HiddenSize, OutputSize, isNaN)
    {
      ghost var w := State();
      SaveWeightsToDatabase();
      SaveLoadRoundTrip(w.ih, w.ih, InputSize, HiddenSize, isNaN);
      SaveLoadRoundTrip(w.ho, w.ho, HiddenSize, OutputSize, isNaN);
      LoadWeights();
    }

    /**
      One pass of the loop of AutomateTraining (lines 266-298): train on the
      data read, save the weights, load them back, check every prediction, and
      empty the store when a prediction does not match. The weights are not
      drawn again: the next round starts from the ones loaded here.
     */
    method TrainingRound(d: Dataset) returns (predictionsMatch: bool)
      requires Valid() && ValidDataset(d)
      modifies weightsIH, weightsHO, this`areWeightsLoaded, store
      ensures Valid() && areWeightsLoaded
      ensures State() == RoundWeights(sigmoid, isNaN, old(State()), d)
      ensures predictionsMatch <==> AllPredictionsMatch(sigmoid, State(), d.inputsList, d.outputsList)
      ensures var t := Train(sigmoid, learningRate, old(State()), Examples(d.inputsList, d.outputsList), Epochs);
        predictionsMatch ==>
          store.ih == SaveTriples(t.ih, InputSize, HiddenSize, isNaN) &&
          store.ho == SaveTriples(t.ho, HiddenSize, OutputSize, isNaN)
      ensures !predictionsMatch ==> store.ih == [] && store.ho == []
    {
      var progress := TrainNetwork(d.inputsList, d.outputsList);
      SaveAndReload();
      predictionsMatch := CheckOrClear(d);
    }

    /**
      Lines 275-292: the predictions are checked and, when one does not match,
      the store is emptied. The weights are not touched.
     */
    method CheckOrClear(d: Dataset) returns (predictionsMatch: bool)
      requires Valid() && ValidDataset(d)
      modifies store
      ensures predictionsMatch <==> AllPredictionsMatch(sigmoid, State(), d.inputsList, d.outputsList)
      ensures predictionsMatch ==> store.ih == old(store.ih) && store.ho == old(store.ho)
      ensures !predictionsMatch ==> store.ih == [] && store.ho == []
    {
      ghost var stoppedAt;
      predictionsMatch, stoppedAt := CheckPredictions(d.inputsList, d.outputsList);
      if !predictionsMatch {
        store.Clear();
      }
    }

    /**
      The state after `rounds` rounds of AutomateTraining over datasets, starting
      from w0: the weights every round left, success meaning the last round's
      check passed, and an empty store after a failed round.
     */
    ghost predicate RoundsDone(w0: Weights, datasets: seq<Dataset>, rounds: nat, succeeded: bool)
      reads this, weightsIH, weightsHO, store
    {
      && WellShaped(w0) && (forall r :: 0 <= r < |datasets| ==> ValidDataset(datasets[r]))
      && Valid() && rounds <= |datasets|
      && State() == RunRounds(sigmoid, isNaN, w0, datasets[..rounds])
      && (succeeded ==> 0 < rounds)
      && (succeeded ==>
           AllPredictionsMatch(sigmoid, State(), datasets[rounds - 1].inputsList, datasets[rounds - 1].outputsList))
      && (!succeeded && 0 < rounds ==> store.ih == [] && store.ho == [])
    }

    /** One pass of the loop of lines 266-298, on the dataset the database returns for this round. */
    method NextRound(ghost w0: Weights, datasets: seq<Dataset>, rounds: nat) returns (predictionsMatch: bool)
      requires RoundsDone(w0, datasets, rounds, false) && rounds < |datasets|
      modifies weightsIH, weightsHO, this`areWeightsLoaded, store
      ensures RoundsDone(w0, datasets, rounds + 1, predictionsMatch)
    {
      predictionsMatch := TrainingRound(datasets[rounds]);
      assert datasets[..rounds + 1][..rounds] == datasets[..rounds];
    }

    /**
      AutomateTraining (lines 261-300): rounds are run until one passes the
      check. The database is read afresh each round; datasets lists what each
      read returns, so at most |datasets| rounds are run. On success the
      current weights reproduce every expected output, which are therefore all
      labels; on failure after at least one round the store is empty.
     */
    method AutomateTraining(datasets: seq<Dataset>) returns (trainingSucceeded: bool, rounds: nat)
      requires Valid() && forall r :: 0 <= r < |datasets| ==> ValidDataset(datasets[r])
      modifies weightsIH, weightsHO, this`areWeightsLoaded, store
      ensures Valid() && rounds <= |datasets|
      ensures State() == RunRounds(sigmoid, isNaN, old(State()), datasets[..rounds])
      ensures trainingSucceeded ==> 0 < rounds
      ensures trainingSucceeded ==> var d := datasets[rounds - 1];
        && AllPredictionsMatch(sigmoid, State(), d.inputsList, d.outputsList)
        && forall i :: 0 <= i < |d.inputsList| ==> IsLabel(d.outputsList[i])
      ensures !trainingSucceeded ==> rounds == |datasets| && (0 < rounds ==> store.ih == [] && store.ho == [])
    {
      ghost var w0 := State();
      trainingSucceeded := false;
      rounds := 0;
      assert datasets[..0] == [];
      while !trainingSucceeded && rounds < |datasets|
        invariant RoundsDone(w0, datasets, rounds, trainingSucceeded)
        decreases |datasets| - rounds
      {
        trainingSucceeded := NextRound(w0, datasets, rounds);
        rounds := rounds + 1;
      }
    }
  }
}
