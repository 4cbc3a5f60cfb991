# A verified model of the WpfApp2 neural network engine

`WpfApp2/MainWindow.xaml.cs` trains a fixed-shape feed-forward network (6 inputs,
20 hidden units, 1 output, learning rate 0.0001, 80000 epochs). It quantizes the
network's output to one of the labels 0.25, 0.5, 0.75 and 1.0. It saves the two
weight matrices to a database, loads them back, and retrains until every training
example's quantized prediction equals its label.

This project models that engine in Dafny:

- `Config`: the constants of lines 14-18 and the report interval of line 133.
- `Activation`: `SigmoidDerivative`. The logistic function itself is a parameter
  `sigmoid: real -> real`. Lemmas may assume one fact about it: its range is (0, 1).
- `Quantizer`: `RoundToNearest`, written as the source writes it. The label list is
  stably sorted by distance (as `Enumerable.OrderBy` does) and the first element is
  taken. The lemmas prove that the result is the nearest label, that exact ties go to
  the earlier label, and the closed form with decision points 0.375, 0.625 and 0.875.
- `Matrices`: weight matrices as values, and `Snapshot`, which gives the value held by
  an `array2<real>`.
- `Network`: the forward pass, the prediction and one training step as functions on
  weight values. These are the specifications the methods are proved against.
- `Training`: sequential training, one step per example, epoch after epoch. It also
  holds the progress reports and the verification predicate.
- `Initialization`: the Xavier-style starting weights. The random draws are a
  parameter.
- `Storage`: the `(row, column, weight)` triples that saving emits and loading
  writes back. NaN is written as 0.
- `Engine`: class `MainWindow` with the two weight arrays as `array2<real>` fields.
  Its methods are the source's loops, each proved against the functions above:
  `InitializeWeights`, `Predict`, `TrainStep`, `TrainNetwork`, `CheckPredictions`,
  `SaveWeights`, `LoadWeights` and `AutomateTraining`. Class `WeightStore` is the
  two database tables as sequences of triples.

Two consequences of the training step as written are proved:

- Each hidden unit's output delta is proportional to that unit's own
  hidden-to-output weight (line 120). So every step multiplies all 20
  hidden-to-output weights by one common factor.
- With a squashing sigmoid, targets in [0, 1] and a learning rate in (0, 1], that
  factor is positive. Training therefore never changes the sign of a
  hidden-to-output weight, nor the ratio between any two of them.

A hidden unit whose output weight is 0 never learns.

Three behaviours of the code are easy to misread:

- On a failed check, `AutomateTraining` only empties the weight tables. It does not
  draw new weights, so the next round trains on from the weights just loaded back.
- `RoundToNearest(0.63)` is 0.75: 0.63 is nearer to 0.75 than to 0.5 (0.12 < 0.13).
  `Quantizer.RoundToNearestExamples` states it, including the exact tie 0.625, which
  goes to 0.5.
- The progress value is `epoch / Epochs * 100` for epochs 0, 1000, …, 79000. It is
  reported at the start of the interval and never reaches 100.

## Model

| member | source | states |
|---|---|---|
| `Activation.SigmoidDerivative` | WpfApp2/MainWindow.xaml.cs:142-146 | The derivative recomputes the sigmoid of its argument; whenever that sigmoid lies in (0, 1), the result lies in (0, 1/4] |
| `Activation.SquashingDerivativeBounds` | WpfApp2/MainWindow.xaml.cs:140-146 | For a sigmoid with range (0, 1), the derivative at every point lies in (0, 1/4] |
| `Quantizer.OrderBySorts` | WpfApp2/MainWindow.xaml.cs:258 | The stable sort by distance returns a permutation of the labels, sorted by distance |
| `Quantizer.OrderByFirst` | WpfApp2/MainWindow.xaml.cs:258 | The first element after the stable sort is the earliest element of minimal key |
| `Quantizer.OrderBy` | WpfApp2/MainWindow.xaml.cs:258 | Enumerable.OrderBy as a stable insertion sort: each element goes before the first later-sorted element whose key is not smaller; the length is kept |
| `Quantizer.EarliestMin` | WpfApp2/MainWindow.xaml.cs:258 | Reference definition of `OrderBy(...).First()`: an index of minimal key, with every earlier index strictly larger |
| `Quantizer.RoundToNearest` | WpfApp2/MainWindow.xaml.cs:255-259 | The result is always one of 0.25, 0.5, 0.75 and 1.0 |
| `Quantizer.RoundToNearestIsNearest` | WpfApp2/MainWindow.xaml.cs:257-258 | No label is nearer to the value than the result, and every label enumerated before the result is strictly farther (ties go to the earliest label) |
| `Quantizer.EarliestMinIsNearestEarliest` | WpfApp2/MainWindow.xaml.cs:257-258 | The label at the earliest index of minimal distance is nearest, and every label before it in the list is strictly farther |
| `Quantizer.NearestLabelIsUnique` | WpfApp2/MainWindow.xaml.cs:257-258 | Any label that is nearest and has every earlier label strictly farther is the result: the two properties determine it |
| `Quantizer.RoundToNearestThresholds` | WpfApp2/MainWindow.xaml.cs:255-259 | Closed form: 0.25 up to 0.375, 0.5 up to 0.625, 0.75 up to 0.875, 1.0 above; each midpoint goes to the smaller label |
| `Quantizer.RoundToNearestExamples` | WpfApp2/MainWindow.xaml.cs:255-259 | 0.26 gives 0.25; the exact tie 0.625 gives 0.5; 0.63 gives 0.75; values outside [0, 1] give the end labels |
| `Network.Forward` | WpfApp2/MainWindow.xaml.cs:97-114 | The output of the forward pass (hidden sums in index order, squashed, then the weighted output sum, squashed); it lies in (0, 1) whenever the sigmoid does |
| `Network.Prediction` | WpfApp2/MainWindow.xaml.cs:223-253 | What Predict returns: OutputSize = 1 outputs, each the activation rounded to the nearest label, so each one is one of the four labels |
| `Network.PredictionIsQuantizedForward` | WpfApp2/MainWindow.xaml.cs:223-253 | Predict's single output is the quantized activation of the forward pass that training uses (lines 97-114) |
| `Network.Step` | WpfApp2/MainWindow.xaml.cs:97-131 | One training step as a function of the pre-step weights: every update is computed from the weights before the step, and the shapes 6x20 and 20x1 are kept |
| `Network.StepAt` | WpfApp2/MainWindow.xaml.cs:116-131 | Entry by entry, the step adds lr * delta * SigmoidDerivative(hidden[j]) * input[k] to weightsIH[k, j] and lr * delta to weightsHO[j, 0], where delta = error * SigmoidDerivative(output) * the pre-step weightsHO[j, 0] |
| `Network.StepScalesOutputWeights` | WpfApp2/MainWindow.xaml.cs:118-130 | One step multiplies every hidden-to-output weight by the same factor 1 + lr * error * SigmoidDerivative(output) |
| `Network.StepFreezesDeadUnit` | WpfApp2/MainWindow.xaml.cs:118-130 | A hidden unit with output weight 0 keeps it at 0 and keeps its incoming weights through a step |
| `Network.OutputScalePositive` | WpfApp2/MainWindow.xaml.cs:116-130 | With a squashing sigmoid, a target in [0, 1] and a learning rate in (0, 1], the common factor is positive |
| `Initialization.UniformWeight` | WpfApp2/MainWindow.xaml.cs:44 | A draw in [0, 1) stretched by a positive std lies in [-std, std) |
| `Initialization.InitialWeights` | WpfApp2/MainWindow.xaml.cs:31-55 | The starting weights have shape 6x20 and 20x1, one draw per weight |
| `Initialization.InitialWeightsBounded` | WpfApp2/MainWindow.xaml.cs:34-53 | With draws in [0, 1) and the scales of lines 34-35, every weight lies in [-std, std), so its square is at most 2/26 (input-to-hidden) or 2/21 (hidden-to-output) |
| `Training.ApplyAll` | WpfApp2/MainWindow.xaml.cs:95-132 | One step per example, in list order, each on the weights the previous step left; the shapes are kept |
| `Training.Train` | WpfApp2/MainWindow.xaml.cs:93-132 | Epochs ordered passes over the data, one after the other; the shapes are kept |
| `Training.ApplyAllAppend` | WpfApp2/MainWindow.xaml.cs:95-132 | Steps compose sequentially: running a + b is running b on the weights a left (no batching) |
| `Training.TrainIsRepeatedSteps` | WpfApp2/MainWindow.xaml.cs:93-132 | A run of E epochs is exactly E * n single steps over the data repeated E times, in order |
| `Training.DeadUnitStaysFrozen` | WpfApp2/MainWindow.xaml.cs:118-130 | A hidden unit with output weight 0 keeps it and its incoming weights through any run of steps |
| `Training.StepKeepsSign` | WpfApp2/MainWindow.xaml.cs:116-130 | Under the hypotheses of OutputScalePositive, a step keeps the sign of each hidden-to-output weight |
| `Training.StepKeepsProportion` | WpfApp2/MainWindow.xaml.cs:118-130 | A step keeps any two hidden-to-output weights in the proportion they were in |
| `Training.OutputWeightSignsKept` | WpfApp2/MainWindow.xaml.cs:93-132 | Under the same hypotheses, training never changes the sign of a hidden-to-output weight |
| `Training.OutputWeightRatiosKept` | WpfApp2/MainWindow.xaml.cs:93-132 | Training never changes the ratio between two hidden-to-output weights |
| `Training.ProgressReports` | WpfApp2/MainWindow.xaml.cs:133-136 | The values reported in the first n epochs, one per epoch divisible by 1000; each is at least 0 and below the value epoch n would report |
| `Training.ProgressReportsShape` | WpfApp2/MainWindow.xaml.cs:93-136 | After n epochs there are ceil(n / 1000) reports; report r is made at epoch 1000 * r and has value epoch / Epochs * 100 |
| `Training.FullRunProgress` | WpfApp2/MainWindow.xaml.cs:93-136 | A full run of 80000 epochs reports 80 times, every value in [0, 100) |
| `Training.AllPredictionsMatch` | WpfApp2/MainWindow.xaml.cs:277-288 | The check passes: every prediction equals its expected output; it can only hold when every expected output is one of the four labels |
| `Training.ConflictingLabelsNeverMatch` | WpfApp2/MainWindow.xaml.cs:277-288 | Two examples with the same input and different labels can never both match, whatever the weights |
| `Storage.SaveTriples` | WpfApp2/MainWindow.xaml.cs:170-184 | The triples the insert loops emit: row by row, and within a row column by column |
| `Storage.RowTriplesFacts` | WpfApp2/MainWindow.xaml.cs:172-183 | Row i's inner loop emits its cols triples, triple k being (i, k, sanitized weight) |
| `Storage.SaveTriplesFacts` | WpfApp2/MainWindow.xaml.cs:170-184 | Saving emits rows * cols triples in strictly increasing row-major order (so no index pair twice), each with in-range indices and the sanitized weight |
| `Storage.SaveTriplesAt` | WpfApp2/MainWindow.xaml.cs:170-184 | The weight at (i, j) is triple number i * cols + j: every index pair is visited, in row-major order |
| `Storage.SaveNeverWritesNaN` | WpfApp2/MainWindow.xaml.cs:174 | Given that 0 is not NaN, no saved triple carries a NaN weight |
| `Storage.Store` | WpfApp2/MainWindow.xaml.cs:204 | Writing one row read back keeps the matrix's shape |
| `Storage.StoreEntries` | WpfApp2/MainWindow.xaml.cs:204 | Writing one row changes exactly the entry it names |
| `Storage.Load` | WpfApp2/MainWindow.xaml.cs:199-205 | Loading a sequence of rows keeps the matrix's shape |
| `Storage.SaveLoadRoundTrip` | WpfApp2/MainWindow.xaml.cs:163-218 | Saving a matrix and loading it back over any matrix of its shape gives the matrix with NaN replaced by 0 |
| `Storage.SaveLoadIdentity` | WpfApp2/MainWindow.xaml.cs:163-218 | Without NaN entries, saving and loading back gives the matrix itself |
| `Storage.LoadEntries` | WpfApp2/MainWindow.xaml.cs:199-205 | When no two rows name one entry, loading puts each row's weight at its entry and leaves every other entry as it was |
| `Storage.PermutationDistinct` | WpfApp2/MainWindow.xaml.cs:196-218 | Any reordering of rows that name distinct entries names distinct entries |
| `Storage.LoadOrderIrrelevant` | WpfApp2/MainWindow.xaml.cs:196-218 | For rows naming distinct entries, the order they are read in does not change the loaded matrix |
| `Storage.LoadSavedAnyOrder` | WpfApp2/MainWindow.xaml.cs:163-218 | The saved rows, read back in any order (the SELECTs have no ORDER BY), load as the saved matrix with NaN replaced by 0 |
| `Engine.StepOf` | WpfApp2/MainWindow.xaml.cs:97-131 | The source's arithmetic, fed the forward pass's activations, produces exactly the weights of one Step |
| `Engine.LoadStep` | WpfApp2/MainWindow.xaml.cs:199-205 | Writing the k-th row into the array after k rows gives the array after k + 1 rows |
| `Engine.RoundWeights` | WpfApp2/MainWindow.xaml.cs:266-273 | The weights after one round: trained for Epochs epochs, then saved and loaded back with NaN turned to 0; the shapes are kept |
| `Engine.RunRounds` | WpfApp2/MainWindow.xaml.cs:264-299 | The weights after one round per dataset, in order, each round starting from the weights the previous one left (no re-drawing) |
| `Engine.WeightStore.Clear` | WpfApp2/MainWindow.xaml.cs:302-315 | Both tables are emptied |
| `Engine.MainWindow.constructor` | WpfApp2/MainWindow.xaml.cs:25-29 | The window starts with freshly drawn initial weights, not yet loaded from the store |
| `Engine.MainWindow.InitializeWeights` | WpfApp2/MainWindow.xaml.cs:31-55 | The arrays are fresh, 6x20 and 20x1, and hold InitialWeights of the draws taken in loop order |
| `Engine.MainWindow.FillRow` | WpfApp2/MainWindow.xaml.cs:42-45 | Row r gets draws[start + c] * std * 2 - std in column c; other rows are untouched |
| `Engine.MainWindow.HiddenOutputs` | WpfApp2/MainWindow.xaml.cs:225-234 | The fresh array holds the hidden layer of the current weights |
| `Engine.MainWindow.HiddenUnit` | WpfApp2/MainWindow.xaml.cs:226-234 | Unit i gets the sigmoid of its weighted input sum, in index order; other units are untouched |
| `Engine.MainWindow.OutputActivations` | WpfApp2/MainWindow.xaml.cs:236-245 | The single output is the sigmoid of the weighted sum of the hidden activations |
| `Engine.MainWindow.RoundOutputs` | WpfApp2/MainWindow.xaml.cs:247-250 | The output is replaced by the label nearest to it |
| `Engine.MainWindow.Predict` | WpfApp2/MainWindow.xaml.cs:223-253 | Returns a fresh array equal to the prediction of the current weights (length OutputSize = 1, every entry a label); it modifies nothing, so the weights are only read |
| `Engine.MainWindow.ForwardPass` | WpfApp2/MainWindow.xaml.cs:97-114 | The hidden activations and the output of the forward pass of the current weights |
| `Engine.MainWindow.OutputDeltas` | WpfApp2/MainWindow.xaml.cs:117-121 | outputDeltas[j] = error * SigmoidDerivative(output) * the current weightsHO[j, 0] |
| `Engine.MainWindow.UpdateWeights` | WpfApp2/MainWindow.xaml.cs:123-131 | Unit by unit, the arrays go from the old weights to the updated ones |
| `Engine.MainWindow.UpdateUnit` | WpfApp2/MainWindow.xaml.cs:124-130 | deltaHO equals outputDeltas[j] (weightsHO[j, 0] is written only after both reads); column j of weightsIH and weightsHO[j, 0] get their updates; nothing else changes |
| `Engine.MainWindow.UpdateColumn` | WpfApp2/MainWindow.xaml.cs:126-129 | weightsIH[k, j] += learningRate * deltaHO * derivative * inputs[k] for every k; other columns unchanged |
| `Engine.MainWindow.TrainStep` | WpfApp2/MainWindow.xaml.cs:97-131 | One example's step in place: the new weights are Step of the old ones |
| `Engine.MainWindow.TrainEpoch` | WpfApp2/MainWindow.xaml.cs:95-132 | One epoch in place: the weights after epoch e become those after e + 1 |
| `Engine.MainWindow.TrainNetwork` | WpfApp2/MainWindow.xaml.cs:90-138 | The weights end as Train of the old weights over the examples for Epochs epochs; the progress values are exactly ProgressReports(Epochs) |
| `Engine.MainWindow.CheckPredictions` | WpfApp2/MainWindow.xaml.cs:275-288 | predictionsMatch is true exactly when every prediction equals its expected output; the scan stops at row stoppedAt, every earlier row matches, and on failure row stoppedAt is the first mismatch |
| `Engine.MainWindow.SaveWeights` | WpfApp2/MainWindow.xaml.cs:170-184 | The inserted rows are SaveTriples of the array: row-major, NaN written as 0 |
| `Engine.MainWindow.SaveRow` | WpfApp2/MainWindow.xaml.cs:172-183 | Row i's triples are appended in column order |
| `Engine.MainWindow.SaveWeightsToDatabase` | WpfApp2/MainWindow.xaml.cs:148-161 | Each table is replaced by the triples of its weight array |
| `Engine.MainWindow.LoadTable` | WpfApp2/MainWindow.xaml.cs:197-206 | Every row read overwrites its entry, in the order read |
| `Engine.MainWindow.LoadWeights` | WpfApp2/MainWindow.xaml.cs:189-221 | Both tables are written into the arrays and AreWeightsLoaded is set |
| `Engine.MainWindow.SaveAndReload` | WpfApp2/MainWindow.xaml.cs:269-273 | After saving and reloading, the arrays hold the old weights with NaN turned to 0, and the store holds every weight |
| `Engine.MainWindow.CheckOrClear` | WpfApp2/MainWindow.xaml.cs:275-293 | The check's verdict; on a mismatch the store is emptied, otherwise it is kept |
| `Engine.MainWindow.TrainingRound` | WpfApp2/MainWindow.xaml.cs:266-298 | One round: the weights become trained-then-sanitized; the result is the check's verdict; on success the store holds the trained weights, on failure it is empty |
| `Engine.MainWindow.NextRound` | WpfApp2/MainWindow.xaml.cs:264-299 | One more pass of the retry loop keeps the rounds-done invariant |
| `Engine.MainWindow.AutomateTraining` | WpfApp2/MainWindow.xaml.cs:261-300 | Rounds run until one passes; on success every expected output of that round's data is matched and is a label; on failure the store is empty |

## Left out

- The logistic function and `Math.Exp`: the sigmoid is a parameter, and the only fact
  lemmas assume of it is that its range is (0, 1).
- `Math.Sqrt`: the scales are parameters. `Initialization.InitialWeightsBounded` asks
  only that each is a positive scale whose square is 2 / (fanIn + fanOut).
- `System.Random`: the draws are a parameter sequence; only their range [0, 1) is used.
  The unused `Random` created at the top of `TrainNetworkAsync` is not modelled.
- IEEE doubles: weights are exact reals. Rounding, overflow to infinity and NaN
  propagation are not modelled. `double.IsNaN` is a parameter predicate. With NaN
  activations, the source's `OrderBy` would return 0.25; the reals have no NaN.
- Convergence: nothing is claimed about training reducing the error.
- `Engine.MainWindow.AutomateTraining`: the source loops until a round succeeds, with
  no bound. The model takes what each database read returns as a finite list of
  datasets and stops when the list is used up. It does not claim that the loop
  terminates.
- The MySQL plumbing is not modelled: connection strings, SQL text, table and column
  names, and `ReadDataFromDatabaseAsync`/`ReadPredictionDataFromDatabase` (their
  results are parameters). `WeightStore` stands for the two tables.
- The WPF side is not modelled: `Dispatcher.Invoke`, the progress bar (progress values
  are returned as a sequence instead), `MessageBox`, the data grid, and the `*_Click`
  handlers, including the inference pass of `Predict_Click`.
- `async`/`await` and `Task` scheduling.
- Value fidelity of the store: the model assumes a weight reads back exactly as it was
  written. The source writes `weight.ToString(InvariantCulture)` into the SQL text and
  reads the column back with `GetDouble`. With a 15-digit format or a FLOAT column the
  reloaded weights differ from the trained ones, and the check at line 283 runs on the
  reloaded weights.
- `Engine.MainWindow.LoadWeights`: reads the store's rows in insertion order. The SELECTs
  have no ORDER BY, so the database may return them in another order.
  `Storage.LoadSavedAnyOrder` proves that any order of the saved rows loads the same
  matrix.
- Index errors: `Predict`, `TrainStep` and `TrainNetwork` require at least six inputs
  per row and an expected output for every input row. `LoadWeights` requires every
  stored index to lie inside its array. Where these fail the source throws, and the
  model does not represent the exception.
