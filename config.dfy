/** Fixed hyperparameters of the network (MainWindow.xaml.cs, lines 14-18 and 133). */
module Config {
  const InputSize: nat := 6
  const HiddenSize: nat := 20
  const OutputSize: nat := 1
  const LearningRate: real := 0.0001
  const Epochs: nat := 80000
  /** Progress is reported on every epoch that is a multiple of this. */
  const ReportInterval: nat := 1000
  /** Number of random draws InitializeWeights consumes: one per weight. */
  const InitialDrawCount: nat := InputSize * HiddenSize + HiddenSize * OutputSize
}
