/**
  The starting weights InitializeWeights draws. Random.NextDouble is replaced
  by a sequence of draws in [0, 1), consumed in loop order: the input-to-hidden
  block row by row, then the hidden-to-output block. Math.Sqrt is replaced by
  the scale std given with the property that defines it, std * std == 2 / (fanIn + fanOut).
 */
module Initialization {
  import opened Config
  import opened Matrices
  import opened Network

  /** What Random.NextDouble promises: a value in [0, 1). */
  predicate IsDraw(d: real) {
    0.0 <= d < 1.0
  }

  /** std is the square root of 2 / (fanIn + fanOut), the scale of lines 34-35. */
  predicate IsScale(std: real, fanIn: nat, fanOut: nat) {
    std > 0.0 && fanIn + fanOut > 0 && std * std == 2.0 / (fanIn + fanOut) as real
  }

  /** One weight: a draw d stretched from [0, 1) to [-std, std). */
  function UniformWeight(d: real, std: real): (r: real)
    ensures std > 0.0 && IsDraw(d) ==> -std <= r < std
  {
    d * std * 2.0 - std
  }

  /** Index of the draw that weightsIH[i, h] receives. */
  function InputDrawIndex(i: nat, h: nat): nat {
    i * HiddenSize + h
  }

  /** Index of the draw that weightsHO[h, o] receives: after all InputSize * HiddenSize of the first block. */
  function OutputDrawIndex(h: nat, o: nat): nat {
    InputSize * HiddenSize + h * OutputSize + o
  }

  /** The weights InitializeWeights produces from the draws. */
  function InitialWeights(draws: seq<real>, stdIH: real, stdHO: real): (w: Weights)
    requires |draws| == InitialDrawCount
    ensures WellShaped(w)
  {
    Weights(
      seq(InputSize, i requires 0 <= i < InputSize =>
        seq(HiddenSize, h requires 0 <= h < HiddenSize => UniformWeight(draws[InputDrawIndex(i, h)], stdIH))),
      seq(HiddenSize, h requires 0 <= h < HiddenSize =>
        seq(OutputSize, o requires 0 <= o < OutputSize => UniformWeight(draws[OutputDrawIndex(h, o)], stdHO))))
  }

  /**
    With draws from NextDouble and the scales of lines 34-35, every starting
    weight w satisfies -std <= w < std, so w * w <= 2 / (fanIn + fanOut).
   */
  lemma InitialWeightsBounded(draws: seq<real>, stdIH: real, stdHO: real)
    requires |draws| == InitialDrawCount && forall d :: 0 <= d < |draws| ==> IsDraw(draws[d])
    requires IsScale(stdIH, InputSize, HiddenSize) && IsScale(stdHO, HiddenSize, OutputSize)
    ensures forall i, h :: 0 <= i < InputSize && 0 <= h < HiddenSize ==>
      -stdIH <= InitialWeights(draws, stdIH, stdHO).ih[i][h] < stdIH &&
      InitialWeights(draws, stdIH, stdHO).ih[i][h] * InitialWeights(draws, stdIH, stdHO).ih[i][h] <= 2.0 / 26.0
    ensures forall h, o :: 0 <= h < HiddenSize && 0 <= o < OutputSize ==>
      -stdHO <= InitialWeights(draws, stdIH, stdHO).ho[h][o] < stdHO &&
      InitialWeights(draws, stdIH, stdHO).ho[h][o] * InitialWeights(draws, stdIH, stdHO).ho[h][o] <= 2.0 / 21.0
  {
    var w := InitialWeights(draws, stdIH, stdHO);
    forall i, h | 0 <= i < InputSize && 0 <= h < HiddenSize
      ensures -stdIH <= w.ih[i][h] < stdIH && w.ih[i][h] * w.ih[i][h] <= 2.0 / 26.0
    {
      assert w.ih[i][h] == UniformWeight(draws[InputDrawIndex(i, h)], stdIH);
      SquareBelow(w.ih[i][h], stdIH);
    }
    forall h, o | 0 <= h < HiddenSize && 0 <= o < OutputSize
      ensures -stdHO <= w.ho[h][o] < stdHO && w.ho[h][o] * w.ho[h][o] <= 2.0 / 21.0
    {
      assert w.ho[h][o] == UniformWeight(draws[OutputDrawIndex(h, o)], stdHO);
      SquareBelow(w.ho[h][o], stdHO);
    }
  }

  lemma SquareBelow(x: real, s: real)
    requires -s <= x < s
    ensures x * x <= s * s
  {
    if x >= 0.0 {
      assert x * x <= x * s <= s * s;
    } else {
      assert x * x <= (-x) * s <= s * s;
    }
  }
}
