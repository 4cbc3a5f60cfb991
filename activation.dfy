/**
  The activation of the network. The logistic function 1 / (1 + e^-x) cannot be
  computed over the reals here, so every member that needs it takes it as a
  parameter `sigmoid`; only the facts stated by IsSquashing are ever assumed of it.
 */
module Activation {

  /** The logistic function maps every real into the open interval (0, 1). */
  ghost predicate IsSquashing(sigmoid: real -> real) {
    forall x :: 0.0 < sigmoid(x) < 1.0
  }

  /**
    SigmoidDerivative recomputes the sigmoid of its argument before forming
    s * (1 - s); it does not take an already computed sigmoid output.
    Whenever that sigmoid lies in (0, 1) the derivative lies in (0, 1/4].
   */
  function SigmoidDerivative(sigmoid: real -> real, x: real): (d: real)
    ensures 0.0 < sigmoid(x) < 1.0 ==> 0.0 < d <= 0.25
  {
    var s := sigmoid(x);
    assert 0.25 - s * (1.0 - s) == (s - 0.5) * (s - 0.5);
    assert 0.0 < s < 1.0 ==> 0.0 < s * (1.0 - s);
    s * (1.0 - s)
  }

  lemma SquashingDerivativeBounds(sigmoid: real -> real, x: real)
    requires IsSquashing(sigmoid)
    ensures 0.0 < SigmoidDerivative(sigmoid, x) <= 0.25
  {
    assert 0.0 < sigmoid(x) < 1.0;
  }
}
