/**
  The calibration applied by the x, y and z accessors, stated over `real` as an
  idealisation of JavaScript's double arithmetic.
*/
module Calibration {

  /** LSB per degree per second. */
  const SENSITIVITY: real := 14.375

  predicate IsPolarity(p: int)
  {
    p == -1 || p == 1
  }

  /** The polarity for a reversal flag. */
  function Polarity(reversed: bool): (p: int)
    ensures IsPolarity(p)
    ensures p < 0 <==> reversed
  {
    if reversed then -1 else 1
  }

  /** `raw / 14.375 * polarity * gain + offset`, evaluated left to right. */
  function Calibrated(raw: int, polarity: int, gain: real, offset: real): (deg: real)
  {
    raw as real / SENSITIVITY * polarity as real * gain + offset
  }

  /** The offset is added last and is not scaled by polarity or gain. */
  lemma OffsetAppliedLast(raw: int, polarity: int, gain: real, offset: real)
    ensures Calibrated(raw, polarity, gain, offset) == Calibrated(raw, polarity, gain, 0.0) + offset
  {
  }

  /** With unit gain, positive polarity and no offset, the reading is the raw value over the sensitivity. */
  lemma IdentityCalibration(raw: int)
    ensures Calibrated(raw, Polarity(false), 1.0, 0.0) == raw as real / SENSITIVITY
  {
  }

  /** Reversing the polarity negates the reading, apart from the offset. */
  lemma ReversedPolarityNegates(raw: int, gain: real, offset: real)
    ensures Calibrated(raw, Polarity(true), gain, offset) - offset
         == -(Calibrated(raw, Polarity(false), gain, offset) - offset)
  {
  }

  /** With a non-zero gain the raw value is recovered from the calibrated reading. */
  lemma CalibrationInvertible(raw: int, polarity: int, gain: real, offset: real)
    requires IsPolarity(polarity) && gain != 0.0
    ensures (Calibrated(raw, polarity, gain, offset) - offset) * SENSITIVITY / (polarity as real * gain) == raw as real
  {
    var r := raw as real;
    var p := polarity as real;
    assert Calibrated(raw, polarity, gain, offset) - offset == (r / SENSITIVITY) * (p * gain);
    assert (r / SENSITIVITY) * SENSITIVITY == r;
    assert (r / SENSITIVITY) * (p * gain) * SENSITIVITY == r * (p * gain);
  }
}
