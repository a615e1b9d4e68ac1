// Hand activation: a hand counts as raised when its wrist is higher than the
// spine base by more than half the spine scale. Each hand is judged on its own.
module Activation {
  import opened KinectTypes

  /** The per-hand threshold test, on vertical coordinates and the spine scale. */
  predicate HandRaised(wristY: real, spineBaseY: real, spinePx: real): (b: bool)
    ensures b <==> wristY - spineBaseY > spinePx / 2.0
  {
    wristY > spineBaseY + spinePx / 2.0
  }

  /** The table slots the activation test reads. */
  predicate HasActivationSlots(t: SPointTable)
  {
    BodyWristLeft in t && BodyWristRight in t && BodySpineBase in t
  }

  /** Both activation flags, computed from the skeletal-point table. */
  function Activations(t: SPointTable, spinePx: real): (r: (bool, bool))
    requires HasActivationSlots(t)
    ensures r.0 <==> t[BodyWristLeft].Y - t[BodySpineBase].Y > spinePx / 2.0
    ensures r.1 <==> t[BodyWristRight].Y - t[BodySpineBase].Y > spinePx / 2.0
  {
    (HandRaised(t[BodyWristLeft].Y, t[BodySpineBase].Y, spinePx),
     HandRaised(t[BodyWristRight].Y, t[BodySpineBase].Y, spinePx))
  }

  /** A wrist placed eps above the threshold is raised exactly when eps is positive. */
  lemma ThresholdMargin(spineBaseY: real, spinePx: real, eps: real)
    ensures HandRaised(spineBaseY + spinePx / 2.0 + eps, spineBaseY, spinePx) <==> eps > 0.0
  {
  }

  /** Raising a wrist never deactivates its hand. */
  lemma RaisedIsMonotone(wristY: real, higherY: real, spineBaseY: real, spinePx: real)
    requires wristY <= higherY
    requires HandRaised(wristY, spineBaseY, spinePx)
    ensures HandRaised(higherY, spineBaseY, spinePx)
  {
  }

  /** The left flag does not depend on the right wrist, and vice versa. */
  lemma HandsAreIndependent(t: SPointTable, spinePx: real, p: CameraPoint)
    requires HasActivationSlots(t)
    ensures Activations(t[BodyWristRight := p], spinePx).0 == Activations(t, spinePx).0
    ensures Activations(t[BodyWristLeft := p], spinePx).1 == Activations(t, spinePx).1
  {
  }
}
