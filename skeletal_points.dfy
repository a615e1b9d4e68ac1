// Derived skeletal points: auxiliary slots placed one spine length beside
// (or, for the head top, above) an existing landmark.
module SkeletalPoints {
  import opened KinectTypes

  /** The axis and sense along which a derived point is displaced from its source. */
  datatype Direction = MinusX | PlusX | PlusY

  /** The slots recomputed from other landmarks on every update. */
  const DerivedSlots: set<SPoint> := {
    HeadTop, HeadSideLeft, HeadSideRight,
    BodyHipSideLeft, BodyHipSideRight, BodyShoulderSideLeft, BodyShoulderSideRight,
    BodyKneeSideLeft, BodyKneeSideRight, BodySpineMidSideLeft, BodySpineMidSideRight }

  /** The point `q` moved by `spinePx` in direction `d`; the other coordinates are copied. */
  function Shift(q: CameraPoint, d: Direction, spinePx: real): CameraPoint
  {
    match d
    case MinusX => q.(X := q.X - spinePx)
    case PlusX => q.(X := q.X + spinePx)
    case PlusY => q.(Y := q.Y + spinePx)
  }

  /** Two points differing at most in their horizontal coordinate. */
  predicate SameHeightAndDepth(p: CameraPoint, q: CameraPoint)
  {
    p.Y == q.Y && p.Z == q.Z
  }

  /** Every landmark a derived slot is computed from is present. */
  predicate HasSources(t: SPointTable)
  {
    HeadHair in t && HeadFaceNose in t && BodyHipLeft in t && BodyHipRight in t &&
    BodyShoulderLeft in t && BodyShoulderRight in t && BodyKneeLeft in t && BodyKneeRight in t &&
    BodySpineMid in t
  }

  /** The table with every derived slot (re)computed from its source landmark, in the order the program sets them. */
  function WithDerivedPoints(t: SPointTable, spinePx: real): (r: SPointTable)
    requires HasSources(t)
    ensures r.Keys == t.Keys + DerivedSlots
    ensures forall p :: p in t && p !in DerivedSlots ==> r[p] == t[p]
  {
    t[HeadTop := Shift(t[HeadHair], PlusY, spinePx)]
     [HeadSideLeft := Shift(t[HeadFaceNose], MinusX, spinePx)]
     [HeadSideRight := Shift(t[HeadFaceNose], PlusX, spinePx)]
     [BodyHipSideLeft := Shift(t[BodyHipLeft], MinusX, spinePx)]
     [BodyHipSideRight := Shift(t[BodyHipRight], PlusX, spinePx)]
     [BodyShoulderSideLeft := Shift(t[BodyShoulderLeft], MinusX, spinePx)]
     [BodyShoulderSideRight := Shift(t[BodyShoulderRight], PlusX, spinePx)]
     [BodyKneeSideLeft := Shift(t[BodyKneeLeft], MinusX, spinePx)]
     [BodyKneeSideRight := Shift(t[BodyKneeRight], PlusX, spinePx)]
     [BodySpineMidSideLeft := Shift(t[BodySpineMid], MinusX, spinePx)]
     [BodySpineMidSideRight := Shift(t[BodySpineMid], PlusX, spinePx)]
  }

  /** The head and mid-spine side points straddle their landmark symmetrically, at its height and depth. */
  lemma SidePointsAreSymmetric(t: SPointTable, spinePx: real)
    requires HasSources(t)
    ensures var r := WithDerivedPoints(t, spinePx);
      r[HeadSideLeft].X + r[HeadSideRight].X == 2.0 * t[HeadFaceNose].X &&
      r[HeadSideRight].X - r[HeadSideLeft].X == 2.0 * spinePx &&
      r[HeadSideLeft].Y == r[HeadSideRight].Y == t[HeadFaceNose].Y &&
      r[HeadSideLeft].Z == r[HeadSideRight].Z == t[HeadFaceNose].Z &&
      r[BodySpineMidSideLeft].X + r[BodySpineMidSideRight].X == 2.0 * t[BodySpineMid].X &&
      r[BodySpineMidSideRight].X - r[BodySpineMidSideLeft].X == 2.0 * spinePx &&
      r[BodySpineMidSideLeft].Y == r[BodySpineMidSideRight].Y == t[BodySpineMid].Y &&
      r[BodySpineMidSideLeft].Z == r[BodySpineMidSideRight].Z == t[BodySpineMid].Z
  {
  }

  /**
   * Left side points lie one spine length further left than their landmark,
   * right ones further right, and the head top one spine length above the
   * hair point; every other coordinate is the landmark's own.
   */
  lemma DerivedPointsLieOutward(t: SPointTable, spinePx: real)
    requires HasSources(t)
    ensures var r := WithDerivedPoints(t, spinePx);
      r[HeadTop].Y - t[HeadHair].Y == spinePx &&
      t[BodyHipLeft].X - r[BodyHipSideLeft].X == spinePx &&
      r[BodyHipSideRight].X - t[BodyHipRight].X == spinePx &&
      t[BodyShoulderLeft].X - r[BodyShoulderSideLeft].X == spinePx &&
      r[BodyShoulderSideRight].X - t[BodyShoulderRight].X == spinePx &&
      t[BodyKneeLeft].X - r[BodyKneeSideLeft].X == spinePx &&
      r[BodyKneeSideRight].X - t[BodyKneeRight].X == spinePx &&
      t[BodySpineMid].X - r[BodySpineMidSideLeft].X == spinePx &&
      r[BodySpineMidSideRight].X - t[BodySpineMid].X == spinePx
    ensures var r := WithDerivedPoints(t, spinePx);
      r[HeadTop].X == t[HeadHair].X && r[HeadTop].Z == t[HeadHair].Z &&
      SameHeightAndDepth(r[HeadSideLeft], t[HeadFaceNose]) &&
      SameHeightAndDepth(r[HeadSideRight], t[HeadFaceNose]) &&
      SameHeightAndDepth(r[BodyHipSideLeft], t[BodyHipLeft]) &&
      SameHeightAndDepth(r[BodyHipSideRight], t[BodyHipRight]) &&
      SameHeightAndDepth(r[BodyShoulderSideLeft], t[BodyShoulderLeft]) &&
      SameHeightAndDepth(r[BodyShoulderSideRight], t[BodyShoulderRight]) &&
      SameHeightAndDepth(r[BodyKneeSideLeft], t[BodyKneeLeft]) &&
      SameHeightAndDepth(r[BodyKneeSideRight], t[BodyKneeRight]) &&
      SameHeightAndDepth(r[BodySpineMidSideLeft], t[BodySpineMid]) &&
      SameHeightAndDepth(r[BodySpineMidSideRight], t[BodySpineMid])
  {
  }
}
