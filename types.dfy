// Value types shared by the per-tick logic of the Kinect recorder.
// Sensor floats are modelled as reals; image contents are opaque to the model.
module KinectTypes {

  datatype Option<T> = None | Some(value: T)

  /** A point in sensor (camera) space, in meters. */
  datatype CameraPoint = CameraPoint(X: real, Y: real, Z: real)

  /** A point in colour-image pixel space, as produced by the coordinate mapper. */
  datatype PixelPoint = PixelPoint(X: real, Y: real)

  /** An unsigned 8-bit channel value. */
  newtype uchar = x: int | 0 <= x < 256

  /** A BGRA pixel: exactly four channels. */
  type Vec4b = v: seq<uchar> | |v| == 4 witness [0, 0, 0, 0]

  /** An image buffer; only its dimensions are inspected by the core logic. */
  datatype Mat = Mat(rows: int, cols: int, pixels: seq<Vec4b>)

  /** The program's operating modes. */
  datatype KinectMode = Idle | Predict | Output

  /** The named slots of the skeletal-point table. */
  datatype SPoint =
    | HeadHair | HeadFaceEyeLeft | HeadFaceEyeRight | HeadFaceNose | HeadFaceLip
    | HeadFaceCheekLeft | HeadFaceCheekRight | HeadFaceJaw
    | BodyNeck | BodySpineMid | BodySpineBase | BodySpineShoulder
    | BodyShoulderLeft | BodyShoulderRight | BodyElbowLeft | BodyElbowRight
    | BodyWristLeft | BodyWristRight | BodyHandTipLeft | BodyHandTipRight
    | HeadTop | HeadSideLeft | HeadSideRight
    | BodyHipLeft | BodyHipRight | BodyKneeLeft | BodyKneeRight
    | BodyAnkleLeft | BodyAnkleRight
    | BodyHipSideLeft | BodyHipSideRight | BodyShoulderSideLeft | BodyShoulderSideRight
    | BodyKneeSideLeft | BodyKneeSideRight | BodySpineMidSideLeft | BodySpineMidSideRight

  type SPointTable = map<SPoint, CameraPoint>
}
