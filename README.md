# Kinect gesture recorder — per-tick decision logic in Dafny

This project models the per-tick decisions of the `Kinect` recorder class
(`Project_Kinect/code/kinectProgram.cpp`). The recorder watches a person in front of a
motion sensor, detects a raised hand, and records the gesture as three parallel
collections: skeleton frames, left-hand crops and right-hand crops. When both hands are
down again, it standardizes the collections to fixed lengths and exports them. The model
covers:

- **Closest-body selection** (`findClosestBody`). A scan over the six body slots keeps the
  tracked body whose head is nearest, with ties going to the lower slot. It also rebinds
  the stored tracking identity (`trackingId`, `trackingCount`, `produced`).
- **Hand activation** (the block in `updateBody`). A hand is raised when its wrist is
  higher than the spine base plus half the spine length. Each hand is judged on its own.
- **Hand cropping** (`extractHand`). The crop square is 1.15 spine lengths wide and is cut
  only when it lies inside the colour image. Otherwise the previous crop is kept.
- **Recording state machine** (`updateFrame`). Start, one sample per collection per tick,
  stop, the minimum-length and standard-size gates, and clearing.
- **Small pure parts.** The derived skeletal points (`updateSPoint`), the `Vec4b`
  comparison operators, and the export folder path (`save`).

Modules: `KinectTypes` (types.dfy), `Activation`, `BodySelection`, `Roi`, `Recording`,
`SkeletalPoints`, `Pixels`, `ExportPath`, and `KinectProgram` (kinect.dfy). `KinectProgram`
holds the class `Kinect`, whose fields are the C++ members that these steps read and
write. Each method that changes fields is specified by a pure function in its component
module. The lemmas about those functions state the properties.

The model follows the code in these places, where one might expect otherwise:

- On a tie in distance, the earlier body slot wins. One might expect the previously
  selected body to keep a tie.
- After standardization the code checks the skeleton size and the right-hand size, the
  right-hand size twice (lines 553-554 and 577-578). It never checks the left-hand size.
  `Recording.ExportGate` keeps this as written. `Recording.LeftHandSizeFollowsRight` shows
  the omission is harmless whenever standardization lengths depend only on timestamps.
- The idle mode makes the whole tick a no-op, even in the middle of a session.
- Cropping is also skipped when the depth image is empty.
- The tracking identity is rebound inside the scan, not once after it (see Findings).

## Model

| member | source | states |
|---|---|---|
| `Activation.HandRaised` | Project_Kinect/code/kinectProgram.cpp:372 | a hand is raised iff its wrist's height above the spine base exceeds half the spine length (strictly) |
| `Activation.Activations` | Project_Kinect/code/kinectProgram.cpp:372-382 | each flag is true iff that wrist's height above the spine base exceeds half the spine length |
| `Activation.ThresholdMargin` | Project_Kinect/code/kinectProgram.cpp:372 | a wrist placed eps above the threshold is raised iff eps > 0 |
| `Activation.RaisedIsMonotone` | Project_Kinect/code/kinectProgram.cpp:372 | raising a wrist never deactivates its hand |
| `Activation.HandsAreIndependent` | Project_Kinect/code/kinectProgram.cpp:372-382 | moving one wrist never changes the other hand's flag |
| `KinectProgram.Kinect.UpdateHandActivation` | Project_Kinect/code/kinectProgram.cpp:370-383 | both activation fields are set to the activation test of their own wrist |
| `BodySelection.Visit` | Project_Kinect/code/kinectProgram.cpp:1128-1169 | one slot: the running minimum drops to the body's distance iff it is a candidate strictly closer than the minimum; the flag is set iff it was set or the minimum dropped; the tracker changes only on a drop; on a drop it is kept when the body carries the stored id, and otherwise becomes (this body's id, this slot, not produced) |
| `BodySelection.ScanPrefix` | Project_Kinect/code/kinectProgram.cpp:1121-1171 | after any number of slots the running minimum is at most the initial maximum, and the flag is set iff the minimum is below it |
| `BodySelection.Winner` | Project_Kinect/code/kinectProgram.cpp:1128-1152 | the selected slot is -1 or a slot of an eligible body (tracked, head tracked, closer than the initial maximum) |
| `BodySelection.WinnerIsFirstMinimum` | Project_Kinect/code/kinectProgram.cpp:1126-1152 | a body is selected iff some body is eligible; its distance is at most every eligible distance; every eligible body before it is strictly farther (ties go to the lower slot) |
| `BodySelection.ScanSelectsWinner` | Project_Kinect/code/kinectProgram.cpp:1126-1173 | the scan's flag, running minimum and tracked id match the first-minimum winner; with nothing selected the tracker is untouched; a changed tracker points at a slot carrying its id and has `produced` false |
| `BodySelection.NewIdentityIsBound` | Project_Kinect/code/kinectProgram.cpp:1154-1169 | when the winner's id differs from the stored id (ids distinct), the tracker ends as (winner id, winner slot, not produced) |
| `BodySelection.IntermediateRebindResetsProduced` | Project_Kinect/code/kinectProgram.cpp:1148-1169 | a concrete input where the stored id is the winner's, yet `produced` is reset |
| `BodySelection.Rebind` | Project_Kinect/code/kinectProgram.cpp:1154-1169 | the corrected rebinding: the tracker is either unchanged or carries a new id, bound to an eligible slot with that id and `produced` cleared |
| `BodySelection.RebindOnlyOnNewIdentity` | Project_Kinect/code/kinectProgram.cpp:1154-1169 | the intended rebinding changes the tracker iff a body is selected whose id differs from the stored one, and then binds its slot and clears `produced` |
| `BodySelection.AsWrittenAgreesOnNewIdentity` | Project_Kinect/code/kinectProgram.cpp:1154-1169 | with distinct ids, the written scan and the intended rebinding agree whenever the identity changes |
| `KinectProgram.Kinect.FindClosestBody` | Project_Kinect/code/kinectProgram.cpp:1119-1174 | the fields end as the scan function computes; `atLeastOneTracked` iff some body is eligible; `distance` and `trackingId` are the winner's when one exists; with no winner, distance and tracker are unchanged |
| `KinectProgram.Kinect.FindClosestBodyIntended` | Project_Kinect/code/kinectProgram.cpp:1119-1174 | corrected selection: same flag and distance, tracker rebound once, by the intended rule |
| `Roi.TruncateTowardZero` | Project_Kinect/code/kinectProgram.cpp:298 | the float-to-int conversion used for the rectangle: for a non-negative value the largest integer not above it, for a non-positive value the smallest integer not below it (truncation toward zero) |
| `Roi.RoiFor` | Project_Kinect/code/kinectProgram.cpp:283-298 | the crop rectangle is square; for a non-negative spine length its side is 1.15 spine lengths truncated to whole pixels; its corner is within one pixel of the hand position minus half the side, rounded toward zero: not beyond it when that is non-negative, not before it when negative |
| `Roi.RoiCentredOnHand` | Project_Kinect/code/kinectProgram.cpp:283-298 | with a non-negative corner, the square's centre lies at most 1.5 pixels up and left of the hand |
| `Roi.Inside` | Project_Kinect/code/kinectProgram.cpp:300 | the bounds gate; a rectangle passing it covers only pixels of the image |
| `Roi.EmptySquarePassesGate` | Project_Kinect/code/kinectProgram.cpp:283-300 | a spine shorter than 1/1.15 pixels gives a 0 by 0 square, which the gate accepts |
| `Roi.HandCrop` | Project_Kinect/code/kinectProgram.cpp:300-307 | one hand's extraction step: the crop becomes the resized cut whenever the rectangle passes the gate, and changes only then |
| `Roi.NonEmptyInsideIffCoveredInImage` | Project_Kinect/code/kinectProgram.cpp:300 | for a non-empty rectangle the gate holds iff every covered pixel is in the image |
| `Roi.HandCropIdempotent` | Project_Kinect/code/kinectProgram.cpp:300-307 | extracting twice from the same image and hand position gives the same crop as once |
| `KinectProgram.Kinect.HandRoi` | Project_Kinect/code/kinectProgram.cpp:283-298 | the rectangle for a hand, from the colour-space spine length: square, side 1.15 spine lengths to within a pixel, corner within a pixel of the mapped hand position minus half the side |
| `KinectProgram.Kinect.ExtractHand` | Project_Kinect/code/kinectProgram.cpp:267-310 | with no tracked body or an empty colour or depth image, both crops are unchanged; otherwise each crop becomes the resized cut of its rectangle iff that rectangle passes the bounds gate, and otherwise is unchanged |
| `Recording.MinStacked` | Project_Kinect/code/kinectProgram.cpp:539 | the minimum session length is 18 frames in the predict mode and 35 otherwise |
| `Recording.ExportGate` | Project_Kinect/code/kinectProgram.cpp:552-554 | the size check as written passes iff the standardized skeleton has the frame target size and the right-hand collection the image target size; the left-hand size plays no part |
| `Recording.Finalize` | Project_Kinect/code/kinectProgram.cpp:541-595 | standardizes the three collections from the session start; exports iff the size check passes, with the transient destination iff in the predict mode and the standardized collections as contents |
| `Recording.Stop` | Project_Kinect/code/kinectProgram.cpp:537-597 | the stopping transition leaves the recorder at rest with the start time kept and all collections empty; it exports iff the session is longer than the mode's minimum and the size check passes, and the count rises by one exactly then |
| `Recording.Tick` | Project_Kinect/code/kinectProgram.cpp:521-613 | one tick: the idle mode changes nothing; otherwise the recorder is stacking afterwards iff a hand is raised; an export happens only on a tick that ends a session; the count rises by one exactly when there is an export |
| `Recording.IdleModeChangesNothing` | Project_Kinect/code/kinectProgram.cpp:523 | in the idle mode a tick leaves the whole session unchanged and exports nothing |
| `Recording.StartTickAppendsFirstSample` | Project_Kinect/code/kinectProgram.cpp:525-612 | not stacking with a raised hand: stacking starts at this tick's time, the count is unchanged, and each collection gains this tick's sample |
| `Recording.StackingTickAppendsOne` | Project_Kinect/code/kinectProgram.cpp:600-612 | stacking with a raised hand: each collection grows by exactly this tick's sample and nothing else changes |
| `Recording.QuietTickChangesNothing` | Project_Kinect/code/kinectProgram.cpp:525-533 | not stacking and no raised hand: nothing changes |
| `Recording.StopTickClearsAndGatesExport` | Project_Kinect/code/kinectProgram.cpp:537-597 | on the stop tick stacking ends, all collections are empty and nothing is appended; the count rises by 1 iff the pre-standardization skeleton size exceeds 18 (predict) or 35 (output) and the standardized skeleton and right-hand sizes match their targets, otherwise it is unchanged; the export holds the standardized collections |
| `Recording.TickPreservesValid` | Project_Kinect/code/kinectProgram.cpp:521-613 | every tick keeps the three collections equally long with matching timestamps, and empty outside a session |
| `Recording.StackingRunKeepsEverySample` | Project_Kinect/code/kinectProgram.cpp:600-612 | a session fed only raised-hand ticks appends every sample in order and changes nothing else |
| `Recording.GestureAccumulates` | Project_Kinect/code/kinectProgram.cpp:525-612 | from rest, k raised-hand ticks give a session that started at the first tick and holds exactly those k samples |
| `Recording.GestureSession` | Project_Kinect/code/kinectProgram.cpp:521-613 | a whole gesture from rest ends at rest with empty collections; the count rises by one iff the gesture is longer than the mode's minimum and its standardized sizes pass the gate |
| `Recording.ShortGestureIsDiscarded` | Project_Kinect/code/kinectProgram.cpp:539-596 | a gesture no longer than the mode's minimum leaves the count unchanged and the collections empty |
| `Recording.LeftHandSizeFollowsRight` | Project_Kinect/code/kinectProgram.cpp:552-554 | if standardization lengths depend only on timestamps, the gate as written equals the gate that also checks the left-hand size |
| `KinectProgram.Kinect.StopRecording` | Project_Kinect/code/kinectProgram.cpp:537-597 | the stopping branch: the new recording fields and the export are those of `Recording.Stop` of the old ones |
| `KinectProgram.Kinect.UpdateFrame` | Project_Kinect/code/kinectProgram.cpp:521-613 | the new recording fields and the export are those of `Recording.Tick`, and the session invariant is kept |
| `KinectProgram.Kinect.constructor` | Project_Kinect/code/kinectProgram.cpp:13-19 | the mode is the one given, and the recorder starts at rest with empty collections |
| `SkeletalPoints.WithDerivedPoints` | Project_Kinect/code/kinectProgram.cpp:449-505 | the table gains exactly the eleven derived slots, and every other slot is unchanged |
| `SkeletalPoints.SidePointsAreSymmetric` | Project_Kinect/code/kinectProgram.cpp:453-505 | the head side points and the mid-spine side points each straddle their landmark symmetrically, at its height and depth, two spine lengths apart |
| `SkeletalPoints.DerivedPointsLieOutward` | Project_Kinect/code/kinectProgram.cpp:450-505 | the head top is one spine length above the hair point, at its X and depth; every left side point is one spine length left of its landmark and every right one one spine length right, each at its landmark's height and depth |
| `Pixels.Less` | Project_Kinect/code/kinectProgram.cpp:1193-1199 | `operator<` is true iff no channel of the left pixel exceeds the right one |
| `Pixels.Greater` | Project_Kinect/code/kinectProgram.cpp:1201-1207 | `operator>` is true iff no channel of the left pixel is below the right one |
| `Pixels.BothHoldIffEqual` | Project_Kinect/code/kinectProgram.cpp:1193-1207 | both operators hold of a pair iff the pixels are equal, so each is reflexive (non-strict) |
| `Pixels.NoChannelAboveTransitive` | Project_Kinect/code/kinectProgram.cpp:1193-1199 | the componentwise order behind `operator<` is transitive |
| `ExportPath.NatToStringRoundTrip` | Project_Kinect/code/kinectProgram.cpp:645 | reading back the decimal digits of a natural gives the natural |
| `ExportPath.IntToString` | Project_Kinect/code/kinectProgram.cpp:645 | the decimal text of an integer is non-empty and contains neither an underscore nor a separator |
| `ExportPath.IntToStringRoundTrip` | Project_Kinect/code/kinectProgram.cpp:645 | reading back the decimal text of the label id gives the id |
| `ExportPath.LabelFolder` | Project_Kinect/code/kinectProgram.cpp:644-645 | the label folder is the data root, a separator, then the label id's text, an underscore and the label name |
| `ExportPath.SessionFolder` | Project_Kinect/code/kinectProgram.cpp:647 | the session folder is the label folder, a separator, then the date, the label id's text and the operator, joined by underscores |
| `ExportPath.ExportFolder` | Project_Kinect/code/kinectProgram.cpp:641-658 | the export folder lies under the data root and ends with a separator; it is the root's `temp/` when sending, and lies inside the label folder otherwise |
| `ExportPath.CreatedFolders` | Project_Kinect/code/kinectProgram.cpp:641-658 | one folder is created when sending and two otherwise, all of them under the data root |
| `ExportPath.FoldersCreatedOutsideIn` | Project_Kinect/code/kinectProgram.cpp:641-658 | each folder is created before any folder inside it, and the export folder is the last created folder plus a separator |
| `ExportPath.TransientFolderIsShared` | Project_Kinect/code/kinectProgram.cpp:651-658 | every transient export goes to the same folder, whatever the label, date and operator |
| `ExportPath.PersistedFolderDeterminesLabel` | Project_Kinect/code/kinectProgram.cpp:641-650 | two persisted exports under one root share a folder only if they have the same label id |

## Left out

- Sensor, SDK and COM setup and teardown, and frame acquisition (`initialize*`, `finalize`,
  `updateColor`, `updateDepth`, `updateHDFace`) are foreign API calls. Their results
  (bodies, images, timestamps) are inputs or fields.
- These floating-point numerics are left out: depth-to-intensity conversion, the FPS
  computation (`updateStatus`), hand-position smoothing (`lerp`, `findLRHandPos`), and
  the `sqrt`/`pow` head distance and spine lengths. Each body's
  head distance and the spine lengths are inputs.
- Floats are modelled as reals. Rounding, NaN and infinity are not captured. The crop
  factor `1.15f` is the exact real 1.15. `FLT_MAX` is exact, so a body at or beyond it is
  never selected, as in the code.
- `MapCameraPointToColorSpace` is the parameter `toColor`. The crop-and-`cv::resize` is
  the parameter `cropResize`. Pixel contents are opaque.
- `FrameCollection`'s `setStandard`, `stackFrame`, `clear` and `getCollectionSize` are not
  part of this model. The collections are sequences (append, empty, length). The two
  `setStandard` variants and the target sizes `FRAME_STANDARD_SIZE` and
  `IMAEG_STANDARD_FRAME_SIZE` are the fields of a `Standardization` parameter, and nothing
  is assumed about the lengths they produce.
- `save` is left out, except that the exported collections are returned as the export
  and the folder path is modelled. This covers file writes, `isFolderNotExistCreate`,
  `frameCollection.setLabel`, `toString`, the `static` message counter and console output.
  The data root, `currentDateTime()` and the label name from `LabelMapper` are parameters.
- `Project_Kinect/code/common/LabelMapper.h` declares a file-loaded lookup with no bodies.
  It is not part of this model.
- `isHandTracking` is not modelled. It checks the tracking state of the two recorded hand
  joints, and none of the modelled steps call it.
- Only the derived points of `updateSPoint` are modelled. The copies of sensor joints and
  face vertices into the table are not.
- All drawing, overlay and window code (`draw*`, `show*`, `status2string`) is display only.
- `KinectProgram.Kinect.ExtractHand`: this model does not capture a failure on an empty
  square. When the colour-space spine length times 1.15 is below one pixel, the square is
  0 by 0 and still passes the gate (`Roi.EmptySquarePassesGate`). The library resize is
  then handed an empty image, which the image library rejects with an exception. The model
  instead stores `cropResize`'s result, because the library's failure behaviour is outside
  this model.
- `BodySelection.NewIdentityIsBound` and `BodySelection.AsWrittenAgreesOnNewIdentity` assume
  that tracked bodies carry distinct tracking ids (`UniqueIds`). The sensor guarantees this;
  the code does not check it. With a repeated id, the scan can leave the tracked index on
  the earlier slot.
- `ERROR_CHECK` failures, which abort the step, are not modelled.
- The `KINECT_MODE` enumeration and the member initialisers live in a header that is not
  part of this model. The modes are taken to be exactly idle, predict and output. The
  constructor assumes a recorder at rest with a zero count.
- Tracking ids (`UINT64`) are naturals, timestamps (`TIMESPAN`) and the export count are
  unbounded integers, and overflow is not modelled.
- The face-source rebinding (`put_TrackingId`) is not modelled as an effect. It happens
  exactly when the tracker is rewritten.

## Findings

| source | as written | input that shows it | evidently intended | confidence | as-written member | corrected member |
|---|---|---|---|---|---|---|
| Project_Kinect/code/kinectProgram.cpp:1154-1169 | the identity is compared and rebound at every improvement of the running minimum, inside the scan | slot 0 tracked, id 7, 2.0 m; slot 1 tracked, id 5, 1.0 m; stored id 5, index 1, `produced` true. The scan rebinds to 7 and then back to 5, and `produced` ends false although the selected person did not change | select the closest body first, then rebind and reset `produced` once, only if its identity differs from the stored one | medium (not executed) | `BodySelection.IntermediateRebindResetsProduced` | `BodySelection.RebindOnlyOnNewIdentity` |

The corrected rule is `BodySelection.Rebind`, and `RebindOnlyOnNewIdentity` states its
property. `KinectProgram.Kinect.FindClosestBodyIntended` is the corrected selection step.
`FindClosestBody` keeps the behaviour as written. Nothing else in this model reads the
tracker fields.
