// The recorder object: the fields the per-tick logic reads and rewrites, and
// the per-tick steps that change them in place. Sensor access, coordinate
// mapping and image resizing are passed in as values or functions.
module KinectProgram {
  import opened KinectTypes
  import opened Activation
  import opened BodySelection
  import opened Roi
  import opened Recording

  class Kinect {
    var mode: KinectMode

    // Body selection
    var atLeastOneTracked: bool
    var trackingId: nat
    var trackingCount: int
    var produced: bool
    var distance: real

    // Skeleton and hands of the selected body
    var sPoints: SPointTable
    var spinePx: real
    var spinePxColorSpaceVersion: real
    var lHandPos: CameraPoint
    var rHandPos: CameraPoint
    var leftHandActivated: bool
    var rightHandActivated: bool

    // Images of the current tick and the latest hand crops
    var colorMat: Mat
    var depthMat: Mat
    var lHandImage: Mat
    var rHandImage: Mat
    var lastFrameRelativeTime: int

    // Recording session
    var frameStacking: bool
    var recordStartTime: int
    var recorded: int
    var frameCollection: seq<Frame>
    var lhandCollection: seq<ImageFrame>
    var rhandCollection: seq<ImageFrame>

    /** The recording fields as one value. */
    function RecordingState(): Session
      reads this
    {
      Session(frameStacking, recordStartTime, recorded, frameCollection, lhandCollection, rhandCollection)
    }

    /** What the recorder samples on this tick. */
    function CurrentSample(): Sample
      reads this
    {
      Sample(lHandPos, rHandPos, sPoints, leftHandActivated, rightHandActivated, lastFrameRelativeTime,
             lHandImage, rHandImage)
    }

    constructor (m: KinectMode)
      ensures mode == m
      ensures RecordingState() == Session(false, 0, 0, [], [], [])
      ensures Recording.Valid(RecordingState())
    {
      mode := m;
      frameStacking := false;
      recordStartTime := 0;
      recorded := 0;
      frameCollection := [];
      lhandCollection := [];
      rhandCollection := [];
    }

    /** The hand-activation block of the body update: each flag from its own wrist. */
    method UpdateHandActivation()
      requires HasActivationSlots(sPoints)
      modifies this`leftHandActivated, this`rightHandActivated
      ensures (leftHandActivated, rightHandActivated) == Activations(sPoints, spinePx)
    {
      if sPoints[BodyWristLeft].Y > sPoints[BodySpineBase].Y + spinePx / 2.0 {
        leftHandActivated := true;
      } else {
        leftHandActivated := false;
      }
      if sPoints[BodyWristRight].Y > sPoints[BodySpineBase].Y + spinePx / 2.0 {
        rightHandActivated := true;
      } else {
        rightHandActivated := false;
      }
    }

    /**
     * Selects the tracked body nearest to the sensor. The flag says whether
     * any body was selected; the distance is the least head distance, of the
     * first body attaining it, and is kept from the last tick when nothing was
     * selected; the stored identity rebinds at every improvement of the
     * running minimum, as the scan function states.
     */
    method FindClosestBody(bodies: seq<Body>)
      requires |bodies| == BodyCount
      modifies this`atLeastOneTracked, this`trackingId, this`trackingCount, this`produced, this`distance
      ensures ScanPrefix(Tracker(old(trackingId), old(trackingCount), old(produced)), bodies, |bodies|)
        == ScanState(if atLeastOneTracked then distance else FltMax, atLeastOneTracked,
                     Tracker(trackingId, trackingCount, produced))
      ensures atLeastOneTracked <==> Winner(bodies, |bodies|) >= 0
      ensures atLeastOneTracked <==> exists j :: 0 <= j < |bodies| && Eligible(bodies[j])
      ensures var w := Winner(bodies, |bodies|);
        atLeastOneTracked ==> distance == bodies[w].headDistance && trackingId == bodies[w].trackingId
      ensures !atLeastOneTracked ==>
        distance == old(distance) && trackingId == old(trackingId) &&
        trackingCount == old(trackingCount) && produced == old(produced)
    {
      ghost var start := Tracker(trackingId, trackingCount, produced);
      var closestDistance := FltMax;
      atLeastOneTracked := false;
      for count := 0 to BodyCount
        invariant ScanPrefix(start, bodies, count)
          == ScanState(closestDistance, atLeastOneTracked, Tracker(trackingId, trackingCount, produced))
        invariant distance == old(distance)
      {
        var body := bodies[count];
        if !body.tracked {
          continue;
        }
        if !body.headTracked {
          continue;
        }
        var d := body.headDistance;
        if closestDistance <= d {
          continue;
        }
        closestDistance := d;
        atLeastOneTracked := true;
        if trackingId == body.trackingId {
          continue;
        }
        trackingId := body.trackingId;
        trackingCount := count;
        produced := false;
      }
      if atLeastOneTracked {
        distance := closestDistance;
      }
      ScanSelectsWinner(start, bodies, |bodies|);
      WinnerIsFirstMinimum(bodies, |bodies|);
    }

    /**
     * The selection with the rebinding done once, after the scan: the tracked
     * identity, index and `produced` flag change only when the selected body's
     * identity differs from the stored one.
     */
    method FindClosestBodyIntended(bodies: seq<Body>)
      requires |bodies| == BodyCount
      modifies this`atLeastOneTracked, this`trackingId, this`trackingCount, this`produced, this`distance
      ensures atLeastOneTracked <==> Winner(bodies, |bodies|) >= 0
      ensures Tracker(trackingId, trackingCount, produced)
        == Rebind(Tracker(old(trackingId), old(trackingCount), old(produced)), bodies)
      ensures distance == if atLeastOneTracked then bodies[Winner(bodies, |bodies|)].headDistance else old(distance)
    {
      var closestDistance := FltMax;
      var best := -1;
      atLeastOneTracked := false;
      for count := 0 to BodyCount
        invariant best == Winner(bodies, count)
        invariant closestDistance == if best >= 0 then bodies[best].headDistance else FltMax
        invariant atLeastOneTracked <==> best >= 0
        invariant distance == old(distance)
        invariant Tracker(trackingId, trackingCount, produced) == Tracker(old(trackingId), old(trackingCount), old(produced))
      {
        var body := bodies[count];
        if !body.tracked || !body.headTracked || closestDistance <= body.headDistance {
          continue;
        }
        closestDistance := body.headDistance;
        atLeastOneTracked := true;
        best := count;
      }
      if atLeastOneTracked {
        distance := closestDistance;
        if trackingId != bodies[best].trackingId {
          trackingId := bodies[best].trackingId;
          trackingCount := best;
          produced := false;
        }
      }
    }

    /** The crop rectangle for a hand at camera position `hand`. */
    function HandRoi(toColor: CameraPoint -> PixelPoint, hand: CameraPoint): (r: Rect)
      reads this
      ensures r.width == r.height
      ensures spinePxColorSpaceVersion >= 0.0 ==>
        r.width as real <= spinePxColorSpaceVersion * CropScale < r.width as real + 1.0
      ensures var left := toColor(hand).X - spinePxColorSpaceVersion * CropScale / 2.0;
        left - 1.0 < r.x as real < left + 1.0
      ensures var top := toColor(hand).Y - spinePxColorSpaceVersion * CropScale / 2.0;
        top - 1.0 < r.y as real < top + 1.0
    {
      RoiFor(toColor(hand), spinePxColorSpaceVersion)
    }

    /**
     * Crops both hands out of the colour image. Nothing happens when no body
     * is tracked or either source image is empty; otherwise each hand's crop
     * is replaced exactly when its rectangle lies inside the image.
     */
    method ExtractHand(toColor: CameraPoint -> PixelPoint, cropResize: (Mat, Rect) -> Mat)
      modifies this`lHandImage, this`rHandImage
      ensures var active := atLeastOneTracked && colorMat.rows != 0 && depthMat.rows != 0;
        lHandImage == (if active then HandCrop(old(lHandImage), colorMat, HandRoi(toColor, lHandPos), cropResize)
                       else old(lHandImage)) &&
        rHandImage == (if active then HandCrop(old(rHandImage), colorMat, HandRoi(toColor, rHandPos), cropResize)
                       else old(rHandImage))
    {
      if !atLeastOneTracked {
        return;
      }
      if colorMat.rows == 0 {
        return;
      }
      if depthMat.rows == 0 {
        return;
      }
      var srcMat := colorMat;
      var px := spinePxColorSpaceVersion;
      var width := px * CropScale;
      var height := px * CropScale;
      var hWidth := width / 2.0;
      var hHeight := height / 2.0;
      for i := 0 to 2
        invariant lHandImage == if i >= 1 then HandCrop(old(lHandImage), colorMat, HandRoi(toColor, lHandPos), cropResize)
                                else old(lHandImage)
        invariant rHandImage == if i >= 2 then HandCrop(old(rHandImage), colorMat, HandRoi(toColor, rHandPos), cropResize)
                                else old(rHandImage)
      {
        var camHandPos := if i == 0 then lHandPos else rHandPos;
        var handPos := toColor(camHandPos);
        var roi := Rect(TruncateTowardZero(handPos.X - hWidth), TruncateTowardZero(handPos.Y - hHeight),
                        TruncateTowardZero(width), TruncateTowardZero(height));
        assert roi == HandRoi(toColor, camHandPos);
        if 0 <= roi.x && 0 <= roi.width && roi.x + roi.width <= srcMat.cols &&
           0 <= roi.y && 0 <= roi.height && roi.y + roi.height <= srcMat.rows {
          var resized := cropResize(srcMat, roi);
          if i == 0 {
            lHandImage := resized;
          } else {
            rHandImage := resized;
          }
        }
      }
    }

    /**
     * The stopping branch of a tick: standardize and export the collections
     * when the session was long enough and the sizes pass the check, then
     * clear them and leave stacking.
     */
    method StopRecording(std: Standardization) returns (exported: Option<Export>)
      requires mode != Idle
      modifies this`frameStacking, this`recorded, this`frameCollection, this`lhandCollection, this`rhandCollection
      ensures Outcome(RecordingState(), exported) == Stop(mode, old(RecordingState()), std)
    {
      exported := None;
      var needStackedCnt := if mode == Predict then 18 else 35;
      if |frameCollection| > needStackedCnt {
        match mode {
          case Predict =>
            frameCollection := std.frames(frameCollection, recordStartTime);
            rhandCollection := std.images(rhandCollection, recordStartTime);
            lhandCollection := std.images(lhandCollection, recordStartTime);
            if |frameCollection| == std.frameSize && |rhandCollection| == std.imageSize &&
               |rhandCollection| == std.imageSize {
              exported := Some(Export(true, frameCollection, lhandCollection, rhandCollection));
              recorded := recorded + 1;
            }
          case Output =>
            frameCollection := std.frames(frameCollection, recordStartTime);
            rhandCollection := std.images(rhandCollection, recordStartTime);
            lhandCollection := std.images(lhandCollection, recordStartTime);
            if |frameCollection| == std.frameSize && |rhandCollection| == std.imageSize &&
               |rhandCollection| == std.imageSize {
              exported := Some(Export(false, frameCollection, lhandCollection, rhandCollection));
              recorded := recorded + 1;
            }
        }
      }
      frameStacking := false;
      frameCollection := [];
      rhandCollection := [];
      lhandCollection := [];
    }

    /**
     * One tick of the recording state machine. The new recording fields and
     * the export, if any, are those of Tick; the tick keeps the session
     * invariant.
     */
    method UpdateFrame(std: Standardization) returns (exported: Option<Export>)
      modifies this`frameStacking, this`recordStartTime, this`recorded,
               this`frameCollection, this`lhandCollection, this`rhandCollection
      ensures Tick(mode, old(RecordingState()), CurrentSample(), std) == Outcome(RecordingState(), exported)
      ensures Recording.Valid(old(RecordingState())) ==> Recording.Valid(RecordingState())
    {
      exported := None;
      ghost var before := RecordingState();
      if mode == Idle {
        return;
      }
      if !frameStacking {
        if leftHandActivated || rightHandActivated {
          recordStartTime := lastFrameRelativeTime;
          frameStacking := true;
        }
      } else {
        if frameStacking && (!leftHandActivated && !rightHandActivated) {
          exported := StopRecording(std);
        }
      }
      assert Outcome(RecordingState(), exported) == Transition(mode, before, CurrentSample(), std);
      if frameStacking {
        var f := FrameOf(CurrentSample());
        var l := ImageFrame(lHandImage, lastFrameRelativeTime);
        var r := ImageFrame(rHandImage, lastFrameRelativeTime);
        frameCollection := frameCollection + [f];
        lhandCollection := lhandCollection + [l];
        rhandCollection := rhandCollection + [r];
      }
      if Recording.Valid(before) {
        TickPreservesValid(mode, before, CurrentSample(), std);
      }
    }
  }
}
