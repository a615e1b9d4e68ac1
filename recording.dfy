// The recording state machine of one sensor tick, as a function of the session
// state and the tick's sample, together with the properties of whole runs.
//
// A session starts when either hand is raised, collects one skeleton frame and
// one crop per hand on every tick while it runs (the starting tick included),
// and stops when both hands are down. On the stopping tick the collections are
// standardized and exported when they were long enough; they are cleared
// whatever happens.
module Recording {
  import opened KinectTypes

  /** One skeleton sample: both hand positions, the point table, both flags, capture time. */
  datatype Frame = Frame(lHandPos: CameraPoint, rHandPos: CameraPoint, points: SPointTable,
                         leftActivated: bool, rightActivated: bool, time: int)

  /** One hand-crop sample. */
  datatype ImageFrame = ImageFrame(image: Mat, time: int)

  /**
   * The frame collections' standardization, which lies outside this model:
   * target lengths and the resampling of skeleton and image collections from
   * a start time. Nothing is assumed about the lengths they produce.
   */
  datatype Standardization = Standardization(
    frameSize: nat,
    imageSize: nat,
    frames: (seq<Frame>, int) -> seq<Frame>,
    images: (seq<ImageFrame>, int) -> seq<ImageFrame>)

  /** The recorder's fields: stacking flag, start time, export count and the three collections. */
  datatype Session = Session(stacking: bool, startTime: int, recorded: int,
                             frames: seq<Frame>, lhands: seq<ImageFrame>, rhands: seq<ImageFrame>)

  /** What one tick reads from the rest of the program. */
  datatype Sample = Sample(lHandPos: CameraPoint, rHandPos: CameraPoint, points: SPointTable,
                           leftActivated: bool, rightActivated: bool, time: int,
                           lHandImage: Mat, rHandImage: Mat)

  /** The standardized collections handed to the exporter; `sending` selects the transient destination. */
  datatype Export = Export(sending: bool, frames: seq<Frame>, lhands: seq<ImageFrame>, rhands: seq<ImageFrame>)

  datatype Outcome = Outcome(session: Session, exported: Option<Export>)

  function FrameOf(s: Sample): Frame
  {
    Frame(s.lHandPos, s.rHandPos, s.points, s.leftActivated, s.rightActivated, s.time)
  }

  function LeftImageOf(s: Sample): ImageFrame
  {
    ImageFrame(s.lHandImage, s.time)
  }

  function RightImageOf(s: Sample): ImageFrame
  {
    ImageFrame(s.rHandImage, s.time)
  }

  predicate AnyActive(s: Sample)
  {
    s.leftActivated || s.rightActivated
  }

  /** Skeleton frames a session must exceed before it is exported. */
  function MinStacked(mode: KinectMode): (m: int)
    ensures 18 <= m <= 35
    ensures m == 18 <==> mode == Predict
    ensures mode != Predict ==> m == 35
  {
    if mode == Predict then 18 else 35
  }

  /** One sample appended to each collection. */
  function Append(r: Session, s: Sample): Session
  {
    r.(frames := r.frames + [FrameOf(s)], lhands := r.lhands + [LeftImageOf(s)], rhands := r.rhands + [RightImageOf(s)])
  }

  /** The post-standardization size check as written: the right-hand size is tested twice, the left-hand size never. */
  predicate ExportGate(std: Standardization, f: seq<Frame>, lh: seq<ImageFrame>, rh: seq<ImageFrame>): (g: bool)
    ensures g <==> |f| == std.frameSize && |rh| == std.imageSize
  {
    |f| == std.frameSize && |rh| == std.imageSize && |rh| == std.imageSize
  }

  /** Standardize the three collections from the session start; export them when the gate passes. */
  function Finalize(mode: KinectMode, r: Session, std: Standardization): (e: Option<Export>)
    ensures e.Some? <==> ExportGate(std, std.frames(r.frames, r.startTime), std.images(r.lhands, r.startTime),
                                    std.images(r.rhands, r.startTime))
    ensures e.Some? ==>
      e.value == Export(mode == Predict, std.frames(r.frames, r.startTime), std.images(r.lhands, r.startTime),
                        std.images(r.rhands, r.startTime))
    ensures e.Some? ==> |e.value.frames| == std.frameSize && |e.value.rhands| == std.imageSize
  {
    var f := std.frames(r.frames, r.startTime);
    var rh := std.images(r.rhands, r.startTime);
    var lh := std.images(r.lhands, r.startTime);
    if ExportGate(std, f, lh, rh) then Some(Export(mode == Predict, f, lh, rh)) else None
  }

  /** The stopping transition: maybe export, then clear and leave stacking. */
  function Stop(mode: KinectMode, r: Session, std: Standardization): (o: Outcome)
    ensures o.session == Session(false, r.startTime, o.session.recorded, [], [], [])
    ensures o.exported.Some? <==> |r.frames| > MinStacked(mode) && Finalize(mode, r, std).Some?
    ensures o.session.recorded == if o.exported.Some? then r.recorded + 1 else r.recorded
  {
    var ex := if |r.frames| > MinStacked(mode) then Finalize(mode, r, std) else None;
    Outcome(Session(false, r.startTime, if ex.Some? then r.recorded + 1 else r.recorded, [], [], []), ex)
  }

  /** The start-or-stop decision of a tick in a non-idle mode, before this tick's sample is appended. */
  function Transition(mode: KinectMode, r: Session, s: Sample, std: Standardization): Outcome
  {
    if !r.stacking then
      (if AnyActive(s) then Outcome(r.(stacking := true, startTime := s.time), None) else Outcome(r, None))
    else if !AnyActive(s) then Stop(mode, r, std)
    else Outcome(r, None)
  }

  /** One tick of the recorder. */
  function Tick(mode: KinectMode, r: Session, s: Sample, std: Standardization): (o: Outcome)
    ensures mode == Idle ==> o == Outcome(r, None)
    ensures mode != Idle ==> (o.session.stacking <==> AnyActive(s))
    ensures o.exported.Some? ==> mode != Idle && r.stacking && !AnyActive(s)
    ensures o.session.recorded == if o.exported.Some? then r.recorded + 1 else r.recorded
  {
    if mode == Idle then Outcome(r, None)
    else
      var o := Transition(mode, r, s, std);
      if o.session.stacking then Outcome(Append(o.session, s), o.exported) else o
  }

  /** The session invariant: parallel collections of equal length sharing timestamps, empty between sessions. */
  ghost predicate Valid(r: Session)
  {
    |r.frames| == |r.lhands| == |r.rhands| &&
    (!r.stacking ==> r.frames == []) &&
    (forall i :: 0 <= i < |r.frames| ==> r.lhands[i].time == r.frames[i].time && r.rhands[i].time == r.frames[i].time)
  }

  // ---------------------------------------------------------------------------
  // Single ticks

  /** In the idle mode a tick changes nothing and exports nothing. */
  lemma IdleModeChangesNothing(r: Session, s: Sample, std: Standardization)
    ensures Tick(Idle, r, s, std) == Outcome(r, None)
  {
  }

  /** A raised hand starts a session: start time recorded and the first sample already appended. */
  lemma StartTickAppendsFirstSample(mode: KinectMode, r: Session, s: Sample, std: Standardization)
    requires mode != Idle && !r.stacking && AnyActive(s)
    ensures var o := Tick(mode, r, s, std);
      o.exported == None &&
      o.session.stacking && o.session.startTime == s.time && o.session.recorded == r.recorded &&
      o.session.frames == r.frames + [FrameOf(s)] &&
      o.session.lhands == r.lhands + [LeftImageOf(s)] &&
      o.session.rhands == r.rhands + [RightImageOf(s)]
  {
  }

  /** While stacking with a raised hand, each collection grows by exactly this tick's sample. */
  lemma StackingTickAppendsOne(mode: KinectMode, r: Session, s: Sample, std: Standardization)
    requires mode != Idle && r.stacking && AnyActive(s)
    ensures Tick(mode, r, s, std) == Outcome(Append(r, s), None)
  {
  }

  /** Without a session and without a raised hand, nothing changes. */
  lemma QuietTickChangesNothing(mode: KinectMode, r: Session, s: Sample, std: Standardization)
    requires !r.stacking && !AnyActive(s)
    ensures Tick(mode, r, s, std) == Outcome(r, None)
  {
  }

  /**
   * The stopping tick: stacking ends, the collections are emptied and no
   * sample is appended; the export count grows by one exactly when the
   * session exceeded the mode's minimum and the standardized sizes pass the
   * gate, and the exported collections are the standardized ones.
   */
  lemma StopTickClearsAndGatesExport(mode: KinectMode, r: Session, s: Sample, std: Standardization)
    requires mode != Idle && r.stacking && !AnyActive(s)
    ensures var o := Tick(mode, r, s, std);
      var f := std.frames(r.frames, r.startTime);
      var lh := std.images(r.lhands, r.startTime);
      var rh := std.images(r.rhands, r.startTime);
      var ok := |r.frames| > MinStacked(mode) && ExportGate(std, f, lh, rh);
      !o.session.stacking && o.session.frames == [] && o.session.lhands == [] && o.session.rhands == [] &&
      o.session.startTime == r.startTime &&
      o.session.recorded == (if ok then r.recorded + 1 else r.recorded) &&
      (o.exported.Some? <==> ok) &&
      (ok ==> o.exported == Some(Export(mode == Predict, f, lh, rh)))
  {
  }

  /** Every tick keeps the session invariant. */
  lemma TickPreservesValid(mode: KinectMode, r: Session, s: Sample, std: Standardization)
    requires Valid(r)
    ensures Valid(Tick(mode, r, s, std).session)
  {
    var o := Tick(mode, r, s, std);
    if mode != Idle && o.session.stacking {
      var before := if r.stacking then r else r.(stacking := true, startTime := s.time);
      assert o.session == Append(before, s);
      var n := |before.frames|;
      forall i | 0 <= i < n + 1
        ensures o.session.lhands[i].time == o.session.frames[i].time
        ensures o.session.rhands[i].time == o.session.frames[i].time
      {
        if i < n {
          assert o.session.frames[i] == before.frames[i];
          assert o.session.lhands[i] == before.lhands[i];
          assert o.session.rhands[i] == before.rhands[i];
        }
      }
    }
  }

  // ---------------------------------------------------------------------------
  // Runs of ticks

  /** The session after processing `ins` tick by tick. */
  function Run(mode: KinectMode, r: Session, ins: seq<Sample>, std: Standardization): Session
    decreases |ins|
  {
    if ins == [] then r else Run(mode, Tick(mode, r, ins[0], std).session, ins[1..], std)
  }

  function FramesOf(ins: seq<Sample>): (fs: seq<Frame>)
    ensures |fs| == |ins|
  {
    if ins == [] then [] else [FrameOf(ins[0])] + FramesOf(ins[1..])
  }

  function LeftImagesOf(ins: seq<Sample>): (ls: seq<ImageFrame>)
    ensures |ls| == |ins|
  {
    if ins == [] then [] else [LeftImageOf(ins[0])] + LeftImagesOf(ins[1..])
  }

  function RightImagesOf(ins: seq<Sample>): (rs: seq<ImageFrame>)
    ensures |rs| == |ins|
  {
    if ins == [] then [] else [RightImageOf(ins[0])] + RightImagesOf(ins[1..])
  }

  predicate AllActive(ins: seq<Sample>)
  {
    forall i :: 0 <= i < |ins| ==> AnyActive(ins[i])
  }

  /** Running a concatenation is running its parts one after the other. */
  lemma {:induction false} RunConcat(mode: KinectMode, r: Session, a: seq<Sample>, b: seq<Sample>, std: Standardization)
    ensures Run(mode, r, a + b, std) == Run(mode, Run(mode, r, a, std), b, std)
    decreases |a|
  {
    if a == [] {
      assert a + b == b;
    } else {
      assert (a + b)[1..] == a[1..] + b;
      RunConcat(mode, Tick(mode, r, a[0], std).session, a[1..], b, std);
    }
  }

  /** A running session fed only raised-hand samples keeps every sample, in order, and nothing else changes. */
  lemma {:induction false} StackingRunKeepsEverySample(mode: KinectMode, r: Session, ins: seq<Sample>, std: Standardization)
    requires mode != Idle && r.stacking && AllActive(ins)
    ensures Run(mode, r, ins, std) ==
      r.(frames := r.frames + FramesOf(ins), lhands := r.lhands + LeftImagesOf(ins), rhands := r.rhands + RightImagesOf(ins))
    decreases |ins|
  {
    if ins == [] {
      assert r.frames + [] == r.frames && r.lhands + [] == r.lhands && r.rhands + [] == r.rhands;
    } else {
      StackingTickAppendsOne(mode, r, ins[0], std);
      var r1 := Append(r, ins[0]);
      assert Run(mode, r, ins, std) == Run(mode, r1, ins[1..], std);
      StackingRunKeepsEverySample(mode, r1, ins[1..], std);
      AppendFirstSample(r, ins);
    }
  }

  /** Appending the first sample and then the rest is appending them all. */
  lemma AppendFirstSample(r: Session, ins: seq<Sample>)
    requires |ins| >= 1
    ensures var r1 := Append(r, ins[0]);
      r.frames + FramesOf(ins) == r1.frames + FramesOf(ins[1..]) &&
      r.lhands + LeftImagesOf(ins) == r1.lhands + LeftImagesOf(ins[1..]) &&
      r.rhands + RightImagesOf(ins) == r1.rhands + RightImagesOf(ins[1..])
  {
    assert FramesOf(ins) == [FrameOf(ins[0])] + FramesOf(ins[1..]);
    assert LeftImagesOf(ins) == [LeftImageOf(ins[0])] + LeftImagesOf(ins[1..]);
    assert RightImagesOf(ins) == [RightImageOf(ins[0])] + RightImagesOf(ins[1..]);
    SeqAppendAssoc(r.frames, [FrameOf(ins[0])], FramesOf(ins[1..]));
    SeqAppendAssoc(r.lhands, [LeftImageOf(ins[0])], LeftImagesOf(ins[1..]));
    SeqAppendAssoc(r.rhands, [RightImageOf(ins[0])], RightImagesOf(ins[1..]));
  }

  lemma SeqAppendAssoc<T>(a: seq<T>, b: seq<T>, c: seq<T>)
    ensures a + (b + c) == (a + b) + c
  {
  }

  /** From rest, k >= 1 raised-hand ticks give a session started at the first sample holding exactly those k samples. */
  lemma GestureAccumulates(mode: KinectMode, r: Session, ins: seq<Sample>, std: Standardization)
    requires mode != Idle && Valid(r) && !r.stacking
    requires |ins| >= 1 && AllActive(ins)
    ensures Run(mode, r, ins, std) ==
      Session(true, ins[0].time, r.recorded, FramesOf(ins), LeftImagesOf(ins), RightImagesOf(ins))
  {
    StartTickAppendsFirstSample(mode, r, ins[0], std);
    var r1 := Tick(mode, r, ins[0], std).session;
    StackingRunKeepsEverySample(mode, r1, ins[1..], std);
    assert ins == [ins[0]] + ins[1..];
  }

  /**
   * A whole gesture from rest: k >= 1 raised-hand ticks and then one tick with
   * both hands down. Afterwards the recorder is at rest with empty collections,
   * and the export count grew by one exactly when k exceeds the mode's minimum
   * and the standardized sizes of the k samples pass the gate.
   */
  lemma GestureSession(mode: KinectMode, r: Session, ins: seq<Sample>, last: Sample, std: Standardization)
    requires mode != Idle && Valid(r) && !r.stacking
    requires |ins| >= 1 && AllActive(ins) && !AnyActive(last)
    ensures var after := Run(mode, r, ins + [last], std);
      var t0 := ins[0].time;
      var ok := |ins| > MinStacked(mode) &&
        ExportGate(std, std.frames(FramesOf(ins), t0), std.images(LeftImagesOf(ins), t0), std.images(RightImagesOf(ins), t0));
      !after.stacking && after.frames == [] && after.lhands == [] && after.rhands == [] &&
      after.recorded == (if ok then r.recorded + 1 else r.recorded)
  {
    RunConcat(mode, r, ins, [last], std);
    GestureAccumulates(mode, r, ins, std);
    var mid := Run(mode, r, ins, std);
    StopTickClearsAndGatesExport(mode, mid, last, std);
  }

  /** A gesture no longer than the mode's minimum is never exported. */
  lemma ShortGestureIsDiscarded(mode: KinectMode, r: Session, ins: seq<Sample>, last: Sample, std: Standardization)
    requires mode != Idle && Valid(r) && !r.stacking
    requires 1 <= |ins| <= MinStacked(mode) && AllActive(ins) && !AnyActive(last)
    ensures Run(mode, r, ins + [last], std) == Session(false, ins[0].time, r.recorded, [], [], [])
  {
    RunConcat(mode, r, ins, [last], std);
    GestureAccumulates(mode, r, ins, std);
  }

  // ---------------------------------------------------------------------------
  // The unchecked left-hand size

  function TimesOf(xs: seq<ImageFrame>): (ts: seq<int>)
    ensures |ts| == |xs|
  {
    seq(|xs|, i requires 0 <= i < |xs| => xs[i].time)
  }

  /** The image standardization's output length depends only on the timestamps it is given. */
  ghost predicate LengthByTimestamps(std: Standardization)
  {
    forall a, b, t :: TimesOf(a) == TimesOf(b) ==> |std.images(a, t)| == |std.images(b, t)|
  }

  /**
   * The gate never tests the left-hand collection, but in a valid session the
   * two hand collections carry the same timestamps, so when standardization
   * lengths depend only on timestamps the gate as written equals the gate
   * that also tests the left-hand size.
   */
  lemma LeftHandSizeFollowsRight(r: Session, std: Standardization)
    requires Valid(r) && LengthByTimestamps(std)
    ensures var f := std.frames(r.frames, r.startTime);
      var lh := std.images(r.lhands, r.startTime);
      var rh := std.images(r.rhands, r.startTime);
      ExportGate(std, f, lh, rh) <==> |f| == std.frameSize && |lh| == std.imageSize && |rh| == std.imageSize
  {
    assert TimesOf(r.lhands) == TimesOf(r.rhands);
  }
}
