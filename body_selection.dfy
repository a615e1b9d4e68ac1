// Closest-body selection: a scan over the sensor's body slots that keeps the
// tracked body whose head is nearest to the sensor, and rebinds the stored
// tracking identity when the running best belongs to another person.
module BodySelection {

  /** Number of body slots the sensor reports every frame. */
  const BodyCount: nat := 6

  /** Largest finite single-precision value; the scan's initial "closest distance". */
  const FltMax: real := 340282346638528859811704939963040014336.0

  /** One body slot: tracked flag, head-joint tracked flag, head distance from the sensor, identity. */
  datatype Body = Body(tracked: bool, headTracked: bool, headDistance: real, trackingId: nat)

  /** The identity-dependent fields the scan rewrites. */
  datatype Tracker = Tracker(trackingId: nat, trackingCount: int, produced: bool)

  /** The scan's loop state: running minimum, whether anything was selected, and the tracker. */
  datatype ScanState = ScanState(closest: real, anyTracked: bool, tracker: Tracker)

  /** A body the scan looks at: tracked, with a tracked head. */
  predicate Candidate(b: Body)
  {
    b.tracked && b.headTracked
  }

  /** A candidate that can beat the initial running minimum. */
  predicate Eligible(b: Body)
  {
    Candidate(b) && b.headDistance < FltMax
  }

  function StartScan(start: Tracker): ScanState
  {
    ScanState(FltMax, false, start)
  }

  /** One iteration of the scan, on body slot `count`. */
  function Visit(st: ScanState, b: Body, count: int): (o: ScanState)
    ensures o.closest == (if Candidate(b) && b.headDistance < st.closest then b.headDistance else st.closest)
    ensures o.anyTracked <==> st.anyTracked || o.closest < st.closest
    ensures o.tracker != st.tracker ==> o.tracker == Tracker(b.trackingId, count, false) && o.closest < st.closest
    ensures o.closest < st.closest ==>
      o.tracker == if b.trackingId == st.tracker.trackingId then st.tracker else Tracker(b.trackingId, count, false)
  {
    if !b.tracked || !b.headTracked then st
    else if st.closest <= b.headDistance then st
    else if st.tracker.trackingId == b.trackingId then ScanState(b.headDistance, true, st.tracker)
    else ScanState(b.headDistance, true, Tracker(b.trackingId, count, false))
  }

  /** The scan state after the first `n` body slots. */
  function ScanPrefix(start: Tracker, bodies: seq<Body>, n: nat): (st: ScanState)
    requires n <= |bodies|
    ensures st.closest <= FltMax
    ensures st.anyTracked <==> st.closest < FltMax
  {
    if n == 0 then StartScan(start)
    else Visit(ScanPrefix(start, bodies, n - 1), bodies[n - 1], n - 1)
  }

  /** The selected slot among the first `n`: the first eligible body of least distance, or -1. */
  function Winner(bodies: seq<Body>, n: nat): (w: int)
    requires n <= |bodies|
    ensures -1 <= w < n
    ensures w >= 0 ==> Eligible(bodies[w])
  {
    if n == 0 then -1
    else
      var w := Winner(bodies, n - 1);
      if Eligible(bodies[n - 1]) && (w < 0 || bodies[n - 1].headDistance < bodies[w].headDistance)
      then n - 1 else w
  }

  /** Distinct bodies carry distinct identities. */
  predicate UniqueIds(bodies: seq<Body>)
  {
    forall i, j :: 0 <= i < j < |bodies| && Candidate(bodies[i]) && Candidate(bodies[j]) ==>
      bodies[i].trackingId != bodies[j].trackingId
  }

  /** The winner is the first minimum over the eligible bodies, and exists iff one is eligible. */
  lemma {:induction false} WinnerIsFirstMinimum(bodies: seq<Body>, n: nat)
    requires n <= |bodies|
    ensures Winner(bodies, n) >= 0 <==> exists j :: 0 <= j < n && Eligible(bodies[j])
    ensures var w := Winner(bodies, n);
      w >= 0 ==> forall j :: 0 <= j < n && Eligible(bodies[j]) ==> bodies[w].headDistance <= bodies[j].headDistance
    ensures var w := Winner(bodies, n);
      forall j :: 0 <= j < w && Eligible(bodies[j]) ==> bodies[w].headDistance < bodies[j].headDistance
  {
    if n > 0 {
      WinnerIsFirstMinimum(bodies, n - 1);
      var w' := Winner(bodies, n - 1);
      if Winner(bodies, n) == n - 1 && w' >= 0 {
        assert bodies[n - 1].headDistance < bodies[w'].headDistance;
      }
    }
  }

  /** The scan's running minimum, flag and tracker agree with the winner. */
  lemma {:induction false} ScanSelectsWinner(start: Tracker, bodies: seq<Body>, n: nat)
    requires n <= |bodies|
    ensures var st, w := ScanPrefix(start, bodies, n), Winner(bodies, n);
      (st.anyTracked <==> w >= 0) &&
      st.closest == (if w >= 0 then bodies[w].headDistance else FltMax) &&
      (w >= 0 ==> st.tracker.trackingId == bodies[w].trackingId) &&
      (w < 0 ==> st.tracker == start)
    ensures var t := ScanPrefix(start, bodies, n).tracker;
      t == start ||
      (0 <= t.trackingCount < n && Candidate(bodies[t.trackingCount]) &&
       bodies[t.trackingCount].trackingId == t.trackingId && !t.produced)
  {
    if n > 0 {
      ScanSelectsWinner(start, bodies, n - 1);
    }
  }

  /** When the stored identity is not the winner's, the scan binds the winner and clears `produced`. */
  lemma NewIdentityIsBound(start: Tracker, bodies: seq<Body>)
    requires Winner(bodies, |bodies|) >= 0
    requires bodies[Winner(bodies, |bodies|)].trackingId != start.trackingId
    requires UniqueIds(bodies)
    ensures var t := ScanPrefix(start, bodies, |bodies|).tracker;
      t == Tracker(bodies[Winner(bodies, |bodies|)].trackingId, Winner(bodies, |bodies|), false)
  {
    ScanSelectsWinner(start, bodies, |bodies|);
    var w := Winner(bodies, |bodies|);
    var t := ScanPrefix(start, bodies, |bodies|).tracker;
    assert t != start;
    assert Candidate(bodies[w]);
  }

  /**
   * As written, the scan rebinds at every improvement of the running minimum,
   * so a farther body scanned first resets `produced` even though the stored
   * identity is that of the body finally selected.
   */
  lemma IntermediateRebindResetsProduced()
    ensures var bodies := [Body(true, true, 2.0, 7), Body(true, true, 1.0, 5)];
      Winner(bodies, 2) == 1 && bodies[1].trackingId == 5 &&
      ScanPrefix(Tracker(5, 1, true), bodies, 2).tracker == Tracker(5, 1, false)
  {
  }

  /** The intended rebinding: select first, then rebind once if the identity changed. */
  function Rebind(start: Tracker, bodies: seq<Body>): (t: Tracker)
    ensures t == start || t.trackingId != start.trackingId
    ensures t != start ==>
      0 <= t.trackingCount < |bodies| && Eligible(bodies[t.trackingCount]) &&
      bodies[t.trackingCount].trackingId == t.trackingId && !t.produced
  {
    var w := Winner(bodies, |bodies|);
    if w >= 0 && bodies[w].trackingId != start.trackingId
    then Tracker(bodies[w].trackingId, w, false)
    else start
  }

  /** The tracker changes exactly when a body is selected whose identity differs from the stored one. */
  lemma RebindOnlyOnNewIdentity(start: Tracker, bodies: seq<Body>)
    ensures var w, t := Winner(bodies, |bodies|), Rebind(start, bodies);
      (t != start <==> w >= 0 && bodies[w].trackingId != start.trackingId) &&
      (w >= 0 ==> t.trackingId == bodies[w].trackingId) &&
      (t != start ==> t.trackingCount == w && !t.produced)
  {
  }

  /** With distinct identities, the written scan and the intended rebinding agree whenever the identity changes. */
  lemma AsWrittenAgreesOnNewIdentity(start: Tracker, bodies: seq<Body>)
    requires UniqueIds(bodies)
    requires Winner(bodies, |bodies|) >= 0
    requires bodies[Winner(bodies, |bodies|)].trackingId != start.trackingId
    ensures ScanPrefix(start, bodies, |bodies|).tracker == Rebind(start, bodies)
  {
    NewIdentityIsBound(start, bodies);
  }
}
