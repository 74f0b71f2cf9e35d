/** Whole detector runs: what it emits, when, and about which frames. */
module DetectorRuns {
  import opened Prelude
  import opened Models
  import opened Metrics
  import opened DetectorModel
  import opened DetectorInvariant

  /** What reaches the detector: planes of frames, and semantic events. */
  datatype Feed = FrameFeed(luma: LumaPlane, atMs: Millis) | EventFeed(ev: TimedSemanticAction) {
    function Time(): Millis { if FrameFeed? then atMs else ev.atMs }
  }

  /** A marker, the last frame observed when it was emitted, whether an event
      emitted it, and the time of the call that did. */
  datatype Emission = Emission(marker: CandidateMarker, observed: FrameId, byEvent: bool, decidedAt: Millis)

  /** A run so far: the detector, the times of the frames, and what came out. */
  datatype DetectorRun = DetectorRun(d: Detector, times: seq<Millis>, out: seq<Emission>)

  const NEW_RUN := DetectorRun(NEW_DETECTOR, [], [])

  /** The marker of a call, with the last of the `seen` frames as observed. */
  function Emitted(marker: Option<CandidateMarker>, seen: nat, byEvent: bool, at: Millis): seq<Emission> {
    if marker.Some? then [Emission(marker.value, Monus(seen, 1), byEvent, at)] else []
  }

  function RunStep(r: DetectorRun, cfg: DetectorConfig, feed: Feed): DetectorRun {
    match feed
    case FrameFeed(luma, at) =>
      var e := ObserveFrame(r.d, cfg, AnalysisFrame(|r.times|, at, luma));
      DetectorRun(e.d, r.times + [at], r.out + Emitted(e.marker, |r.times| + 1, false, at))
    case EventFeed(ev) =>
      var e := ObserveEvent(r.d, cfg, ev);
      DetectorRun(e.d, r.times, r.out + Emitted(e.marker, |r.times|, true, ev.atMs))
  }

  function RunDetector(cfg: DetectorConfig, feeds: seq<Feed>): DetectorRun {
    if feeds == [] then NEW_RUN
    else RunStep(RunDetector(cfg, feeds[..|feeds| - 1]), cfg, feeds[|feeds| - 1])
  }

  /** Everything a whole recording emits, the flush at its end included. */
  function FinishedEmissions(r: DetectorRun, cfg: DetectorConfig): seq<Emission> {
    var last := if r.d.lastFrame.Some? then r.d.lastFrame.value.1 else 0;
    r.out + Emitted(Finish(r.d, cfg).marker, |r.times|, false, last)
  }

  // ---------------------------------------------------- centres and frames

  /** The first frame after the last emission. */
  function Spent(out: seq<Emission>): nat { if out == [] then 0 else out[|out| - 1].observed + 1 }

  /** An emission's centre is a frame it has seen, at that frame's own time. */
  predicate Anchored(e: Emission, times: seq<Millis>) {
    e.marker.centerId <= e.observed < |times| && e.marker.atMs == times[e.marker.centerId]
  }

  predicate RunOk(r: DetectorRun) {
    && DetectorOk(r.d, r.times, Spent(r.out))
    && (forall i | 0 <= i < |r.out| :: Anchored(r.out[i], r.times))
    && (forall i, j | 0 <= i < j < |r.out| :: r.out[i].observed < r.out[j].marker.centerId)
  }

  lemma OutExtends(r: DetectorRun, times': seq<Millis>, e: Emission)
    requires RunOk(r) && r.times <= times'
    requires Spent(r.out) <= e.marker.centerId && Anchored(e, times')
    ensures forall i | 0 <= i < |r.out + [e]| :: Anchored((r.out + [e])[i], times')
    ensures forall i, j | 0 <= i < j < |r.out + [e]| :: (r.out + [e])[i].observed < (r.out + [e])[j].marker.centerId
  {
    var out' := r.out + [e];
    forall i | 0 <= i < |out'|
      ensures Anchored(out'[i], times')
    {
      if i < |r.out| {
        assert Anchored(r.out[i], r.times);
      }
    }
    forall i, j | 0 <= i < j < |out'|
      ensures out'[i].observed < out'[j].marker.centerId
    {
      if j == |r.out| {
        ObservedBelowSpent(r, i);
      }
    }
  }

  lemma ObservedBelowSpent(r: DetectorRun, i: nat)
    requires RunOk(r) && i < |r.out|
    ensures r.out[i].observed < Spent(r.out)
  {
    if i < |r.out| - 1 {
      assert r.out[i].observed < r.out[|r.out| - 1].marker.centerId;
      assert Anchored(r.out[|r.out| - 1], r.times);
    }
  }

  /** A call that keeps the detector's invariant extends the run. */
  lemma EmittedOk(r: DetectorRun, times': seq<Millis>, e: Emit, byEvent: bool, at: Millis)
    requires RunOk(r) && r.times <= times' && Stepped(e, times', Spent(r.out))
    requires e.marker.Some? ==> |times'| > 0
    ensures RunOk(DetectorRun(e.d, times', r.out + Emitted(e.marker, |times'|, byEvent, at)))
  {
    if e.marker.Some? {
      OutExtends(r, times', Emission(e.marker.value, |times'| - 1, byEvent, at));
    } else {
      forall i | 0 <= i < |r.out|
        ensures Anchored(r.out[i], times')
      {
        assert Anchored(r.out[i], r.times);
      }
      assert r.out + Emitted(e.marker, |times'|, byEvent, at) == r.out;
    }
  }

  lemma StepOk(r: DetectorRun, cfg: DetectorConfig, feed: Feed)
    requires RunOk(r)
    ensures RunOk(RunStep(r, cfg, feed))
  {
    match feed {
      case FrameFeed(luma, at) =>
        FrameStepped(r.d, cfg, at, luma, r.times, Spent(r.out));
        EmittedOk(r, r.times + [at], ObserveFrame(r.d, cfg, AnalysisFrame(|r.times|, at, luma)), false, at);
      case EventFeed(ev) =>
        EventStepped(r.d, cfg, ev, r.times, Spent(r.out));
        EmittedOk(r, r.times, ObserveEvent(r.d, cfg, ev), true, ev.atMs);
    }
  }

  /** Every reachable detector keeps its invariant, and centres never go back:
      each marker's centre lies strictly after everything seen by the one before. */
  lemma {:induction false} RunsOk(cfg: DetectorConfig, feeds: seq<Feed>)
    ensures RunOk(RunDetector(cfg, feeds))
  {
    if feeds != [] {
      RunsOk(cfg, feeds[..|feeds| - 1]);
      StepOk(RunDetector(cfg, feeds[..|feeds| - 1]), cfg, feeds[|feeds| - 1]);
    }
  }
}
