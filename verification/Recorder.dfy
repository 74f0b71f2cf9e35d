/** The recorder as the code keeps it, owning a frame store and a detector. */
module RecorderObject {
  import opened Prelude
  import opened Models
  import opened Metrics
  import opened DetectorModel
  import opened DetectorObject
  import opened FrameStoreModel
  import opened FrameStoreObject
  import opened RecorderModel

  class ActionRecorder {
    const cfg: RecorderConfig
    const store: FrameStore
    const detector: VisualDetector
    var frameCount: nat
    var lastAnalyzed: Option<FrameId>
    var pending: seq<Pending>
    var candidates: seq<CandidateStep>
    var nextCandidateId: CandidateId

    ghost predicate Valid() {
      store.cfg == cfg.store && detector.cfg == cfg.det
    }

    function State(): Recorder
      reads this, store, detector
    {
      Recorder(store.State(), detector.State(), frameCount, lastAnalyzed, pending, candidates, nextCandidateId)
    }

    constructor (cfg: RecorderConfig)
      ensures Valid() && this.cfg == cfg && State() == NEW_RECORDER
      ensures fresh(store) && fresh(detector)
    {
      this.cfg := cfg;
      store := new FrameStore(cfg.store);
      detector := new VisualDetector(cfg.det);
      frameCount, lastAnalyzed, pending, candidates, nextCandidateId := 0, None, [], [], 1;
    }

    method QueueMarker(m: CandidateMarker, observed: FrameId, finishing: bool)
      modifies this
      ensures State() == RecorderModel.QueueMarker(old(State()), cfg, m, observed, finishing)
    {
      var remaining := if finishing then 0 else RemainingAfterFrames(m.centerId, observed, cfg.store.windowAfter);
      pending := pending + [Pending(m, observed, frameCount + remaining)];
    }

    /** One queued analysis frame goes to the detector. */
    method Show(frame: AnalysisFrame, finishing: bool)
      requires Valid()
      modifies this, detector
      ensures State() == AnalyzeOne(old(State()).(store := old(State()).store.(analysis := [frame] + old(store.analysis))),
                                    cfg, finishing)
    {
      lastAnalyzed := Some(frame.id);
      var marker := detector.ObserveFrame(frame);
      if marker.Some? {
        QueueMarker(marker.value, frame.id, finishing);
      }
    }

    /** The drain loop: every queued analysis frame goes to the detector. */
    method Analyze(finishing: bool)
      requires Valid()
      modifies this, store, detector
      ensures State() == RecorderModel.Analyze(old(State()), cfg, finishing)
    {
      ghost var goal := RecorderModel.Analyze(State(), cfg, finishing);
      var next := store.TakeAnalysis();
      while next.Some?
        invariant next.Some? ==>
            RecorderModel.Analyze(State().(store := State().store.(analysis := [next.value] + store.analysis)),
                                  cfg, finishing) == goal
        invariant next.None? ==> store.analysis == [] && State() == goal
        decreases next.Some?, |store.analysis|
      {
        Show(next.value, finishing);
        ghost var queue := store.analysis;
        next := store.TakeAnalysis();
        assert next.Some? ==> [next.value] + store.analysis == queue;
      }
    }

    method Finalize(p: Pending)
      requires Valid()
      modifies this, store
      ensures State() == RecorderModel.Finalize(old(State()), cfg, p)
    {
      var window := store.RetainWindow(p.marker.centerId);
      if window == [] {
        return;
      }
      var nearby := store.Nearby(window, p.marker.centerId);
      candidates := candidates + [CandidateStep(nextCandidateId, p.marker.kind, p.marker.reason,
                                                p.marker.atMs, p.marker.centerId, nearby)];
      nextCandidateId := nextCandidateId + 1;
    }

    method ResolveReady()
      requires Valid()
      modifies this, store
      ensures State() == RecorderModel.ResolveReady(old(State()), cfg)
    {
      ghost var goal := RecorderModel.ResolveReady(State(), cfg);
      var now := frameCount;
      var all := pending;
      pending := [];
      var i := 0;
      while i < |all|
        invariant 0 <= i <= |all| && frameCount == now
        invariant ResolveEach(State(), cfg, all[i..]) == goal
      {
        var p := all[i];
        assert all[i..][1..] == all[i + 1..];
        if p.resolveAt <= now {
          Finalize(p);
        } else {
          pending := pending + [p];
        }
        i := i + 1;
      }
    }

    method IngestFrame(image: RgbaImage, at: Millis)
      requires Valid() && image.Valid()
      modifies this, store, detector
      ensures State() == RecorderModel.IngestFrame(old(State()), cfg, image, at)
    {
      var _ := store.Ingest(image, at);
      frameCount := frameCount + 1;
      Analyze(false);
      ResolveReady();
    }

    method IngestEvent(ev: TimedSemanticAction)
      requires Valid()
      modifies this, detector
      ensures State() == RecorderModel.IngestEvent(old(State()), cfg, ev)
    {
      var marker := detector.ObserveEvent(ev);
      if marker.Some? {
        QueueMarker(marker.value, lastAnalyzed.GetOr(marker.value.centerId), false);
      }
    }

    /** The end of the recording: whatever is still pending is finalised, in order. */
    method FinalizeAll()
      requires Valid()
      modifies this, store
      ensures State() == FinalizeEach(old(State()).(pending := []), cfg, old(pending))
    {
      ghost var goal := FinalizeEach(State().(pending := []), cfg, pending);
      var all := pending;
      pending := [];
      var i := 0;
      while i < |all|
        invariant 0 <= i <= |all|
        invariant FinalizeEach(State(), cfg, all[i..]) == goal
      {
        assert all[i..][1..] == all[i + 1..];
        Finalize(all[i]);
        i := i + 1;
      }
    }

    method Finish()
      requires Valid()
      modifies this, store, detector
      ensures State() == FinishRecording(old(State()), cfg)
    {
      Analyze(true);
      var marker := detector.Finish();
      if marker.Some? {
        QueueMarker(marker.value, lastAnalyzed.GetOr(marker.value.centerId), true);
      }
      FinalizeAll();
    }
  }
}
