/** The recorder: frames into the store, frames and events into the detector,
    markers into candidates once enough frames after them have come. */
module RecorderModel {
  import opened Prelude
  import opened Models
  import opened Metrics
  import opened DetectorModel
  import opened FrameStoreModel

  datatype RecorderConfig = RecorderConfig(store: StoreConfig, det: DetectorConfig)

  datatype Pending = Pending(marker: CandidateMarker, observedThrough: FrameId, resolveAt: nat)

  datatype Recorder = Recorder(
    store: Store,
    det: Detector,
    frameCount: nat,
    lastAnalyzed: Option<FrameId>,
    pending: seq<Pending>,
    candidates: seq<CandidateStep>,
    nextCandidateId: CandidateId)

  const NEW_RECORDER := Recorder(EMPTY_STORE, NEW_DETECTOR, 0, None, [], [], 1)

  function RemainingAfterFrames(center: FrameId, observedThrough: FrameId, windowAfter: nat): nat {
    Monus(windowAfter, Monus(observedThrough, center))
  }

  function QueueMarker(r: Recorder, cfg: RecorderConfig, m: CandidateMarker, observed: FrameId, finishing: bool): Recorder {
    var remaining := if finishing then 0 else RemainingAfterFrames(m.centerId, observed, cfg.store.windowAfter);
    r.(pending := r.pending + [Pending(m, observed, r.frameCount + remaining)])
  }

  function QueueEmitted(r: Recorder, cfg: RecorderConfig, m: Option<CandidateMarker>, finishing: bool): Recorder {
    match m
    case None => r
    case Some(marker) => QueueMarker(r, cfg, marker, r.lastAnalyzed.GetOr(marker.centerId), finishing)
  }

  /** One queued analysis frame, taken and shown to the detector. */
  function AnalyzeOne(r: Recorder, cfg: RecorderConfig, finishing: bool): Recorder
    requires r.store.analysis != []
  {
    var frame := r.store.analysis[0];
    var e := ObserveFrame(r.det, cfg.det, frame);
    QueueEmitted(r.(store := r.store.(analysis := r.store.analysis[1..]), lastAnalyzed := Some(frame.id), det := e.d),
                 cfg, e.marker, finishing)
  }

  function Analyze(r: Recorder, cfg: RecorderConfig, finishing: bool): (r': Recorder)
    ensures r'.store.analysis == []
    decreases |r.store.analysis|
  {
    if r.store.analysis == [] then r else Analyze(AnalyzeOne(r, cfg, finishing), cfg, finishing)
  }

  function Finalize(r: Recorder, cfg: RecorderConfig, p: Pending): Recorder {
    var (store, window) := RetainWindow(r.store, cfg.store, p.marker.centerId);
    if window == [] then r.(store := store)
    else
      var nearby := Nearby(cfg.store, window, p.marker.centerId);
      r.(store := store,
         candidates := r.candidates + [CandidateStep(r.nextCandidateId, p.marker.kind, p.marker.reason,
                                                     p.marker.atMs, p.marker.centerId, nearby)],
         nextCandidateId := r.nextCandidateId + 1)
  }

  /** Finalise each marker of `ps` that is due, in order; keep the others. */
  function ResolveEach(r: Recorder, cfg: RecorderConfig, ps: seq<Pending>): Recorder
    decreases |ps|
  {
    if ps == [] then r
    else if ps[0].resolveAt <= r.frameCount then ResolveEach(Finalize(r, cfg, ps[0]), cfg, ps[1..])
    else ResolveEach(r.(pending := r.pending + [ps[0]]), cfg, ps[1..])
  }

  function ResolveReady(r: Recorder, cfg: RecorderConfig): Recorder {
    ResolveEach(r.(pending := []), cfg, r.pending)
  }

  function FinalizeEach(r: Recorder, cfg: RecorderConfig, ps: seq<Pending>): Recorder
    decreases |ps|
  {
    if ps == [] then r else FinalizeEach(Finalize(r, cfg, ps[0]), cfg, ps[1..])
  }

  function LumaOf(cfg: RecorderConfig, image: RgbaImage): LumaPlane {
    if image.Valid() then Downsampled(image, cfg.store.analysisWidth) else NO_PLANE
  }

  function IngestFrame(r: Recorder, cfg: RecorderConfig, image: RgbaImage, at: Millis): Recorder {
    var stored := r.(store := Ingest(r.store, cfg.store, image, LumaOf(cfg, image), at), frameCount := r.frameCount + 1);
    ResolveReady(Analyze(stored, cfg, false), cfg)
  }

  function IngestEvent(r: Recorder, cfg: RecorderConfig, ev: TimedSemanticAction): Recorder {
    var e := ObserveEvent(r.det, cfg.det, ev);
    QueueEmitted(r.(det := e.d), cfg, e.marker, false)
  }

  function FinishRecording(r: Recorder, cfg: RecorderConfig): Recorder {
    var drained := Analyze(r, cfg, true);
    var e := Finish(drained.det, cfg.det);
    var queued := QueueEmitted(drained.(det := e.d), cfg, e.marker, true);
    FinalizeEach(queued.(pending := []), cfg, queued.pending)
  }

  // ---------------------------------------------------------------- runs

  datatype Input = FrameInput(image: RgbaImage, atMs: Millis) | EventInput(ev: TimedSemanticAction) {
    function Time(): Millis { if FrameInput? then atMs else ev.atMs }
  }

  function InputStep(r: Recorder, cfg: RecorderConfig, input: Input): Recorder {
    match input
    case FrameInput(image, at) => IngestFrame(r, cfg, image, at)
    case EventInput(ev) => IngestEvent(r, cfg, ev)
  }

  function Record(cfg: RecorderConfig, inputs: seq<Input>): Recorder {
    if inputs == [] then NEW_RECORDER
    else InputStep(Record(cfg, inputs[..|inputs| - 1]), cfg, inputs[|inputs| - 1])
  }

  /** A finished recording: its candidates and the frames it retained. */
  function Recording(cfg: RecorderConfig, inputs: seq<Input>): Recorder {
    FinishRecording(Record(cfg, inputs), cfg)
  }
}
