/** The visual step detector as functions on its state, one per phase of the
    code, in the code's order. */
module DetectorModel {
  import opened Prelude
  import opened Models
  import opened Metrics

  datatype DetectorConfig = DetectorConfig(
    diffThreshold: real,
    areaThreshold: real,
    perSampleThreshold: real,
    cooldownMs: Millis,
    clickWindowMs: Millis,
    typingPauseMs: Millis,
    scrollDwellMs: Millis,
    stableFrames: nat)

  datatype AnalysisFrame = AnalysisFrame(id: FrameId, atMs: Millis, luma: LumaPlane)

  const SEMANTIC_MIN_CHANGED_SAMPLES: nat := 4
  const SEMANTIC_MIN_CHANGED_MEAN_DELTA: real := 24.0

  datatype PeakObservation = PeakObservation(id: FrameId, atMs: Millis, stats: ChangeStats)

  /** What a semantic session saw since it opened. */
  datatype SemanticWindow = SemanticWindow(
    baseline: LumaPlane, peak: Option<PeakObservation>, stable: Option<PeakObservation>)
  {
    function Observe(frame: AnalysisFrame, perSample: real, isStable: bool): SemanticWindow {
      var stats := Stats(baseline, frame.luma, None, perSample);
      if !SemanticMeaningful(stats) then this
      else
        var observation := PeakObservation(frame.id, frame.atMs, stats);
        var replace := peak.None? || stats.normalizedMeanDiff > peak.value.stats.normalizedMeanDiff;
        SemanticWindow(baseline,
                       if replace then Some(observation) else peak,
                       if isStable then Some(observation) else stable)
    }

    function Choose(): Option<PeakObservation> { if stable.Some? then stable else peak }
  }

  function NewWindow(baseline: LumaPlane): SemanticWindow { SemanticWindow(baseline, None, None) }

  predicate SemanticMeaningful(stats: ChangeStats) {
    && stats.normalizedMeanDiff > 0.0
    && stats.changedSamples >= SEMANTIC_MIN_CHANGED_SAMPLES
    && stats.changedMeanDelta >= SEMANTIC_MIN_CHANGED_MEAN_DELTA
  }

  /** Frame-to-frame motion: a meaningful difference over a meaningful area. */
  predicate Motion(a: LumaPlane, b: LumaPlane, cfg: DetectorConfig) {
    && MeanDiff(a, b, None) > cfg.diffThreshold
    && AreaRatio(a, b, None, cfg.perSampleThreshold) > cfg.areaThreshold
  }

  datatype Detector = Detector(
    prev: Option<LumaPlane>,
    baseline: Option<LumaPlane>,
    moving: bool,
    stableCount: nat,
    sawChange: bool,
    lastCandidateMs: Option<Millis>,
    lastFrame: Option<(FrameId, Millis)>,
    clickOpenUntil: Option<Millis>,
    clickWindow: Option<SemanticWindow>,
    typingWindow: Option<SemanticWindow>,
    scrollWindow: Option<SemanticWindow>,
    inTyping: bool,
    typingLastAt: Millis,
    typingForceEnd: bool,
    inScroll: bool,
    scrollLastAt: Millis)

  const NEW_DETECTOR := Detector(
    None, None, false, 0, false, None, None, None, None, None, None, false, 0, false, false, 0)

  /** A detector and the marker a call returned, if any. */
  datatype Emit = Emit(d: Detector, marker: Option<CandidateMarker>)

  // ------------------------------------------------------------- helpers

  predicate CooldownOk(d: Detector, cfg: DetectorConfig, at: Millis) {
    d.lastCandidateMs.Some? ==> Monus(at, d.lastCandidateMs.value) >= cfg.cooldownMs
  }

  predicate MeaningfulVsBaseline(d: Detector, cfg: DetectorConfig, luma: LumaPlane) {
    d.baseline.Some? ==> Motion(d.baseline.value, luma, cfg)
  }

  function SemanticMarker(d: Detector, cfg: DetectorConfig, window: SemanticWindow, at: Millis,
                          kind: CandidateKind, reason: DetectReason): Emit {
    match window.Choose()
    case None => Emit(d, None)
    case Some(selected) =>
      if !CooldownOk(d, cfg, at) then Emit(d, None)
      else Emit(d.(lastCandidateMs := Some(at)), Some(CandidateMarker(kind, reason, selected.atMs, selected.id)))
  }

  function CloseClick(d: Detector, cfg: DetectorConfig, at: Millis): Emit {
    var closed := d.(clickOpenUntil := None, clickWindow := None);
    match d.clickWindow
    case None => Emit(closed, None)
    case Some(window) => SemanticMarker(closed, cfg, window, at, ClickStep, ClickConfirmed)
  }

  function CloseTyping(d: Detector, cfg: DetectorConfig, at: Millis, luma: LumaPlane): Emit {
    var closed := d.(typingWindow := None, inTyping := false, typingForceEnd := false,
                     sawChange := false, baseline := Some(luma));
    match d.typingWindow
    case None => Emit(closed, None)
    case Some(window) => SemanticMarker(closed, cfg, window, at, TypingStep, TypingSettled)
  }

  function CloseScroll(d: Detector, cfg: DetectorConfig, at: Millis, luma: LumaPlane): Emit {
    var closed := d.(scrollWindow := None, inScroll := false, sawChange := false, baseline := Some(luma));
    match d.scrollWindow
    case None => Emit(closed, None)
    case Some(window) => SemanticMarker(closed, cfg, window, at, ScrollStep, ScrollSettled)
  }

  // -------------------------------------------------------------- events

  /** The plane a new session compares against: the last frame, else the baseline. */
  function OpeningWindow(d: Detector): Option<SemanticWindow> {
    if d.prev.Some? then Some(NewWindow(d.prev.value))
    else if d.baseline.Some? then Some(NewWindow(d.baseline.value))
    else None
  }

  function ObserveEvent(d: Detector, cfg: DetectorConfig, ev: TimedSemanticAction): Emit {
    match ev.action
    case Click(_) =>
      if d.inTyping || d.inScroll then Emit(d, None)
      else
        var prior := CloseClick(d, cfg, ev.atMs);
        Emit(prior.d.(clickOpenUntil := Some(SatAdd64(ev.atMs, cfg.clickWindowMs)),
                      clickWindow := OpeningWindow(prior.d)),
             prior.marker)
    case TypingActivity =>
      var session :=
        if d.inTyping then d
        else d.(inScroll := false, scrollWindow := None, typingWindow := OpeningWindow(d),
                clickOpenUntil := None, clickWindow := None);
      Emit(session.(inTyping := true, typingLastAt := ev.atMs), None)
    case Key(_) =>
      if d.inTyping then Emit(d.(typingLastAt := ev.atMs, typingForceEnd := true), None) else Emit(d, None)
    case ScrollActivity =>
      var session :=
        if d.inTyping || d.inScroll then d
        else d.(scrollWindow := OpeningWindow(d), clickOpenUntil := None, clickWindow := None, inScroll := true);
      Emit(if d.inTyping then session else session.(scrollLastAt := ev.atMs), None)
  }

  // -------------------------------------------------------------- frames

  function FirstFrame(d: Detector, luma: LumaPlane): Detector {
    var w := Some(NewWindow(luma));
    d.(baseline := Some(luma), prev := Some(luma),
       clickWindow := if d.clickOpenUntil.Some? && d.clickWindow.None? then w else d.clickWindow,
       typingWindow := if d.inTyping && d.typingWindow.None? then w else d.typingWindow,
       scrollWindow := if d.inScroll && d.scrollWindow.None? then w else d.scrollWindow)
  }

  function DimensionReset(d: Detector, luma: LumaPlane): Detector {
    d.(prev := Some(luma), baseline := Some(luma), moving := false, stableCount := 0, sawChange := false,
       clickOpenUntil := None, clickWindow := None,
       inTyping := false, typingForceEnd := false, typingWindow := None,
       inScroll := false, scrollWindow := None)
  }

  /** Movement bookkeeping; the flag says whether the view settled on this frame. */
  function Bookkeep(d: Detector, cfg: DetectorConfig, luma: LumaPlane): (Detector, bool) {
    var changed := d.prev.Some? && Motion(d.prev.value, luma, cfg);
    var moved := d.(prev := Some(luma));
    if changed then (moved.(moving := true, sawChange := true, stableCount := 0), false)
    else if d.moving then
      var count := d.stableCount + 1;
      (moved.(stableCount := count, moving := count < cfg.stableFrames), count >= cfg.stableFrames)
    else (moved, false)
  }

  function ObserveWindow(w: Option<SemanticWindow>, d: Detector, cfg: DetectorConfig, frame: AnalysisFrame)
    : Option<SemanticWindow>
  {
    if w.Some? then Some(w.value.Observe(frame, cfg.perSampleThreshold, !d.moving)) else None
  }

  /** The click window on one frame: past its deadline it closes, at its deadline
      it observes and closes, before its deadline it observes. */
  function ClickLifecycle(d: Detector, cfg: DetectorConfig, frame: AnalysisFrame): Emit {
    if d.clickOpenUntil.Some? && frame.atMs > d.clickOpenUntil.value then CloseClick(d, cfg, frame.atMs)
    else
      var seen := d.(clickWindow := ObserveWindow(d.clickWindow, d, cfg, frame));
      if d.clickOpenUntil == Some(frame.atMs) then CloseClick(seen, cfg, frame.atMs) else Emit(seen, None)
  }

  function OwnerObserves(d: Detector, cfg: DetectorConfig, frame: AnalysisFrame): Detector {
    if d.inTyping then d.(typingWindow := ObserveWindow(d.typingWindow, d, cfg, frame))
    else if d.inScroll then d.(scrollWindow := ObserveWindow(d.scrollWindow, d, cfg, frame))
    else d
  }

  predicate ClickWithin(d: Detector, at: Millis) { d.clickOpenUntil.Some? && at <= d.clickOpenUntil.value }

  /** The generic settle: a click if one is open, otherwise a plain visual change. */
  function Settle(d: Detector, cfg: DetectorConfig, frame: AnalysisFrame): Emit {
    var meaningful := MeaningfulVsBaseline(d, cfg, frame.luma);
    var rebased := d.(baseline := Some(frame.luma), sawChange := false);
    if meaningful && CooldownOk(rebased, cfg, frame.atMs) then
      var timed := rebased.(lastCandidateMs := Some(frame.atMs));
      if ClickWithin(timed, frame.atMs) then
        Emit(timed.(clickOpenUntil := None, clickWindow := None),
             Some(CandidateMarker(ClickStep, ClickConfirmed, frame.atMs, frame.id)))
      else Emit(timed, Some(CandidateMarker(UiChanged, VisualChange, frame.atMs, frame.id)))
    else Emit(rebased, None)
  }

  /** Everything after the click lifecycle produced no marker. */
  function Decide(d: Detector, cfg: DetectorConfig, frame: AnalysisFrame, settled: bool): Emit {
    var seen := OwnerObserves(d, cfg, frame);
    if seen.inTyping && Monus(frame.atMs, seen.typingLastAt) >= cfg.typingPauseMs then
      CloseTyping(seen, cfg, frame.atMs, frame.luma)
    else if seen.inScroll && Monus(frame.atMs, seen.scrollLastAt) >= cfg.scrollDwellMs then
      CloseScroll(seen, cfg, frame.atMs, frame.luma)
    else if settled && !seen.inTyping && !seen.inScroll then Settle(seen, cfg, frame)
    else if settled then Emit(seen.(baseline := Some(frame.luma), sawChange := false), None)
    else Emit(seen, None)
  }

  /** Everything after the movement bookkeeping. */
  function CloseOrDecide(d: Detector, cfg: DetectorConfig, frame: AnalysisFrame, settled: bool): Emit {
    if d.inTyping && (d.typingForceEnd || Monus(frame.atMs, d.typingLastAt) > cfg.typingPauseMs) then
      CloseTyping(d, cfg, frame.atMs, frame.luma)
    else if d.inScroll && Monus(frame.atMs, d.scrollLastAt) > cfg.scrollDwellMs then
      CloseScroll(d, cfg, frame.atMs, frame.luma)
    else
      var clicked := ClickLifecycle(d, cfg, frame);
      if clicked.marker.Some? then clicked else Decide(clicked.d, cfg, frame, settled)
  }

  function ObserveFrame(d: Detector, cfg: DetectorConfig, frame: AnalysisFrame): Emit {
    var dated := d.(lastFrame := Some((frame.id, frame.atMs)));
    if d.baseline.None? then Emit(FirstFrame(dated, frame.luma), None)
    else if d.prev.Some? && !d.prev.value.SameSize(frame.luma) then Emit(DimensionReset(dated, frame.luma), None)
    else
      var (moved, settled) := Bookkeep(dated, cfg, frame.luma);
      CloseOrDecide(moved, cfg, frame, settled)
  }

  // -------------------------------------------------------------- finish

  function FinishSession(d: Detector, cfg: DetectorConfig, at: Millis): Emit {
    if d.inTyping then
      var closed := d.(typingWindow := None, inTyping := false, typingForceEnd := false);
      if d.typingWindow.Some? then SemanticMarker(closed, cfg, d.typingWindow.value, at, TypingStep, TypingSettled)
      else Emit(closed, None)
    else if d.inScroll then
      var closed := d.(scrollWindow := None, inScroll := false, sawChange := false);
      if d.scrollWindow.Some? then SemanticMarker(closed, cfg, d.scrollWindow.value, at, ScrollStep, ScrollSettled)
      else Emit(closed, None)
    else if d.moving && d.sawChange && d.prev.Some? && d.lastFrame.Some? then
      var (id, last) := d.lastFrame.value;
      if MeaningfulVsBaseline(d, cfg, d.prev.value) && CooldownOk(d, cfg, last) then
        Emit(d.(moving := false, sawChange := false, lastCandidateMs := Some(last)),
             Some(CandidateMarker(UiChanged, VisualChange, last, id)))
      else Emit(d, None)
    else Emit(d, None)
  }

  function Finish(d: Detector, cfg: DetectorConfig): Emit {
    match d.lastFrame
    case None => Emit(d, None)
    case Some(last) =>
      var at := last.1;
      if d.clickOpenUntil.Some? then
        var clicked := CloseClick(d, cfg, at);
        if clicked.marker.Some? then clicked else FinishSession(clicked.d, cfg, at)
      else FinishSession(d, cfg, at)
  }
}
