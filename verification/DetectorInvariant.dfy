/** What every detector state keeps: one session owner at most, planes of one
    size, and observations that are frames not yet spent on a marker. */
module DetectorInvariant {
  import opened Prelude
  import opened Models
  import opened Metrics
  import opened DetectorModel

  // -------------------------------------------------- owners and plane sizes

  predicate ClickOwns(d: Detector) { d.clickOpenUntil.Some? }

  /** At most one session is open, and a session is open exactly if its window
      exists, once there is a plane to compare with. */
  predicate OneOwner(d: Detector) {
    && !(ClickOwns(d) && d.inTyping) && !(ClickOwns(d) && d.inScroll) && !(d.inTyping && d.inScroll)
    && (d.typingForceEnd ==> d.inTyping)
    && (d.baseline.Some? <==> d.prev.Some?)
    && (if d.baseline.Some? then
          && (d.clickWindow.Some? <==> ClickOwns(d))
          && (d.typingWindow.Some? <==> d.inTyping)
          && (d.scrollWindow.Some? <==> d.inScroll)
        else d.clickWindow.None? && d.typingWindow.None? && d.scrollWindow.None?)
  }

  predicate WindowSized(w: Option<SemanticWindow>, plane: LumaPlane) {
    w.Some? ==> w.value.baseline.SameSize(plane)
  }

  /** Every plane the detector holds has the size of the previous frame's. */
  predicate OneSize(d: Detector) {
    d.prev.Some? ==>
      && (d.baseline.Some? ==> d.baseline.value.SameSize(d.prev.value))
      && WindowSized(d.clickWindow, d.prev.value)
      && WindowSized(d.typingWindow, d.prev.value)
      && WindowSized(d.scrollWindow, d.prev.value)
  }

  // ------------------------------------------------------ unspent observations

  /** `o` is frame `o.id` at its own time, and not before `lo`. */
  predicate ObservationOk(o: Option<PeakObservation>, times: seq<Millis>, lo: nat) {
    o.Some? ==> lo <= o.value.id < |times| && o.value.atMs == times[o.value.id]
  }

  predicate WindowOk(w: Option<SemanticWindow>, times: seq<Millis>, lo: nat) {
    w.Some? ==> ObservationOk(w.value.peak, times, lo) && ObservationOk(w.value.stable, times, lo)
  }

  predicate WindowsOk(d: Detector, times: seq<Millis>, lo: nat) {
    WindowOk(d.clickWindow, times, lo) && WindowOk(d.typingWindow, times, lo) && WindowOk(d.scrollWindow, times, lo)
  }

  /** The last of the frames seen so far. */
  function LastFrame(times: seq<Millis>): Option<(FrameId, Millis)> {
    if |times| == 0 then None else Some((|times| - 1, times[|times| - 1]))
  }

  /** The detector after the frames with the given times; `lo` is the first
      frame that came after the last marker. */
  predicate DetectorOk(d: Detector, times: seq<Millis>, lo: nat) {
    && OneOwner(d) && OneSize(d) && WindowsOk(d, times, lo)
    && d.lastFrame == LastFrame(times) && (d.prev.Some? <==> |times| > 0)
    && lo <= |times|
  }

  predicate MarkerOk(m: CandidateMarker, times: seq<Millis>, lo: nat) {
    lo <= m.centerId < |times| && m.atMs == times[m.centerId]
  }

  /** A call left this, on a detector that had spent the frames before `lo`:
      a marker spends everything seen so far. */
  predicate Stepped(e: Emit, times: seq<Millis>, lo: nat) {
    && (e.marker.Some? ==> MarkerOk(e.marker.value, times, lo))
    && DetectorOk(e.d, times, if e.marker.Some? then |times| else lo)
  }

  // -------------------------------------------------------------- phases

  lemma MarkerStepped(d: Detector, cfg: DetectorConfig, w: SemanticWindow, at: Millis, kind: CandidateKind,
                      reason: DetectReason, times: seq<Millis>, lo: nat)
    requires WindowOk(Some(w), times, lo)
    ensures var e := SemanticMarker(d, cfg, w, at, kind, reason);
            && e.d == d.(lastCandidateMs := e.d.lastCandidateMs)
            && (e.marker.Some? ==> MarkerOk(e.marker.value, times, lo) && e.d.lastCandidateMs == Some(at))
            && (e.marker.None? ==> e.d == d)
  {
  }

  lemma CloseClickStepped(d: Detector, cfg: DetectorConfig, at: Millis, times: seq<Millis>, lo: nat)
    requires DetectorOk(d, times, lo) && ClickOwns(d)
    ensures Stepped(CloseClick(d, cfg, at), times, lo)
    ensures var d' := CloseClick(d, cfg, at).d;
            !ClickOwns(d') && !d'.inTyping && !d'.inScroll
  {
    if d.clickWindow.Some? {
      MarkerStepped(d.(clickOpenUntil := None, clickWindow := None), cfg, d.clickWindow.value, at,
                    ClickStep, ClickConfirmed, times, lo);
    }
  }

  lemma CloseTypingStepped(d: Detector, cfg: DetectorConfig, at: Millis, luma: LumaPlane, times: seq<Millis>, lo: nat)
    requires DetectorOk(d, times, lo) && d.inTyping && d.prev == Some(luma)
    ensures Stepped(CloseTyping(d, cfg, at, luma), times, lo)
  {
    if d.typingWindow.Some? {
      MarkerStepped(d.(typingWindow := None, inTyping := false, typingForceEnd := false,
                       sawChange := false, baseline := Some(luma)), cfg, d.typingWindow.value, at,
                    TypingStep, TypingSettled, times, lo);
    }
  }

  lemma CloseScrollStepped(d: Detector, cfg: DetectorConfig, at: Millis, luma: LumaPlane, times: seq<Millis>, lo: nat)
    requires DetectorOk(d, times, lo) && d.inScroll && d.prev == Some(luma)
    ensures Stepped(CloseScroll(d, cfg, at, luma), times, lo)
  {
    if d.scrollWindow.Some? {
      MarkerStepped(d.(scrollWindow := None, inScroll := false, sawChange := false, baseline := Some(luma)),
                    cfg, d.scrollWindow.value, at, ScrollStep, ScrollSettled, times, lo);
    }
  }

  /** The frame being observed is the last one, and its plane the previous plane. */
  predicate Current(d: Detector, frame: AnalysisFrame, times: seq<Millis>) {
    |times| > 0 && frame.id == |times| - 1 && frame.atMs == times[frame.id] && d.prev == Some(frame.luma)
  }

  lemma ObserveWindowOk(w: Option<SemanticWindow>, d: Detector, cfg: DetectorConfig, frame: AnalysisFrame,
                        times: seq<Millis>, lo: nat)
    requires WindowOk(w, times, lo) && Current(d, frame, times) && lo < |times|
    ensures var w' := ObserveWindow(w, d, cfg, frame);
            && WindowOk(w', times, lo) && (w'.Some? <==> w.Some?)
            && (w.Some? ==> w'.value.baseline == w.value.baseline)
  {
  }

  lemma ClickStepped(d: Detector, cfg: DetectorConfig, frame: AnalysisFrame, times: seq<Millis>, lo: nat)
    requires DetectorOk(d, times, lo) && Current(d, frame, times) && lo < |times|
    ensures var e := ClickLifecycle(d, cfg, frame);
            && Stepped(e, times, lo) && Current(e.d, frame, times)
            && (ClickOwns(e.d) ==> ClickWithin(e.d, frame.atMs))
            && e.d.inTyping == d.inTyping && e.d.inScroll == d.inScroll
  {
    ObserveWindowOk(d.clickWindow, d, cfg, frame, times, lo);
    var seen := d.(clickWindow := ObserveWindow(d.clickWindow, d, cfg, frame));
    assert DetectorOk(seen, times, lo);
    if ClickOwns(d) {
      CloseClickStepped(d, cfg, frame.atMs, times, lo);
      CloseClickStepped(seen, cfg, frame.atMs, times, lo);
    }
  }

  lemma OwnerStepped(d: Detector, cfg: DetectorConfig, frame: AnalysisFrame, times: seq<Millis>, lo: nat)
    requires DetectorOk(d, times, lo) && Current(d, frame, times) && lo < |times|
    ensures var d' := OwnerObserves(d, cfg, frame);
            && DetectorOk(d', times, lo) && d'.prev == d.prev
            && d'.clickOpenUntil == d.clickOpenUntil
  {
    ObserveWindowOk(d.typingWindow, d, cfg, frame, times, lo);
    ObserveWindowOk(d.scrollWindow, d, cfg, frame, times, lo);
  }

  lemma SettleStepped(d: Detector, cfg: DetectorConfig, frame: AnalysisFrame, times: seq<Millis>, lo: nat)
    requires DetectorOk(d, times, lo) && Current(d, frame, times) && lo < |times|
    requires !d.inTyping && !d.inScroll && (ClickOwns(d) ==> ClickWithin(d, frame.atMs))
    ensures Stepped(Settle(d, cfg, frame), times, lo)
  {
  }

  lemma DecideStepped(d: Detector, cfg: DetectorConfig, frame: AnalysisFrame, settled: bool, times: seq<Millis>, lo: nat)
    requires DetectorOk(d, times, lo) && Current(d, frame, times) && lo < |times|
    requires ClickOwns(d) ==> ClickWithin(d, frame.atMs)
    ensures Stepped(Decide(d, cfg, frame, settled), times, lo)
  {
    OwnerStepped(d, cfg, frame, times, lo);
    var seen := OwnerObserves(d, cfg, frame);
    if seen.inTyping {
      CloseTypingStepped(seen, cfg, frame.atMs, frame.luma, times, lo);
    } else if seen.inScroll {
      CloseScrollStepped(seen, cfg, frame.atMs, frame.luma, times, lo);
    } else {
      SettleStepped(seen, cfg, frame, times, lo);
    }
  }

  lemma CloseOrDecideStepped(d: Detector, cfg: DetectorConfig, frame: AnalysisFrame, settled: bool,
                             times: seq<Millis>, lo: nat)
    requires DetectorOk(d, times, lo) && Current(d, frame, times) && lo < |times|
    ensures Stepped(CloseOrDecide(d, cfg, frame, settled), times, lo)
  {
    if d.inTyping && (d.typingForceEnd || Monus(frame.atMs, d.typingLastAt) > cfg.typingPauseMs) {
      CloseTypingStepped(d, cfg, frame.atMs, frame.luma, times, lo);
    } else if d.inScroll && Monus(frame.atMs, d.scrollLastAt) > cfg.scrollDwellMs {
      CloseScrollStepped(d, cfg, frame.atMs, frame.luma, times, lo);
    } else {
      ClickStepped(d, cfg, frame, times, lo);
      var clicked := ClickLifecycle(d, cfg, frame);
      if clicked.marker.None? {
        DecideStepped(clicked.d, cfg, frame, settled, times, lo);
      }
    }
  }

  // -------------------------------------------------------------- calls

  /** A detector that has noted the time of the next frame and nothing else of it. */
  predicate Dated(d: Detector, times: seq<Millis>, lo: nat) {
    && OneOwner(d) && OneSize(d) && WindowsOk(d, times, lo)
    && d.lastFrame == LastFrame(times) && |times| > 0
    && lo < |times|
  }

  lemma FirstFrameOk(d: Detector, luma: LumaPlane, times: seq<Millis>, lo: nat)
    requires Dated(d, times, lo) && d.baseline.None?
    ensures DetectorOk(FirstFrame(d, luma), times, lo)
  {
  }

  lemma ResetOk(d: Detector, luma: LumaPlane, times: seq<Millis>, lo: nat)
    requires Dated(d, times, lo)
    ensures DetectorOk(DimensionReset(d, luma), times, lo)
  {
  }

  lemma BookkeepOk(d: Detector, cfg: DetectorConfig, luma: LumaPlane, times: seq<Millis>, lo: nat)
    requires Dated(d, times, lo) && d.prev.Some? && d.prev.value.SameSize(luma)
    ensures DetectorOk(Bookkeep(d, cfg, luma).0, times, lo)
    ensures Bookkeep(d, cfg, luma).0.prev == Some(luma)
  {
  }

  lemma ObservationsPersist(d: Detector, times: seq<Millis>, at: Millis, lo: nat)
    requires WindowsOk(d, times, lo)
    ensures WindowsOk(d, times + [at], lo)
  {
  }

  /** The next frame keeps the invariant; its marker, if any, spends every frame so far. */
  lemma FrameStepped(d: Detector, cfg: DetectorConfig, at: Millis, luma: LumaPlane, times: seq<Millis>, lo: nat)
    requires DetectorOk(d, times, lo)
    ensures Stepped(ObserveFrame(d, cfg, AnalysisFrame(|times|, at, luma)), times + [at], lo)
  {
    var frame := AnalysisFrame(|times|, at, luma);
    var times' := times + [at];
    ObservationsPersist(d, times, at, lo);
    var dated := d.(lastFrame := Some((frame.id, frame.atMs)));
    assert Dated(dated, times', lo);
    if d.baseline.None? {
      FirstFrameOk(dated, luma, times', lo);
    } else if !d.prev.value.SameSize(luma) {
      ResetOk(dated, luma, times', lo);
    } else {
      BookkeepOk(dated, cfg, luma, times', lo);
      CloseOrDecideStepped(Bookkeep(dated, cfg, luma).0, cfg, frame, Bookkeep(dated, cfg, luma).1, times', lo);
    }
  }

  lemma EventStepped(d: Detector, cfg: DetectorConfig, ev: TimedSemanticAction, times: seq<Millis>, lo: nat)
    requires DetectorOk(d, times, lo)
    ensures Stepped(ObserveEvent(d, cfg, ev), times, lo)
  {
    if ev.action.Click? && ClickOwns(d) {
      CloseClickStepped(d, cfg, ev.atMs, times, lo);
    }
  }

  /** The end closes whatever session is open, with or without a marker; and a
      movement that it flushes, or whose scroll it closes, is not seen any more. */
  lemma FinishCloses(d: Detector, cfg: DetectorConfig, times: seq<Millis>, lo: nat)
    requires DetectorOk(d, times, lo) && times != []
    ensures var f := Finish(d, cfg).d;
            && OneOwner(f) && !ClickOwns(f) && !f.inTyping && !f.inScroll
            && f.clickWindow.None? && f.typingWindow.None? && f.scrollWindow.None?
    ensures var e := Finish(d, cfg);
            && (d.inScroll ==> !e.d.sawChange)
            && (e.marker.Some? ==> e.d.lastCandidateMs == Some(times[|times| - 1]))
            && (e.marker.Some? && e.marker.value.kind.UiChanged? ==> !e.d.moving && !e.d.sawChange)
  {
  }

  /** The last marker: from an open window an unspent frame, from a movement
      still in progress the last frame. */
  lemma FinishMarker(d: Detector, cfg: DetectorConfig, times: seq<Millis>, lo: nat)
    requires DetectorOk(d, times, lo)
    ensures var m := Finish(d, cfg).marker;
            m.Some? ==> MarkerOk(m.value, times, if m.value.kind == UiChanged then |times| - 1 else lo)
  {
    if d.lastFrame.Some? {
      var at := d.lastFrame.value.1;
      if ClickOwns(d) {
        CloseClickStepped(d, cfg, at, times, lo);
      } else if d.inTyping && d.typingWindow.Some? {
        MarkerStepped(d.(typingWindow := None, inTyping := false, typingForceEnd := false), cfg,
                      d.typingWindow.value, at, TypingStep, TypingSettled, times, lo);
      } else if d.inScroll && d.scrollWindow.Some? {
        MarkerStepped(d.(scrollWindow := None, inScroll := false, sawChange := false), cfg,
                      d.scrollWindow.value, at, ScrollStep, ScrollSettled, times, lo);
      }
    }
  }

  /** Whenever a frame is compared with anything, the planes have one size: the
      metrics' answer for mismatched planes is never used. */
  lemma ComparedPlanesMatch(d: Detector, frame: AnalysisFrame, times: seq<Millis>, lo: nat)
    requires DetectorOk(d, times, lo)
    requires d.prev.Some? && d.prev.value.SameSize(frame.luma)
    ensures d.baseline.Some? && d.baseline.value.SameSize(frame.luma)
    ensures WindowSized(d.clickWindow, frame.luma)
    ensures WindowSized(d.typingWindow, frame.luma)
    ensures WindowSized(d.scrollWindow, frame.luma)
  {
  }
}
