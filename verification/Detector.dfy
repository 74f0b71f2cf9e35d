/** The detector as the code keeps it: a record of fields that each call updates
    statement by statement, proved against `DetectorModel`. */
module DetectorObject {
  import opened Prelude
  import opened Models
  import opened Metrics
  import opened DetectorModel

  class VisualDetector {
    const cfg: DetectorConfig
    var prev: Option<LumaPlane>
    var baseline: Option<LumaPlane>
    var moving: bool
    var stableCount: nat
    var sawChange: bool
    var lastCandidateMs: Option<Millis>
    var lastFrame: Option<(FrameId, Millis)>
    var clickOpenUntil: Option<Millis>
    var clickWindow: Option<SemanticWindow>
    var typingWindow: Option<SemanticWindow>
    var scrollWindow: Option<SemanticWindow>
    var inTyping: bool
    var typingLastAt: Millis
    var typingForceEnd: bool
    var inScroll: bool
    var scrollLastAt: Millis

    function State(): Detector
      reads this
    {
      Detector(prev, baseline, moving, stableCount, sawChange, lastCandidateMs, lastFrame, clickOpenUntil,
               clickWindow, typingWindow, scrollWindow, inTyping, typingLastAt, typingForceEnd, inScroll, scrollLastAt)
    }

    constructor (cfg: DetectorConfig)
      ensures this.cfg == cfg && State() == NEW_DETECTOR
    {
      this.cfg := cfg;
      prev, baseline, moving, stableCount, sawChange := None, None, false, 0, false;
      lastCandidateMs, lastFrame, clickOpenUntil := None, None, None;
      clickWindow, typingWindow, scrollWindow := None, None, None;
      inTyping, typingLastAt, typingForceEnd, inScroll, scrollLastAt := false, 0, false, false, 0;
    }

    method CooldownOk(at: Millis) returns (ok: bool)
      ensures ok == DetectorModel.CooldownOk(State(), cfg, at)
    {
      match lastCandidateMs
      case Some(last) => ok := Monus(at, last) >= cfg.cooldownMs;
      case None => ok := true;
    }

    method SemanticMarker(window: SemanticWindow, at: Millis, kind: CandidateKind, reason: DetectReason)
      returns (marker: Option<CandidateMarker>)
      modifies this
      ensures Emit(State(), marker) == DetectorModel.SemanticMarker(old(State()), cfg, window, at, kind, reason)
    {
      var selected := window.Choose();
      if selected.None? {
        return None;
      }
      var ok := CooldownOk(at);
      if !ok {
        return None;
      }
      lastCandidateMs := Some(at);
      marker := Some(CandidateMarker(kind, reason, selected.value.atMs, selected.value.id));
    }

    method CloseClickWindow(at: Millis) returns (marker: Option<CandidateMarker>)
      modifies this
      ensures Emit(State(), marker) == CloseClick(old(State()), cfg, at)
    {
      clickOpenUntil := None;
      var window := clickWindow;
      clickWindow := None;
      if window.None? {
        return None;
      }
      marker := SemanticMarker(window.value, at, ClickStep, ClickConfirmed);
    }

    method CloseTypingWindow(at: Millis, luma: LumaPlane) returns (marker: Option<CandidateMarker>)
      modifies this
      ensures Emit(State(), marker) == CloseTyping(old(State()), cfg, at, luma)
    {
      var window := typingWindow;
      typingWindow := None;
      inTyping := false;
      typingForceEnd := false;
      sawChange := false;
      baseline := Some(luma);
      if window.None? {
        return None;
      }
      marker := SemanticMarker(window.value, at, TypingStep, TypingSettled);
    }

    method CloseScrollWindow(at: Millis, luma: LumaPlane) returns (marker: Option<CandidateMarker>)
      modifies this
      ensures Emit(State(), marker) == CloseScroll(old(State()), cfg, at, luma)
    {
      var window := scrollWindow;
      scrollWindow := None;
      inScroll := false;
      sawChange := false;
      baseline := Some(luma);
      if window.None? {
        return None;
      }
      marker := SemanticMarker(window.value, at, ScrollStep, ScrollSettled);
    }

    method ClickConsume(at: Millis) returns (consumed: bool)
      modifies this
      ensures consumed == ClickWithin(old(State()), at)
      ensures State() == if consumed then old(State()).(clickOpenUntil := None, clickWindow := None) else old(State())
    {
      consumed := clickOpenUntil.Some? && at <= clickOpenUntil.value;
      if consumed {
        clickOpenUntil := None;
        clickWindow := None;
      }
    }

    method ObserveClick(ev: TimedSemanticAction) returns (marker: Option<CandidateMarker>)
      requires ev.action.Click?
      modifies this
      ensures Emit(State(), marker) == DetectorModel.ObserveEvent(old(State()), cfg, ev)
    {
      // A click is lowest priority: suppressed while typing or scroll owns the change.
      if inTyping || inScroll {
        return None;
      }
      marker := CloseClickWindow(ev.atMs);
      clickOpenUntil := Some(SatAdd64(ev.atMs, cfg.clickWindowMs));
      clickWindow := OpeningWindow(State());
    }

    method ObserveTyping(ev: TimedSemanticAction)
      requires ev.action.TypingActivity?
      modifies this
      ensures Emit(State(), None) == DetectorModel.ObserveEvent(old(State()), cfg, ev)
    {
      if !inTyping {
        inScroll := false;
        scrollWindow := None;
        typingWindow := OpeningWindow(State());
        clickOpenUntil := None;
        clickWindow := None;
      }
      inTyping := true;
      typingLastAt := ev.atMs;
    }

    method ObserveScroll(ev: TimedSemanticAction)
      requires ev.action.ScrollActivity?
      modifies this
      ensures Emit(State(), None) == DetectorModel.ObserveEvent(old(State()), cfg, ev)
    {
      if !inTyping && !inScroll {
        scrollWindow := OpeningWindow(State());
        clickOpenUntil := None;
        clickWindow := None;
        inScroll := true;
      }
      if !inTyping {
        scrollLastAt := ev.atMs;
      }
    }

    method ObserveEvent(ev: TimedSemanticAction) returns (marker: Option<CandidateMarker>)
      modifies this
      ensures Emit(State(), marker) == DetectorModel.ObserveEvent(old(State()), cfg, ev)
    {
      marker := None;
      match ev.action {
        case Click(_) =>
          marker := ObserveClick(ev);
        case TypingActivity =>
          ObserveTyping(ev);
        case Key(_) =>
          if inTyping {
            typingLastAt := ev.atMs;
            typingForceEnd := true;
          }
        case ScrollActivity =>
          ObserveScroll(ev);
      }
    }

    method RecordFirst(luma: LumaPlane)
      modifies this
      ensures State() == FirstFrame(old(State()), luma)
    {
      baseline := Some(luma);
      prev := Some(luma);
      if clickOpenUntil.Some? && clickWindow.None? {
        clickWindow := Some(NewWindow(luma));
      }
      if inTyping && typingWindow.None? {
        typingWindow := Some(NewWindow(luma));
      }
      if inScroll && scrollWindow.None? {
        scrollWindow := Some(NewWindow(luma));
      }
    }

    method DiscardSessions()
      modifies this
      ensures State() == old(State()).(clickOpenUntil := None, clickWindow := None, inTyping := false,
                                       typingForceEnd := false, typingWindow := None, inScroll := false,
                                       scrollWindow := None)
    {
      clickOpenUntil := None;
      clickWindow := None;
      inTyping := false;
      typingForceEnd := false;
      typingWindow := None;
      inScroll := false;
      scrollWindow := None;
    }

    method ResetDimensions(luma: LumaPlane)
      modifies this
      ensures State() == DimensionReset(old(State()), luma)
    {
      prev := Some(luma);
      baseline := Some(luma);
      moving := false;
      stableCount := 0;
      sawChange := false;
      DiscardSessions();
    }

    method TrackMovement(luma: LumaPlane) returns (settled: bool)
      modifies this
      ensures (State(), settled) == Bookkeep(old(State()), cfg, luma)
    {
      var changed := prev.Some? && Motion(prev.value, luma, cfg);
      settled := false;
      if changed {
        moving := true;
        sawChange := true;
        stableCount := 0;
      } else if moving {
        stableCount := stableCount + 1;
        if stableCount >= cfg.stableFrames {
          settled := true;
          moving := false;
        }
      }
      prev := Some(luma);
    }

    method TrackClick(frame: AnalysisFrame) returns (marker: Option<CandidateMarker>)
      modifies this
      ensures Emit(State(), marker) == ClickLifecycle(old(State()), cfg, frame)
    {
      var until := clickOpenUntil;
      marker := None;
      if until.Some? && frame.atMs > until.value {
        marker := CloseClickWindow(frame.atMs);
      } else {
        if clickWindow.Some? {
          clickWindow := Some(clickWindow.value.Observe(frame, cfg.perSampleThreshold, !moving));
        }
        if until == Some(frame.atMs) {
          marker := CloseClickWindow(frame.atMs);
        }
      }
    }

    method TrackOwner(frame: AnalysisFrame)
      modifies this
      ensures State() == OwnerObserves(old(State()), cfg, frame)
    {
      if inTyping {
        if typingWindow.Some? {
          typingWindow := Some(typingWindow.value.Observe(frame, cfg.perSampleThreshold, !moving));
        }
      } else if inScroll {
        if scrollWindow.Some? {
          scrollWindow := Some(scrollWindow.value.Observe(frame, cfg.perSampleThreshold, !moving));
        }
      }
    }

    method GenericSettle(frame: AnalysisFrame) returns (marker: Option<CandidateMarker>)
      modifies this
      ensures Emit(State(), marker) == Settle(old(State()), cfg, frame)
    {
      var meaningful := MeaningfulVsBaseline(State(), cfg, frame.luma);
      baseline := Some(frame.luma);
      sawChange := false;
      marker := None;
      if meaningful {
        var ok := CooldownOk(frame.atMs);
        if ok {
          lastCandidateMs := Some(frame.atMs);
          var clicked := ClickConsume(frame.atMs);
          marker := Some(if clicked then CandidateMarker(ClickStep, ClickConfirmed, frame.atMs, frame.id)
                         else CandidateMarker(UiChanged, VisualChange, frame.atMs, frame.id));
        }
      }
    }

    method DecideCandidate(frame: AnalysisFrame, settled: bool) returns (marker: Option<CandidateMarker>)
      modifies this
      ensures Emit(State(), marker) == Decide(old(State()), cfg, frame, settled)
    {
      TrackOwner(frame);
      if inTyping && Monus(frame.atMs, typingLastAt) >= cfg.typingPauseMs {
        marker := CloseTypingWindow(frame.atMs, frame.luma);
        return;
      }
      if inScroll && Monus(frame.atMs, scrollLastAt) >= cfg.scrollDwellMs {
        marker := CloseScrollWindow(frame.atMs, frame.luma);
        return;
      }
      if settled && !inTyping && !inScroll {
        marker := GenericSettle(frame);
        return;
      }
      if settled {
        baseline := Some(frame.luma);
        sawChange := false;
      }
      marker := None;
    }

    method ObserveFrame(frame: AnalysisFrame) returns (marker: Option<CandidateMarker>)
      modifies this
      ensures Emit(State(), marker) == DetectorModel.ObserveFrame(old(State()), cfg, frame)
    {
      lastFrame := Some((frame.id, frame.atMs));
      if baseline.None? {
        RecordFirst(frame.luma);
        return None;
      }
      if prev.Some? && !prev.value.SameSize(frame.luma) {
        ResetDimensions(frame.luma);
        return None;
      }
      var settled := TrackMovement(frame.luma);
      if inTyping {
        var pause := Monus(frame.atMs, typingLastAt);
        if typingForceEnd || pause > cfg.typingPauseMs {
          marker := CloseTypingWindow(frame.atMs, frame.luma);
          return;
        }
      }
      if inScroll {
        var dwell := Monus(frame.atMs, scrollLastAt);
        if dwell > cfg.scrollDwellMs {
          marker := CloseScrollWindow(frame.atMs, frame.luma);
          return;
        }
      }
      marker := TrackClick(frame);
      if marker.None? {
        marker := DecideCandidate(frame, settled);
      }
    }

    method EndSession(at: Millis) returns (marker: Option<CandidateMarker>)
      modifies this
      ensures Emit(State(), marker) == FinishSession(old(State()), cfg, at)
    {
      marker := None;
      if inTyping {
        var window := typingWindow;
        typingWindow := None;
        inTyping := false;
        typingForceEnd := false;
        if window.Some? {
          marker := SemanticMarker(window.value, at, TypingStep, TypingSettled);
        }
        return;
      }
      if inScroll {
        var window := scrollWindow;
        scrollWindow := None;
        inScroll := false;
        sawChange := false;
        if window.Some? {
          marker := SemanticMarker(window.value, at, ScrollStep, ScrollSettled);
        }
        return;
      }
      if moving && sawChange && prev.Some? && lastFrame.Some? {
        var last := lastFrame.value;
        var meaningful := MeaningfulVsBaseline(State(), cfg, prev.value);
        var ok := CooldownOk(last.1);
        if meaningful && ok {
          moving := false;
          sawChange := false;
          lastCandidateMs := Some(last.1);
          marker := Some(CandidateMarker(UiChanged, VisualChange, last.1, last.0));
        }
      }
    }

    method Finish() returns (marker: Option<CandidateMarker>)
      modifies this
      ensures Emit(State(), marker) == DetectorModel.Finish(old(State()), cfg)
    {
      if lastFrame.None? {
        return None;
      }
      var at := lastFrame.value.1;
      if clickOpenUntil.Some? {
        marker := CloseClickWindow(at);
        if marker.Some? {
          return;
        }
      }
      marker := EndSession(at);
    }
  }
}
