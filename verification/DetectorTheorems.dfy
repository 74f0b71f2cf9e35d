/** Debounce, the pace of event-free runs, the reach of a click, and the choice
    a semantic window makes: each over whole runs. */
module DetectorTheorems {
  import opened Prelude
  import opened Arithmetic
  import opened Models
  import opened Metrics
  import opened DetectorModel
  import opened DetectorInvariant
  import opened DetectorRuns

  // -------------------------------------------------------------- debounce

  /** A call decided at time `at`: a marker had its cooldown and is remembered. */
  predicate Decided(d: Detector, cfg: DetectorConfig, at: Millis, e: Emit) {
    && (e.marker.Some? ==> CooldownOk(d, cfg, at) && e.d.lastCandidateMs == Some(at))
    && (e.marker.None? ==> e.d.lastCandidateMs == d.lastCandidateMs)
  }

  lemma CloseOrDecideDecided(d: Detector, cfg: DetectorConfig, frame: AnalysisFrame, settled: bool)
    ensures Decided(d, cfg, frame.atMs, CloseOrDecide(d, cfg, frame, settled))
  {
    var clicked := ClickLifecycle(d, cfg, frame);
    ClickDecided(d, cfg, frame);
    if clicked.marker.None? {
      DecideDecided(clicked.d, cfg, frame, settled);
    }
  }

  lemma ClickDecided(d: Detector, cfg: DetectorConfig, frame: AnalysisFrame)
    ensures Decided(d, cfg, frame.atMs, ClickLifecycle(d, cfg, frame))
  {
  }

  lemma FrameDecided(d: Detector, cfg: DetectorConfig, frame: AnalysisFrame)
    ensures Decided(d, cfg, frame.atMs, ObserveFrame(d, cfg, frame))
  {
    var dated := d.(lastFrame := Some((frame.id, frame.atMs)));
    var (moved, settled) := Bookkeep(dated, cfg, frame.luma);
    CloseOrDecideDecided(moved, cfg, frame, settled);
  }

  lemma DecideDecided(d: Detector, cfg: DetectorConfig, frame: AnalysisFrame, settled: bool)
    ensures Decided(d, cfg, frame.atMs, Decide(d, cfg, frame, settled))
  {
    var seen := OwnerObserves(d, cfg, frame);
    assert seen.lastCandidateMs == d.lastCandidateMs;
  }

  lemma EventDecided(d: Detector, cfg: DetectorConfig, ev: TimedSemanticAction)
    ensures Decided(d, cfg, ev.atMs, ObserveEvent(d, cfg, ev))
  {
  }

  lemma FinishDecided(d: Detector, cfg: DetectorConfig)
    requires d.lastFrame.Some?
    ensures Decided(d, cfg, d.lastFrame.value.1, Finish(d, cfg))
  {
  }

  /** The detector remembers the last decision, and each decision waited out the cooldown. */
  predicate Paced(r: DetectorRun, cfg: DetectorConfig) {
    && r.d.lastCandidateMs == (if r.out == [] then None else Some(r.out[|r.out| - 1].decidedAt))
    && PacedOut(r.out, cfg)
  }

  predicate PacedOut(out: seq<Emission>, cfg: DetectorConfig) {
    forall i | 0 < i < |out| :: Monus(out[i].decidedAt, out[i - 1].decidedAt) >= cfg.cooldownMs
  }

  lemma StepPaced(r: DetectorRun, cfg: DetectorConfig, feed: Feed)
    requires Paced(r, cfg)
    ensures Paced(RunStep(r, cfg, feed), cfg)
  {
    match feed
    case FrameFeed(luma, at) => FrameDecided(r.d, cfg, AnalysisFrame(|r.times|, at, luma));
    case EventFeed(ev) => EventDecided(r.d, cfg, ev);
  }

  lemma {:induction false} RunsPaced(cfg: DetectorConfig, feeds: seq<Feed>)
    ensures Paced(RunDetector(cfg, feeds), cfg)
  {
    if feeds != [] {
      RunsPaced(cfg, feeds[..|feeds| - 1]);
      StepPaced(RunDetector(cfg, feeds[..|feeds| - 1]), cfg, feeds[|feeds| - 1]);
    }
  }

  lemma FinishedPaced(cfg: DetectorConfig, feeds: seq<Feed>)
    ensures PacedOut(FinishedEmissions(RunDetector(cfg, feeds), cfg), cfg)
  {
    RunsPaced(cfg, feeds);
    var r := RunDetector(cfg, feeds);
    if r.d.lastFrame.Some? {
      FinishDecided(r.d, cfg);
    }
  }

  /** k markers span at least (k - 1) cooldowns of decision time, the final flush included. */
  lemma {:induction false} Debounce(cfg: DetectorConfig, out: seq<Emission>, i: nat, j: nat)
    requires PacedOut(out, cfg) && cfg.cooldownMs > 0 && i <= j < |out|
    ensures out[j].decidedAt >= out[i].decidedAt + (j - i) * cfg.cooldownMs
  {
    if i < j {
      Debounce(cfg, out, i, j - 1);
      assert Monus(out[j].decidedAt, out[j - 1].decidedAt) >= cfg.cooldownMs;
      assert (j - i) * cfg.cooldownMs == (j - 1 - i) * cfg.cooldownMs + cfg.cooldownMs;
    }
  }

  lemma DebounceOverRuns(cfg: DetectorConfig, feeds: seq<Feed>)
    requires cfg.cooldownMs > 0
    ensures var out := FinishedEmissions(RunDetector(cfg, feeds), cfg);
            |out| > 0 ==> out[|out| - 1].decidedAt - out[0].decidedAt >= (|out| - 1) * cfg.cooldownMs
  {
    FinishedPaced(cfg, feeds);
    var out := FinishedEmissions(RunDetector(cfg, feeds), cfg);
    if |out| > 0 {
      Debounce(cfg, out, 0, |out| - 1);
    }
  }

  // ---------------------------------------------------- event-free pace

  predicate EventFree(feeds: seq<Feed>) { forall f | f in feeds :: f.FrameFeed? }

  /** Frames that must follow each other before a settle: one that moves and the stable ones. */
  function SettleFrames(cfg: DetectorConfig): nat { 1 + Max(1, cfg.stableFrames) }

  /** Frames already spent on the settle in progress. */
  function Progress(d: Detector): nat { if d.moving then 1 + d.stableCount else 0 }

  predicate Sessionless(d: Detector) {
    d.clickOpenUntil.None? && d.clickWindow.None? && !d.inTyping && !d.inScroll
  }

  predicate Slow(r: DetectorRun, cfg: DetectorConfig) {
    && Sessionless(r.d)
    && (r.d.moving ==> r.d.stableCount < Max(1, cfg.stableFrames))
    && (|r.times| == 0 ==> r.out == [] && r.d.baseline.None? && !r.d.moving)
    && (|r.times| > 0 ==> |r.times| >= 1 + |r.out| * SettleFrames(cfg) + Progress(r.d))
  }

  lemma FrameSlow(r: DetectorRun, cfg: DetectorConfig, feed: Feed)
    requires Slow(r, cfg) && feed.FrameFeed?
    ensures Slow(RunStep(r, cfg, feed), cfg)
  {
    var e := ObserveFrame(r.d, cfg, AnalysisFrame(|r.times|, feed.atMs, feed.luma));
    FrameSettles(r.d, cfg, AnalysisFrame(|r.times|, feed.atMs, feed.luma));
    assert (|r.out| + 1) * SettleFrames(cfg) == |r.out| * SettleFrames(cfg) + SettleFrames(cfg);
  }

  /** Without sessions a marker needs the last stable frame of a settle. */
  lemma FrameSettles(d: Detector, cfg: DetectorConfig, frame: AnalysisFrame)
    requires Sessionless(d) && (d.moving ==> d.stableCount < Max(1, cfg.stableFrames))
    ensures var e := ObserveFrame(d, cfg, frame);
            && Sessionless(e.d) && e.d.baseline.Some?
            && (e.d.moving ==> e.d.stableCount < Max(1, cfg.stableFrames))
            && (d.baseline.None? ==> e.marker.None? && e.d.moving == d.moving && e.d.stableCount == d.stableCount)
            && Progress(e.d) <= Progress(d) + 1
            && (e.marker.Some? ==> Progress(e.d) == 0 && Progress(d) + 1 >= SettleFrames(cfg))
  {
  }

  lemma {:induction false} RunsSlow(cfg: DetectorConfig, feeds: seq<Feed>)
    requires EventFree(feeds)
    ensures Slow(RunDetector(cfg, feeds), cfg)
    ensures |RunDetector(cfg, feeds).times| == |feeds|
  {
    if feeds != [] {
      RunsSlow(cfg, feeds[..|feeds| - 1]);
      FrameSlow(RunDetector(cfg, feeds[..|feeds| - 1]), cfg, feeds[|feeds| - 1]);
    }
  }

  /** In a run without events, k markers before the end need 1 + k * (1 + max(1, stable_frames)) frames. */
  lemma EventFreePace(cfg: DetectorConfig, feeds: seq<Feed>)
    requires EventFree(feeds)
    ensures var k := |RunDetector(cfg, feeds).out|;
            k > 0 ==> |feeds| >= 1 + k * (1 + Max(1, cfg.stableFrames))
  {
    RunsSlow(cfg, feeds);
  }

  // ----------------------------------------------------- centres, in order

  /** No call of the run was made before an earlier one. */
  predicate Monotone(feeds: seq<Feed>) {
    forall i, j | 0 <= i <= j < |feeds| :: feeds[i].Time() <= feeds[j].Time()
  }

  function LastTime(feeds: seq<Feed>): Millis {
    if feeds == [] then 0 else feeds[|feeds| - 1].Time()
  }

  /** With calls in time order, the last decision is no older than the last frame it saw. */
  predicate Timely(r: DetectorRun, clock: Millis) {
    && (|r.times| > 0 ==> r.times[|r.times| - 1] <= clock)
    && (r.out != [] && Spent(r.out) == |r.times| ==>
          r.times[|r.times| - 1] <= r.out[|r.out| - 1].decidedAt)
  }

  lemma {:induction false} RunsTimely(cfg: DetectorConfig, feeds: seq<Feed>)
    requires Monotone(feeds)
    ensures Timely(RunDetector(cfg, feeds), LastTime(feeds))
  {
    if feeds != [] {
      var before := feeds[..|feeds| - 1];
      RunsTimely(cfg, before);
      RunsOk(cfg, before);
      RunsOk(cfg, feeds);
      TimelyStep(RunDetector(cfg, before), cfg, feeds[|feeds| - 1], LastTime(before));
    }
  }

  lemma TimelyStep(r: DetectorRun, cfg: DetectorConfig, feed: Feed, clock: Millis)
    requires RunOk(r) && Timely(r, clock) && clock <= feed.Time()
    requires RunOk(RunStep(r, cfg, feed))
    ensures Timely(RunStep(r, cfg, feed), feed.Time())
  {
  }

  /** Every emission of a whole recording is about a frame it has seen. */
  lemma FinishedAnchored(cfg: DetectorConfig, feeds: seq<Feed>, i: nat)
    requires i < |FinishedEmissions(RunDetector(cfg, feeds), cfg)|
    ensures Anchored(FinishedEmissions(RunDetector(cfg, feeds), cfg)[i], RunDetector(cfg, feeds).times)
  {
    var r := RunDetector(cfg, feeds);
    RunsOk(cfg, feeds);
    if i < |r.out| {
      assert Anchored(r.out[i], r.times);
    } else {
      FinishMarker(r.d, cfg, r.times, Spent(r.out));
    }
  }

  /** Over a whole recording, flush included, centres and their times never go
      back when frames come in time order; with a cooldown and all calls in time
      order the centres strictly increase. */
  lemma FinishedCentres(cfg: DetectorConfig, feeds: seq<Feed>, i: nat, j: nat)
    requires i < j < |FinishedEmissions(RunDetector(cfg, feeds), cfg)|
    ensures var out := FinishedEmissions(RunDetector(cfg, feeds), cfg);
            && Anchored(out[i], RunDetector(cfg, feeds).times) && Anchored(out[j], RunDetector(cfg, feeds).times)
            && out[i].observed <= out[j].marker.centerId
            && (Monotone(feeds) && cfg.cooldownMs > 0 ==> out[i].observed < out[j].marker.centerId)
  {
    var r := RunDetector(cfg, feeds);
    RunsOk(cfg, feeds);
    assert Anchored(r.out[i], r.times);
    if j < |r.out| {
      assert Anchored(r.out[j], r.times);
    } else {
      FinishMarker(r.d, cfg, r.times, Spent(r.out));
      ObservedBelowSpent(r, i);
      if Monotone(feeds) && cfg.cooldownMs > 0 {
        FlushAfterSpent(cfg, feeds);
      }
    }
  }

  /** With a cooldown, the final flush does not repeat the frame of the last marker. */
  lemma FlushAfterSpent(cfg: DetectorConfig, feeds: seq<Feed>)
    requires Monotone(feeds) && cfg.cooldownMs > 0
    ensures var r := RunDetector(cfg, feeds);
            Finish(r.d, cfg).marker.Some? ==> Spent(r.out) <= Finish(r.d, cfg).marker.value.centerId
  {
    var r := RunDetector(cfg, feeds);
    RunsOk(cfg, feeds);
    FinishMarker(r.d, cfg, r.times, Spent(r.out));
    RunsTimely(cfg, feeds);
    RunsPaced(cfg, feeds);
    if r.d.lastFrame.Some? {
      FinishDecided(r.d, cfg);
    }
  }

  // ------------------------------------------------------ reach of a click

  /** Frames come at least `gap` apart. */
  predicate Spaced(times: seq<Millis>, gap: nat) {
    forall i | 0 < i < |times| :: times[i] >= times[i - 1] + gap
  }

  lemma {:induction false} SpacedApart(times: seq<Millis>, gap: nat, i: nat, j: nat)
    requires Spaced(times, gap) && i <= j < |times|
    ensures times[j] >= times[i] + (j - i) * gap
  {
    if i < j {
      SpacedApart(times, gap, i, j - 1);
      assert times[j] >= times[j - 1] + gap;
      assert (j - i) * gap == (j - 1 - i) * gap + gap;
    }
  }

  predicate WithinClick(o: Option<PeakObservation>, until: Millis, cfg: DetectorConfig) {
    o.Some? ==> until <= o.value.atMs + cfg.clickWindowMs
  }

  predicate WindowObserved(w: Option<SemanticWindow>) { w.Some? && (w.value.peak.Some? || w.value.stable.Some?) }

  /** An open click opened at most one click window before its observations, and
      no frame seen since is past its deadline. */
  predicate ClickTimed(d: Detector, cfg: DetectorConfig, times: seq<Millis>, clock: Millis) {
    d.clickOpenUntil.Some? ==>
      && d.clickOpenUntil.value <= clock + cfg.clickWindowMs
      && (d.clickWindow.Some? ==>
            && WithinClick(d.clickWindow.value.peak, d.clickOpenUntil.value, cfg)
            && WithinClick(d.clickWindow.value.stable, d.clickOpenUntil.value, cfg))
      && (WindowObserved(d.clickWindow) ==> |times| > 0 && times[|times| - 1] <= d.clickOpenUntil.value)
  }

  /** A click's centre is at most one click window older than the frame before
      the one that closed it, or than the last frame if an event closed it. */
  predicate ClickReach(e: Emission, cfg: DetectorConfig, times: seq<Millis>) {
    e.marker.kind == ClickStep && Anchored(e, times) && e.marker.centerId < e.observed ==>
      times[if e.byEvent then e.observed else e.observed - 1] <= times[e.marker.centerId] + cfg.clickWindowMs
  }

  /** The click window on the frame that follows `times`. */
  lemma ClickLifecycleReach(d: Detector, cfg: DetectorConfig, frame: AnalysisFrame, times: seq<Millis>, clock: Millis)
    requires ClickTimed(d, cfg, times, clock) && clock <= frame.atMs
    requires frame.id == |times|
    requires WindowOk(d.clickWindow, times, 0)
    requires !ClickOwns(d) ==> d.clickWindow.None?
    ensures var e := ClickLifecycle(d, cfg, frame);
            && ClickTimed(e.d, cfg, times + [frame.atMs], frame.atMs)
            && (e.marker.Some? && e.marker.value.centerId < |times| ==>
                  times[|times| - 1] <= e.marker.value.atMs + cfg.clickWindowMs)
  {
    if d.clickOpenUntil.None? || frame.atMs <= d.clickOpenUntil.value {
      WindowSees(d.clickWindow, d, cfg, frame);
      SeenTimed(d, ObserveWindow(d.clickWindow, d, cfg, frame), cfg, frame, times, clock);
    }
  }

  predicate SeenBy(o: Option<PeakObservation>, o': Option<PeakObservation>, frame: AnalysisFrame) {
    o' == o || (o'.Some? && o'.value.id == frame.id && o'.value.atMs == frame.atMs)
  }

  predicate WindowSeen(w: Option<SemanticWindow>, w': Option<SemanticWindow>, frame: AnalysisFrame) {
    && w.Some? == w'.Some?
    && (w.Some? ==> SeenBy(w.value.peak, w'.value.peak, frame) && SeenBy(w.value.stable, w'.value.stable, frame))
  }

  /** A window's observations stay or become the frame's. */
  lemma WindowSees(w: Option<SemanticWindow>, d: Detector, cfg: DetectorConfig, frame: AnalysisFrame)
    ensures WindowSeen(w, ObserveWindow(w, d, cfg, frame), frame)
  {
  }

  lemma SeenTimed(d: Detector, w': Option<SemanticWindow>, cfg: DetectorConfig, frame: AnalysisFrame, times: seq<Millis>,
                  clock: Millis)
    requires ClickTimed(d, cfg, times, clock) && clock <= frame.atMs && frame.id == |times|
    requires WindowOk(d.clickWindow, times, 0) && WindowSeen(d.clickWindow, w', frame)
    requires if ClickOwns(d) then frame.atMs <= d.clickOpenUntil.value else d.clickWindow.None?
    ensures var seen := d.(clickWindow := w');
            && ClickTimed(seen, cfg, times + [frame.atMs], frame.atMs)
            && (d.clickOpenUntil == Some(frame.atMs) ==>
                  var e := CloseClick(seen, cfg, frame.atMs);
                  && ClickTimed(e.d, cfg, times + [frame.atMs], frame.atMs)
                  && (e.marker.Some? && e.marker.value.centerId < |times| ==>
                        times[|times| - 1] <= e.marker.value.atMs + cfg.clickWindowMs))
  {
  }

  /** After the click lifecycle, the rest of the frame leaves the click alone or clears it. */
  lemma DecideReach(d: Detector, cfg: DetectorConfig, frame: AnalysisFrame, settled: bool)
    ensures var e := Decide(d, cfg, frame, settled);
            && (e.d.clickOpenUntil.None? || (e.d.clickOpenUntil == d.clickOpenUntil && e.d.clickWindow == d.clickWindow))
            && (e.marker.Some? && e.marker.value.kind == ClickStep ==> e.marker.value.centerId == frame.id)
  {
  }

  predicate Reached(m: Option<CandidateMarker>, cfg: DetectorConfig, times: seq<Millis>) {
    m.Some? && m.value.kind == ClickStep && m.value.centerId < |times| ==>
      |times| > 0 && times[|times| - 1] <= m.value.atMs + cfg.clickWindowMs
  }

  lemma FrameReach(d: Detector, cfg: DetectorConfig, frame: AnalysisFrame, times: seq<Millis>, clock: Millis, lo: nat)
    requires DetectorOk(d, times, lo) && ClickTimed(d, cfg, times, clock) && clock <= frame.atMs && frame.id == |times|
    ensures var e := ObserveFrame(d, cfg, frame);
            && ClickTimed(e.d, cfg, times + [frame.atMs], frame.atMs)
            && Reached(e.marker, cfg, times)
  {
    var dated := d.(lastFrame := Some((frame.id, frame.atMs)));
    if d.baseline.Some? && d.prev.value.SameSize(frame.luma) {
      var (moved, settled) := Bookkeep(dated, cfg, frame.luma);
      ClickLifecycleReach(moved, cfg, frame, times, clock);
      DecideReach(ClickLifecycle(moved, cfg, frame).d, cfg, frame, settled);
      CloseOrDecideReach(moved, cfg, frame, settled, times);
    }
  }

  lemma CloseOrDecideReach(d: Detector, cfg: DetectorConfig, frame: AnalysisFrame, settled: bool, times: seq<Millis>)
    requires OneOwner(d)
    requires var c := ClickLifecycle(d, cfg, frame);
             && ClickTimed(c.d, cfg, times + [frame.atMs], frame.atMs)
             && (c.marker.Some? && c.marker.value.centerId < |times| ==>
                  |times| > 0 && times[|times| - 1] <= c.marker.value.atMs + cfg.clickWindowMs)
    requires frame.id == |times|
    ensures var e := CloseOrDecide(d, cfg, frame, settled);
            && ClickTimed(e.d, cfg, times + [frame.atMs], frame.atMs)
            && Reached(e.marker, cfg, times)
  {
    DecideReach(ClickLifecycle(d, cfg, frame).d, cfg, frame, settled);
  }

  lemma EventReach(d: Detector, cfg: DetectorConfig, ev: TimedSemanticAction, times: seq<Millis>, clock: Millis, lo: nat)
    requires DetectorOk(d, times, lo) && ClickTimed(d, cfg, times, clock) && clock <= ev.atMs
    ensures var e := ObserveEvent(d, cfg, ev);
            && ClickTimed(e.d, cfg, times, ev.atMs)
            && Reached(e.marker, cfg, times)
  {
  }

  predicate AllReach(r: DetectorRun, cfg: DetectorConfig) {
    forall i | 0 <= i < |r.out| :: ClickReach(r.out[i], cfg, r.times)
  }

  /** One more emission that reaches far enough, seen on its event or on the next frame. */
  lemma ReachExtends(out: seq<Emission>, times: seq<Millis>, times': seq<Millis>, cfg: DetectorConfig,
                     m: Option<CandidateMarker>, byEvent: bool, at: Millis)
    requires times <= times' && |times'| == |times| + (if byEvent then 0 else 1)
    requires forall i | 0 <= i < |out| :: Anchored(out[i], times) && ClickReach(out[i], cfg, times)
    requires m.Some? ==> Anchored(Emission(m.value, Monus(|times'|, 1), byEvent, at), times')
    requires Reached(m, cfg, times)
    ensures var all := out + Emitted(m, |times'|, byEvent, at); forall i | 0 <= i < |all| :: ClickReach(all[i], cfg, times')
  {
    var all := out + Emitted(m, |times'|, byEvent, at);
    forall i | 0 <= i < |all|
      ensures ClickReach(all[i], cfg, times')
    {
      if i < |out| {
        assert all[i] == out[i] && Anchored(out[i], times) && ClickReach(out[i], cfg, times);
      }
    }
  }

  lemma LastAnchored(r: DetectorRun, out: seq<Emission>, m: Option<CandidateMarker>, byEvent: bool, at: Millis)
    requires RunOk(r) && r.out == out + Emitted(m, |r.times|, byEvent, at)
    ensures m.Some? ==> Anchored(Emission(m.value, Monus(|r.times|, 1), byEvent, at), r.times)
  {
    if m.Some? {
      assert Anchored(r.out[|out|], r.times);
    }
  }

  lemma ReachStep(r: DetectorRun, cfg: DetectorConfig, feed: Feed, clock: Millis)
    requires RunOk(r) && AllReach(r, cfg) && ClickTimed(r.d, cfg, r.times, clock) && clock <= feed.Time()
    requires RunOk(RunStep(r, cfg, feed))
    ensures AllReach(RunStep(r, cfg, feed), cfg)
    ensures ClickTimed(RunStep(r, cfg, feed).d, cfg, RunStep(r, cfg, feed).times, feed.Time())
  {
    match feed {
      case FrameFeed(luma, at) =>
        var frame := AnalysisFrame(|r.times|, at, luma);
        FrameReach(r.d, cfg, frame, r.times, clock, Spent(r.out));
        var m := ObserveFrame(r.d, cfg, frame).marker;
        LastAnchored(RunStep(r, cfg, feed), r.out, m, false, at);
        ReachExtends(r.out, r.times, r.times + [at], cfg, m, false, at);
      case EventFeed(ev) =>
        EventReach(r.d, cfg, ev, r.times, clock, Spent(r.out));
        var m := ObserveEvent(r.d, cfg, ev).marker;
        LastAnchored(RunStep(r, cfg, feed), r.out, m, true, ev.atMs);
        ReachExtends(r.out, r.times, r.times, cfg, m, true, ev.atMs);
    }
  }

  lemma {:induction false} RunsReach(cfg: DetectorConfig, feeds: seq<Feed>)
    requires Monotone(feeds)
    ensures AllReach(RunDetector(cfg, feeds), cfg)
    ensures ClickTimed(RunDetector(cfg, feeds).d, cfg, RunDetector(cfg, feeds).times, LastTime(feeds))
  {
    if feeds != [] {
      var before := feeds[..|feeds| - 1];
      RunsReach(cfg, before);
      RunsOk(cfg, before);
      RunsOk(cfg, feeds);
      ReachStep(RunDetector(cfg, before), cfg, feeds[|feeds| - 1], LastTime(before));
    }
  }

  /** Spacing turns the reach of a click in time into a reach in frames. */
  lemma LooksBack(c: FrameId, back: FrameId, cfg: DetectorConfig, times: seq<Millis>, gap: nat)
    requires gap > 0 && Spaced(times, gap) && c <= back < |times|
    requires times[back] <= times[c] + cfg.clickWindowMs
    ensures back - c <= cfg.clickWindowMs / gap
  {
    SpacedApart(times, gap, c, back);
    BackDivided(back - c, gap, cfg.clickWindowMs);
  }

  lemma EmissionLooksBack(e: Emission, cfg: DetectorConfig, times: seq<Millis>, gap: nat)
    requires gap > 0 && Spaced(times, gap) && e.marker.kind == ClickStep
    requires Anchored(e, times) && ClickReach(e, cfg, times)
    ensures e.observed - e.marker.centerId <= cfg.clickWindowMs / gap + (if e.byEvent then 0 else 1)
  {
    if e.marker.centerId < e.observed {
      LooksBack(e.marker.centerId, if e.byEvent then e.observed else e.observed - 1, cfg, times, gap);
    }
  }

  /** With frames at least `gap` ms apart and calls in time order, a click's
      marker looks back over at most `click_window_ms / gap + 1` frames (one
      fewer if an event closed the window). */
  lemma ClickLooksBack(cfg: DetectorConfig, feeds: seq<Feed>, gap: nat, i: nat)
    requires Monotone(feeds) && gap > 0 && Spaced(RunDetector(cfg, feeds).times, gap)
    requires i < |RunDetector(cfg, feeds).out|
    requires RunDetector(cfg, feeds).out[i].marker.kind == ClickStep
    ensures var e := RunDetector(cfg, feeds).out[i];
            && e.marker.centerId <= e.observed
            && e.observed - e.marker.centerId <= cfg.clickWindowMs / gap + (if e.byEvent then 0 else 1)
  {
    var r := RunDetector(cfg, feeds);
    var e := r.out[i];
    RunsOk(cfg, feeds);
    RunsReach(cfg, feeds);
    EmissionLooksBack(e, cfg, r.times, gap);
  }

  /** The click flushed at the end looks back over at most `click_window_ms / gap` frames. */
  lemma FlushLooksBack(cfg: DetectorConfig, feeds: seq<Feed>, gap: nat)
    requires Monotone(feeds) && gap > 0 && Spaced(RunDetector(cfg, feeds).times, gap)
    requires var m := Finish(RunDetector(cfg, feeds).d, cfg).marker;
             m.Some? && m.value.kind == ClickStep
    ensures var r := RunDetector(cfg, feeds);
            |r.times| - 1 - Finish(r.d, cfg).marker.value.centerId <= cfg.clickWindowMs / gap
  {
    var r := RunDetector(cfg, feeds);
    RunsOk(cfg, feeds);
    RunsReach(cfg, feeds);
    FinishMarker(r.d, cfg, r.times, Spent(r.out));
    FlushReach(r.d, cfg, r.times, LastTime(feeds), Spent(r.out));
    LooksBack(Finish(r.d, cfg).marker.value.centerId, |r.times| - 1, cfg, r.times, gap);
  }

  lemma BackDivided(n: nat, gap: nat, window: nat)
    requires gap > 0 && n * gap <= window
    ensures n <= window / gap
  {
    DivBounds(window, gap);
    if window / gap < n {
      MulMono(window / gap + 1, n, gap);
    }
  }

  /** A click flushed at the end is still within its window of the last frame. */
  lemma FlushReach(d: Detector, cfg: DetectorConfig, times: seq<Millis>, clock: Millis, lo: nat)
    requires DetectorOk(d, times, lo) && ClickTimed(d, cfg, times, clock)
    ensures Reached(Finish(d, cfg).marker, cfg, times)
  {
  }

  // --------------------------------------------------- what a window chooses

  datatype Sighting = Sighting(frame: AnalysisFrame, isStable: bool)

  function WatchAll(baseline: LumaPlane, perSample: real, seen: seq<Sighting>): SemanticWindow {
    if seen == [] then NewWindow(baseline)
    else
      WatchAll(baseline, perSample, seen[..|seen| - 1])
      .Observe(seen[|seen| - 1].frame, perSample, seen[|seen| - 1].isStable)
  }

  function StatsAt(baseline: LumaPlane, perSample: real, s: Sighting): ChangeStats {
    Stats(baseline, s.frame.luma, None, perSample)
  }

  predicate Meaningful(baseline: LumaPlane, perSample: real, s: Sighting) {
    SemanticMeaningful(StatsAt(baseline, perSample, s))
  }

  function ObservationOf(baseline: LumaPlane, perSample: real, s: Sighting): PeakObservation {
    PeakObservation(s.frame.id, s.frame.atMs, StatsAt(baseline, perSample, s))
  }

  /** Sighting `i` is the latest that is meaningful and stable. */
  predicate LatestStable(baseline: LumaPlane, perSample: real, seen: seq<Sighting>, i: int) {
    && 0 <= i < |seen| && seen[i].isStable && Meaningful(baseline, perSample, seen[i])
    && forall j | i < j < |seen| :: !(seen[j].isStable && Meaningful(baseline, perSample, seen[j]))
  }

  /** Sighting `i` is the first of the meaningful ones with the greatest difference. */
  predicate FirstMaximal(baseline: LumaPlane, perSample: real, seen: seq<Sighting>, i: int) {
    && 0 <= i < |seen| && Meaningful(baseline, perSample, seen[i])
    && var top := StatsAt(baseline, perSample, seen[i]).normalizedMeanDiff;
       && (forall j | 0 <= j < |seen| && Meaningful(baseline, perSample, seen[j]) ::
             StatsAt(baseline, perSample, seen[j]).normalizedMeanDiff <= top)
       && (forall j | 0 <= j < i && Meaningful(baseline, perSample, seen[j]) ::
             StatsAt(baseline, perSample, seen[j]).normalizedMeanDiff < top)
  }

  ghost predicate StableTracks(baseline: LumaPlane, perSample: real, seen: seq<Sighting>, o: Option<PeakObservation>) {
    match o
    case None => forall j | 0 <= j < |seen| :: !(seen[j].isStable && Meaningful(baseline, perSample, seen[j]))
    case Some(v) => exists i :: LatestStable(baseline, perSample, seen, i) && v == ObservationOf(baseline, perSample, seen[i])
  }

  ghost predicate PeakTracks(baseline: LumaPlane, perSample: real, seen: seq<Sighting>, o: Option<PeakObservation>) {
    match o
    case None => forall j | 0 <= j < |seen| :: !Meaningful(baseline, perSample, seen[j])
    case Some(v) => exists i :: FirstMaximal(baseline, perSample, seen, i) && v == ObservationOf(baseline, perSample, seen[i])
  }

  lemma StableStep(baseline: LumaPlane, perSample: real, before: seq<Sighting>, s: Sighting, o: Option<PeakObservation>)
    requires StableTracks(baseline, perSample, before, o)
    ensures StableTracks(baseline, perSample, before + [s],
                         if Meaningful(baseline, perSample, s) && s.isStable then Some(ObservationOf(baseline, perSample, s))
                         else o)
  {
    var seen := before + [s];
    if Meaningful(baseline, perSample, s) && s.isStable {
      assert LatestStable(baseline, perSample, seen, |before|);
    } else if o.Some? {
      var i :| LatestStable(baseline, perSample, before, i) && o.value == ObservationOf(baseline, perSample, before[i]);
      assert LatestStable(baseline, perSample, seen, i);
    }
  }

  lemma PeakStep(baseline: LumaPlane, perSample: real, before: seq<Sighting>, s: Sighting, o: Option<PeakObservation>)
    requires PeakTracks(baseline, perSample, before, o)
    ensures var replace := Meaningful(baseline, perSample, s)
                           && (o.None? || StatsAt(baseline, perSample, s).normalizedMeanDiff > o.value.stats.normalizedMeanDiff);
            PeakTracks(baseline, perSample, before + [s],
                       if replace then Some(ObservationOf(baseline, perSample, s)) else o)
  {
    var seen := before + [s];
    if o.Some? {
      var i :| FirstMaximal(baseline, perSample, before, i) && o.value == ObservationOf(baseline, perSample, before[i]);
      if Meaningful(baseline, perSample, s) && StatsAt(baseline, perSample, s).normalizedMeanDiff > o.value.stats.normalizedMeanDiff {
        assert FirstMaximal(baseline, perSample, seen, |before|);
      } else {
        assert FirstMaximal(baseline, perSample, seen, i);
      }
    } else if Meaningful(baseline, perSample, s) {
      assert FirstMaximal(baseline, perSample, seen, |before|);
    }
  }

  lemma {:induction false} WatchTracks(baseline: LumaPlane, perSample: real, seen: seq<Sighting>)
    ensures var w := WatchAll(baseline, perSample, seen);
            && w.baseline == baseline
            && StableTracks(baseline, perSample, seen, w.stable)
            && PeakTracks(baseline, perSample, seen, w.peak)
  {
    if seen != [] {
      var before, s := seen[..|seen| - 1], seen[|seen| - 1];
      var w := WatchAll(baseline, perSample, before);
      assert before + [s] == seen;
      WatchTracks(baseline, perSample, before);
      StableStep(baseline, perSample, before, s, w.stable);
      PeakStep(baseline, perSample, before, s, w.peak);
    }
  }

  /** A window chooses the latest stable meaningful sighting, otherwise the first
      maximal one, and nothing exactly if nothing meaningful was seen. */
  lemma WindowChooses(baseline: LumaPlane, perSample: real, seen: seq<Sighting>)
    ensures match WatchAll(baseline, perSample, seen).Choose()
            case None => forall j | 0 <= j < |seen| :: !Meaningful(baseline, perSample, seen[j])
            case Some(o) =>
              exists i | 0 <= i < |seen| ::
                && o == ObservationOf(baseline, perSample, seen[i])
                && (LatestStable(baseline, perSample, seen, i)
                    || (FirstMaximal(baseline, perSample, seen, i)
                        && forall j | 0 <= j < |seen| :: !(seen[j].isStable && Meaningful(baseline, perSample, seen[j]))))
  {
    WatchTracks(baseline, perSample, seen);
    var w := WatchAll(baseline, perSample, seen);
    if w.stable.Some? {
      var i :| LatestStable(baseline, perSample, seen, i) && w.stable.value == ObservationOf(baseline, perSample, seen[i]);
      assert 0 <= i < |seen|;
    } else if w.peak.Some? {
      var i :| FirstMaximal(baseline, perSample, seen, i) && w.peak.value == ObservationOf(baseline, perSample, seen[i]);
      assert 0 <= i < |seen|;
    }
  }
}
