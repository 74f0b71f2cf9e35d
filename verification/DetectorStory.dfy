/** The detector told from what it was shown: which frames moved and settled,
    which one it compares with, which session is open and what that session saw. */
module DetectorStory {
  import opened Prelude
  import opened Models
  import opened Metrics
  import opened DetectorModel
  import opened DetectorInvariant
  import opened DetectorRuns
  import opened DetectorTheorems

  // -------------------------------------------------- movement, in planes

  /** Frame `i` starts a stretch of frames of one size. */
  predicate Resets(planes: seq<LumaPlane>, i: nat)
    requires i < |planes|
  {
    i == 0 || !planes[i - 1].SameSize(planes[i])
  }

  predicate Moves(planes: seq<LumaPlane>, cfg: DetectorConfig, i: nat)
    requires i < |planes|
  {
    !Resets(planes, i) && Motion(planes[i - 1], planes[i], cfg)
  }

  predicate Still(planes: seq<LumaPlane>, cfg: DetectorConfig, i: nat)
    requires i < |planes|
  {
    !Resets(planes, i) && !Motion(planes[i - 1], planes[i], cfg)
  }

  /** How many still frames have followed the last one that moved, in the present stretch. */
  function Quiet(planes: seq<LumaPlane>, cfg: DetectorConfig): Option<nat> {
    if planes == [] then None
    else
      var n := |planes| - 1;
      if Resets(planes, n) then None
      else if Motion(planes[n - 1], planes[n], cfg) then Some(0)
      else match Quiet(planes[..n], cfg) case None => None case Some(q) => Some(q + 1)
  }

  /** Still frames that make a settle. */
  function SettleAfter(cfg: DetectorConfig): nat { Max(1, cfg.stableFrames) }

  predicate MovingNow(planes: seq<LumaPlane>, cfg: DetectorConfig) {
    Quiet(planes, cfg).Some? && Quiet(planes, cfg).value < SettleAfter(cfg)
  }

  /** The last frame completes a settle. */
  predicate SettlesNow(planes: seq<LumaPlane>, cfg: DetectorConfig) { Quiet(planes, cfg) == Some(SettleAfter(cfg)) }

  /** A frame after `r` has moved. */
  predicate MovedSince(planes: seq<LumaPlane>, cfg: DetectorConfig, r: nat) {
    Quiet(planes, cfg).Some? && |planes| - 1 - Quiet(planes, cfg).value > r
  }

  /** In planes: frame `i` moved, and every frame after it is still. */
  predicate LastMoved(planes: seq<LumaPlane>, cfg: DetectorConfig, i: nat) {
    && i < |planes| && Moves(planes, cfg, i)
    && forall j | i < j < |planes| :: Still(planes, cfg, j)
  }

  lemma {:induction false} QuietMeans(planes: seq<LumaPlane>, cfg: DetectorConfig, i: nat)
    ensures i < |planes| && Quiet(planes, cfg) == Some(|planes| - 1 - i) <==> LastMoved(planes, cfg, i)
  {
    if i < |planes| - 1 {
      var n := |planes| - 1;
      QuietMeans(planes[..n], cfg, i);
      LastMovedGrows(planes, cfg, i);
    } else if i == |planes| - 1 {
      assert Quiet(planes, cfg) == Some(0) <==> Moves(planes, cfg, i);
    }
  }

  lemma LastMovedGrows(planes: seq<LumaPlane>, cfg: DetectorConfig, i: nat)
    requires i + 1 < |planes|
    ensures var n := |planes| - 1;
            LastMoved(planes, cfg, i) <==> LastMoved(planes[..n], cfg, i) && Still(planes, cfg, n)
  {
    var n := |planes| - 1;
    var before := planes[..n];
    assert Moves(before, cfg, i) == Moves(planes, cfg, i);
    forall j | i < j < n
      ensures Still(before, cfg, j) == Still(planes, cfg, j)
    {
    }
  }

  /** A settle completes at the last frame exactly if some frame moved, and
      `max(1, stable_frames)` still ones make up the rest. */
  lemma SettlesIff(planes: seq<LumaPlane>, cfg: DetectorConfig)
    ensures SettlesNow(planes, cfg) <==>
              SettleAfter(cfg) < |planes| && LastMoved(planes, cfg, |planes| - 1 - SettleAfter(cfg))
  {
    if SettleAfter(cfg) < |planes| {
      QuietMeans(planes, cfg, |planes| - 1 - SettleAfter(cfg));
    } else {
      QuietBounds(planes, cfg);
    }
  }

  lemma {:induction false} QuietBounds(planes: seq<LumaPlane>, cfg: DetectorConfig)
    ensures Quiet(planes, cfg).Some? ==> Quiet(planes, cfg).value + 1 < |planes|
  {
    if planes != [] {
      QuietBounds(planes[..|planes| - 1], cfg);
    }
  }

  // ---------------------------------------------------------------- sessions

  /** Who owns the frames: nobody, a click up to its deadline, a typing burst or a scroll. */
  datatype Owner = Nobody | ClickOwner(until: Millis) | TypingOwner(lastAt: Millis, forced: bool) | ScrollOwner(lastAt: Millis)

  /** What was shown; the frame compared with (`rebase`); the open session and the
      frame it started from; and when the last marker was decided. */
  datatype Story = Story(
    planes: seq<LumaPlane>, times: seq<Millis>, rebase: nat, owner: Owner, from: nat, decided: Option<Millis>)

  const PROLOGUE := Story([], [], 0, Nobody, 0, None)

  /** The frames after `from`, each with whether the view was at rest on it. */
  function Sightings(planes: seq<LumaPlane>, times: seq<Millis>, cfg: DetectorConfig, from: nat): seq<Sighting>
    requires |planes| == |times|
    decreases |planes|
  {
    var n := |planes| - 1;
    if n <= from then []
    else
      Sightings(planes[..n], times[..n], cfg, from)
      + [Sighting(AnalysisFrame(n, times[n], planes[n]), !MovingNow(planes, cfg))]
  }

  /** The observation a session would settle on now. */
  function Chosen(s: Story, cfg: DetectorConfig): Option<PeakObservation>
    requires s.from < |s.planes| == |s.times|
  {
    Watched(s, cfg).Choose()
  }

  function Watched(s: Story, cfg: DetectorConfig): SemanticWindow
    requires s.from < |s.planes| == |s.times|
  {
    WatchAll(s.planes[s.from], cfg.perSampleThreshold, Sightings(s.planes, s.times, cfg, s.from))
  }

  predicate Cooled(s: Story, cfg: DetectorConfig, at: Millis) {
    s.decided.Some? ==> Monus(at, s.decided.value) >= cfg.cooldownMs
  }

  datatype Told = Told(story: Story, marker: Option<CandidateMarker>)

  function KindOf(owner: Owner): CandidateKind {
    match owner
    case Nobody => UiChanged
    case ClickOwner(_) => ClickStep
    case TypingOwner(_, _) => TypingStep
    case ScrollOwner(_) => ScrollStep
  }

  function ReasonOf(owner: Owner): DetectReason {
    match owner
    case Nobody => VisualChange
    case ClickOwner(_) => ClickConfirmed
    case TypingOwner(_, _) => TypingSettled
    case ScrollOwner(_) => ScrollSettled
  }

  /** The session of `s` ends at `at`: a marker exactly if it saw something to
      settle on and the cooldown is over. */
  function Ending(s: Story, cfg: DetectorConfig, at: Millis): Option<CandidateMarker>
    requires |s.planes| == |s.times|
  {
    if s.from < |s.planes| && Chosen(s, cfg).Some? && Cooled(s, cfg, at) then
      Some(CandidateMarker(KindOf(s.owner), ReasonOf(s.owner), Chosen(s, cfg).value.atMs, Chosen(s, cfg).value.id))
    else None
  }

  function DecidedBy(s: Story, m: Option<CandidateMarker>, at: Millis): Option<Millis> {
    if m.Some? then Some(at) else s.decided
  }

  /** The session was over before a frame at `at`, or is over with it. */
  predicate OverBefore(owner: Owner, cfg: DetectorConfig, at: Millis) {
    match owner
    case Nobody => false
    case ClickOwner(until) => at > until
    case TypingOwner(lastAt, forced) => forced || Monus(at, lastAt) > cfg.typingPauseMs
    case ScrollOwner(lastAt) => Monus(at, lastAt) > cfg.scrollDwellMs
  }

  predicate OverWith(owner: Owner, cfg: DetectorConfig, at: Millis) {
    match owner
    case Nobody => false
    case ClickOwner(until) => at == until
    case TypingOwner(lastAt, _) => Monus(at, lastAt) == cfg.typingPauseMs
    case ScrollOwner(lastAt) => Monus(at, lastAt) == cfg.scrollDwellMs
  }

  function WithFrame(s: Story, plane: LumaPlane, at: Millis): Story {
    s.(planes := s.planes + [plane], times := s.times + [at])
  }

  /** A settle nobody else owns: a marker exactly if the last frame has moved from
      the one compared with and the cooldown is over; a click's while one is open. */
  function Settling(s: Story, cfg: DetectorConfig, at: Millis): Told
    requires s.rebase < |s.planes|
  {
    var n := |s.planes| - 1;
    if !SettlesNow(s.planes, cfg) then Told(s, None)
    else if Motion(s.planes[s.rebase], s.planes[n], cfg) && Cooled(s, cfg, at) then
      Told(s.(rebase := n, owner := Nobody, decided := Some(at)),
           Some(CandidateMarker(KindOf(s.owner), ReasonOf(s.owner), at, n)))
    else Told(s.(rebase := n), None)
  }

  /** A frame of the same size is shown: `s` before it, `shown` with it. */
  function Carried(s: Story, shown: Story, cfg: DetectorConfig, at: Millis): Told
    requires |s.planes| == |s.times| && |shown.planes| == |shown.times| == |s.planes| + 1
    requires shown.rebase < |s.planes|
  {
    var n := |s.planes|;
    if OverBefore(s.owner, cfg, at) || OverWith(s.owner, cfg, at) then
      var m := Ending(if OverBefore(s.owner, cfg, at) then s else shown, cfg, at);
      var ended := shown.(owner := Nobody, decided := DecidedBy(s, m, at));
      if !s.owner.ClickOwner? then Told(ended.(rebase := n), m)
      else if m.Some? then Told(ended, m)
      else Settling(ended, cfg, at)
    else if s.owner.TypingOwner? || s.owner.ScrollOwner? then
      Told(if SettlesNow(shown.planes, cfg) then shown.(rebase := n) else shown, None)
    else Settling(shown, cfg, at)
  }

  /** A frame is shown. */
  function TellFrame(s: Story, cfg: DetectorConfig, plane: LumaPlane, at: Millis): Told
    requires |s.planes| == |s.times| && (s.planes != [] ==> s.rebase < |s.planes|)
  {
    var n := |s.planes|;
    var shown := WithFrame(s, plane, at);
    if n == 0 then Told(shown.(rebase := 0), None)
    else if Resets(shown.planes, n) then Told(shown.(rebase := n, owner := Nobody), None)
    else Carried(s, shown, cfg, at)
  }

  /** An event happens. A session starts from the last frame, or the first to come. */
  function TellEvent(s: Story, cfg: DetectorConfig, ev: TimedSemanticAction): Told
    requires |s.planes| == |s.times|
  {
    var start := Monus(|s.planes|, 1);
    match ev.action
    case Click(_) =>
      if s.owner.TypingOwner? || s.owner.ScrollOwner? then Told(s, None)
      else
        var m := if s.owner.ClickOwner? then Ending(s, cfg, ev.atMs) else None;
        Told(s.(owner := ClickOwner(SatAdd64(ev.atMs, cfg.clickWindowMs)), from := start,
                decided := DecidedBy(s, m, ev.atMs)), m)
    case TypingActivity =>
      if s.owner.TypingOwner? then Told(s.(owner := s.owner.(lastAt := ev.atMs)), None)
      else Told(s.(owner := TypingOwner(ev.atMs, false), from := start), None)
    case Key(_) =>
      if s.owner.TypingOwner? then Told(s.(owner := TypingOwner(ev.atMs, true)), None) else Told(s, None)
    case ScrollActivity =>
      if s.owner.TypingOwner? then Told(s, None)
      else if s.owner.ScrollOwner? then Told(s.(owner := ScrollOwner(ev.atMs)), None)
      else Told(s.(owner := ScrollOwner(ev.atMs), from := start), None)
  }

  /** The recording ends at the time of its last frame. */
  function TellEnd(s: Story, cfg: DetectorConfig): Option<CandidateMarker>
    requires |s.planes| == |s.times| && (s.planes != [] ==> s.rebase < |s.planes|)
  {
    if s.planes == [] then None
    else
      var n := |s.planes| - 1;
      var at := s.times[n];
      var m := if s.owner.Nobody? then None else Ending(s, cfg, at);
      if m.Some? || s.owner.TypingOwner? || s.owner.ScrollOwner? then m
      else if MovingNow(s.planes, cfg) && MovedSince(s.planes, cfg, s.rebase)
              && Motion(s.planes[s.rebase], s.planes[n], cfg) && Cooled(s, cfg, at)
      then Some(CandidateMarker(UiChanged, VisualChange, at, n))
      else None
  }

  // ------------------------------------------------------- the code tells it

  predicate StoryOk(s: Story) {
    && |s.planes| == |s.times|
    && (s.planes != [] ==> s.rebase < |s.planes|)
    && (!s.owner.Nobody? ==> s.from <= Monus(|s.planes|, 1))
  }

  /** The owner's window holds what the session saw; no other window is open. */
  predicate WindowsTell(s: Story, d: Detector, cfg: DetectorConfig)
    requires StoryOk(s)
  {
    var w := if s.planes != [] && !s.owner.Nobody? then Some(Watched(s, cfg)) else None;
    && d.clickWindow == (if s.owner.ClickOwner? then w else None)
    && d.typingWindow == (if s.owner.TypingOwner? then w else None)
    && d.scrollWindow == (if s.owner.ScrollOwner? then w else None)
  }

  predicate OwnerTells(s: Story, d: Detector) {
    && d.clickOpenUntil == (if s.owner.ClickOwner? then Some(s.owner.until) else None)
    && d.inTyping == s.owner.TypingOwner?
    && (if s.owner.TypingOwner? then d.typingLastAt == s.owner.lastAt && d.typingForceEnd == s.owner.forced
        else !d.typingForceEnd)
    && d.inScroll == s.owner.ScrollOwner?
    && (s.owner.ScrollOwner? ==> d.scrollLastAt == s.owner.lastAt)
  }

  predicate MovementTells(s: Story, d: Detector, cfg: DetectorConfig) {
    && d.moving == MovingNow(s.planes, cfg)
    && (d.moving ==> Some(d.stableCount) == Quiet(s.planes, cfg))
    && d.sawChange == MovedSince(s.planes, cfg, s.rebase)
  }

  predicate PlanesTell(s: Story, d: Detector)
    requires StoryOk(s)
  {
    && d.lastFrame == LastFrame(s.times)
    && d.lastCandidateMs == s.decided
    && (if s.planes == [] then d.prev.None? && d.baseline.None?
        else d.prev == Some(s.planes[|s.planes| - 1]) && d.baseline == Some(s.planes[s.rebase]))
  }

  /** The detector's fields are what the story says. */
  predicate Tells(s: Story, d: Detector, cfg: DetectorConfig) {
    StoryOk(s) && PlanesTell(s, d) && MovementTells(s, d, cfg) && OwnerTells(s, d) && WindowsTell(s, d, cfg)
  }

  lemma EndingTells(s: Story, d: Detector, cfg: DetectorConfig, at: Millis)
    requires StoryOk(s) && s.planes != [] && !s.owner.Nobody? && d.lastCandidateMs == s.decided
    ensures var e := SemanticMarker(d, cfg, Watched(s, cfg), at, KindOf(s.owner), ReasonOf(s.owner));
            e.marker == Ending(s, cfg, at) && e.d == d.(lastCandidateMs := DecidedBy(s, Ending(s, cfg, at), at))
  {
  }

  /** A session that has just started has seen nothing. */
  lemma Started(s: Story, d: Detector, cfg: DetectorConfig)
    requires StoryOk(s) && PlanesTell(s, d) && s.planes != [] && s.from == |s.planes| - 1
    ensures OpeningWindow(d) == Some(Watched(s, cfg))
  {
  }

  lemma ClickTold(s: Story, d: Detector, cfg: DetectorConfig, ev: TimedSemanticAction)
    requires Tells(s, d, cfg) && ev.action.Click?
    ensures var e, t := ObserveEvent(d, cfg, ev), TellEvent(s, cfg, ev); e.marker == t.marker && Tells(t.story, e.d, cfg)
  {
    var closed := d.(clickOpenUntil := None, clickWindow := None);
    if s.owner.ClickOwner? && s.planes != [] {
      EndingTells(s, closed, cfg, ev.atMs);
    }
    if s.planes != [] && !s.owner.TypingOwner? && !s.owner.ScrollOwner? {
      var t, e := TellEvent(s, cfg, ev), ObserveEvent(d, cfg, ev);
      Started(t.story, e.d, cfg);
    }
  }

  lemma TypingTold(s: Story, d: Detector, cfg: DetectorConfig, ev: TimedSemanticAction)
    requires Tells(s, d, cfg) && !ev.action.Click?
    ensures var e, t := ObserveEvent(d, cfg, ev), TellEvent(s, cfg, ev); e.marker == t.marker && Tells(t.story, e.d, cfg)
  {
    if s.planes != [] {
      var t := TellEvent(s, cfg, ev).story;
      if t.from == |s.planes| - 1 {
        Started(t, d, cfg);
      }
      if t.from == s.from && s.from < |s.planes| {
        SameView(s, t, cfg);
      }
    }
  }

  /** What a session has seen depends on the frames and where it started. */
  lemma SameView(s: Story, t: Story, cfg: DetectorConfig)
    requires StoryOk(s) && StoryOk(t) && t.planes == s.planes && t.times == s.times && t.from == s.from < |s.planes|
    ensures Watched(t, cfg) == Watched(s, cfg)
  {
  }

  /** An event is told as the code sees it. */
  lemma EventTold(s: Story, d: Detector, cfg: DetectorConfig, ev: TimedSemanticAction)
    requires Tells(s, d, cfg)
    ensures var e, t := ObserveEvent(d, cfg, ev), TellEvent(s, cfg, ev); e.marker == t.marker && Tells(t.story, e.d, cfg)
  {
    if ev.action.Click? {
      ClickTold(s, d, cfg, ev);
    } else {
      TypingTold(s, d, cfg, ev);
    }
  }

  // ------------------------------------------------------------------ frames

  lemma FirstTold(s: Story, d: Detector, cfg: DetectorConfig, plane: LumaPlane, at: Millis)
    requires Tells(s, d, cfg) && s.planes == []
    ensures var frame := AnalysisFrame(0, at, plane);
            var e, t := ObserveFrame(d, cfg, frame), TellFrame(s, cfg, plane, at);
            e.marker == t.marker && Tells(t.story, e.d, cfg)
  {
  }

  lemma ResetTold(s: Story, d: Detector, cfg: DetectorConfig, plane: LumaPlane, at: Millis)
    requires Tells(s, d, cfg) && s.planes != [] && !s.planes[|s.planes| - 1].SameSize(plane)
    ensures var e, t := ObserveFrame(d, cfg, AnalysisFrame(|s.planes|, at, plane)), TellFrame(s, cfg, plane, at);
            e.marker == t.marker && Tells(t.story, e.d, cfg)
  {
    var n, planes := |s.planes|, s.planes + [plane];
    assert Resets(planes, n) && Quiet(planes, cfg) == None;
    AllCleared(TellFrame(s, cfg, plane, at).story, DimensionReset(d.(lastFrame := Some((n, at))), plane), cfg);
  }

  /** After a change of size nothing is moving, owned or seen. */
  lemma AllCleared(s: Story, d: Detector, cfg: DetectorConfig)
    requires StoryOk(s) && PlanesTell(s, d) && s.owner.Nobody? && Quiet(s.planes, cfg).None?
    requires !d.moving && !d.sawChange && d.clickOpenUntil.None? && !d.inTyping && !d.typingForceEnd && !d.inScroll
    requires d.clickWindow.None? && d.typingWindow.None? && d.scrollWindow.None?
    ensures Tells(s, d, cfg)
  {
  }

  /** The detector once a frame is shown and its movement booked; the session has
      not seen the frame. */
  predicate Booked(s: Story, shown: Story, d: Detector, cfg: DetectorConfig) {
    && StoryOk(s) && StoryOk(shown) && s.planes != []
    && s.rebase == shown.rebase && s.owner == shown.owner && s.from == shown.from && s.decided == shown.decided
    && |shown.planes| == |s.planes| + 1 && shown.planes[..|s.planes|] == s.planes && shown.times[..|s.times|] == s.times
    && PlanesTell(shown, d) && MovementTells(shown, d, cfg) && OwnerTells(s, d) && WindowsTell(s, d, cfg)
  }

  lemma BookTold(s: Story, d: Detector, cfg: DetectorConfig, plane: LumaPlane, at: Millis)
    requires Tells(s, d, cfg) && s.planes != [] && s.planes[|s.planes| - 1].SameSize(plane)
    ensures var shown := WithFrame(s, plane, at);
            var (moved, settled) := Bookkeep(d.(lastFrame := Some((|s.planes|, at))), cfg, plane);
            Booked(s, shown, moved, cfg) && settled == SettlesNow(shown.planes, cfg)
  {
    var shown := WithFrame(s, plane, at);
    assert shown.planes[..|s.planes|] == s.planes && shown.times[..|s.times|] == s.times;
    QuietBounds(s.planes, cfg);
  }

  /** The session sees the frame. */
  lemma SeesTold(s: Story, shown: Story, d: Detector, cfg: DetectorConfig)
    requires Booked(s, shown, d, cfg) && !s.owner.Nobody?
    ensures var n := |s.planes|;
            ObserveWindow(Some(Watched(s, cfg)), d, cfg, AnalysisFrame(n, shown.times[n], shown.planes[n])) == Some(Watched(shown, cfg))
  {
    var n := |s.planes|;
    assert Sightings(shown.planes, shown.times, cfg, s.from)
        == Sightings(s.planes, s.times, cfg, s.from) + [Sighting(AnalysisFrame(n, shown.times[n], shown.planes[n]), !d.moving)];
  }

  /** A settle that no typing or scrolling owns. */
  lemma SettlingTold(s: Story, d: Detector, cfg: DetectorConfig)
    requires Tells(s, d, cfg) && |s.planes| > 1 && !s.owner.TypingOwner? && !s.owner.ScrollOwner?
    requires s.owner.ClickOwner? ==> s.times[|s.times| - 1] <= s.owner.until
    ensures var n := |s.planes| - 1;
            var e := Decide(d, cfg, AnalysisFrame(n, s.times[n], s.planes[n]), SettlesNow(s.planes, cfg));
            var t := Settling(s, cfg, s.times[n]);
            e.marker == t.marker && Tells(t.story, e.d, cfg)
  {
  }

  function LastSeen(s: Story): AnalysisFrame
    requires StoryOk(s) && s.planes != []
  {
    var n := |s.planes| - 1;
    AnalysisFrame(n, s.times[n], s.planes[n])
  }

  ghost predicate SameTold(e: Emit, t: Told, cfg: DetectorConfig) { e.marker == t.marker && Tells(t.story, e.d, cfg) }

  /** A typing burst or scroll has closed on the frame: nobody owns what comes, and
      the frame is the one to compare with. */
  lemma BurstClosed(s: Story, shown: Story, d: Detector, cfg: DetectorConfig, closed: Detector, decided: Option<Millis>)
    requires Booked(s, shown, d, cfg) && (s.owner.TypingOwner? || s.owner.ScrollOwner?)
    requires closed == d.(typingWindow := None, inTyping := false, typingForceEnd := false, scrollWindow := None,
                          inScroll := false, sawChange := false, baseline := Some(LastSeen(shown).luma),
                          lastCandidateMs := decided)
    ensures Tells(shown.(owner := Nobody, decided := decided, rebase := |s.planes|), closed, cfg)
  {
  }

  /** A typing burst or scroll goes on over the frame. */
  lemma BurstGoesOn(s: Story, shown: Story, d: Detector, cfg: DetectorConfig, seen: Detector)
    requires Booked(s, shown, d, cfg) && (s.owner.TypingOwner? || s.owner.ScrollOwner?)
    requires seen == if s.owner.TypingOwner? then d.(typingWindow := Some(Watched(shown, cfg)))
                     else d.(scrollWindow := Some(Watched(shown, cfg)))
    ensures Tells(shown, seen, cfg)
    ensures Tells(shown.(rebase := |s.planes|), seen.(baseline := Some(LastSeen(shown).luma), sawChange := false), cfg)
  {
  }

  lemma TypingFrameTold(s: Story, shown: Story, d: Detector, cfg: DetectorConfig)
    requires Booked(s, shown, d, cfg) && s.owner.TypingOwner?
    ensures var frame := LastSeen(shown);
            SameTold(CloseOrDecide(d, cfg, frame, SettlesNow(shown.planes, cfg)), Carried(s, shown, cfg, frame.atMs), cfg)
  {
    var frame := LastSeen(shown);
    var at := frame.atMs;
    SeesTold(s, shown, d, cfg);
    var closed := d.(typingWindow := None, inTyping := false, typingForceEnd := false, sawChange := false,
                     baseline := Some(frame.luma));
    if OverBefore(s.owner, cfg, at) {
      EndingTells(s, closed, cfg, at);
      BurstClosed(s, shown, d, cfg, closed.(lastCandidateMs := DecidedBy(s, Ending(s, cfg, at), at)), DecidedBy(s, Ending(s, cfg, at), at));
    } else if OverWith(s.owner, cfg, at) {
      EndingTells(shown, closed, cfg, at);
      BurstClosed(s, shown, d, cfg, closed.(lastCandidateMs := DecidedBy(s, Ending(shown, cfg, at), at)),
                  DecidedBy(s, Ending(shown, cfg, at), at));
    } else {
      BurstGoesOn(s, shown, d, cfg, d.(typingWindow := Some(Watched(shown, cfg))));
    }
  }

  lemma ScrollFrameTold(s: Story, shown: Story, d: Detector, cfg: DetectorConfig)
    requires Booked(s, shown, d, cfg) && s.owner.ScrollOwner?
    ensures var frame := LastSeen(shown);
            SameTold(CloseOrDecide(d, cfg, frame, SettlesNow(shown.planes, cfg)), Carried(s, shown, cfg, frame.atMs), cfg)
  {
    var frame := LastSeen(shown);
    var at := frame.atMs;
    SeesTold(s, shown, d, cfg);
    var closed := d.(scrollWindow := None, inScroll := false, sawChange := false, baseline := Some(frame.luma));
    if OverBefore(s.owner, cfg, at) {
      EndingTells(s, closed, cfg, at);
      BurstClosed(s, shown, d, cfg, closed.(lastCandidateMs := DecidedBy(s, Ending(s, cfg, at), at)), DecidedBy(s, Ending(s, cfg, at), at));
    } else if OverWith(s.owner, cfg, at) {
      EndingTells(shown, closed, cfg, at);
      BurstClosed(s, shown, d, cfg, closed.(lastCandidateMs := DecidedBy(s, Ending(shown, cfg, at), at)),
                  DecidedBy(s, Ending(shown, cfg, at), at));
    } else {
      BurstGoesOn(s, shown, d, cfg, d.(scrollWindow := Some(Watched(shown, cfg))));
    }
  }

  /** The click window on the frame: it ends with a marker, ends without, or goes on. */
  lemma ClickFrameTold(s: Story, shown: Story, d: Detector, cfg: DetectorConfig)
    requires Booked(s, shown, d, cfg) && s.owner.ClickOwner?
    ensures var frame := LastSeen(shown);
            SameTold(CloseOrDecide(d, cfg, frame, SettlesNow(shown.planes, cfg)), Carried(s, shown, cfg, frame.atMs), cfg)
  {
    var frame := LastSeen(shown);
    var at := frame.atMs;
    SeesTold(s, shown, d, cfg);
    var closed := d.(clickOpenUntil := None, clickWindow := None);
    EndingTells(s, closed, cfg, at);
    EndingTells(shown, closed, cfg, at);
    if !OverBefore(s.owner, cfg, at) && !OverWith(s.owner, cfg, at) {
      SettlingTold(shown, d.(clickWindow := Some(Watched(shown, cfg))), cfg);
    } else if Ending(if OverBefore(s.owner, cfg, at) then s else shown, cfg, at).None? {
      SettlingTold(shown.(owner := Nobody), closed, cfg);
    }
  }

  lemma NobodyFrameTold(s: Story, shown: Story, d: Detector, cfg: DetectorConfig)
    requires Booked(s, shown, d, cfg) && s.owner.Nobody?
    ensures var frame := LastSeen(shown);
            SameTold(CloseOrDecide(d, cfg, frame, SettlesNow(shown.planes, cfg)), Carried(s, shown, cfg, frame.atMs), cfg)
  {
    SettlingTold(shown, d, cfg);
  }

  /** A frame is told as the code sees it. */
  lemma FrameTold(s: Story, d: Detector, cfg: DetectorConfig, plane: LumaPlane, at: Millis)
    requires Tells(s, d, cfg)
    ensures SameTold(ObserveFrame(d, cfg, AnalysisFrame(|s.planes|, at, plane)), TellFrame(s, cfg, plane, at), cfg)
  {
    if s.planes == [] {
      FirstTold(s, d, cfg, plane, at);
    } else if !s.planes[|s.planes| - 1].SameSize(plane) {
      ResetTold(s, d, cfg, plane, at);
    } else {
      var shown := WithFrame(s, plane, at);
      var (moved, settled) := Bookkeep(d.(lastFrame := Some((|s.planes|, at))), cfg, plane);
      BookTold(s, d, cfg, plane, at);
      match s.owner
      case Nobody => NobodyFrameTold(s, shown, moved, cfg);
      case ClickOwner(_) => ClickFrameTold(s, shown, moved, cfg);
      case TypingOwner(_, _) => TypingFrameTold(s, shown, moved, cfg);
      case ScrollOwner(_) => ScrollFrameTold(s, shown, moved, cfg);
    }
  }

  /** The end is told as the code sees it. */
  lemma EndTold(s: Story, d: Detector, cfg: DetectorConfig)
    requires Tells(s, d, cfg)
    ensures Finish(d, cfg).marker == TellEnd(s, cfg)
  {
    if s.planes != [] && !s.owner.Nobody? {
      var at := s.times[|s.times| - 1];
      match s.owner
      case ClickOwner(_) => EndingTells(s, d.(clickOpenUntil := None, clickWindow := None), cfg, at);
      case TypingOwner(_, _) => EndingTells(s, d.(typingWindow := None, inTyping := false, typingForceEnd := false), cfg, at);
      case ScrollOwner(_) => EndingTells(s, d.(scrollWindow := None, inScroll := false, sawChange := false), cfg, at);
    }
  }

  // ------------------------------------------------------------- whole runs

  function TellFeed(s: Story, cfg: DetectorConfig, feed: Feed): Told
    requires StoryOk(s)
  {
    match feed
    case FrameFeed(plane, at) => TellFrame(s, cfg, plane, at)
    case EventFeed(ev) => TellEvent(s, cfg, ev)
  }

  /** The story of a run, told from its calls alone. */
  function TheStory(cfg: DetectorConfig, feeds: seq<Feed>): (s: Story)
    ensures StoryOk(s)
  {
    if feeds == [] then PROLOGUE
    else
      var before := TheStory(cfg, feeds[..|feeds| - 1]);
      TellKeeps(before, cfg, feeds[|feeds| - 1]);
      TellFeed(before, cfg, feeds[|feeds| - 1]).story
  }

  lemma TellKeeps(s: Story, cfg: DetectorConfig, feed: Feed)
    requires StoryOk(s)
    ensures StoryOk(TellFeed(s, cfg, feed).story)
  {
    match feed
    case FrameFeed(plane, at) => FrameKeepsStory(s, cfg, plane, at);
    case EventFeed(ev) => EventKeepsStory(s, cfg, ev);
  }

  lemma FrameKeepsStory(s: Story, cfg: DetectorConfig, plane: LumaPlane, at: Millis)
    requires StoryOk(s)
    ensures StoryOk(TellFrame(s, cfg, plane, at).story)
  {
  }

  lemma EventKeepsStory(s: Story, cfg: DetectorConfig, ev: TimedSemanticAction)
    requires StoryOk(s)
    ensures StoryOk(TellEvent(s, cfg, ev).story)
  {
  }

  /** The marker a call returns after a run. */
  function MarkerOf(r: DetectorRun, cfg: DetectorConfig, feed: Feed): Option<CandidateMarker> {
    match feed
    case FrameFeed(plane, at) => ObserveFrame(r.d, cfg, AnalysisFrame(|r.times|, at, plane)).marker
    case EventFeed(ev) => ObserveEvent(r.d, cfg, ev).marker
  }

  lemma FeedTold(s: Story, r: DetectorRun, cfg: DetectorConfig, feed: Feed)
    requires Tells(s, r.d, cfg) && r.times == s.times
    ensures Tells(TellFeed(s, cfg, feed).story, RunStep(r, cfg, feed).d, cfg)
    ensures RunStep(r, cfg, feed).times == TellFeed(s, cfg, feed).story.times
    ensures MarkerOf(r, cfg, feed) == TellFeed(s, cfg, feed).marker
  {
    match feed
    case FrameFeed(plane, at) =>
      FrameTold(s, r.d, cfg, plane, at);
      FrameLengthens(s, cfg, plane, at);
    case EventFeed(ev) =>
      EventTold(s, r.d, cfg, ev);
      EventShowsNothing(s, cfg, ev);
  }

  lemma FrameLengthens(s: Story, cfg: DetectorConfig, plane: LumaPlane, at: Millis)
    requires StoryOk(s)
    ensures TellFrame(s, cfg, plane, at).story.times == s.times + [at]
    ensures TellFrame(s, cfg, plane, at).story.planes == s.planes + [plane]
  {
  }

  lemma EventShowsNothing(s: Story, cfg: DetectorConfig, ev: TimedSemanticAction)
    requires StoryOk(s)
    ensures TellEvent(s, cfg, ev).story.times == s.times && TellEvent(s, cfg, ev).story.planes == s.planes
  {
  }

  /** Every run is the story of its calls: the detector's fields, and its times. */
  lemma {:induction false} RunTold(cfg: DetectorConfig, feeds: seq<Feed>)
    ensures Tells(TheStory(cfg, feeds), RunDetector(cfg, feeds).d, cfg)
    ensures RunDetector(cfg, feeds).times == TheStory(cfg, feeds).times
  {
    if feeds != [] {
      var before, feed := feeds[..|feeds| - 1], feeds[|feeds| - 1];
      RunTold(cfg, before);
      FeedTold(TheStory(cfg, before), RunDetector(cfg, before), cfg, feed);
    } else {
      assert Tells(PROLOGUE, NEW_DETECTOR, cfg);
    }
  }

  lemma MarkerTold(cfg: DetectorConfig, feeds: seq<Feed>, feed: Feed)
    ensures MarkerOf(RunDetector(cfg, feeds), cfg, feed) == TellFeed(TheStory(cfg, feeds), cfg, feed).marker
  {
    RunTold(cfg, feeds);
    FeedTold(TheStory(cfg, feeds), RunDetector(cfg, feeds), cfg, feed);
  }

  predicate CooledAfter(r: DetectorRun, cfg: DetectorConfig, at: Millis) {
    r.out != [] ==> Monus(at, r.out[|r.out| - 1].decidedAt) >= cfg.cooldownMs
  }

  lemma DecisionTold(cfg: DetectorConfig, feeds: seq<Feed>, at: Millis)
    ensures Cooled(TheStory(cfg, feeds), cfg, at) <==> CooledAfter(RunDetector(cfg, feeds), cfg, at)
  {
    RunTold(cfg, feeds);
    RunsPaced(cfg, feeds);
  }

  /** A frame that no session's end decides: after any run without an open typing
      burst or scroll, and with no click or one whose deadline has not come. A
      marker comes exactly if the frame completes a settle, has moved from the frame
      compared with, and the cooldown since the last decision is over; it is about
      that frame, a click's exactly while a click is open. */
  lemma SettleEmitsIff(cfg: DetectorConfig, feeds: seq<Feed>, plane: LumaPlane, at: Millis)
    requires var owner := TheStory(cfg, feeds).owner; owner.Nobody? || (owner.ClickOwner? && at < owner.until)
    ensures var s, r := TheStory(cfg, feeds), RunDetector(cfg, feeds);
            var n, planes := |s.planes|, s.planes + [plane];
            var m := MarkerOf(r, cfg, FrameFeed(plane, at));
            && (m.Some? <==> SettlesNow(planes, cfg) && n > 0 && Motion(planes[s.rebase], plane, cfg) && CooledAfter(r, cfg, at))
            && (m.Some? ==> m.value == if s.owner.ClickOwner? then CandidateMarker(ClickStep, ClickConfirmed, at, n)
                                       else CandidateMarker(UiChanged, VisualChange, at, n))
  {
    DecisionTold(cfg, feeds, at);
    MarkerTold(cfg, feeds, FrameFeed(plane, at));
    SettleStory(TheStory(cfg, feeds), cfg, plane, at);
  }

  lemma SettleStory(s: Story, cfg: DetectorConfig, plane: LumaPlane, at: Millis)
    requires StoryOk(s) && (s.owner.Nobody? || (s.owner.ClickOwner? && at < s.owner.until))
    ensures var n, planes := |s.planes|, s.planes + [plane];
            var m := TellFrame(s, cfg, plane, at).marker;
            && (m.Some? <==> SettlesNow(planes, cfg) && n > 0 && Motion(planes[s.rebase], plane, cfg) && Cooled(s, cfg, at))
            && (m.Some? ==> m.value == CandidateMarker(KindOf(s.owner), ReasonOf(s.owner), at, n))
  {
    var planes := s.planes + [plane];
    if s.planes == [] {
      assert Resets(planes, 0);
    }
  }

  /** The session's end is a marker exactly if the session saw something meaningful
      and the cooldown is over. It is the session's kind, and about its latest
      stable meaningful frame, or else its first most different one. */
  ghost predicate EndsRight(s: Story, cfg: DetectorConfig, at: Millis, m: Option<CandidateMarker>)
    requires s.from < |s.planes| == |s.times|
  {
    var base, per, seen := s.planes[s.from], cfg.perSampleThreshold, Sightings(s.planes, s.times, cfg, s.from);
    && (m.Some? <==> (exists i | 0 <= i < |seen| :: Meaningful(base, per, seen[i])) && Cooled(s, cfg, at))
    && (m.Some? ==>
          && m.value.kind == KindOf(s.owner) && m.value.reason == ReasonOf(s.owner)
          && exists i | 0 <= i < |seen| ::
               && m.value.centerId == seen[i].frame.id && m.value.atMs == seen[i].frame.atMs
               && (LatestStable(base, per, seen, i)
                   || (FirstMaximal(base, per, seen, i)
                       && forall j | 0 <= j < |seen| :: !(seen[j].isStable && Meaningful(base, per, seen[j])))))
  }

  lemma EndingRight(s: Story, cfg: DetectorConfig, at: Millis)
    requires s.from < |s.planes| == |s.times|
    ensures EndsRight(s, cfg, at, Ending(s, cfg, at))
  {
    var base, per, seen := s.planes[s.from], cfg.perSampleThreshold, Sightings(s.planes, s.times, cfg, s.from);
    WindowChooses(base, per, seen);
  }

  /** A frame at `at` ends the session: it was over before, or is over with it. */
  predicate Ends(s: Story, cfg: DetectorConfig, plane: LumaPlane, at: Millis)
    requires StoryOk(s)
  {
    && s.planes != [] && s.planes[|s.planes| - 1].SameSize(plane)
    && (OverBefore(s.owner, cfg, at) || OverWith(s.owner, cfg, at))
  }

  /** The frames a session that the frame ends has seen: the frame itself exactly if
      it comes at the very end. */
  function SeenByEnd(s: Story, cfg: DetectorConfig, plane: LumaPlane, at: Millis): (seen: Story)
    requires StoryOk(s) && s.planes != []
    ensures StoryOk(seen)
  {
    if OverBefore(s.owner, cfg, at) then s else WithFrame(s, plane, at)
  }

  /** The frame that ends a typing burst or a scroll, after any run. */
  lemma BurstEmitsIff(cfg: DetectorConfig, feeds: seq<Feed>, plane: LumaPlane, at: Millis)
    requires var s := TheStory(cfg, feeds); (s.owner.TypingOwner? || s.owner.ScrollOwner?) && Ends(s, cfg, plane, at)
    ensures EndsRight(SeenByEnd(TheStory(cfg, feeds), cfg, plane, at), cfg, at,
                      MarkerOf(RunDetector(cfg, feeds), cfg, FrameFeed(plane, at)))
  {
    MarkerTold(cfg, feeds, FrameFeed(plane, at));
    BurstStory(TheStory(cfg, feeds), cfg, plane, at);
    EndingRight(SeenByEnd(TheStory(cfg, feeds), cfg, plane, at), cfg, at);
  }

  lemma BurstStory(s: Story, cfg: DetectorConfig, plane: LumaPlane, at: Millis)
    requires StoryOk(s) && (s.owner.TypingOwner? || s.owner.ScrollOwner?) && Ends(s, cfg, plane, at)
    ensures TellFrame(s, cfg, plane, at).marker == Ending(SeenByEnd(s, cfg, plane, at), cfg, at)
  {
  }

  /** A frame in the middle of a typing burst or scroll is no marker, and neither is
      a first frame or one of another size. */
  lemma NoneWithin(cfg: DetectorConfig, feeds: seq<Feed>, plane: LumaPlane, at: Millis)
    requires var s := TheStory(cfg, feeds); Within(s, cfg, plane, at)
    ensures MarkerOf(RunDetector(cfg, feeds), cfg, FrameFeed(plane, at)) == None
  {
    MarkerTold(cfg, feeds, FrameFeed(plane, at));
    NoneStory(TheStory(cfg, feeds), cfg, plane, at);
  }

  predicate Within(s: Story, cfg: DetectorConfig, plane: LumaPlane, at: Millis)
    requires StoryOk(s)
  {
    || s.planes == [] || !s.planes[|s.planes| - 1].SameSize(plane)
    || ((s.owner.TypingOwner? || s.owner.ScrollOwner?) && !Ends(s, cfg, plane, at))
  }

  lemma NoneStory(s: Story, cfg: DetectorConfig, plane: LumaPlane, at: Millis)
    requires StoryOk(s) && Within(s, cfg, plane, at)
    ensures TellFrame(s, cfg, plane, at).marker == None
  {
  }

  /** A click's deadline on a frame: its own marker if it saw something meaningful
      and the cooldown is over, otherwise the frame's settle as if nobody had clicked. */
  lemma ClickEmitsIff(cfg: DetectorConfig, feeds: seq<Feed>, plane: LumaPlane, at: Millis)
    requires var s := TheStory(cfg, feeds); s.owner.ClickOwner? && Ends(s, cfg, plane, at)
    ensures var s := TheStory(cfg, feeds);
            var seen := SeenByEnd(s, cfg, plane, at);
            var m := MarkerOf(RunDetector(cfg, feeds), cfg, FrameFeed(plane, at));
            if EndsRight(seen, cfg, at, None) then m == TellFrame(s.(owner := Nobody), cfg, plane, at).marker
            else m.Some? && EndsRight(seen, cfg, at, m)
  {
    MarkerTold(cfg, feeds, FrameFeed(plane, at));
    ClickStory(TheStory(cfg, feeds), cfg, plane, at);
    EndingRight(SeenByEnd(TheStory(cfg, feeds), cfg, plane, at), cfg, at);
  }

  lemma ClickStory(s: Story, cfg: DetectorConfig, plane: LumaPlane, at: Millis)
    requires StoryOk(s) && s.owner.ClickOwner? && Ends(s, cfg, plane, at)
    ensures var m := Ending(SeenByEnd(s, cfg, plane, at), cfg, at);
            TellFrame(s, cfg, plane, at).marker == if m.Some? then m else TellFrame(s.(owner := Nobody), cfg, plane, at).marker
  {
  }

  /** An event is a marker only if it is a click while one is open, and then the open one's. */
  lemma EventEmitsIff(cfg: DetectorConfig, feeds: seq<Feed>, ev: TimedSemanticAction)
    ensures var s := TheStory(cfg, feeds);
            var m := MarkerOf(RunDetector(cfg, feeds), cfg, EventFeed(ev));
            if ev.action.Click? && s.owner.ClickOwner? && s.planes != [] then EndsRight(s, cfg, ev.atMs, m) else m == None
  {
    var s := TheStory(cfg, feeds);
    MarkerTold(cfg, feeds, EventFeed(ev));
    if s.from < |s.planes| {
      EndingRight(s, cfg, ev.atMs);
    }
  }

  /** The end of a run: the open session's marker; otherwise, or if a click has none,
      a visual change exactly if the view is still moving, has moved since the frame
      compared with and from it, and the cooldown is over. */
  lemma FlushEmitsIff(cfg: DetectorConfig, feeds: seq<Feed>)
    ensures var s, r := TheStory(cfg, feeds), RunDetector(cfg, feeds);
            var m := Finish(r.d, cfg).marker;
            if s.planes == [] then m == None
            else
              var n := |s.planes| - 1;
              var at := s.times[n];
              if s.owner.TypingOwner? || s.owner.ScrollOwner? || (s.owner.ClickOwner? && !EndsRight(s, cfg, at, None))
              then EndsRight(s, cfg, at, m)
              else if MovingNow(s.planes, cfg) && MovedSince(s.planes, cfg, s.rebase)
                      && Motion(s.planes[s.rebase], s.planes[n], cfg) && CooledAfter(r, cfg, at)
              then m == Some(CandidateMarker(UiChanged, VisualChange, at, n))
              else m == None
  {
    var s := TheStory(cfg, feeds);
    RunTold(cfg, feeds);
    EndTold(s, RunDetector(cfg, feeds).d, cfg);
    if s.planes != [] {
      DecisionTold(cfg, feeds, s.times[|s.planes| - 1]);
      if !s.owner.Nobody? {
        EndingRight(s, cfg, s.times[|s.planes| - 1]);
      }
    }
  }

  // ------------------------------------------------- runs of frames alone

  /** The planes shown. */
  function PlanesOf(feeds: seq<Feed>): seq<LumaPlane> {
    if feeds == [] then []
    else PlanesOf(feeds[..|feeds| - 1]) + match feeds[|feeds| - 1] case FrameFeed(plane, _) => [plane] case EventFeed(_) => []
  }

  /** The last frame that changed size or completed a settle. */
  function LastRest(planes: seq<LumaPlane>, cfg: DetectorConfig): (c: nat)
    ensures planes != [] ==> c < |planes|
  {
    if |planes| <= 1 then 0
    else if Resets(planes, |planes| - 1) || SettlesNow(planes, cfg) then |planes| - 1
    else LastRest(planes[..|planes| - 1], cfg)
  }

  lemma {:induction false} LastRestMeans(planes: seq<LumaPlane>, cfg: DetectorConfig)
    requires planes != []
    ensures var c := LastRest(planes, cfg);
            && c < |planes| && (Resets(planes, c) || SettlesNow(planes[..c + 1], cfg))
            && forall i | c < i < |planes| :: !Resets(planes, i) && !SettlesNow(planes[..i + 1], cfg)
  {
    var n := |planes| - 1;
    assert planes[..n + 1] == planes;
    if n > 0 && !Resets(planes, n) && !SettlesNow(planes, cfg) {
      var before := planes[..n];
      LastRestMeans(before, cfg);
      forall i | 0 <= i < n
        ensures Resets(before, i) == Resets(planes, i) && before[..i + 1] == planes[..i + 1]
      {
      }
    }
  }

  lemma {:induction false} FramesTold(cfg: DetectorConfig, feeds: seq<Feed>)
    requires EventFree(feeds)
    ensures var s := TheStory(cfg, feeds);
            s.owner == Nobody && s.planes == PlanesOf(feeds) && s.rebase == LastRest(s.planes, cfg)
  {
    if feeds != [] {
      var before, feed := feeds[..|feeds| - 1], feeds[|feeds| - 1];
      FramesTold(cfg, before);
      FrameUnowned(TheStory(cfg, before), cfg, feed.luma, feed.atMs);
    }
  }

  /** A frame nobody owns is the one compared with from then on exactly if it
      changes size or completes a settle. */
  lemma FrameUnowned(s: Story, cfg: DetectorConfig, plane: LumaPlane, at: Millis)
    requires StoryOk(s) && s.owner == Nobody && s.rebase == LastRest(s.planes, cfg)
    ensures var t := TellFrame(s, cfg, plane, at).story;
            t.owner == Nobody && t.planes == s.planes + [plane] && t.rebase == LastRest(t.planes, cfg)
  {
    var planes := s.planes + [plane];
    assert planes[..|s.planes|] == s.planes;
  }

  /** In a run of frames alone, whatever they show and whenever they come, a frame is
      a marker exactly if it completes a settle, has moved from the last frame that
      changed size or completed a settle, and the cooldown since the last decision is
      over; and it is then a visual change about that frame. */
  lemma FramesEmitIff(cfg: DetectorConfig, feeds: seq<Feed>, plane: LumaPlane, at: Millis)
    requires EventFree(feeds)
    ensures var before, r := PlanesOf(feeds), RunDetector(cfg, feeds);
            MarkerOf(r, cfg, FrameFeed(plane, at)) ==
            if SettlesNow(before + [plane], cfg) && before != [] && Motion(before[LastRest(before, cfg)], plane, cfg)
               && CooledAfter(r, cfg, at)
            then Some(CandidateMarker(UiChanged, VisualChange, at, |before|)) else None
  {
    FramesTold(cfg, feeds);
    SettleEmitsIff(cfg, feeds, plane, at);
    if PlanesOf(feeds) != [] {
      LastRestMeans(PlanesOf(feeds), cfg);
    }
  }
}
