/** What the detector makes of simple views: shades that differ, and a view that
    never changes. */
module DetectorViews {
  import opened Prelude
  import opened Models
  import opened Metrics
  import opened MetricTheorems
  import opened DetectorModel
  import opened DetectorRuns
  import opened DetectorTheorems
  import opened DetectorStory

  /** A view going from one shade to another moves exactly if the shades are further
      apart than each threshold allows: the mean, the sample, and the area's. */
  lemma ShadesMove(a: LumaPlane, b: LumaPlane, cfg: DetectorConfig, u: real, v: real)
    requires HasSamples(a, b, None) && OneShade(a, u) && OneShade(b, v)
    ensures Motion(a, b, cfg) <==>
              && Distance(u, v) / 255.0 > cfg.diffThreshold
              && (if Distance(u, v) > cfg.perSampleThreshold then 1.0 else 0.0) > cfg.areaThreshold
  {
    ShadesDiffer(a, b, None, u, v);
    ShadesCompared(a, b, None, cfg.perSampleThreshold, u, v);
  }

  /** ... and is worth a session's while exactly if at least four samples changed, by
      at least 24 levels. */
  lemma ShadesMeaningful(a: LumaPlane, frame: AnalysisFrame, isStable: bool, perSample: real, u: real, v: real)
    requires HasSamples(a, frame.luma, None) && OneShade(a, u) && OneShade(frame.luma, v) && perSample >= 0.0
    ensures Meaningful(a, perSample, Sighting(frame, isStable)) <==>
              Distance(u, v) > perSample && Distance(u, v) >= 24.0 && |a.samples| >= 4
  {
    ShadesCompared(a, frame.luma, None, perSample, u, v);
    AllSeen(a, |a.samples|);
  }

  // -------------------------------------------------- a view that stays as it is

  lemma SameIsStill(p: LumaPlane, cfg: DetectorConfig)
    requires cfg.diffThreshold >= 0.0 && cfg.perSampleThreshold >= 0.0
    ensures !Motion(p, p, cfg) && Stats(p, p, None, cfg.perSampleThreshold).normalizedMeanDiff == 0.0
  {
    if p.Valid() {
      EqualUnchanged(p, p, None, cfg.perSampleThreshold);
    }
  }

  predicate AllSame(planes: seq<LumaPlane>, p: LumaPlane) { forall i | 0 <= i < |planes| :: planes[i] == p }

  lemma {:induction false} NeverQuiet(planes: seq<LumaPlane>, p: LumaPlane, cfg: DetectorConfig)
    requires AllSame(planes, p) && !Motion(p, p, cfg)
    ensures Quiet(planes, cfg) == None
  {
    if planes != [] {
      NeverQuiet(planes[..|planes| - 1], p, cfg);
    }
  }

  lemma {:induction false} SightingsOf(planes: seq<LumaPlane>, times: seq<Millis>, p: LumaPlane, cfg: DetectorConfig, from: nat)
    requires |planes| == |times| && AllSame(planes, p)
    ensures forall s | s in Sightings(planes, times, cfg, from) :: s.frame.luma == p
    decreases |planes|
  {
    if |planes| - 1 > from {
      SightingsOf(planes[..|planes| - 1], times[..|times| - 1], p, cfg, from);
    }
  }

  lemma NothingToEndOn(s: Story, p: LumaPlane, cfg: DetectorConfig, at: Millis)
    requires StoryOk(s) && AllSame(s.planes, p)
    requires cfg.diffThreshold >= 0.0 && cfg.perSampleThreshold >= 0.0
    ensures Ending(s, cfg, at) == None
  {
    if s.from < |s.planes| {
      var per, seen := cfg.perSampleThreshold, Sightings(s.planes, s.times, cfg, s.from);
      EndingRight(s, cfg, at);
      SightingsOf(s.planes, s.times, p, cfg, s.from);
      SameIsStill(p, cfg);
      forall i | 0 <= i < |seen|
        ensures !Meaningful(s.planes[s.from], per, seen[i])
      {
        assert seen[i] in seen;
      }
    }
  }

  /** The story of a view that stays as it is. */
  lemma SilentStory(s: Story, cfg: DetectorConfig, p: LumaPlane, feed: Feed)
    requires StoryOk(s) && AllSame(s.planes, p) && (feed.FrameFeed? ==> feed.luma == p)
    requires cfg.diffThreshold >= 0.0 && cfg.perSampleThreshold >= 0.0
    ensures TellFeed(s, cfg, feed).marker == None && AllSame(TellFeed(s, cfg, feed).story.planes, p)
  {
    match feed
    case FrameFeed(_, at) =>
      var shown := WithFrame(s, p, at);
      NothingToEndOn(s, p, cfg, at);
      if s.planes != [] {
        NothingToEndOn(shown, p, cfg, at);
      }
      SameIsStill(p, cfg);
      NeverQuiet(shown.planes, p, cfg);
      FrameLengthens(s, cfg, p, at);
    case EventFeed(ev) =>
      NothingToEndOn(s, p, cfg, ev.atMs);
      EventShowsNothing(s, cfg, ev);
  }

  /** Whatever is clicked, typed or scrolled and whenever, a view that never changes
      makes no marker, not even at the end. */
  lemma {:induction false} UnchangedViewSilent(cfg: DetectorConfig, feeds: seq<Feed>, p: LumaPlane)
    requires cfg.diffThreshold >= 0.0 && cfg.perSampleThreshold >= 0.0
    requires forall f | f in feeds && f.FrameFeed? :: f.luma == p
    ensures RunDetector(cfg, feeds).out == [] && Finish(RunDetector(cfg, feeds).d, cfg).marker == None
    ensures AllSame(TheStory(cfg, feeds).planes, p)
  {
    if feeds != [] {
      var before, feed := feeds[..|feeds| - 1], feeds[|feeds| - 1];
      UnchangedViewSilent(cfg, before, p);
      SilentStory(TheStory(cfg, before), cfg, p, feed);
      MarkerTold(cfg, before, feed);
      SilentStep(RunDetector(cfg, before), cfg, feed);
    }
    SilentEnd(cfg, feeds, p);
  }

  lemma SilentStep(r: DetectorRun, cfg: DetectorConfig, feed: Feed)
    requires r.out == [] && MarkerOf(r, cfg, feed) == None
    ensures RunStep(r, cfg, feed).out == []
  {
  }

  lemma SilentEnd(cfg: DetectorConfig, feeds: seq<Feed>, p: LumaPlane)
    requires cfg.diffThreshold >= 0.0 && cfg.perSampleThreshold >= 0.0
    requires AllSame(TheStory(cfg, feeds).planes, p)
    ensures Finish(RunDetector(cfg, feeds).d, cfg).marker == None
  {
    var s := TheStory(cfg, feeds);
    RunTold(cfg, feeds);
    EndTold(s, RunDetector(cfg, feeds).d, cfg);
    if s.planes != [] {
      NothingToEndOn(s, p, cfg, s.times[|s.times| - 1]);
      SameIsStill(p, cfg);
      NeverQuiet(s.planes, p, cfg);
    }
  }
}
