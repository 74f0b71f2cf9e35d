/** Whole recordings: the recorder refines its detector run. */
module RecorderRuns {
  import opened Prelude
  import opened Models
  import opened Metrics
  import opened DetectorModel
  import opened DetectorRuns
  import opened FrameStoreModel
  import opened RecorderModel
  import opened RecorderInvariant

  function Times(frames: seq<StoredFrame>): seq<Millis> {
    seq(|frames|, i requires 0 <= i < |frames| => frames[i].atMs)
  }

  /** The frames the detector has seen: all of them, or none if nothing can be queued. */
  function SeenTimes(cfg: RecorderConfig, frames: seq<StoredFrame>): seq<Millis> {
    if cfg.store.analysisCapacity == 0 then [] else Times(frames)
  }

  function LastSeen(cfg: RecorderConfig, frames: seq<StoredFrame>): Option<FrameId> {
    if cfg.store.analysisCapacity == 0 || frames == [] then None else Some(|frames| - 1)
  }

  /** The recorder after some inputs, with `m` of its detector's emissions resolved:
      exactly those that are due. */
  predicate RecorderOk(r: Recorder, cfg: RecorderConfig, run: DetectorRun, m: nat, frames: seq<StoredFrame>) {
    && RunOk(run) && run.times == SeenTimes(cfg, frames)
    && r.det == run.d && r.store.analysis == [] && r.lastAnalyzed == LastSeen(cfg, frames)
    && Resolved(r, cfg, run.out, m, frames)
    && r.pending == AllQueued(cfg, run.out[m..])
    && (forall i | 0 <= i < m :: Due(cfg, run.out[i]) <= |frames|)
    && (forall i | m <= i < |run.out| :: Due(cfg, run.out[i]) > |frames|)
  }

  lemma OutOrdered(cfg: RecorderConfig, run: DetectorRun)
    requires RunOk(run)
    ensures DueOrdered(cfg, run.out) && Centred(run.out, |run.times|)
  {
    forall i | 0 <= i < |run.out|
      ensures run.out[i].marker.centerId <= run.out[i].observed < |run.times|
    {
      assert Anchored(run.out[i], run.times);
    }
    forall i, j | 0 <= i <= j < |run.out|
      ensures Due(cfg, run.out[i]) <= Due(cfg, run.out[j])
    {
      if i < j {
        assert run.out[i].observed < run.out[j].marker.centerId;
      }
    }
  }

  /** Once an emission is due, later frames do not change how it is resolved. */
  lemma {:induction false} CandidatesStable(cfg: RecorderConfig, out: seq<Emission>, n: nat, n': nat)
    requires Centred(out, n) && n <= n'
    requires forall i | 0 <= i < |out| :: Due(cfg, out[i]) <= n
    ensures Candidates(cfg, out, n) == Candidates(cfg, out, n')
  {
    if out != [] {
      CandidatesStable(cfg, out[..|out| - 1], n, n');
      assert Due(cfg, out[|out| - 1]) <= n;
    }
  }

  lemma ResolvedLater(r: Recorder, cfg: RecorderConfig, run: DetectorRun, m: nat, frames: seq<StoredFrame>,
                      f: StoredFrame, image: RgbaImage, luma: LumaPlane, out': seq<Emission>)
    requires RecorderOk(r, cfg, run, m, frames) && run.out <= out' && Centred(out', |frames| + 1)
    requires f == StoredFrame(|frames|, f.atMs, image)
    ensures var stored := r.(store := Ingest(r.store, cfg.store, image, luma, f.atMs), frameCount := r.frameCount + 1);
            Resolved(stored, cfg, out', m, frames + [f])
  {
    IngestOk(r.store, cfg.store, frames, image, luma, f.atMs);
    assert out'[..m] == run.out[..m];
    CandidatesStable(cfg, run.out[..m], |frames|, |frames| + 1);
  }

  lemma ResolvedMore(r: Recorder, cfg: RecorderConfig, out: seq<Emission>, m: nat, frames: seq<StoredFrame>, out': seq<Emission>)
    requires Resolved(r, cfg, out, m, frames) && out <= out' && Centred(out', |frames|)
    ensures Resolved(r, cfg, out', m, frames)
  {
    assert out'[..m] == out[..m];
  }

  /** Queueing a call's marker appends its emission to the queue. */
  lemma QueueOk(r: Recorder, cfg: RecorderConfig, out: seq<Emission>, m: nat, marker: Option<CandidateMarker>,
                seen: nat, byEvent: bool, at: Millis)
    requires m <= |out| && r.pending == AllQueued(cfg, out[m..])
    requires marker.Some? ==>
               r.frameCount == seen && seen > 0 && r.lastAnalyzed == Some(seen - 1) && marker.value.centerId < seen
    ensures var out' := out + Emitted(marker, seen, byEvent, at);
            QueueEmitted(r, cfg, marker, false) == r.(pending := AllQueued(cfg, out'[m..]))
  {
    var out' := out + Emitted(marker, seen, byEvent, at);
    if marker.Some? {
      assert out'[m..] == out[m..] + Emitted(marker, seen, byEvent, at);
      assert AllQueued(cfg, out'[m..]) == AllQueued(cfg, out[m..]) + [Queued(cfg, out'[|out|])];
    } else {
      assert out' == out;
    }
  }

  /** One more call to the detector, in a recording of `n` frames so far. */
  predicate RunExtends(cfg: RecorderConfig, run: DetectorRun, run': DetectorRun, n: nat, byEvent: bool) {
    && RunOk(run') && DueOrdered(cfg, run'.out) && Centred(run'.out, n) && run.out <= run'.out
    && (|run'.out| > |run.out| ==>
          && |run'.out| == |run.out| + 1
          && run'.out[|run.out|].marker.centerId < |run'.times|
          && run'.out[|run.out|].observed == |run'.times| - 1
          && run'.out[|run.out|].byEvent == byEvent)
  }

  lemma StepExtends(cfg: RecorderConfig, run: DetectorRun, feed: Feed, n: nat)
    requires RunOk(run) && |RunStep(run, cfg.det, feed).times| <= n
    ensures RunExtends(cfg, run, RunStep(run, cfg.det, feed), n, feed.EventFeed?)
  {
    var run' := RunStep(run, cfg.det, feed);
    StepOk(run, cfg.det, feed);
    OutOrdered(cfg, run');
    if |run'.out| > |run.out| {
      assert Anchored(run'.out[|run.out|], run'.times);
    }
  }

  /** The recorder's detector and queue are those of the run. */
  predicate InStep(r: Recorder, cfg: RecorderConfig, run: DetectorRun, m: nat) {
    && RunOk(run) && r.det == run.d && m <= |run.out| && r.pending == AllQueued(cfg, run.out[m..])
    && (|run.times| > 0 ==> r.frameCount == |run.times| && r.lastAnalyzed == Some(|run.times| - 1))
  }

  lemma EventShown(r: Recorder, cfg: RecorderConfig, run: DetectorRun, m: nat, ev: TimedSemanticAction)
    requires InStep(r, cfg, run, m)
    ensures var run' := RunStep(run, cfg.det, EventFeed(ev));
            IngestEvent(r, cfg, ev) == r.(det := run'.d, pending := AllQueued(cfg, run'.out[m..]))
  {
    StepExtends(cfg, run, EventFeed(ev), |run.times|);
    QueueOk(r.(det := ObserveEvent(run.d, cfg.det, ev).d), cfg, run.out, m, ObserveEvent(run.d, cfg.det, ev).marker,
            |run.times|, true, ev.atMs);
  }

  /** An event leaves the queue in order and resolves nothing. */
  lemma EventResolvesNothing(r: Recorder, cfg: RecorderConfig, run: DetectorRun, run': DetectorRun, m: nat,
                             frames: seq<StoredFrame>)
    requires RecorderOk(r, cfg, run, m, frames)
    requires RunExtends(cfg, run, run', |frames|, true) && run'.times == run.times
    ensures RecorderOk(r.(det := run'.d, pending := AllQueued(cfg, run'.out[m..])), cfg, run', m, frames)
  {
    var r' := r.(det := run'.d, pending := AllQueued(cfg, run'.out[m..]));
    ResolvedMore(r, cfg, run.out, m, frames, run'.out);
    ResolvedCarries(r, r', cfg, run'.out, m, frames);
    EventDue(r, cfg, run, run', m, frames);
  }

  lemma EventDue(r: Recorder, cfg: RecorderConfig, run: DetectorRun, run': DetectorRun, m: nat, frames: seq<StoredFrame>)
    requires RecorderOk(r, cfg, run, m, frames)
    requires RunExtends(cfg, run, run', |frames|, true) && run'.times == run.times
    ensures forall i | 0 <= i < m :: Due(cfg, run'.out[i]) <= |frames|
    ensures forall i | m <= i < |run'.out| :: Due(cfg, run'.out[i]) > |frames|
  {
    forall i | 0 <= i < |run'.out|
      ensures i < m ==> Due(cfg, run'.out[i]) <= |frames|
      ensures i >= m ==> Due(cfg, run'.out[i]) > |frames|
    {
      if i < |run.out| {
        assert run'.out[i] == run.out[i];
      }
    }
  }

  lemma EventKeeps(r: Recorder, cfg: RecorderConfig, run: DetectorRun, m: nat, frames: seq<StoredFrame>,
                   ev: TimedSemanticAction)
    requires RecorderOk(r, cfg, run, m, frames)
    ensures RecorderOk(IngestEvent(r, cfg, ev), cfg, RunStep(run, cfg.det, EventFeed(ev)), m, frames)
  {
    EventShown(r, cfg, run, m, ev);
    StepExtends(cfg, run, EventFeed(ev), |frames|);
    EventResolvesNothing(r, cfg, run, RunStep(run, cfg.det, EventFeed(ev)), m, frames);
  }

  /** The frame shown to the detector: it is the last one, and its marker joins the queue. */
  lemma FrameShown(r: Recorder, cfg: RecorderConfig, run: DetectorRun, m: nat, n: nat, image: RgbaImage, at: Millis)
    requires InStep(r, cfg, run, m) && |run.times| == n == r.frameCount == r.store.nextId
    requires r.store.analysis == [] && cfg.store.analysisCapacity > 0
    ensures var luma := LumaOf(cfg, image);
            var stored := r.(store := Ingest(r.store, cfg.store, image, luma, at), frameCount := r.frameCount + 1);
            var run' := RunStep(run, cfg.det, FrameFeed(luma, at));
            Analyze(stored, cfg, false)
            == stored.(store := stored.store.(analysis := []), lastAnalyzed := Some(n), det := run'.d,
                       pending := AllQueued(cfg, run'.out[m..]))
  {
    var luma := LumaOf(cfg, image);
    var frame := AnalysisFrame(n, at, luma);
    var stored := r.(store := Ingest(r.store, cfg.store, image, luma, at), frameCount := r.frameCount + 1);
    assert stored.store.analysis == [frame];
    StepExtends(cfg, run, FrameFeed(luma, at), n + 1);
    var e := ObserveFrame(run.d, cfg.det, frame);
    var shown := stored.(store := stored.store.(analysis := []), lastAnalyzed := Some(n), det := e.d);
    QueueOk(shown, cfg, run.out, m, e.marker, n + 1, false, at);
    assert AnalyzeOne(stored, cfg, false) == QueueEmitted(shown, cfg, e.marker, false);
  }

  /** The queue before resolving, with the new frame in: all of it is due now or later. */
  lemma DueFromNow(cfg: RecorderConfig, run: DetectorRun, run': DetectorRun, m: nat, n: nat)
    requires RunOk(run) && m <= |run.out| && |run.times| == n && |run'.times| == n + 1
    requires RunExtends(cfg, run, run', n + 1, false)
    requires forall i | m <= i < |run.out| :: Due(cfg, run.out[i]) > n
    ensures forall i | m <= i < |run'.out| :: DueNow(cfg, run'.out[i], n + 1)
  {
    forall i | m <= i < |run'.out|
      ensures DueNow(cfg, run'.out[i], n + 1)
    {
      if i < |run.out| {
        assert run'.out[i] == run.out[i];
        assert Anchored(run.out[i], run.times);
      }
    }
  }

  lemma ResolvedCarries(r: Recorder, r': Recorder, cfg: RecorderConfig, out: seq<Emission>, m: nat, frames: seq<StoredFrame>)
    requires Resolved(r, cfg, out, m, frames)
    requires r'.store == r.store.(analysis := r'.store.analysis) && r'.frameCount == r.frameCount
    requires r'.candidates == r.candidates && r'.nextCandidateId == r.nextCandidateId
    ensures Resolved(r', cfg, out, m, frames)
  {
  }

  /** Resolving what is ready, once the new frame has been shown to the detector. */
  lemma ShownResolves(shown: Recorder, cfg: RecorderConfig, run: DetectorRun, m: nat, frames: seq<StoredFrame>)
    returns (m': nat)
    requires RunOk(run) && run.times == SeenTimes(cfg, frames) && cfg.store.analysisCapacity > 0
    requires shown.det == run.d && shown.store.analysis == [] && shown.lastAnalyzed == LastSeen(cfg, frames)
    requires Resolved(shown, cfg, run.out, m, frames) && shown.pending == AllQueued(cfg, run.out[m..])
    requires forall i | 0 <= i < m :: Due(cfg, run.out[i]) <= |frames|
    requires forall i | m <= i < |run.out| :: DueNow(cfg, run.out[i], |frames|)
    ensures RecorderOk(ResolveReady(shown, cfg), cfg, run, m', frames)
  {
    OutOrdered(cfg, run);
    ResolvedCarries(shown, shown.(pending := []), cfg, run.out, m, frames);
    m' := ResolveOk(shown.(pending := []), cfg, run.out, m, frames);
  }

  /** The recorder once a frame has been stored and shown to the detector. */
  function Shown(r: Recorder, cfg: RecorderConfig, run': DetectorRun, m: nat, n: nat, image: RgbaImage, luma: LumaPlane,
                 at: Millis): Recorder
    requires m <= |run'.out|
  {
    var stored := r.(store := Ingest(r.store, cfg.store, image, luma, at), frameCount := r.frameCount + 1);
    stored.(store := stored.store.(analysis := []), lastAnalyzed := Some(n), det := run'.d,
            pending := AllQueued(cfg, run'.out[m..]))
  }

  /** A frame resolves nothing by being shown. */
  lemma ShownResolved(r: Recorder, cfg: RecorderConfig, run: DetectorRun, run': DetectorRun, m: nat,
                      frames: seq<StoredFrame>, image: RgbaImage, luma: LumaPlane, at: Millis)
    requires RecorderOk(r, cfg, run, m, frames) && RunExtends(cfg, run, run', |frames| + 1, false)
    ensures Resolved(Shown(r, cfg, run', m, |frames|, image, luma, at), cfg, run'.out, m,
                     frames + [StoredFrame(|frames|, at, image)])
  {
    var f := StoredFrame(|frames|, at, image);
    var stored := r.(store := Ingest(r.store, cfg.store, image, luma, at), frameCount := r.frameCount + 1);
    ResolvedLater(r, cfg, run, m, frames, f, image, luma, run'.out);
    ResolvedCarries(stored, Shown(r, cfg, run', m, |frames|, image, luma, at), cfg, run'.out, m, frames + [f]);
  }

  /** What is due before and after a frame. */
  lemma ShownDue(r: Recorder, cfg: RecorderConfig, run: DetectorRun, run': DetectorRun, m: nat, frames: seq<StoredFrame>,
                 f: StoredFrame)
    requires RecorderOk(r, cfg, run, m, frames) && cfg.store.analysisCapacity > 0
    requires RunExtends(cfg, run, run', |frames| + 1, false) && run'.times == run.times + [f.atMs]
    ensures run'.times == SeenTimes(cfg, frames + [f])
    ensures forall i | 0 <= i < m :: Due(cfg, run'.out[i]) <= |frames| + 1
    ensures forall i | m <= i < |run'.out| :: DueNow(cfg, run'.out[i], |frames| + 1)
  {
    DueFromNow(cfg, run, run', m, |frames|);
    forall i | 0 <= i < m
      ensures Due(cfg, run'.out[i]) <= |frames| + 1
    {
      assert run'.out[i] == run.out[i];
    }
  }

  /** A frame, once shown, resolves a prefix of the queue. */
  lemma FrameResolves(r: Recorder, cfg: RecorderConfig, run: DetectorRun, run': DetectorRun, m: nat,
                      frames: seq<StoredFrame>, image: RgbaImage, luma: LumaPlane, at: Millis)
    returns (m': nat)
    requires RecorderOk(r, cfg, run, m, frames) && cfg.store.analysisCapacity > 0
    requires RunExtends(cfg, run, run', |frames| + 1, false) && run'.times == run.times + [at]
    ensures RecorderOk(ResolveReady(Shown(r, cfg, run', m, |frames|, image, luma, at), cfg), cfg, run', m',
                       frames + [StoredFrame(|frames|, at, image)])
  {
    var f := StoredFrame(|frames|, at, image);
    ShownResolved(r, cfg, run, run', m, frames, image, luma, at);
    ShownDue(r, cfg, run, run', m, frames, f);
    m' := ShownResolves(Shown(r, cfg, run', m, |frames|, image, luma, at), cfg, run', m, frames + [f]);
  }

  lemma FrameKeeps(r: Recorder, cfg: RecorderConfig, run: DetectorRun, m: nat, frames: seq<StoredFrame>,
                   image: RgbaImage, at: Millis) returns (m': nat)
    requires RecorderOk(r, cfg, run, m, frames) && cfg.store.analysisCapacity > 0
    ensures RecorderOk(IngestFrame(r, cfg, image, at), cfg, RunStep(run, cfg.det, FrameFeed(LumaOf(cfg, image), at)),
                       m', frames + [StoredFrame(|frames|, at, image)])
  {
    var luma := LumaOf(cfg, image);
    var stored := r.(store := Ingest(r.store, cfg.store, image, luma, at), frameCount := r.frameCount + 1);
    FrameShown(r, cfg, run, m, |frames|, image, at);
    StepExtends(cfg, run, FrameFeed(luma, at), |frames| + 1);
    m' := FrameResolves(r, cfg, run, RunStep(run, cfg.det, FrameFeed(luma, at)), m, frames, image, luma, at);
  }

  /** With an analysis queue of no capacity nothing is ever detected. */
  lemma UnseenFrameKeeps(r: Recorder, cfg: RecorderConfig, run: DetectorRun, m: nat, frames: seq<StoredFrame>,
                         image: RgbaImage, at: Millis)
    requires RecorderOk(r, cfg, run, m, frames) && cfg.store.analysisCapacity == 0
    ensures run.out == []
    ensures RecorderOk(IngestFrame(r, cfg, image, at), cfg, run, 0, frames + [StoredFrame(|frames|, at, image)])
  {
    var f := StoredFrame(|frames|, at, image);
    ResolvedLater(r, cfg, run, m, frames, f, image, LumaOf(cfg, image), []);
    assert AllQueued(cfg, run.out[m..]) == [];
  }

  lemma FeedsStep(cfg: RecorderConfig, inputs: seq<Input>)
    requires inputs != []
    ensures var before, last := inputs[..|inputs| - 1], inputs[|inputs| - 1];
            Detection(cfg, inputs)
            == match last
               case FrameInput(image, at) =>
                 if cfg.store.analysisCapacity == 0 then Detection(cfg, before)
                 else RunStep(Detection(cfg, before), cfg.det, FrameFeed(LumaOf(cfg, image), at))
               case EventInput(ev) => RunStep(Detection(cfg, before), cfg.det, EventFeed(ev))
  {
    var feeds := Feeds(cfg, inputs);
    var before := Feeds(cfg, inputs[..|inputs| - 1]);
    if feeds != before {
      assert feeds[..|feeds| - 1] == before;
    }
  }

  /** Every reachable recorder refines its detector run. */
  lemma {:induction false} RecordRefines(cfg: RecorderConfig, inputs: seq<Input>) returns (m: nat)
    ensures RecorderOk(Record(cfg, inputs), cfg, Detection(cfg, inputs), m, Frames(inputs))
  {
    if inputs == [] {
      m := 0;
      assert AllQueued(cfg, []) == [];
    } else {
      var before, last := inputs[..|inputs| - 1], inputs[|inputs| - 1];
      m := RecordRefines(cfg, before);
      FeedsStep(cfg, inputs);
      match last {
        case FrameInput(image, at) =>
          if cfg.store.analysisCapacity == 0 {
            UnseenFrameKeeps(Record(cfg, before), cfg, Detection(cfg, before), m, Frames(before), image, at);
            m := 0;
          } else {
            m := FrameKeeps(Record(cfg, before), cfg, Detection(cfg, before), m, Frames(before), image, at);
          }
        case EventInput(ev) =>
          EventKeeps(Record(cfg, before), cfg, Detection(cfg, before), m, Frames(before), ev);
      }
    }
  }
}
