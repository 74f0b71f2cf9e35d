/** What every finished recording guarantees. */
module RecorderTheorems {
  import opened Prelude
  import opened Models
  import opened DetectorModel
  import opened DetectorInvariant
  import opened DetectorRuns
  import opened DetectorTheorems
  import opened FrameStoreModel
  import opened RecorderModel
  import opened RecorderInvariant
  import opened RecorderRuns

  // ------------------------------------------------------------ refinement

  /** Everything the detector emits over the recording, the final flush included. */
  function AllEmissions(cfg: RecorderConfig, inputs: seq<Input>): seq<Emission> {
    FinishedEmissions(Detection(cfg, inputs), cfg.det)
  }

  lemma {:induction false} FinalizeEachOk(r: Recorder, cfg: RecorderConfig, all: seq<Emission>, m: nat,
                                          frames: seq<StoredFrame>, ps: seq<Pending>)
    requires Resolved(r, cfg, all, m, frames) && |ps| == |all| - m
    requires forall i | 0 <= i < |ps| :: ps[i].marker == all[m + i].marker && Due(cfg, all[m + i]) >= |frames|
    ensures Resolved(FinalizeEach(r, cfg, ps), cfg, all, |all|, frames)
    decreases |ps|
  {
    if ps != [] {
      assert ps[0].marker == all[m].marker && Due(cfg, all[m]) >= |frames|;
      FinalizeOk(r, cfg, all, m, frames, ps[0]);
      forall i | 0 <= i < |ps[1..]|
        ensures ps[1..][i].marker == all[m + 1 + i].marker && Due(cfg, all[m + 1 + i]) >= |frames|
      {
        assert ps[1..][i] == ps[i + 1];
      }
      FinalizeEachOk(Finalize(r, cfg, ps[0]), cfg, all, m + 1, frames, ps[1..]);
    }
  }

  /** The flush at the end, if any, is about frames seen and is due at the end at the earliest. */
  lemma FlushFacts(cfg: RecorderConfig, run: DetectorRun, n: nat)
    requires RunOk(run) && |run.times| <= n && (|run.times| > 0 ==> |run.times| == n)
    ensures var all := FinishedEmissions(run, cfg.det);
            && Centred(all, n) && run.out <= all
            && (|all| > |run.out| ==>
                  && |all| == |run.out| + 1 && |run.times| > 0
                  && Due(cfg, all[|run.out|]) >= n
                  && Finish(run.d, cfg.det).marker == Some(all[|run.out|].marker))
            && (|all| == |run.out| ==> Finish(run.d, cfg.det).marker == None)
  {
    FinishMarker(run.d, cfg.det, run.times, Spent(run.out));
    OutOrdered(cfg, run);
  }

  /** A recorder about to finish holds exactly the emissions that are not yet
      due, and the flush behind them. */
  lemma FinishQueue(r: Recorder, cfg: RecorderConfig, run: DetectorRun, m: nat, frames: seq<StoredFrame>)
    requires RecorderOk(r, cfg, run, m, frames)
    ensures var all := FinishedEmissions(run, cfg.det);
            var e := Finish(r.det, cfg.det);
            var queued := QueueEmitted(r.(det := e.d), cfg, e.marker, true);
            && queued == r.(det := e.d, pending := queued.pending)
            && |queued.pending| == |all| - m
            && (forall i | 0 <= i < |queued.pending| ::
                  queued.pending[i].marker == all[m + i].marker && Due(cfg, all[m + i]) >= |frames|)
  {
    FlushFacts(cfg, run, |frames|);
    assert forall i | 0 <= i < |r.pending| :: r.pending[i] == Queued(cfg, run.out[m + i]);
  }

  /** The candidates of a recording are the surviving emissions of its detector
      run, in order, numbered from 1; what it retained is what was ingested. */
  lemma RecordingRefinesDetection(cfg: RecorderConfig, inputs: seq<Input>)
    ensures Centred(AllEmissions(cfg, inputs), |Frames(inputs)|)
    ensures Recording(cfg, inputs).candidates == Candidates(cfg, AllEmissions(cfg, inputs), |Frames(inputs)|)
    ensures var s := Recording(cfg, inputs).store;
            && (forall id | id in s.retained :: id < |Frames(inputs)| && s.retained[id] == Frames(inputs)[id])
            && forall c, id | c in Recording(cfg, inputs).candidates && id in c.nearby :: id in s.retained
  {
    var m := RecordRefines(cfg, inputs);
    var r, run, frames := Record(cfg, inputs), Detection(cfg, inputs), Frames(inputs);
    var all := AllEmissions(cfg, inputs);
    FlushFacts(cfg, run, |frames|);
    FinishQueue(r, cfg, run, m, frames);
    var e := Finish(r.det, cfg.det);
    var queued := QueueEmitted(r.(det := e.d), cfg, e.marker, true);
    ResolvedMore(r, cfg, run.out, m, frames, all);
    ResolvedCarries(r, queued.(pending := []), cfg, all, m, frames);
    FinalizeEachOk(queued.(pending := []), cfg, all, m, frames, queued.pending);
    assert all[..|all|] == all;
    FinishUnfolds(r, cfg);
  }

  lemma FinishUnfolds(r: Recorder, cfg: RecorderConfig)
    requires r.store.analysis == []
    ensures var e := Finish(r.det, cfg.det);
            var queued := QueueEmitted(r.(det := e.d), cfg, e.marker, true);
            FinishRecording(r, cfg) == FinalizeEach(queued.(pending := []), cfg, queued.pending)
  {
  }

  // ------------------------------------------------------------ bounded loss

  /** How far back a marker's centre lies at the frame that observed it, or at the
      frame after if an event queued it and such a frame came. */
  function Lookback(e: Emission, n: nat): int {
    e.observed - e.marker.centerId + (if e.byEvent && e.observed + 2 <= n then 2 else 1)
  }

  /** Exactly which markers are lost: those that look back further than the ring
      reaches, and, with a ring that does not reach over the frames after its
      centre, those whose centre leaves it before the recording ends. */
  lemma ExactLoss(cfg: RecorderConfig, e: Emission, n: nat)
    requires e.marker.centerId <= e.observed < n
    ensures Survives(cfg, e, n) <==>
              && Lookback(e, n) <= cfg.store.ringCapacity
              && (cfg.store.windowAfter < cfg.store.ringCapacity || n - e.marker.centerId <= cfg.store.ringCapacity)
  {
  }

  /** The number of emissions that survive. */
  function SurvivorCount(cfg: RecorderConfig, out: seq<Emission>, n: nat): nat {
    if out == [] then 0
    else
      SurvivorCount(cfg, out[..|out| - 1], n) + (if Survives(cfg, out[|out| - 1], n) then 1 else 0)
  }

  /** Candidate `k` and the emission it stands for. */
  predicate StandsFor(c: CandidateStep, e: Emission) {
    c.kind == e.marker.kind && c.reason == e.marker.reason && c.atMs == e.marker.atMs && c.keyframe == e.marker.centerId
  }

  /** Emission `i`, if it survives, is the candidate numbered by the survivors up
      to it; there are no other candidates. */
  lemma {:induction false} CandidateForSurvivor(cfg: RecorderConfig, out: seq<Emission>, n: nat, i: nat)
    requires Centred(out, n) && i < |out| && Survives(cfg, out[i], n)
    ensures var k := SurvivorCount(cfg, out[..i], n);
            && k < |Candidates(cfg, out, n)| && StandsFor(Candidates(cfg, out, n)[k], out[i])
            && Candidates(cfg, out, n)[k].id == k + 1
  {
    CandidateCount(cfg, out[..|out| - 1], n);
    if i < |out| - 1 {
      CandidateForSurvivor(cfg, out[..|out| - 1], n, i);
      assert out[..|out| - 1][..i] == out[..i];
    }
  }

  lemma {:induction false} CandidateCount(cfg: RecorderConfig, out: seq<Emission>, n: nat)
    requires Centred(out, n)
    ensures |Candidates(cfg, out, n)| == SurvivorCount(cfg, out, n)
  {
    if out != [] {
      CandidateCount(cfg, out[..|out| - 1], n);
    }
  }

  /** Each candidate stands for a surviving emission, and candidates keep the
      order of their emissions. */
  lemma {:induction false} SurvivorForCandidate(cfg: RecorderConfig, out: seq<Emission>, n: nat, k: nat) returns (i: nat)
    requires Centred(out, n) && k < |Candidates(cfg, out, n)|
    ensures i < |out| && Survives(cfg, out[i], n) && SurvivorCount(cfg, out[..i], n) == k
    ensures StandsFor(Candidates(cfg, out, n)[k], out[i]) && Candidates(cfg, out, n)[k].id == k + 1
    ensures Candidates(cfg, out, n)[k] == CandidateOf(cfg, out[i], n, k + 1)
  {
    var before := out[..|out| - 1];
    CandidateCount(cfg, before, n);
    if k < |Candidates(cfg, before, n)| {
      i := SurvivorForCandidate(cfg, before, n, k);
      assert before[..i] == out[..i];
    } else {
      i := |out| - 1;
    }
  }

  lemma {:induction false} SurvivorCountGrows(cfg: RecorderConfig, out: seq<Emission>, n: nat, i: nat, j: nat)
    requires i <= j <= |out|
    ensures SurvivorCount(cfg, out[..i], n) <= SurvivorCount(cfg, out[..j], n)
    decreases j
  {
    if i < j {
      assert out[..j][..j - 1] == out[..j - 1];
      SurvivorCountGrows(cfg, out, n, i, j - 1);
    }
  }

  predicate TimesInOrder(frames: seq<StoredFrame>) {
    forall i, j | 0 <= i <= j < |frames| :: frames[i].atMs <= frames[j].atMs
  }

  /** Each candidate of a finished recording carries its number, and the time its
      keyframe was ingested with. */
  lemma CandidateNumbered(cfg: RecorderConfig, inputs: seq<Input>, k: nat)
    requires k < |Recording(cfg, inputs).candidates|
    ensures var c, frames := Recording(cfg, inputs).candidates[k], Frames(inputs);
            c.id == k + 1 && c.keyframe < |frames| && c.atMs == frames[c.keyframe].atMs
  {
    RecordingRefinesDetection(cfg, inputs);
    var all, n := AllEmissions(cfg, inputs), |Frames(inputs)|;
    var i := SurvivorForCandidate(cfg, all, n, k);
    FinishedAnchored(cfg.det, Feeds(cfg, inputs), i);
    var m := RecordRefines(cfg, inputs);
  }

  /** Candidates of a finished recording never go back, in keyframes or in times,
      and their keyframes strictly advance if there is a cooldown and all calls
      came in time order. */
  lemma CandidatesInOrder(cfg: RecorderConfig, inputs: seq<Input>, k: nat, l: nat)
    requires k < l < |Recording(cfg, inputs).candidates|
    ensures var cs, frames := Recording(cfg, inputs).candidates, Frames(inputs);
            && cs[k].keyframe <= cs[l].keyframe < |frames|
            && (TimesInOrder(frames) ==> cs[k].atMs <= cs[l].atMs)
            && (InTimeOrder(inputs) && cfg.det.cooldownMs > 0 ==> cs[k].keyframe < cs[l].keyframe)
  {
    RecordingRefinesDetection(cfg, inputs);
    var all, n := AllEmissions(cfg, inputs), |Frames(inputs)|;
    var i := SurvivorForCandidate(cfg, all, n, k);
    var j := SurvivorForCandidate(cfg, all, n, l);
    if j <= i {
      SurvivorCountGrows(cfg, all, n, j, i);
    }
    FinishedCentres(cfg.det, Feeds(cfg, inputs), i, j);
    var m := RecordRefines(cfg, inputs);
    if InTimeOrder(inputs) {
      FeedsInOrder(cfg, inputs);
    }
  }

  predicate InTimeOrder(inputs: seq<Input>) {
    forall i, j | 0 <= i <= j < |inputs| :: inputs[i].Time() <= inputs[j].Time()
  }

  lemma {:induction false} FeedsInOrder(cfg: RecorderConfig, inputs: seq<Input>)
    requires InTimeOrder(inputs)
    ensures Monotone(Feeds(cfg, inputs))
    ensures inputs != [] ==> LastTime(Feeds(cfg, inputs)) <= inputs[|inputs| - 1].Time()
    ensures forall f | f in Feeds(cfg, inputs) :: f.Time() <= inputs[|inputs| - 1].Time()
  {
    if inputs != [] {
      var before := inputs[..|inputs| - 1];
      FeedsInOrder(cfg, before);
      forall f | f in Feeds(cfg, before)
        ensures f.Time() <= inputs[|inputs| - 1].Time()
      {
        assert before != [];
        assert before[|before| - 1].Time() <= inputs[|inputs| - 1].Time();
      }
    }
  }

  /** With frames at least `gap` ms apart, calls in time order, and a ring that
      reaches over `window_after` frames and at least `click_window_ms / gap + 2`,
      no click marker is ever lost. */
  lemma NoClickLost(cfg: RecorderConfig, inputs: seq<Input>, gap: nat, i: nat)
    requires cfg.store.windowAfter < cfg.store.ringCapacity && InTimeOrder(inputs)
    requires gap > 0 && Spaced(Times(Frames(inputs)), gap)
    requires cfg.det.clickWindowMs / gap + 2 <= cfg.store.ringCapacity
    requires i < |AllEmissions(cfg, inputs)| && AllEmissions(cfg, inputs)[i].marker.kind == ClickStep
    ensures Survives(cfg, AllEmissions(cfg, inputs)[i], |Frames(inputs)|)
  {
    var feeds, run := Feeds(cfg, inputs), Detection(cfg, inputs);
    var e := AllEmissions(cfg, inputs)[i];
    var m := RecordRefines(cfg, inputs);
    FeedsInOrder(cfg, inputs);
    FlushFacts(cfg, run, |Frames(inputs)|);
    if i < |run.out| {
      ClickLooksBack(cfg.det, feeds, gap, i);
    } else {
      FlushLooksBack(cfg.det, feeds, gap);
    }
    ExactLoss(cfg, e, |Frames(inputs)|);
  }

  // ---------------------------------------------------------------- nearby

  /** The window around a frame holds the frame, at the place its id says. */
  lemma WindowHolds(cfg: RecorderConfig, center: FrameId, n: nat)
    requires center < n && n - center <= cfg.store.ringCapacity
    ensures var lo := Max(Monus(n, cfg.store.ringCapacity), Monus(center, cfg.store.windowBefore));
            lo <= center && center - lo < |WindowIds(cfg, center, n)|
  {
  }

  lemma IdRunIndex(lo: nat, hi: nat, id: FrameId)
    requires lo <= id < hi
    ensures IndexOf(IdRun(lo, hi), id) == id - lo
  {
    assert IdRun(lo, hi)[id - lo] == id;
    var i := IndexOf(IdRun(lo, hi), id);
    assert IdRun(lo, hi)[i] == id;
  }

  lemma IdRunSlice(lo: nat, hi: nat, p: nat, q: nat)
    requires lo <= hi && p <= q <= hi - lo
    ensures IdRun(lo, hi)[p..q] == IdRun(lo + p, lo + q)
  {
    forall i | 0 <= i < q - p
      ensures IdRun(lo, hi)[p..q][i] == IdRun(lo + p, lo + q)[i]
    {
      assert IdRun(lo, hi)[p + i] == lo + p + i;
    }
  }

  /** The strip `a..b` around a keyframe within the window `lo..hi`: all of the window
      if that is no longer than `max`; otherwise `max` frames, half of them before the
      keyframe, moved only as far as it takes to stay inside the window. */
  predicate StripAround(lo: nat, hi: nat, keyframe: FrameId, max: nat, a: nat, b: nat) {
    && lo <= a <= keyframe < b <= hi && b - a == Min(hi - lo, max)
    && (hi - lo > max ==>
          var centred := keyframe - max / 2;
          if centred < lo then a == lo else if centred + max > hi then b == hi else a == centred)
  }

  /** The strip of a window, in ids. */
  lemma NearbyOfSpan(cfg: StoreConfig, lo: nat, hi: nat, keyframe: FrameId)
    returns (a: nat, b: nat)
    requires lo <= keyframe < hi
    ensures StripAround(lo, hi, keyframe, Max(1, cfg.nearbyMax), a, b)
    ensures Nearby(cfg, IdRun(lo, hi), keyframe) == IdRun(a, b)
  {
    var max := Max(cfg.nearbyMax, 1);
    if hi - lo <= max {
      a, b := lo, hi;
    } else {
      IdRunIndex(lo, hi, keyframe);
      var start := Monus(keyframe - lo, max / 2);
      var first := if start + max > hi - lo then hi - lo - max else start;
      a, b := lo + first, lo + first + max;
      IdRunSlice(lo, hi, first, first + max);
    }
  }

  /** The window of a centre in the ring after `r` frames. */
  function WindowStart(cfg: RecorderConfig, center: FrameId, r: nat): nat {
    Max(Monus(r, cfg.store.ringCapacity), Monus(center, cfg.store.windowBefore))
  }

  function WindowEnd(cfg: RecorderConfig, center: FrameId, r: nat): nat { Min(center + cfg.store.windowAfter + 1, r) }

  lemma StripShape(cfg: RecorderConfig, c: CandidateStep, r: nat) returns (a: nat, b: nat)
    requires c.keyframe < r && r - c.keyframe <= cfg.store.ringCapacity
    requires c.nearby == Nearby(cfg.store, WindowIds(cfg, c.keyframe, r), c.keyframe)
    ensures StripAround(WindowStart(cfg, c.keyframe, r), WindowEnd(cfg, c.keyframe, r), c.keyframe, Max(1, cfg.store.nearbyMax), a, b)
    ensures c.nearby == IdRun(a, b)
  {
    WindowHolds(cfg, c.keyframe, r);
    a, b := NearbyOfSpan(cfg.store, WindowStart(cfg, c.keyframe, r), WindowEnd(cfg, c.keyframe, r), c.keyframe);
  }

  /** Every candidate's strip is the run of frames around its keyframe, centred and
      as long as the configured maximum and the window allow, where the window is
      that of the moment its marker was resolved; and every frame of the strip is
      retained with exactly the pixels and the time it was ingested with. */
  lemma StripsRetained(cfg: RecorderConfig, inputs: seq<Input>, c: CandidateStep) returns (a: nat, b: nat, e: Emission)
    requires c in Recording(cfg, inputs).candidates
    ensures e in AllEmissions(cfg, inputs) && StandsFor(c, e) && Survives(cfg, e, |Frames(inputs)|)
    ensures var r := ResolvedAt(cfg, e, |Frames(inputs)|);
            StripAround(WindowStart(cfg, c.keyframe, r), WindowEnd(cfg, c.keyframe, r), c.keyframe, Max(1, cfg.store.nearbyMax), a, b)
    ensures c.nearby == IdRun(a, b) && b <= |Frames(inputs)|
    ensures forall id | a <= id < b ::
              && id in Recording(cfg, inputs).store.retained
              && Recording(cfg, inputs).store.retained[id] == Frames(inputs)[id]
  {
    RecordingRefinesDetection(cfg, inputs);
    var all, n := AllEmissions(cfg, inputs), |Frames(inputs)|;
    var k :| 0 <= k < |Recording(cfg, inputs).candidates| && Recording(cfg, inputs).candidates[k] == c;
    var i := SurvivorForCandidate(cfg, all, n, k);
    e := all[i];
    a, b := StripShape(cfg, c, ResolvedAt(cfg, e, n));
    StripKept(c.nearby, a, b, Recording(cfg, inputs).store.retained, Frames(inputs));
  }

  lemma StripKept(strip: seq<FrameId>, a: nat, b: nat, retained: map<FrameId, StoredFrame>, frames: seq<StoredFrame>)
    requires a < b && strip == IdRun(a, b) && forall id | id in strip :: id in retained
    requires forall id | id in retained :: id < |frames| && retained[id] == frames[id]
    ensures b <= |frames| && forall id | a <= id < b :: id in retained && retained[id] == frames[id]
  {
    forall id | a <= id < b
      ensures id in retained
    {
      assert IdRun(a, b)[id - a] == id;
    }
    assert b - 1 in retained;
  }
}
