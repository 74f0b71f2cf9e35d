/** A recorder is its detector run with every marker resolved at a moment that
    ring arithmetic alone decides. */
module RecorderInvariant {
  import opened Prelude
  import opened Models
  import opened Metrics
  import opened DetectorRuns
  import opened FrameStoreModel
  import opened RecorderModel

  // ----------------------------------------------------- what was recorded

  /** The frames ingested, in order; the id of a frame is its position. */
  function Frames(inputs: seq<Input>): seq<StoredFrame> {
    if inputs == [] then []
    else
      var before := Frames(inputs[..|inputs| - 1]);
      match inputs[|inputs| - 1]
      case FrameInput(image, at) => before + [StoredFrame(|before|, at, image)]
      case EventInput(_) => before
  }

  /** What the detector is fed: every frame, unless the analysis queue holds none, and every event. */
  function Feeds(cfg: RecorderConfig, inputs: seq<Input>): seq<Feed> {
    if inputs == [] then []
    else
      var before := Feeds(cfg, inputs[..|inputs| - 1]);
      match inputs[|inputs| - 1]
      case FrameInput(image, at) =>
        if cfg.store.analysisCapacity == 0 then before else before + [FrameFeed(LumaOf(cfg, image), at)]
      case EventInput(ev) => before + [EventFeed(ev)]
  }

  function Detection(cfg: RecorderConfig, inputs: seq<Input>): DetectorRun {
    RunDetector(cfg.det, Feeds(cfg, inputs))
  }

  // --------------------------------------------------------- when and whether

  /** The number of ingested frames at which an emission is resolved: one frame
      later for a marker that an event queued. */
  function Due(cfg: RecorderConfig, e: Emission): nat {
    Max(e.observed + (if e.byEvent then 2 else 1), e.marker.centerId + cfg.store.windowAfter + 1)
  }

  /** ... or the end of the recording, if that comes first. */
  function ResolvedAt(cfg: RecorderConfig, e: Emission, n: nat): nat { Min(Due(cfg, e), n) }

  /** The centre is still in the ring when the emission is resolved. */
  predicate Survives(cfg: RecorderConfig, e: Emission, n: nat) {
    ResolvedAt(cfg, e, n) - e.marker.centerId <= cfg.store.ringCapacity
  }

  function IdRun(lo: nat, hi: nat): seq<FrameId>
    requires lo <= hi
  {
    seq(hi - lo, i requires 0 <= i < hi - lo => lo + i)
  }

  /** The ids around `center` that are in the ring after `n` frames. */
  function WindowIds(cfg: RecorderConfig, center: FrameId, n: nat): seq<FrameId>
    requires center < n && n - center <= cfg.store.ringCapacity
  {
    IdRun(Max(Monus(n, cfg.store.ringCapacity), Monus(center, cfg.store.windowBefore)),
         Min(center + cfg.store.windowAfter + 1, n))
  }

  function CandidateOf(cfg: RecorderConfig, e: Emission, n: nat, id: CandidateId): CandidateStep
    requires e.marker.centerId < ResolvedAt(cfg, e, n) && Survives(cfg, e, n)
  {
    var m := e.marker;
    CandidateStep(id, m.kind, m.reason, m.atMs, m.centerId,
                  Nearby(cfg.store, WindowIds(cfg, m.centerId, ResolvedAt(cfg, e, n)), m.centerId))
  }

  /** The candidates of a recording of `n` frames with these emissions: the
      survivors in order, numbered from 1. */
  function Candidates(cfg: RecorderConfig, out: seq<Emission>, n: nat): seq<CandidateStep>
    requires forall i | 0 <= i < |out| :: out[i].marker.centerId < n
  {
    if out == [] then []
    else
      var before := Candidates(cfg, out[..|out| - 1], n);
      var e := out[|out| - 1];
      assert e.marker.centerId < Due(cfg, e);
      if Survives(cfg, e, n) then before + [CandidateOf(cfg, e, n, |before| + 1)] else before
  }

  // ------------------------------------------------------------ the store

  predicate Indexed(frames: seq<StoredFrame>) { forall i | 0 <= i < |frames| :: frames[i].id == i }

  lemma {:induction false} FramesIndexed(inputs: seq<Input>)
    ensures Indexed(Frames(inputs))
  {
    if inputs != [] {
      FramesIndexed(inputs[..|inputs| - 1]);
    }
  }

  /** The ring holds the last frames; what is retained is what was ingested. */
  predicate StoreOk(s: Store, cfg: StoreConfig, frames: seq<StoredFrame>) {
    && s.ring == frames[Monus(|frames|, cfg.ringCapacity)..]
    && s.nextId == |frames|
    && forall id | id in s.retained :: id < |frames| && s.retained[id] == frames[id]
  }

  lemma IngestOk(s: Store, cfg: StoreConfig, frames: seq<StoredFrame>, image: RgbaImage, luma: LumaPlane, at: Millis)
    requires StoreOk(s, cfg, frames)
    ensures StoreOk(Ingest(s, cfg, image, luma, at), cfg, frames + [StoredFrame(|frames|, at, image)])
  {
    var f := StoredFrame(|frames|, at, image);
    var frames' := frames + [f];
    assert s.ring + [f] == frames'[Monus(|frames|, cfg.ringCapacity)..];
  }

  lemma RingPosition(s: Store, cfg: StoreConfig, frames: seq<StoredFrame>, center: FrameId)
    requires StoreOk(s, cfg, frames) && Indexed(frames) && center < |frames|
    ensures var off := Monus(|frames|, cfg.ringCapacity);
            Position(s.ring, center) == if off <= center then center - off else |s.ring|
  {
    var off := Monus(|frames|, cfg.ringCapacity);
    var i := Position(s.ring, center);
    if off <= center {
      assert s.ring[center - off].id == center;
    }
  }

  lemma {:induction false} RetainAllOk(retained: map<FrameId, StoredFrame>, window: seq<StoredFrame>, frames: seq<StoredFrame>)
    requires forall id | id in retained :: id < |frames| && retained[id] == frames[id]
    requires Indexed(frames) && forall i | 0 <= i < |window| :: window[i] in frames
    ensures var r := RetainAll(retained, window);
            && (forall id | id in r :: id < |frames| && r[id] == frames[id])
            && retained.Keys <= r.Keys
            && forall i | 0 <= i < |window| :: window[i].id in r
  {
    if window != [] {
      RetainAllOk(retained, window[..|window| - 1], frames);
      var f := window[|window| - 1];
      assert f in frames;
      assert frames[f.id] == f;
    }
  }

  /** The ring slice around a frame, as a slice of all frames. */
  lemma SliceOfFrames(cfg: StoreConfig, ring: seq<StoredFrame>, frames: seq<StoredFrame>, center: FrameId, off: nat)
    requires off <= center < |frames| && ring == frames[off..]
    ensures WindowSlice(cfg, ring, center - off)
         == frames[off + Monus(center - off, cfg.windowBefore)..Min(center + cfg.windowAfter + 1, |frames|)]
  {
    var lo, hi := Monus(center - off, cfg.windowBefore), Min(center - off + cfg.windowAfter, |ring| - 1) + 1;
    SliceOfSlice(frames, off, lo, hi);
  }

  lemma SliceOfSlice<T>(s: seq<T>, off: nat, lo: nat, hi: nat)
    requires off <= |s| && lo <= hi <= |s| - off
    ensures s[off..][lo..hi] == s[off + lo..off + hi]
  {
  }

  /** The ring slice around a frame, in ids. */
  lemma SliceIds(cfg: RecorderConfig, ring: seq<StoredFrame>, frames: seq<StoredFrame>, center: FrameId)
    requires ring == frames[Monus(|frames|, cfg.store.ringCapacity)..] && Indexed(frames)
    requires center < |frames| && |frames| - center <= cfg.store.ringCapacity
    ensures var window := WindowSlice(cfg.store, ring, center - Monus(|frames|, cfg.store.ringCapacity));
            && Ids(window) == WindowIds(cfg, center, |frames|)
            && forall i | 0 <= i < |window| :: window[i] in frames
  {
    var off := Monus(|frames|, cfg.store.ringCapacity);
    SliceOfFrames(cfg.store, ring, frames, center, off);
    SpanIds(frames, off + Monus(center - off, cfg.store.windowBefore), Min(center + cfg.store.windowAfter + 1, |frames|));
  }

  lemma SpanIds(frames: seq<StoredFrame>, lo: nat, hi: nat)
    requires Indexed(frames) && lo <= hi <= |frames|
    ensures Ids(frames[lo..hi]) == IdRun(lo, hi)
  {
  }

  /** What `retain_window` does, in ids: nothing exactly if the centre has left the ring. */
  lemma RetainWindowOk(s: Store, cfg: RecorderConfig, frames: seq<StoredFrame>, center: FrameId)
    requires StoreOk(s, cfg.store, frames) && Indexed(frames) && center < |frames|
    ensures var (s', ids) := RetainWindow(s, cfg.store, center);
            && StoreOk(s', cfg.store, frames) && s' == s.(retained := s'.retained)
            && s.retained.Keys <= s'.retained.Keys
            && ids == (if |frames| - center <= cfg.store.ringCapacity then WindowIds(cfg, center, |frames|) else [])
            && forall id | id in ids :: id in s'.retained
  {
    RingPosition(s, cfg.store, frames, center);
    var off := Monus(|frames|, cfg.store.ringCapacity);
    if off <= center {
      var window := WindowSlice(cfg.store, s.ring, center - off);
      SliceIds(cfg, s.ring, frames, center);
      RetainAllOk(s.retained, window, frames);
      assert forall i | 0 <= i < |window| :: Ids(window)[i] == window[i].id;
    }
  }

  // ---------------------------------------------------------- resolution

  /** How the recorder stores an emission until it is resolved. */
  function Queued(cfg: RecorderConfig, e: Emission): Pending {
    Pending(e.marker, e.observed, Max(e.observed + 1, e.marker.centerId + cfg.store.windowAfter + 1))
  }

  function AllQueued(cfg: RecorderConfig, out: seq<Emission>): seq<Pending> {
    seq(|out|, i requires 0 <= i < |out| => Queued(cfg, out[i]))
  }

  predicate Centred(out: seq<Emission>, n: nat) {
    forall i | 0 <= i < |out| :: out[i].marker.centerId <= out[i].observed < n
  }

  predicate DueOrdered(cfg: RecorderConfig, out: seq<Emission>) {
    forall i, j | 0 <= i <= j < |out| :: Due(cfg, out[i]) <= Due(cfg, out[j])
  }

  /** The recorder after `n` frames, when the first `m` emissions are resolved. */
  predicate Resolved(r: Recorder, cfg: RecorderConfig, out: seq<Emission>, m: nat, frames: seq<StoredFrame>) {
    && StoreOk(r.store, cfg.store, frames) && Indexed(frames) && r.frameCount == |frames|
    && Centred(out, |frames|) && m <= |out|
    && r.candidates == Candidates(cfg, out[..m], |frames|)
    && r.nextCandidateId == |r.candidates| + 1
    && forall i, id | 0 <= i < |r.candidates| && id in r.candidates[i].nearby :: id in r.store.retained
  }

  lemma NearbyWithin(cfg: StoreConfig, window: seq<FrameId>, keyframe: FrameId, id: FrameId)
    requires id in Nearby(cfg, window, keyframe)
    ensures id in window
  {
  }

  /** Finalising the next emission resolves it, at the present frame count. */
  lemma FinalizeOk(r: Recorder, cfg: RecorderConfig, out: seq<Emission>, m: nat, frames: seq<StoredFrame>, p: Pending)
    requires Resolved(r, cfg, out, m, frames) && m < |out| && p.marker == out[m].marker
    requires Due(cfg, out[m]) >= |frames|
    ensures var r' := Finalize(r, cfg, p);
            && Resolved(r', cfg, out, m + 1, frames)
            && r' == r.(store := r'.store, candidates := r'.candidates, nextCandidateId := r'.nextCandidateId)
            && r'.store == r.store.(retained := r'.store.retained)
  {
    var n, e := |frames|, out[m];
    assert e.marker.centerId <= e.observed < n;
    RetainWindowOk(r.store, cfg, frames, e.marker.centerId);
    assert ResolvedAt(cfg, e, n) == n;
    assert out[..m + 1][..m] == out[..m] && out[..m + 1][m] == e;
    var r' := Finalize(r, cfg, p);
    forall i, id | 0 <= i < |r'.candidates| && id in r'.candidates[i].nearby
      ensures id in r'.store.retained
    {
      if i == |r.candidates| {
        NearbyWithin(cfg.store, WindowIds(cfg, e.marker.centerId, n), e.marker.centerId, id);
      }
    }
  }

  lemma {:induction false} NoneDue(r: Recorder, cfg: RecorderConfig, ps: seq<Pending>)
    requires forall i | 0 <= i < |ps| :: ps[i].resolveAt > r.frameCount
    ensures ResolveEach(r, cfg, ps) == r.(pending := r.pending + ps)
    decreases |ps|
  {
    if ps != [] {
      NoneDue(r.(pending := r.pending + [ps[0]]), cfg, ps[1..]);
      assert r.pending + [ps[0]] + ps[1..] == r.pending + ps;
    } else {
      assert r.pending + ps == r.pending;
    }
  }

  /** At a frame, being due by the queue's own count is being due. */
  predicate DueNow(cfg: RecorderConfig, e: Emission, n: nat) {
    Due(cfg, e) >= n && (e.byEvent ==> e.observed + 2 <= n)
  }

  /** Resolving what is ready resolves a prefix of the queue: first in, first out. */
  lemma {:induction false} ResolveOk(r: Recorder, cfg: RecorderConfig, out: seq<Emission>, m: nat, frames: seq<StoredFrame>)
    returns (m': nat)
    requires Resolved(r, cfg, out, m, frames) && r.pending == [] && DueOrdered(cfg, out)
    requires forall i | m <= i < |out| :: DueNow(cfg, out[i], |frames|)
    ensures var r' := ResolveEach(r, cfg, AllQueued(cfg, out[m..]));
            && m <= m' && Resolved(r', cfg, out, m', frames)
            && r'.pending == AllQueued(cfg, out[m'..])
            && r' == r.(store := r'.store, candidates := r'.candidates, nextCandidateId := r'.nextCandidateId,
                        pending := r'.pending)
            && r'.store == r.store.(retained := r'.store.retained)
    ensures forall i | m' <= i < |out| :: Due(cfg, out[i]) > |frames|
    ensures forall i | m <= i < m' :: Due(cfg, out[i]) <= |frames|
    decreases |out| - m
  {
    var ps := AllQueued(cfg, out[m..]);
    if m == |out| {
      m' := m;
    } else if Due(cfg, out[m]) <= |frames| {
      assert DueNow(cfg, out[m], |frames|);
      assert ps[0] == Queued(cfg, out[m]) && ps[0].resolveAt <= r.frameCount;
      FinalizeOk(r, cfg, out, m, frames, ps[0]);
      assert ps[1..] == AllQueued(cfg, out[m + 1..]);
      m' := ResolveOk(Finalize(r, cfg, ps[0]), cfg, out, m + 1, frames);
    } else {
      m' := m;
      NothingDue(r, cfg, out, m);
    }
  }

  /** If the next emission is not due, none is. */
  lemma NothingDue(r: Recorder, cfg: RecorderConfig, out: seq<Emission>, m: nat)
    requires m < |out| && r.pending == [] && DueOrdered(cfg, out) && Due(cfg, out[m]) > r.frameCount
    requires forall i | m <= i < |out| :: DueNow(cfg, out[i], r.frameCount)
    ensures ResolveEach(r, cfg, AllQueued(cfg, out[m..])) == r.(pending := AllQueued(cfg, out[m..]))
    ensures forall i | m <= i < |out| :: Due(cfg, out[i]) > r.frameCount
  {
    var ps := AllQueued(cfg, out[m..]);
    forall i | m <= i < |out|
      ensures Due(cfg, out[i]) > r.frameCount && Queued(cfg, out[i]).resolveAt > r.frameCount
    {
      assert DueNow(cfg, out[i], r.frameCount);
      assert Due(cfg, out[m]) <= Due(cfg, out[i]);
    }
    NoneDue(r, cfg, ps);
    assert r.pending + ps == ps;
  }
}
