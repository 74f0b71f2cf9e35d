/** The frame store over any run of its calls: nothing is lost count of, and what is
    kept is always the latest. */
module FrameStoreFacts {
  import opened Prelude
  import opened Models
  import opened Metrics
  import opened DetectorModel
  import opened FrameStoreModel

  datatype StoreOp = OpIngest(image: RgbaImage, luma: LumaPlane, at: Millis) | OpTake | OpRetain(center: FrameId)

  datatype StoreRun = StoreRun(store: Store, ingested: seq<OpIngestion>, taken: seq<AnalysisFrame>)
  datatype OpIngestion = OpIngestion(image: RgbaImage, luma: LumaPlane, at: Millis)

  const NEW_STORE_RUN := StoreRun(EMPTY_STORE, [], [])

  function StoreStep(r: StoreRun, cfg: StoreConfig, op: StoreOp): StoreRun {
    match op
    case OpIngest(image, luma, at) =>
      r.(store := Ingest(r.store, cfg, image, luma, at), ingested := r.ingested + [OpIngestion(image, luma, at)])
    case OpTake =>
      if r.store.analysis == [] then r
      else r.(store := r.store.(analysis := r.store.analysis[1..]), taken := r.taken + [r.store.analysis[0]])
    case OpRetain(center) => r.(store := RetainWindow(r.store, cfg, center).0)
  }

  function RunStore(cfg: StoreConfig, ops: seq<StoreOp>): StoreRun {
    if ops == [] then NEW_STORE_RUN else StoreStep(RunStore(cfg, ops[..|ops| - 1]), cfg, ops[|ops| - 1])
  }

  /** The ring is the last `ring_capacity` frames ingested and the queue is a run of
      the last ones, no longer than its capacity; every frame was dropped, taken or
      is queued; and whatever is retained is a frame as it was ingested. */
  predicate StoreTells(r: StoreRun, cfg: StoreConfig) {
    var n, s := |r.ingested|, r.store;
    && s.nextId == n && |s.ring| == Min(n, cfg.ringCapacity) && |s.analysis| <= Min(n, cfg.analysisCapacity)
    && (forall i | 0 <= i < |s.ring| :: FrameAs(s.ring[i], r.ingested, n - |s.ring| + i))
    && (forall i | 0 <= i < |s.analysis| :: QueuedAs(s.analysis[i], r.ingested, n - |s.analysis| + i))
    && s.dropped + |r.taken| + |s.analysis| == n
    && forall id | id in s.retained :: FrameAs(s.retained[id], r.ingested, id)
  }

  predicate FrameAs(f: StoredFrame, ingested: seq<OpIngestion>, id: int) {
    0 <= id < |ingested| && f == StoredFrame(id, ingested[id].at, ingested[id].image)
  }

  predicate QueuedAs(f: AnalysisFrame, ingested: seq<OpIngestion>, id: int) {
    0 <= id < |ingested| && f == AnalysisFrame(id, ingested[id].at, ingested[id].luma)
  }

  lemma IngestTells(r: StoreRun, cfg: StoreConfig, image: RgbaImage, luma: LumaPlane, at: Millis)
    requires StoreTells(r, cfg)
    ensures StoreTells(StoreStep(r, cfg, OpIngest(image, luma, at)), cfg)
  {
    var r' := StoreStep(r, cfg, OpIngest(image, luma, at));
    var n := |r.ingested|;
    forall i | 0 <= i < |r'.store.ring|
      ensures FrameAs(r'.store.ring[i], r'.ingested, n + 1 - |r'.store.ring| + i)
    {
      var k := i + |r.store.ring| + 1 - |r'.store.ring|;
      if k < |r.store.ring| {
        assert FrameAs(r.store.ring[k], r.ingested, n - |r.store.ring| + k);
      }
    }
    forall i | 0 <= i < |r'.store.analysis|
      ensures QueuedAs(r'.store.analysis[i], r'.ingested, n + 1 - |r'.store.analysis| + i)
    {
      var k := i + |r.store.analysis| + 1 - |r'.store.analysis|;
      if k < |r.store.analysis| {
        assert QueuedAs(r.store.analysis[k], r.ingested, n - |r.store.analysis| + k);
      }
    }
  }

  lemma TakeTells(r: StoreRun, cfg: StoreConfig)
    requires StoreTells(r, cfg)
    ensures StoreTells(StoreStep(r, cfg, OpTake), cfg)
  {
    if r.store.analysis != [] {
      var r' := StoreStep(r, cfg, OpTake);
      forall i | 0 <= i < |r'.store.analysis|
        ensures QueuedAs(r'.store.analysis[i], r'.ingested, |r.ingested| - |r'.store.analysis| + i)
      {
        assert QueuedAs(r.store.analysis[i + 1], r.ingested, |r.ingested| - |r.store.analysis| + (i + 1));
      }
    }
  }

  lemma {:induction false} RetainAllTells(retained: map<FrameId, StoredFrame>, window: seq<StoredFrame>, ingested: seq<OpIngestion>)
    requires forall id | id in retained :: FrameAs(retained[id], ingested, id)
    requires forall f | f in window :: FrameAs(f, ingested, f.id)
    ensures forall id | id in RetainAll(retained, window) :: FrameAs(RetainAll(retained, window)[id], ingested, id)
  {
    if window != [] {
      assert forall f | f in window[..|window| - 1] :: f in window;
      RetainAllTells(retained, window[..|window| - 1], ingested);
      assert window[|window| - 1] in window;
    }
  }

  lemma RetainTells(r: StoreRun, cfg: StoreConfig, center: FrameId)
    requires StoreTells(r, cfg)
    ensures StoreTells(StoreStep(r, cfg, OpRetain(center)), cfg)
  {
    var i := Position(r.store.ring, center);
    if i < |r.store.ring| {
      var window := WindowSlice(cfg, r.store.ring, i);
      forall f | f in window
        ensures FrameAs(f, r.ingested, f.id)
      {
        assert f in r.store.ring;
        var k :| 0 <= k < |r.store.ring| && r.store.ring[k] == f;
        assert FrameAs(r.store.ring[k], r.ingested, |r.ingested| - |r.store.ring| + k);
      }
      RetainAllTells(r.store.retained, window, r.ingested);
    }
  }

  lemma {:induction false} StoreRuns(cfg: StoreConfig, ops: seq<StoreOp>)
    ensures StoreTells(RunStore(cfg, ops), cfg)
  {
    if ops != [] {
      var r := RunStore(cfg, ops[..|ops| - 1]);
      StoreRuns(cfg, ops[..|ops| - 1]);
      match ops[|ops| - 1]
      case OpIngest(image, luma, at) => IngestTells(r, cfg, image, luma, at);
      case OpTake => TakeTells(r, cfg);
      case OpRetain(center) => RetainTells(r, cfg, center);
    }
  }
}
