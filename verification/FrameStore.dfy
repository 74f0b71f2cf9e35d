/** The frame store as the code keeps it: two deques, a map and two counters. */
module FrameStoreObject {
  import opened Prelude
  import opened Models
  import opened Metrics
  import opened DetectorModel
  import opened FrameStoreModel

  class FrameStore {
    const cfg: StoreConfig
    var ring: seq<StoredFrame>
    var analysis: seq<AnalysisFrame>
    var retained: map<FrameId, StoredFrame>
    var dropped: nat
    var nextId: FrameId

    function State(): Store
      reads this
    {
      Store(ring, analysis, retained, dropped, nextId)
    }

    constructor (cfg: StoreConfig)
      ensures this.cfg == cfg && State() == EMPTY_STORE
    {
      this.cfg := cfg;
      ring, analysis, retained, dropped, nextId := [], [], map[], 0, 0;
    }

    method Ingest(image: RgbaImage, at: Millis) returns (id: FrameId)
      requires image.Valid()
      modifies this
      ensures id == old(nextId)
      ensures State() == FrameStoreModel.Ingest(old(State()), cfg, image, Downsampled(image, cfg.analysisWidth), at)
    {
      id := nextId;
      nextId := nextId + 1;
      var luma := DownsampleLuma(image, cfg.analysisWidth);
      ring := ring + [StoredFrame(id, at, image)];
      if |ring| > cfg.ringCapacity {
        ring := ring[1..];
      }
      analysis := analysis + [AnalysisFrame(id, at, luma)];
      if |analysis| > cfg.analysisCapacity {
        analysis := analysis[1..];
        dropped := dropped + 1;
      }
    }

    method TakeAnalysis() returns (frame: Option<AnalysisFrame>)
      modifies this`analysis
      ensures old(analysis) == [] ==> frame == None && analysis == []
      ensures old(analysis) != [] ==> frame == Some(old(analysis)[0]) && analysis == old(analysis)[1..]
    {
      if analysis == [] {
        return None;
      }
      frame := Some(analysis[0]);
      analysis := analysis[1..];
    }

    method RetainWindow(center: FrameId) returns (ids: seq<FrameId>)
      modifies this`retained
      ensures (State(), ids) == FrameStoreModel.RetainWindow(old(State()), cfg, center)
    {
      ids := [];
      var idx := Position(ring, center);
      if idx == |ring| {
        return;
      }
      var lo := Monus(idx, cfg.windowBefore);
      var hi := Min(idx + cfg.windowAfter, |ring| - 1);
      ghost var window := ring[lo..hi + 1];
      ghost var retained0 := retained;
      var i := lo;
      while i <= hi
        invariant lo <= i <= hi + 1
        invariant ids == Ids(window[..i - lo])
        invariant retained == RetainAll(retained0, window[..i - lo])
        invariant ring == old(ring)
      {
        var f := ring[i];
        assert window[..i - lo + 1] == window[..i - lo] + [f];
        if f.id !in retained {
          retained := retained[f.id := f];
        }
        ids := ids + [f.id];
        i := i + 1;
      }
      assert window[..i - lo] == window;
    }

    method Retained(id: FrameId) returns (frame: Option<StoredFrame>)
      ensures frame == if id in retained then Some(retained[id]) else None
    {
      frame := if id in retained then Some(retained[id]) else None;
    }

    method Nearby(window: seq<FrameId>, keyframe: FrameId) returns (strip: seq<FrameId>)
      ensures strip == FrameStoreModel.Nearby(cfg, window, keyframe)
    {
      if window == [] {
        return [];
      }
      var max := Max(cfg.nearbyMax, 1);
      if |window| <= max {
        return window;
      }
      var idx := IndexOf(window, keyframe);
      if idx == |window| {
        idx := 0;
      }
      var lo := Monus(idx, max / 2);
      if lo + max > |window| {
        lo := |window| - max;
      }
      strip := window[lo..lo + max];
    }
  }
}
