/** Bounded frame storage: a full-resolution ring, a drop-oldest analysis queue,
    and frames retained around candidate windows. */
module FrameStoreModel {
  import opened Prelude
  import opened Models
  import opened Metrics
  import opened DetectorModel

  datatype StoreConfig = StoreConfig(
    ringCapacity: nat,
    analysisCapacity: nat,
    analysisWidth: nat,
    windowBefore: nat,
    windowAfter: nat,
    nearbyMax: nat)

  datatype StoredFrame = StoredFrame(id: FrameId, atMs: Millis, image: RgbaImage)

  datatype Store = Store(
    ring: seq<StoredFrame>,
    analysis: seq<AnalysisFrame>,
    retained: map<FrameId, StoredFrame>,
    dropped: nat,
    nextId: FrameId)

  const EMPTY_STORE := Store([], [], map[], 0, 0)

  /** Append, and drop the oldest if that exceeds the capacity. */
  function PushBounded<T>(s: seq<T>, x: T, capacity: nat): seq<T> {
    var pushed := s + [x];
    if |pushed| > capacity then pushed[1..] else pushed
  }

  function Ingest(s: Store, cfg: StoreConfig, image: RgbaImage, luma: LumaPlane, at: Millis): Store {
    var id := s.nextId;
    s.(nextId := id + 1,
       ring := PushBounded(s.ring, StoredFrame(id, at, image), cfg.ringCapacity),
       analysis := PushBounded(s.analysis, AnalysisFrame(id, at, luma), cfg.analysisCapacity),
       dropped := if |s.analysis| + 1 > cfg.analysisCapacity then s.dropped + 1 else s.dropped)
  }

  /** The position of a frame in the ring, or the ring's length. */
  function Position(ring: seq<StoredFrame>, id: FrameId): (i: nat)
    ensures i <= |ring|
    ensures i < |ring| ==> ring[i].id == id
    ensures forall j | 0 <= j < i :: ring[j].id != id
  {
    if ring == [] then 0 else if ring[0].id == id then 0 else 1 + Position(ring[1..], id)
  }

  /** The ring slice around position `i`, clamped to the ring. */
  function WindowSlice(cfg: StoreConfig, ring: seq<StoredFrame>, i: nat): seq<StoredFrame>
    requires i < |ring|
  {
    ring[Monus(i, cfg.windowBefore)..Min(i + cfg.windowAfter, |ring| - 1) + 1]
  }

  function Ids(frames: seq<StoredFrame>): seq<FrameId> { seq(|frames|, i requires 0 <= i < |frames| => frames[i].id) }

  /** Retain what is not retained yet; a frame retained before is kept as it is. */
  function RetainAll(retained: map<FrameId, StoredFrame>, frames: seq<StoredFrame>): map<FrameId, StoredFrame> {
    if frames == [] then retained
    else
      var r := RetainAll(retained, frames[..|frames| - 1]);
      var f := frames[|frames| - 1];
      if f.id in r then r else r[f.id := f]
  }

  function RetainWindow(s: Store, cfg: StoreConfig, center: FrameId): (Store, seq<FrameId>) {
    var i := Position(s.ring, center);
    if i == |s.ring| then (s, [])
    else
      var window := WindowSlice(cfg, s.ring, i);
      (s.(retained := RetainAll(s.retained, window)), Ids(window))
  }

  function IndexOf(window: seq<FrameId>, id: FrameId): (i: nat)
    ensures i <= |window|
    ensures i < |window| ==> window[i] == id
    ensures id in window ==> i < |window|
  {
    if window == [] then 0 else if window[0] == id then 0 else 1 + IndexOf(window[1..], id)
  }

  /** At most `nearby_max` ids of the window around the keyframe. */
  function Nearby(cfg: StoreConfig, window: seq<FrameId>, keyframe: FrameId): seq<FrameId> {
    if window == [] then []
    else
      var max := Max(cfg.nearbyMax, 1);
      if |window| <= max then window
      else
        var found := IndexOf(window, keyframe);
        var idx := if found < |window| then found else 0;
        var lo := Monus(idx, max / 2);
        var start := if lo + max > |window| then |window| - max else lo;
        window[start..start + max]
  }
}
