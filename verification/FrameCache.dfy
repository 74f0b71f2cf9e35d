/** The byte-bounded cache of decoded project frames: a map, a recency queue and
    a byte counter that must agree. */
module FrameCache {
  import opened Prelude
  import opened Models

  /** A decoded picture; only its dimensions matter here, `pixels` stands for the rest. */
  datatype Picture = Picture(width: nat, height: nat, pixels: int) {
    function Bytes(): nat { width * height * 4 }
  }

  /** Four bytes for every pixel, row by row. */
  lemma BytesCount(width: nat, height: nat, pixels: int)
    ensures Picture(width, 0, pixels).Bytes() == 0
    ensures Picture(width, height + 1, pixels).Bytes() == Picture(width, height, pixels).Bytes() + 4 * width
  {
    assert width * (height + 1) == width * height + width;
  }

  datatype Entry = Entry(id: FrameId, image: Picture)

  // --------------------------------------------- the cache as a recency list

  function TotalBytes(entries: seq<Entry>): nat {
    if entries == [] then 0 else entries[0].image.Bytes() + TotalBytes(entries[1..])
  }

  predicate DistinctIds(entries: seq<Entry>) {
    forall i, j | 0 <= i < j < |entries| :: entries[i].id != entries[j].id
  }

  function Without(entries: seq<Entry>, id: FrameId): (r: seq<Entry>)
    ensures |r| <= |entries|
    ensures forall e | e in r :: e in entries && e.id != id
  {
    if entries == [] then []
    else if entries[0].id == id then Without(entries[1..], id)
    else [entries[0]] + Without(entries[1..], id)
  }

  /** Drop the least recent entries until `size` more bytes fit. */
  function MakeRoom(entries: seq<Entry>, size: nat, limit: nat): (r: seq<Entry>)
    ensures |r| <= |entries| && r == entries[|entries| - |r|..]
  {
    if entries == [] || TotalBytes(entries) + size <= limit then entries else MakeRoom(entries[1..], size, limit)
  }

  function Insert(entries: seq<Entry>, e: Entry, limit: nat): seq<Entry> {
    if e.image.Bytes() > limit then entries
    else MakeRoom(Without(entries, e.id), e.image.Bytes(), limit) + [e]
  }

  function Find(entries: seq<Entry>, id: FrameId): Option<Picture> {
    if entries == [] then None else if entries[0].id == id then Some(entries[0].image) else Find(entries[1..], id)
  }

  /** A hit makes the entry the most recent one. */
  function Touch(entries: seq<Entry>, id: FrameId): seq<Entry> {
    match Find(entries, id)
    case None => entries
    case Some(image) => Without(entries, id) + [Entry(id, image)]
  }

  predicate CacheOk(entries: seq<Entry>, limit: nat) { DistinctIds(entries) && TotalBytes(entries) <= limit }

  lemma {:induction false} TotalAppend(a: seq<Entry>, b: seq<Entry>)
    ensures TotalBytes(a + b) == TotalBytes(a) + TotalBytes(b)
  {
    if a == [] {
      assert a + b == b;
    } else {
      assert (a + b)[1..] == a[1..] + b;
      TotalAppend(a[1..], b);
    }
  }

  lemma {:induction false} FindFacts(entries: seq<Entry>, id: FrameId)
    ensures Find(entries, id).None? <==> forall e | e in entries :: e.id != id
    ensures Find(entries, id).Some? ==> Entry(id, Find(entries, id).value) in entries
    ensures Find(entries, id).None? ==> Without(entries, id) == entries
  {
    if entries != [] {
      FindFacts(entries[1..], id);
    }
  }

  lemma {:induction false} WithoutFacts(entries: seq<Entry>, id: FrameId)
    requires DistinctIds(entries)
    ensures DistinctIds(Without(entries, id))
    ensures TotalBytes(entries)
         == TotalBytes(Without(entries, id)) + (if Find(entries, id).Some? then Find(entries, id).value.Bytes() else 0)
    ensures forall e | e in entries && e.id != id :: e in Without(entries, id)
  {
    if entries != [] {
      WithoutFacts(entries[1..], id);
      if entries[0].id == id {
        FindFacts(entries[1..], id);
      }
    }
  }

  /** Room is made by dropping as few entries as possible. */
  lemma {:induction false} MakeRoomLongest(entries: seq<Entry>, size: nat, limit: nat)
    requires size <= limit
    ensures TotalBytes(MakeRoom(entries, size, limit)) + size <= limit
    ensures forall k | 0 <= k < |entries| - |MakeRoom(entries, size, limit)| :: TotalBytes(entries[k..]) + size > limit
  {
    if entries != [] && TotalBytes(entries) + size > limit {
      MakeRoomLongest(entries[1..], size, limit);
      forall k | 0 <= k < |entries| - |MakeRoom(entries, size, limit)|
        ensures TotalBytes(entries[k..]) + size > limit
      {
        if k > 0 {
          assert entries[k..] == entries[1..][k - 1..];
        } else {
          assert entries[0..] == entries;
        }
      }
    }
  }

  lemma AppendDistinct(entries: seq<Entry>, e: Entry)
    requires DistinctIds(entries) && forall x | x in entries :: x.id != e.id
    ensures DistinctIds(entries + [e])
  {
  }

  /** Inserting keeps the longest most-recent run of the other entries that fits,
      then the new one, most recent; an oversized picture changes nothing. */
  lemma InsertKeepsLongest(entries: seq<Entry>, e: Entry, limit: nat)
    requires CacheOk(entries, limit)
    ensures CacheOk(Insert(entries, e, limit), limit)
    ensures e.image.Bytes() > limit ==> Insert(entries, e, limit) == entries
    ensures e.image.Bytes() <= limit ==>
              var others := Without(entries, e.id);
              exists k | 0 <= k <= |others| ::
                && Insert(entries, e, limit) == others[k..] + [e]
                && TotalBytes(others[k..]) + e.image.Bytes() <= limit
                && forall j | 0 <= j < k :: TotalBytes(others[j..]) + e.image.Bytes() > limit
  {
    if e.image.Bytes() <= limit {
      var others := Without(entries, e.id);
      WithoutFacts(entries, e.id);
      MakeRoomLongest(others, e.image.Bytes(), limit);
      var kept := MakeRoom(others, e.image.Bytes(), limit);
      TotalAppend(kept, [e]);
      assert TotalBytes([e]) == e.image.Bytes();
      AppendDistinct(kept, e);
      assert kept == others[|others| - |kept|..];
    }
  }

  lemma {:induction false} WithoutLast(kept: seq<Entry>, e: Entry)
    requires forall x | x in kept :: x.id != e.id
    ensures Without(kept + [e], e.id) == kept
  {
    if kept != [] {
      WithoutLast(kept[1..], e);
      assert (kept + [e])[1..] == kept[1..] + [e];
    }
  }

  /** A hit makes its entry the most recent; the others keep their order, and
      nothing else changes. */
  lemma TouchKeeps(entries: seq<Entry>, id: FrameId, limit: nat)
    requires CacheOk(entries, limit)
    ensures CacheOk(Touch(entries, id), limit)
    ensures TotalBytes(Touch(entries, id)) == TotalBytes(entries)
    ensures forall e :: e in Touch(entries, id) <==> e in entries
    ensures Find(entries, id).Some? ==> Touch(entries, id)[|Touch(entries, id)| - 1] == Entry(id, Find(entries, id).value)
    ensures Without(Touch(entries, id), id) == Without(entries, id)
  {
    FindFacts(entries, id);
    WithoutFacts(entries, id);
    if Find(entries, id).Some? {
      var hit := Entry(id, Find(entries, id).value);
      TotalAppend(Without(entries, id), [hit]);
      assert TotalBytes([hit]) == hit.image.Bytes();
      AppendDistinct(Without(entries, id), hit);
      WithoutLast(Without(entries, id), hit);
      forall e | e in entries
        ensures e in Touch(entries, id)
      {
        if e.id == id {
          var i :| 0 <= i < |entries| && entries[i] == e;
          var j :| 0 <= j < |entries| && entries[j] == hit;
          assert i == j;
        }
      }
    }
  }

  // ------------------------------------------------------------ whole runs

  datatype CacheOp = Look(id: FrameId) | Load(id: FrameId, image: Picture)

  function RunCache(ops: seq<CacheOp>, limit: nat): seq<Entry> {
    if ops == [] then [] else
      var before := RunCache(ops[..|ops| - 1], limit);
      match ops[|ops| - 1]
      case Look(id) => Touch(before, id)
      case Load(id, image) => Insert(before, Entry(id, image), limit)
  }

  /** The picture last loaded for a frame, oversized ones left aside. */
  function LastLoad(ops: seq<CacheOp>, id: FrameId, limit: nat): Option<Picture> {
    if ops == [] then None else
      match ops[|ops| - 1]
      case Load(x, image) =>
        if x == id && image.Bytes() <= limit then Some(image) else LastLoad(ops[..|ops| - 1], id, limit)
      case Look(_) => LastLoad(ops[..|ops| - 1], id, limit)
  }

  /** When a frame was last looked up or loaded, oversized loads left aside. */
  function LastUse(ops: seq<CacheOp>, id: FrameId, limit: nat): (n: nat)
    ensures n <= |ops|
  {
    if ops == [] then 0 else
      var op := ops[|ops| - 1];
      if op.id == id && (op.Look? || op.image.Bytes() <= limit) then |ops| else LastUse(ops[..|ops| - 1], id, limit)
  }

  predicate SortedBy(entries: seq<Entry>, rank: FrameId -> int) {
    forall i, j | 0 <= i < j < |entries| :: rank(entries[i].id) < rank(entries[j].id)
  }

  function UseRank(ops: seq<CacheOp>, limit: nat): FrameId -> int { (id: FrameId) => LastUse(ops, id, limit) }

  lemma {:induction false} WithoutSorted(entries: seq<Entry>, id: FrameId, rank: FrameId -> int)
    requires SortedBy(entries, rank)
    ensures SortedBy(Without(entries, id), rank)
  {
    if entries != [] {
      WithoutSorted(entries[1..], id, rank);
    }
  }

  /** One entry becomes the most recent, the rest keep their order. */
  lemma MoveToEndSorted(kept: seq<Entry>, e: Entry, rank: FrameId -> int, rank': FrameId -> int)
    requires SortedBy(kept, rank)
    requires forall x | x in kept :: x.id != e.id && rank'(x.id) == rank(x.id) < rank'(e.id)
    ensures SortedBy(kept + [e], rank')
  {
    var all := kept + [e];
    forall i, j | 0 <= i < j < |all|
      ensures rank'(all[i].id) < rank'(all[j].id)
    {
      assert all[i] == kept[i] && kept[i] in kept;
      if j < |kept| {
        assert all[j] == kept[j] && kept[j] in kept;
      }
    }
  }

  /** After any run of lookups and loads the cache is within its limit, holds
      each frame once, and each with the picture last loaded for it that fitted. */
  lemma {:induction false} CacheRuns(ops: seq<CacheOp>, limit: nat)
    ensures CacheOk(RunCache(ops, limit), limit)
    ensures forall e | e in RunCache(ops, limit) :: LastLoad(ops, e.id, limit) == Some(e.image)
  {
    if ops != [] {
      var earlier, op := ops[..|ops| - 1], ops[|ops| - 1];
      CacheRuns(earlier, limit);
      var before := RunCache(earlier, limit);
      if op.Look? {
        TouchKeeps(before, op.id, limit);
      } else {
        InsertKeepsLongest(before, Entry(op.id, op.image), limit);
      }
    }
  }

  /** The frame just used goes behind all others. */
  lemma UsedLast(kept: seq<Entry>, e: Entry, ops: seq<CacheOp>, limit: nat)
    requires ops != [] && SortedBy(kept, UseRank(ops[..|ops| - 1], limit))
    requires forall x | x in kept :: x.id != e.id
    requires var op := ops[|ops| - 1]; op.id == e.id && (op.Look? || op.image.Bytes() <= limit)
    ensures SortedBy(kept + [e], UseRank(ops, limit))
  {
    MoveToEndSorted(kept, e, UseRank(ops[..|ops| - 1], limit), UseRank(ops, limit));
  }

  /** The cache is always ordered by last use. */
  lemma {:induction false} OrderedByUse(ops: seq<CacheOp>, limit: nat)
    ensures SortedBy(RunCache(ops, limit), UseRank(ops, limit))
  {
    if ops != [] {
      var earlier, op := ops[..|ops| - 1], ops[|ops| - 1];
      var before := RunCache(earlier, limit);
      OrderedByUse(earlier, limit);
      WithoutSorted(before, op.id, UseRank(earlier, limit));
      FindFacts(before, op.id);
      if op.Look? && Find(before, op.id).Some? {
        UsedLast(Without(before, op.id), Entry(op.id, Find(before, op.id).value), ops, limit);
      } else if op.Load? && op.image.Bytes() <= limit {
        var kept := MakeRoom(Without(before, op.id), op.image.Bytes(), limit);
        assert SortedBy(kept, UseRank(earlier, limit));
        UsedLast(kept, Entry(op.id, op.image), ops, limit);
      } else {
        SameRanks(before, ops, limit);
      }
    }
  }

  /** A missed lookup or an oversized load changes the last use of no cached frame. */
  lemma SameRanks(before: seq<Entry>, ops: seq<CacheOp>, limit: nat)
    requires ops != [] && SortedBy(before, UseRank(ops[..|ops| - 1], limit))
    requires var op := ops[|ops| - 1];
             if op.Look? then forall e | e in before :: e.id != op.id else op.image.Bytes() > limit
    ensures SortedBy(before, UseRank(ops, limit))
  {
    forall i | 0 <= i < |before|
      ensures UseRank(ops, limit)(before[i].id) == UseRank(ops[..|ops| - 1], limit)(before[i].id)
    {
      assert before[i] in before;
    }
  }

  // ------------------------------------------------- the three structures

  function EntriesOf(lru: seq<FrameId>, cache: map<FrameId, Picture>): (r: seq<Entry>)
    requires forall id | id in lru :: id in cache
    ensures |r| == |lru| && forall i | 0 <= i < |lru| :: r[i] == Entry(lru[i], cache[lru[i]])
  {
    seq(|lru|, i requires 0 <= i < |lru| => Entry(lru[i], cache[lru[i]]))
  }

  function FilterOut(lru: seq<FrameId>, id: FrameId): (r: seq<FrameId>)
    ensures forall x :: x in r <==> x in lru && x != id
  {
    if lru == [] then []
    else if lru[0] == id then FilterOut(lru[1..], id)
    else [lru[0]] + FilterOut(lru[1..], id)
  }

  lemma EntriesCons(id: FrameId, lru: seq<FrameId>, cache: map<FrameId, Picture>)
    requires id in cache && forall x | x in lru :: x in cache
    ensures EntriesOf([id] + lru, cache) == [Entry(id, cache[id])] + EntriesOf(lru, cache)
  {
  }

  lemma {:induction false} FilterEntries(lru: seq<FrameId>, cache: map<FrameId, Picture>, id: FrameId, cache': map<FrameId, Picture>)
    requires forall x | x in lru :: x in cache
    requires forall x | x in lru && x != id :: x in cache' && cache'[x] == cache[x]
    ensures EntriesOf(FilterOut(lru, id), cache') == Without(EntriesOf(lru, cache), id)
  {
    if lru != [] {
      FilterEntries(lru[1..], cache, id, cache');
      assert EntriesOf(lru, cache)[1..] == EntriesOf(lru[1..], cache);
      if lru[0] != id {
        EntriesCons(lru[0], FilterOut(lru[1..], id), cache');
      }
    }
  }

  lemma {:induction false} FindEntries(lru: seq<FrameId>, cache: map<FrameId, Picture>, id: FrameId)
    requires forall x | x in lru :: x in cache
    ensures Find(EntriesOf(lru, cache), id) == if id in lru then Some(cache[id]) else None
  {
    if lru != [] {
      FindEntries(lru[1..], cache, id);
      assert EntriesOf(lru, cache)[1..] == EntriesOf(lru[1..], cache);
    }
  }

  /** The queue lists exactly the cached ids, each once. */
  ghost predicate Agree(lru: seq<FrameId>, cache: map<FrameId, Picture>) {
    && (forall id :: id in lru <==> id in cache)
    && DistinctIds(EntriesOf(lru, cache))
  }

  /** The front of the queue leaves the map. */
  lemma EvictFront(lru: seq<FrameId>, cache: map<FrameId, Picture>)
    requires Agree(lru, cache) && lru != []
    ensures Agree(lru[1..], cache - {lru[0]})
    ensures EntriesOf(lru[1..], cache - {lru[0]}) == EntriesOf(lru, cache)[1..]
    ensures TotalBytes(EntriesOf(lru, cache)) == cache[lru[0]].Bytes() + TotalBytes(EntriesOf(lru, cache)[1..])
  {
    var entries := EntriesOf(lru, cache);
    forall id | id in lru[1..]
      ensures id != lru[0]
    {
      var i :| 0 <= i < |lru| - 1 && lru[1..][i] == id;
      assert entries[0].id != entries[i + 1].id;
    }
    assert EntriesOf(lru[1..], cache - {lru[0]}) == entries[1..];
  }

  /** One id leaves the queue and the map. */
  lemma RemoveId(lru: seq<FrameId>, cache: map<FrameId, Picture>, id: FrameId)
    requires Agree(lru, cache)
    ensures Agree(FilterOut(lru, id), cache - {id})
    ensures EntriesOf(FilterOut(lru, id), cache - {id}) == Without(EntriesOf(lru, cache), id)
    ensures Find(EntriesOf(lru, cache), id) == if id in cache then Some(cache[id]) else None
  {
    FilterEntries(lru, cache, id, cache - {id});
    FindEntries(lru, cache, id);
    WithoutFacts(EntriesOf(lru, cache), id);
  }

  /** A new id joins at the recent end. */
  lemma AddRecent(lru: seq<FrameId>, cache: map<FrameId, Picture>, id: FrameId, image: Picture)
    requires Agree(lru, cache) && id !in cache
    ensures Agree(lru + [id], cache[id := image])
    ensures EntriesOf(lru + [id], cache[id := image]) == EntriesOf(lru, cache) + [Entry(id, image)]
    ensures TotalBytes(EntriesOf(lru, cache) + [Entry(id, image)]) == TotalBytes(EntriesOf(lru, cache)) + image.Bytes()
  {
    assert EntriesOf(lru + [id], cache[id := image]) == EntriesOf(lru, cache) + [Entry(id, image)];
    AppendDistinct(EntriesOf(lru, cache), Entry(id, image));
    TotalAppend(EntriesOf(lru, cache), [Entry(id, image)]);
    assert TotalBytes([Entry(id, image)]) == image.Bytes();
  }

  lemma PutBack(cache: map<FrameId, Picture>, id: FrameId)
    requires id in cache
    ensures (cache - {id})[id := cache[id]] == cache
  {
  }

  /** A hit moves its id to the recent end. */
  lemma MoveRecent(lru: seq<FrameId>, cache: map<FrameId, Picture>, id: FrameId)
    requires Agree(lru, cache) && id in cache
    ensures Agree(FilterOut(lru, id) + [id], cache)
    ensures EntriesOf(FilterOut(lru, id) + [id], cache) == Touch(EntriesOf(lru, cache), id)
    ensures TotalBytes(Touch(EntriesOf(lru, cache), id)) == TotalBytes(EntriesOf(lru, cache))
    ensures Find(EntriesOf(lru, cache), id) == Some(cache[id])
  {
    RemoveId(lru, cache, id);
    AddRecent(FilterOut(lru, id), cache - {id}, id, cache[id]);
    PutBack(cache, id);
    TouchKeeps(EntriesOf(lru, cache), id, TotalBytes(EntriesOf(lru, cache)));
  }

  class ProjectFrameSource {
    var cache: map<FrameId, Picture>
    var lru: seq<FrameId>
    var decodedBytes: nat
    const byteLimit: nat

    /** The three structures agree, within the limit. */
    ghost predicate Valid()
      reads this
    {
      && Agree(lru, cache)
      && decodedBytes == TotalBytes(Contents()) <= byteLimit
    }

    /** What is cached, least recently used first. */
    ghost function Contents(): seq<Entry>
      reads this
      requires Agree(lru, cache)
    {
      EntriesOf(lru, cache)
    }

    constructor (byteLimit: nat)
      ensures Valid() && Contents() == [] && this.byteLimit == byteLimit
    {
      cache, lru, decodedBytes := map[], [], 0;
      this.byteLimit := byteLimit;
    }

    method Cached(id: FrameId) returns (image: Option<Picture>)
      requires Valid()
      modifies this`lru
      ensures Valid()
      ensures image == Find(old(Contents()), id)
      ensures Contents() == Touch(old(Contents()), id)
    {
      if id !in cache {
        FindEntries(lru, cache, id);
        return None;
      }
      MoveRecent(lru, cache, id);
      lru := FilterOut(lru, id) + [id];
      image := Some(cache[id]);
    }

    /** The code's sums fit a `usize`: the picture's bytes, and, unless they are over
        the limit on their own, they and those of the other cached pictures. */
    ghost predicate SumsFit(id: FrameId, size: nat)
      reads this
      requires Agree(lru, cache)
    {
      size <= U64_MAX && (size <= byteLimit ==> TotalBytes(Without(Contents(), id)) + size <= U64_MAX)
    }

    method InsertLoaded(id: FrameId, image: Picture)
      requires Valid() && SumsFit(id, image.Bytes())
      modifies this`cache, this`lru, this`decodedBytes
      ensures Valid()
      ensures Contents() == Insert(old(Contents()), Entry(id, image), byteLimit)
    {
      var size := image.Bytes();
      if size > byteLimit {
        return;
      }
      Forget(id);
      Evict(size);
      AddRecent(lru, cache, id, image);
      decodedBytes := decodedBytes + size;
      cache := cache[id := image];
      lru := lru + [id];
    }

    /** Take an earlier picture of the same frame out, if there is one. */
    method Forget(id: FrameId)
      requires Valid()
      modifies this`cache, this`lru, this`decodedBytes
      ensures Valid() && id !in cache && Contents() == Without(old(Contents()), id)
    {
      RemoveId(lru, cache, id);
      WithoutFacts(Contents(), id);
      FindFacts(Contents(), id);
      if id in cache {
        decodedBytes := Monus(decodedBytes, cache[id].Bytes());
        cache := cache - {id};
        lru := FilterOut(lru, id);
      }
    }

    /** The eviction loop. It ends because an empty queue means no bytes. */
    method Evict(size: nat)
      requires Valid() && size <= byteLimit && decodedBytes + size <= U64_MAX
      modifies this`cache, this`lru, this`decodedBytes
      ensures Valid() && decodedBytes + size <= byteLimit && decodedBytes + size <= U64_MAX
      ensures Contents() == MakeRoom(old(Contents()), size, byteLimit)
      ensures cache.Keys <= old(cache.Keys)
    {
      while decodedBytes + size > byteLimit
        invariant Valid() && decodedBytes + size <= U64_MAX
        invariant MakeRoom(Contents(), size, byteLimit) == MakeRoom(old(Contents()), size, byteLimit)
        invariant cache.Keys <= old(cache.Keys)
        decreases |lru|
      {
        assert lru != [];
        PopFront();
      }
    }

    method PopFront()
      requires Valid() && lru != []
      modifies this`cache, this`lru, this`decodedBytes
      ensures Valid() && Contents() == old(Contents())[1..]
      ensures |lru| < old(|lru|) && decodedBytes <= old(decodedBytes) && cache.Keys <= old(cache.Keys)
    {
      EvictFront(lru, cache);
      var evictId := lru[0];
      lru := lru[1..];
      decodedBytes := Monus(decodedBytes, cache[evictId].Bytes());
      cache := cache - {evictId};
    }
  }
}
