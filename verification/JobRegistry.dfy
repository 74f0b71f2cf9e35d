/** The registry as the code keeps it: a map, a flag, a counter and a set that
    each locked section updates in place, proved against `JobModel`. */
module JobRegistry {
  import opened Prelude
  import opened JobModel

  // ------------------------------------------------------- pruning helpers

  /** `order` lists `ids`, each once, by time. */
  ghost predicate TimeOrder(times: map<JobId, nat>, ids: set<JobId>, order: seq<JobId>) {
    && ids <= times.Keys
    && (forall i | 0 <= i < |order| :: order[i] in ids)
    && (forall id | id in ids :: id in order)
    && (forall i, j | 0 <= i < j < |order| :: order[i] != order[j])
    && (forall i, j | 0 <= i < j < |order| :: times[order[i]] <= times[order[j]])
  }

  /** Some sort by time, whatever order the hash map hands the ids out in. */
  method SortByTime(times: map<JobId, nat>) returns (order: seq<JobId>)
    ensures TimeOrder(times, times.Keys, order)
  {
    order := [];
    var todo := times.Keys;
    while todo != {}
      invariant todo <= times.Keys
      invariant TimeOrder(times, times.Keys - todo, order)
      decreases todo
    {
      var id :| id in todo;
      var at := 0;
      while at < |order| && times[order[at]] <= times[id]
        invariant 0 <= at <= |order|
        invariant at > 0 ==> times[order[at - 1]] <= times[id]
      {
        at := at + 1;
      }
      InsertedOrder(times, times.Keys - todo, order, at, id);
      assert times.Keys - (todo - {id}) == (times.Keys - todo) + {id};
      order := Insert(order, at, id);
      todo := todo - {id};
    }
    assert times.Keys - todo == times.Keys;
  }

  function Insert(order: seq<JobId>, at: nat, id: JobId): (r: seq<JobId>)
    requires at <= |order|
    ensures |r| == |order| + 1
    ensures forall i | 0 <= i < |r| :: r[i] == if i < at then order[i] else if i == at then id else order[i - 1]
  {
    order[..at] + [id] + order[at..]
  }

  lemma InsertedSorted(times: map<JobId, nat>, ids: set<JobId>, order: seq<JobId>, at: nat, id: JobId, i: nat, j: nat)
    requires TimeOrder(times, ids, order) && at <= |order| && id !in ids && id in times
    requires at > 0 ==> times[order[at - 1]] <= times[id]
    requires at < |order| ==> times[id] < times[order[at]]
    requires i < j <= |order|
    ensures var order' := Insert(order, at, id);
            && order'[i] != order'[j] && order'[i] in times && order'[j] in times
            && times[order'[i]] <= times[order'[j]]
  {
    if i == at {
      assert times[order[at]] <= times[order[j - 1]];
    } else if j == at {
      assert times[order[i]] <= times[order[at - 1]];
    }
  }

  lemma InsertedMembers(ids: set<JobId>, order: seq<JobId>, at: nat, id: JobId)
    requires (forall i | 0 <= i < |order| :: order[i] in ids) && (forall x | x in ids :: x in order)
    requires at <= |order|
    ensures forall i | 0 <= i < |Insert(order, at, id)| :: Insert(order, at, id)[i] in ids + {id}
    ensures forall x | x in ids + {id} :: x in Insert(order, at, id)
  {
    var order' := Insert(order, at, id);
    forall x | x in ids + {id}
      ensures x in order'
    {
      if x in ids {
        var i :| 0 <= i < |order| && order[i] == x;
        assert order'[if i < at then i else i + 1] == x;
      } else {
        assert order'[at] == id;
      }
    }
  }

  lemma InsertedOrder(times: map<JobId, nat>, ids: set<JobId>, order: seq<JobId>, at: nat, id: JobId)
    requires TimeOrder(times, ids, order) && at <= |order| && id !in ids && id in times
    requires at > 0 ==> times[order[at - 1]] <= times[id]
    requires at < |order| ==> times[id] < times[order[at]]
    ensures TimeOrder(times, ids + {id}, Insert(order, at, id))
  {
    var order' := Insert(order, at, id);
    InsertedMembers(ids, order, at, id);
    forall i, j | 0 <= i < j < |order'|
      ensures order'[i] != order'[j] && times[order'[i]] <= times[order'[j]]
    {
      InsertedSorted(times, ids, order, at, id, i, j);
    }
  }

  lemma TombstoneAdded(before: set<JobId>, wanted: set<JobId>, after: set<JobId>, id: JobId)
    requires Tombstoned(before, wanted, after)
    ensures Tombstoned(before, wanted + {id}, if |after| < MAX_TERMINAL_JOBS then after + {id} else after)
  {
    if |after| < MAX_TERMINAL_JOBS {
      assert after == before + wanted;
    }
  }

  /** The ids among the first `n` of `order` that the given pass takes. */
  ghost function Taken(jobs: map<JobId, JobRecord>, order: seq<JobId>, n: nat, uncollected: bool): set<JobId>
    requires n <= |order| && forall i | 0 <= i < |order| :: order[i] in jobs
  {
    if n == 0 then {}
    else
      Taken(jobs, order, n - 1, uncollected)
      + (if HasUncollected(jobs[order[n - 1]]) == uncollected then {order[n - 1]} else {})
  }

  lemma {:induction false} TakenIff(jobs: map<JobId, JobRecord>, order: seq<JobId>, n: nat, uncollected: bool, id: JobId)
    requires n <= |order| && forall i | 0 <= i < |order| :: order[i] in jobs
    ensures id in Taken(jobs, order, n, uncollected) <==>
              exists i | 0 <= i < n :: order[i] == id && HasUncollected(jobs[order[i]]) == uncollected
  {
    if n > 0 {
      TakenIff(jobs, order, n - 1, uncollected, id);
    }
  }

  /** No pass meets an id twice. */
  ghost predicate EachOnce(jobs: map<JobId, JobRecord>, order: seq<JobId>, uncollected: bool) {
    && (forall i | 0 <= i < |order| :: order[i] in jobs)
    && (forall i {:trigger Taken(jobs, order, i, uncollected)} | 0 <= i < |order| ::
          order[i] !in Taken(jobs, order, i, uncollected))
  }

  lemma OrderEachOnce(jobs: map<JobId, JobRecord>, times: map<JobId, nat>, order: seq<JobId>, uncollected: bool)
    requires TimeOrder(times, times.Keys, order) && times.Keys <= jobs.Keys
    ensures EachOnce(jobs, order, uncollected)
  {
    forall i | 0 <= i < |order|
      ensures order[i] in jobs && order[i] !in Taken(jobs, order, i, uncollected)
    {
      TakenIff(jobs, order, i, uncollected, order[i]);
    }
  }

  lemma MinusTwice(jobs: map<JobId, JobRecord>, a: set<JobId>, b: set<JobId>)
    ensures (jobs - a) - b == jobs - (a + b)
  {
  }

  /** Expiry done for every id but those in `todo`. */
  ghost function ExpiredBut(jobs: map<JobId, JobRecord>, now: nat, todo: set<JobId>): map<JobId, JobRecord> {
    map id | id in jobs :: if id in todo then jobs[id] else ExpireRecord(jobs[id], now)
  }

  lemma ExpiringNext(jobs0: map<JobId, JobRecord>, now: nat, todo: set<JobId>, id: JobId)
    requires id in todo && todo <= jobs0.Keys
    ensures ExpiringIds(jobs0, now) - (todo - {id})
         == (ExpiringIds(jobs0, now) - todo) + (if Expires(jobs0[id], now) then {id} else {})
  {
  }

  lemma ExpiredNext(jobs: map<JobId, JobRecord>, now: nat, todo: set<JobId>, id: JobId)
    requires id in todo && id in jobs
    ensures id in ExpiredBut(jobs, now, todo) && ExpiredBut(jobs, now, todo)[id] == jobs[id]
    ensures ExpiredBut(jobs, now, todo - {id}) == ExpiredBut(jobs, now, todo)[id := ExpireRecord(jobs[id], now)]
    ensures !Expires(jobs[id], now) ==> ExpiredBut(jobs, now, todo - {id}) == ExpiredBut(jobs, now, todo)
  {
  }

  lemma ExpiredEnds(jobs: map<JobId, JobRecord>, now: nat)
    ensures ExpiredBut(jobs, now, jobs.Keys) == jobs
    ensures ExpiredBut(jobs, now, {}) == ExpireJobs(jobs, now)
  {
  }

  /** Where the two eviction passes stopped: after `n` and `m` of the listed ids. */
  ghost predicate PassesDone(mid: map<JobId, JobRecord>, order: seq<JobId>, excess: nat, n: nat, m: nat)
    requires forall i | 0 <= i < |order| :: order[i] in mid
  {
    && n <= |order| && m <= |order|
    && var free, unc := |Taken(mid, order, n, false)|, |Taken(mid, order, m, true)|;
    && free + unc <= excess
    && (n == |order| || free == excess)
    && (m == |order| || free + unc == excess)
  }

  lemma TakenApart(mid: map<JobId, JobRecord>, order: seq<JobId>, n: nat, m: nat)
    requires (forall i | 0 <= i < |order| :: order[i] in mid) && n <= |order| && m <= |order|
    ensures var a, b := Taken(mid, order, n, false), Taken(mid, order, m, true);
            a !! b && |a + b| == |a| + |b|
  {
    forall id
      ensures !(id in Taken(mid, order, n, false) && id in Taken(mid, order, m, true))
    {
      TakenIff(mid, order, n, false, id);
      TakenIff(mid, order, m, true, id);
    }
  }

  lemma TakenListed(mid: map<JobId, JobRecord>, times: map<JobId, nat>, order: seq<JobId>, n: nat, m: nat)
    requires TimeOrder(times, times.Keys, order) && times.Keys <= mid.Keys && n <= |order| && m <= |order|
    ensures Taken(mid, order, n, false) + Taken(mid, order, m, true) <= times.Keys
    ensures n == |order| && m == |order| ==>
              Taken(mid, order, n, false) + Taken(mid, order, m, true) == times.Keys
  {
    forall id
      ensures id in Taken(mid, order, n, false) + Taken(mid, order, m, true) ==> id in times.Keys
      ensures n == |order| && m == |order| && id in times.Keys ==>
                id in Taken(mid, order, n, false) + Taken(mid, order, m, true)
    {
      TakenIff(mid, order, n, false, id);
      TakenIff(mid, order, m, true, id);
    }
  }

  /** An id a pass has not reached, or was not looking for, sorts no earlier. */
  lemma TakenFirst(mid: map<JobId, JobRecord>, times: map<JobId, nat>, order: seq<JobId>, excess: nat, n: nat, m: nat,
                   a: JobId, b: JobId)
    requires TimeOrder(times, times.Keys, order) && times.Keys <= mid.Keys
    requires forall id | id in times :: times[id] == TerminalTime(mid[id])
    requires PassesDone(mid, order, excess, n, m)
    requires a in times && a in Taken(mid, order, n, false) + Taken(mid, order, m, true)
    requires b in times && b !in Taken(mid, order, n, false) + Taken(mid, order, m, true)
    ensures EvictedNoLater(mid[a], mid[b])
  {
    TakenIff(mid, order, n, false, a);
    TakenIff(mid, order, m, true, a);
    TakenIff(mid, order, n, false, b);
    TakenIff(mid, order, m, true, b);
    if a in Taken(mid, order, m, true) {
      assert |Taken(mid, order, m, true)| > 0;
      assert n == |order|;
    }
  }

  /** The two passes together take the `excess` records that come first. */
  lemma PassesEvict(mid: map<JobId, JobRecord>, times: map<JobId, nat>, order: seq<JobId>, excess: nat, n: nat, m: nat,
                    evicted: set<JobId>)
    requires TimeOrder(times, times.Keys, order) && times.Keys == TerminalIds(mid)
    requires forall id | id in times :: times[id] == TerminalTime(mid[id])
    requires PassesDone(mid, order, excess, n, m) && excess <= |times|
    requires evicted == Taken(mid, order, n, false) + Taken(mid, order, m, true)
    ensures EvictedSet(mid, excess, evicted)
  {
    TakenApart(mid, order, n, m);
    TakenListed(mid, times, order, n, m);
    forall a, b | a in evicted && b in mid && b !in evicted && mid[b].state.IsTerminal()
      ensures EvictedNoLater(mid[a], mid[b])
    {
      assert a in times && b in times;
      TakenFirst(mid, times, order, excess, n, m, a, b);
    }
  }

  lemma TombstonedTwice(a: set<JobId>, w1: set<JobId>, b: set<JobId>, w2: set<JobId>, c: set<JobId>)
    requires Tombstoned(a, w1, b) && Tombstoned(b, w2, c)
    ensures Tombstoned(a, w1 + w2, c)
  {
    SubsetSize(b, c);
    if c != a + (w1 + w2) && b == a + w1 {
      assert c != b + w2;
    }
  }

  lemma TakenUncollected(mid: map<JobId, JobRecord>, times: map<JobId, nat>, order: seq<JobId>, n: nat, m: nat)
    requires TimeOrder(times, times.Keys, order) && times.Keys <= mid.Keys && n <= |order| && m <= |order|
    ensures Taken(mid, order, n, false) + Taken(mid, order, m, true) <= mid.Keys
    ensures UncollectedAmong(mid, Taken(mid, order, n, false) + Taken(mid, order, m, true)) == Taken(mid, order, m, true)
  {
    TakenListed(mid, times, order, n, m);
    forall id
      ensures id in Taken(mid, order, n, false) ==> id in mid && !HasUncollected(mid[id])
      ensures id in Taken(mid, order, m, true) ==> id in mid && HasUncollected(mid[id])
    {
      TakenIff(mid, order, n, false, id);
      TakenIff(mid, order, m, true, id);
    }
  }

  lemma NoEviction(jobs: map<JobId, JobRecord>, tombstones: set<JobId>)
    ensures EvictedSet(jobs, 0, {})
    ensures Tombstoned(tombstones, UncollectedAmong(jobs, {}), tombstones)
  {
  }

  lemma FreeKeepsUncollected(jobs: map<JobId, JobRecord>, order: seq<JobId>, n: nat)
    requires n <= |order| && forall i | 0 <= i < |order| :: order[i] in jobs
    ensures forall i | 0 <= i < |order| && HasUncollected(jobs[order[i]]) ::
              order[i] in jobs - Taken(jobs, order, n, false)
  {
    forall i | 0 <= i < |order| && HasUncollected(jobs[order[i]])
      ensures order[i] !in Taken(jobs, order, n, false)
    {
      TakenIff(jobs, order, n, false, order[i]);
    }
  }

  /** The two passes, put together. */
  lemma RoomMade(mid: map<JobId, JobRecord>, times: map<JobId, nat>, order: seq<JobId>, excess: nat, n: nat, m: nat)
    returns (evicted: set<JobId>)
    requires TimeOrder(times, times.Keys, order) && times.Keys == TerminalIds(mid)
    requires forall id | id in times :: times[id] == TerminalTime(mid[id])
    requires PassesDone(mid, order, excess, n, m) && excess <= |times|
    ensures EvictedSet(mid, excess, evicted)
    ensures mid - evicted == (mid - Taken(mid, order, n, false)) - Taken(mid, order, m, true)
    ensures UncollectedAmong(mid, evicted) == Taken(mid, order, m, true)
  {
    evicted := Taken(mid, order, n, false) + Taken(mid, order, m, true);
    MinusTwice(mid, Taken(mid, order, n, false), Taken(mid, order, m, true));
    PassesEvict(mid, times, order, excess, n, m, evicted);
    TakenUncollected(mid, times, order, n, m);
  }

  /** Expiry followed by an eviction is one pruning. */
  lemma ExpiredAndEvicted(r: Registry, now: nat, makeRoom: bool, mid: Registry, evicted: set<JobId>, r': Registry)
    requires mid == r.(jobs := ExpireJobs(r.jobs, now), tombstones := mid.tombstones)
    requires Tombstoned(r.tombstones, ExpiringIds(r.jobs, now), mid.tombstones)
    requires EvictedSet(mid.jobs, Excess(mid.jobs, makeRoom), evicted)
    requires r' == mid.(jobs := mid.jobs - evicted, tombstones := r'.tombstones)
    requires Tombstoned(mid.tombstones, UncollectedAmong(mid.jobs, evicted), r'.tombstones)
    ensures Pruned(r, now, makeRoom, r')
  {
    assert r.jobs.Keys - r'.jobs.Keys == evicted;
    TombstonedTwice(r.tombstones, ExpiringIds(r.jobs, now), mid.tombstones,
                    UncollectedAmong(mid.jobs, evicted), r'.tombstones);
  }

  /** Cancellation requested for every open job but those in `todo`. */
  ghost function RequestedBut(jobs: map<JobId, JobRecord>, now: nat, todo: set<JobId>): map<JobId, JobRecord> {
    map id | id in jobs :: if id in OpenIds(jobs) && id !in todo then RequestCancel(jobs[id], now) else jobs[id]
  }

  lemma RequestedNext(jobs: map<JobId, JobRecord>, now: nat, todo: set<JobId>, id: JobId)
    requires id in todo && todo <= jobs.Keys
    ensures id in RequestedBut(jobs, now, todo) && RequestedBut(jobs, now, todo)[id] == jobs[id]
    ensures var open := jobs[id].state == Starting || jobs[id].state == Running;
            && RequestedBut(jobs, now, todo - {id})
               == (if open then RequestedBut(jobs, now, todo)[id := RequestCancel(jobs[id], now)]
                   else RequestedBut(jobs, now, todo))
            && OpenIds(jobs) - (todo - {id}) == (OpenIds(jobs) - todo) + (if open then {id} else {})
  {
  }

  lemma RequestedEnds(r: Registry, now: nat)
    ensures RequestedBut(r.jobs, now, r.jobs.Keys) == r.jobs
    ensures RequestedBut(r.jobs, now, {}) == Shutdown(r, now).0.jobs
    ensures OpenIds(r.jobs) - {} == OpenIds(r.jobs)
    ensures OpenIds(r.jobs) - r.jobs.Keys == {}
  {
  }

  // ------------------------------------------------------------- registry

  class LiveJobRegistry {
    var jobs: map<JobId, JobRecord>
    var shuttingDown: bool
    var watchRevision: nat
    var tombstones: set<JobId>

    function State(): Registry
      reads this
    {
      Registry(jobs, shuttingDown, watchRevision, tombstones)
    }

    constructor ()
      ensures State() == EMPTY_REGISTRY
    {
      jobs, shuttingDown, watchRevision, tombstones := map[], false, 0, {};
    }

    /** The body of the expiry loop, for one record. */
    method ExpireJob(id: JobId, now: nat)
      requires id in jobs
      modifies this`jobs, this`tombstones
      ensures jobs == old(jobs)[id := ExpireRecord(old(jobs)[id], now)]
      ensures tombstones == if Expires(old(jobs)[id], now) && |old(tombstones)| < MAX_TERMINAL_JOBS
                            then old(tombstones) + {id} else old(tombstones)
    {
      var rec := jobs[id];
      if !rec.state.IsTerminal() {
        return;
      }
      var elapsed := Monus(now, rec.terminalAt.GetOr(rec.createdAt));
      if elapsed >= TERMINAL_TTL_MS && rec.state == Succeeded && rec.result.Some? && !rec.resultCollected {
        jobs := jobs[id := rec.(result := None, resultExpired := true)];
        if |tombstones| < MAX_TERMINAL_JOBS {
          tombstones := tombstones + {id};
        }
      }
    }

    /** Phase 1: drop the results that outlived their time to live. */
    method ExpireResults(now: nat)
      modifies this`jobs, this`tombstones
      ensures jobs == ExpireJobs(old(jobs), now)
      ensures Tombstoned(old(tombstones), ExpiringIds(old(jobs), now), tombstones)
    {
      ghost var jobs0, tombstones0 := jobs, tombstones;
      ghost var wanted: set<JobId> := {};
      var todo := jobs.Keys;
      ExpiredEnds(jobs0, now);
      while todo != {}
        invariant todo <= jobs0.Keys
        invariant jobs == ExpiredBut(jobs0, now, todo)
        invariant wanted == ExpiringIds(jobs0, now) - todo
        invariant Tombstoned(tombstones0, wanted, tombstones)
        decreases todo
      {
        var id :| id in todo;
        ExpiringNext(jobs0, now, todo, id);
        ExpiredNext(jobs0, now, todo, id);
        TombstoneAdded(tombstones0, wanted, tombstones, id);
        ExpireJob(id, now);
        wanted := if Expires(jobs0[id], now) then wanted + {id} else wanted;
        todo := todo - {id};
      }
      assert wanted == ExpiringIds(jobs0, now);
    }
  
    /** First eviction pass: terminal records without an uncollected result. */
    method EvictFree(snapshot: map<JobId, JobRecord>, order: seq<JobId>, excess: nat)
      returns (removed: nat, ghost n: nat)
      requires jobs == snapshot && EachOnce(snapshot, order, false)
      modifies this`jobs
      ensures n <= |order| && jobs == snapshot - Taken(snapshot, order, n, false)
      ensures removed == |Taken(snapshot, order, n, false)| <= excess
      ensures n == |order| || removed == excess
    {
      removed := 0;
      ghost var taken: set<JobId> := {};
      var i := 0;
      assert snapshot - taken == snapshot;
      while i < |order| && removed < excess
        invariant 0 <= i <= |order|
        invariant taken == Taken(snapshot, order, i, false)
        invariant jobs == snapshot - taken
        invariant removed == |taken| <= excess
      {
        var id := order[i];
        if !HasUncollected(snapshot[id]) {
          MinusTwice(snapshot, taken, {id});
          jobs := jobs - {id};
          removed := removed + 1;
          taken := taken + {id};
        }
        i := i + 1;
      }
      n := i;
    }

    /** Remove an uncollected result, leaving a tombstone if there is room for one. */
    method EvictResult(id: JobId)
      modifies this`jobs, this`tombstones
      ensures jobs == old(jobs) - {id}
      ensures tombstones == if |old(tombstones)| < MAX_TERMINAL_JOBS then old(tombstones) + {id} else old(tombstones)
    {
      if |tombstones| < MAX_TERMINAL_JOBS {
        tombstones := tombstones + {id};
      }
      jobs := jobs - {id};
    }

    /** Second eviction pass: uncollected results, oldest first, each with a tombstone while there is room. */
    method EvictUncollected(snapshot: map<JobId, JobRecord>, order: seq<JobId>, excess: nat, removedBefore: nat)
      returns (ghost m: nat)
      requires EachOnce(snapshot, order, true) && removedBefore <= excess
      requires forall i | 0 <= i < |order| && HasUncollected(snapshot[order[i]]) :: order[i] in jobs
      modifies this`jobs, this`tombstones
      ensures m <= |order| && jobs == old(jobs) - Taken(snapshot, order, m, true)
      ensures var taken := Taken(snapshot, order, m, true);
              && removedBefore + |taken| <= excess
              && (m == |order| || removedBefore + |taken| == excess)
              && Tombstoned(old(tombstones), taken, tombstones)
    {
      ghost var jobs0, tombstones0 := jobs, tombstones;
      ghost var taken: set<JobId> := {};
      var removed := removedBefore;
      m := 0;
      var i := 0;
      assert jobs0 - taken == jobs0;
      while i < |order| && removed < excess
        invariant 0 <= i <= |order|
        invariant taken == Taken(snapshot, order, i, true)
        invariant jobs == jobs0 - taken
        invariant removed == removedBefore + |taken| <= excess
        invariant Tombstoned(tombstones0, taken, tombstones)
      {
        var id := order[i];
        if HasUncollected(snapshot[id]) && id in jobs {
          ghost var next := taken + {id};
          TombstoneAdded(tombstones0, taken, tombstones, id);
          MinusTwice(jobs0, taken, {id});
          EvictResult(id);
          removed := removed + 1;
          taken := next;
        }
        i := i + 1;
      }
      m := i;
    }
  
    /** Phase 2: both passes, until `excess` records are gone. */
    method MakeRoom(snapshot: map<JobId, JobRecord>, times: map<JobId, nat>, order: seq<JobId>, excess: nat)
      returns (ghost evicted: set<JobId>)
      requires jobs == snapshot && times.Keys == TerminalIds(snapshot) && excess <= |times|
      requires forall id | id in times :: times[id] == TerminalTime(snapshot[id])
      requires TimeOrder(times, times.Keys, order)
      modifies this`jobs, this`tombstones
      ensures EvictedSet(snapshot, excess, evicted) && jobs == snapshot - evicted
      ensures Tombstoned(old(tombstones), UncollectedAmong(snapshot, evicted), tombstones)
    {
      var removed;
      ghost var n, m;
      OrderEachOnce(snapshot, times, order, false);
      OrderEachOnce(snapshot, times, order, true);
      removed, n := EvictFree(snapshot, order, excess);
      FreeKeepsUncollected(snapshot, order, n);
      m := EvictUncollected(snapshot, order, excess, removed);
      evicted := RoomMade(snapshot, times, order, excess, n, m);
    }

    /** Phase 2, if room is wanted and there is none. */
    method EvictTerminals(makeRoom: bool) returns (ghost evicted: set<JobId>)
      modifies this`jobs, this`tombstones
      ensures EvictedSet(old(jobs), Excess(old(jobs), makeRoom), evicted) && jobs == old(jobs) - evicted
      ensures Tombstoned(old(tombstones), UncollectedAmong(old(jobs), evicted), tombstones)
    {
      var terminal := TerminalIds(jobs);
      var terminalCount := |terminal|;
      if makeRoom && terminalCount >= MAX_TERMINAL_JOBS {
        var snapshot := jobs;
        var times := map id | id in terminal :: TerminalTime(snapshot[id]);
        var order := SortByTime(times);
        var excess := terminalCount - MAX_TERMINAL_JOBS + 1;
        assert times.Keys == terminal;
        evicted := MakeRoom(snapshot, times, order, excess);
      } else {
        evicted := {};
        assert jobs - evicted == jobs;
        NoEviction(jobs, tombstones);
      }
    }

    /** `prune_terminals`. */
    method PruneTerminals(now: nat, makeRoom: bool)
      modifies this`jobs, this`tombstones
      ensures Pruned(old(State()), now, makeRoom, State())
    {
      ExpireResults(now);
      ghost var mid := State();
      ghost var evicted := EvictTerminals(makeRoom);
      ExpiredAndEvicted(old(State()), now, makeRoom, mid, evicted, State());
    }

    // ------------------------------------------------------ client calls

    /** The capacity checks and the allocation of `admit`. */
    method Allocate(admission: JobAdmission, now: nat, freshId: JobId) returns (result: AdmitResult)
      modifies this
      ensures (State(), result) == JobModel.Allocate(old(State()), admission, now, freshId)
    {
      if |TerminalIds(jobs)| >= MAX_TERMINAL_JOBS {
        return NotAdmitted(TerminalCapacity);
      }
      if |ActiveIds(jobs)| >= MAX_ACTIVE_JOBS {
        return NotAdmitted(ActiveLimit);
      }
      if |ReservedIds(jobs)| >= MAX_UNCOLLECTED_RESULT_SLOTS {
        return NotAdmitted(ResultCapacity);
      }
      jobs := jobs[freshId := NewRecord(admission, now)];
      watchRevision := watchRevision + 1;
      result := Admitted(freshId);
    }

    /** `admit`; `freshId` is the identifier the call generates. */
    method Admit(admission: JobAdmission, now: nat, freshId: JobId)
      returns (result: AdmitResult, reporter: JobReporter?, ghost pruned: Registry)
      modifies this
      ensures pruned == old(State()) || Pruned(old(State()), now, true, pruned)
      ensures !old(shuttingDown) && ValidateAdmission(admission).None? ==> Pruned(old(State()), now, true, pruned)
      ensures (State(), result) == JobModel.Admit(old(State()), admission, now, freshId, pruned)
      ensures result.Admitted? ==>
                reporter != null && fresh(reporter) && reporter.registry == this
                && reporter.jobId == freshId && !reporter.terminalReported
    {
      reporter := null;
      pruned := State();
      if shuttingDown {
        return NotAdmitted(ShuttingDown), null, pruned;
      }
      var invalid := ValidateAdmission(admission);
      if invalid.Some? {
        return NotAdmitted(invalid.value), null, pruned;
      }
      PruneTerminals(now, true);
      pruned := State();
      result := Allocate(admission, now, freshId);
      if result.Admitted? {
        reporter := new JobReporter(this, freshId);
      }
    }

    /** The locked section of `cancel`. On `Requested` the caller goes on to run
        the job's callback, outside the lock. */
    method Cancel(id: JobId, now: nat) returns (outcome: JobCancelOutcome)
      modifies this
      ensures (State(), outcome) == JobModel.Cancel(old(State()), id, now)
    {
      if id !in jobs {
        return CancelNotFound;
      }
      var rec := jobs[id];
      if rec.state.IsTerminal() {
        return AlreadyTerminal;
      }
      if rec.state == Cancelling {
        return AlreadyRequested;
      }
      jobs := jobs[id := rec.(state := Cancelling, cancelledAt := Some(now), revision := rec.revision + 1)];
      watchRevision := watchRevision + 1;
      outcome := Requested;
    }

    method Collect(id: JobId, now: nat) returns (result: CollectResult, ghost pruned: Registry)
      modifies this
      ensures Pruned(old(State()), now, false, pruned)
      ensures (State(), result) == JobModel.Collect(pruned, id)
    {
      PruneTerminals(now, false);
      pruned := State();
      if id !in jobs {
        if id in tombstones {
          return ResultExpired, pruned;
        }
        return JobNotFound, pruned;
      }
      var rec := jobs[id];
      if rec.state != Succeeded {
        return NotSucceeded, pruned;
      }
      if rec.resultCollected {
        return AlreadyCollected, pruned;
      }
      match rec.result
      case Some(value) =>
        jobs := jobs[id := rec.(result := None, resultCollected := true)];
        result := Collected(value);
      case None =>
        jobs := jobs[id := rec.(resultExpired := true)];
        result := ResultExpired;
    }

    method Prune(now: nat)
      modifies this`jobs, this`tombstones
      ensures Pruned(old(State()), now, false, State())
    {
      PruneTerminals(now, false);
    }

    /** The locked section of `shutdown`: every open job is asked to cancel. */
    method Shutdown(now: nat) returns (requested: set<JobId>)
      modifies this
      ensures (State(), requested) == JobModel.Shutdown(old(State()), now)
    {
      ghost var r := State();
      RequestedEnds(r, now);
      shuttingDown := true;
      requested := {};
      var todo := jobs.Keys;
      while todo != {}
        invariant todo <= r.jobs.Keys
        invariant requested == OpenIds(r.jobs) - todo
        invariant shuttingDown && watchRevision == r.watchRevision && tombstones == r.tombstones
        invariant jobs == RequestedBut(r.jobs, now, todo)
        decreases todo
      {
        var id :| id in todo;
        RequestedNext(r.jobs, now, todo, id);
        var rec := jobs[id];
        if rec.state == Starting || rec.state == Running {
          jobs := jobs[id := RequestCancel(rec, now)];
          requested := requested + {id};
        }
        todo := todo - {id};
      }
      if requested != {} {
        watchRevision := watchRevision + 1;
      }
    }
  }

  // ------------------------------------------------------------- reporter

  /** A worker's handle to exactly one job. */
  class JobReporter {
    const registry: LiveJobRegistry
    const jobId: JobId
    var terminalReported: bool

    constructor (registry: LiveJobRegistry, jobId: JobId)
      ensures this.registry == registry && this.jobId == jobId && !terminalReported
    {
      this.registry := registry;
      this.jobId := jobId;
      terminalReported := false;
    }

    method SetRecord(rec: JobRecord)
      modifies registry
      ensures registry.State() == WithRecord(old(registry.State()), jobId, rec)
    {
      registry.jobs := registry.jobs[jobId := rec];
      registry.watchRevision := registry.watchRevision + 1;
    }

    method MarkRunning(now: nat) returns (answer: ReportResult)
      modifies this, registry
      ensures ReporterOutcome(registry.State(), terminalReported, answer)
           == JobModel.MarkRunning(old(registry.State()), jobId, old(terminalReported), now)
    {
      if terminalReported {
        return Refused(StaleReporter);
      }
      if jobId !in registry.jobs {
        return Refused(NotFound);
      }
      var rec := registry.jobs[jobId];
      if rec.state != Starting {
        return Refused(InvalidTransition(rec.state));
      }
      SetRecord(rec.(state := Running, updatedAt := now, revision := rec.revision + 1));
      answer := Reported;
    }

    method ReportProgress(progress: Progress, now: nat) returns (answer: ReportResult)
      modifies this, registry
      ensures ReporterOutcome(registry.State(), terminalReported, answer)
           == JobModel.ReportProgress(old(registry.State()), jobId, old(terminalReported), progress, now)
    {
      if terminalReported {
        return Refused(StaleReporter);
      }
      if jobId !in registry.jobs {
        return Refused(NotFound);
      }
      var rec := registry.jobs[jobId];
      if rec.state.IsTerminal() {
        return Refused(InvalidTransition(rec.state));
      }
      SetRecord(rec.(progress := Some(progress), updatedAt := now, revision := rec.revision + 1));
      answer := Reported;
    }

    method AppendDiagnostic(d: Diagnostic, now: nat) returns (answer: ReportResult)
      modifies this, registry
      ensures ReporterOutcome(registry.State(), terminalReported, answer)
           == JobModel.AppendDiagnostic(old(registry.State()), jobId, old(terminalReported), d, now)
    {
      if terminalReported {
        return Refused(StaleReporter);
      }
      if jobId !in registry.jobs {
        return Refused(NotFound);
      }
      var rec := registry.jobs[jobId];
      if rec.state.IsTerminal() {
        return Refused(InvalidTransition(rec.state));
      }
      var kept, dropped := rec.diagnostics, rec.droppedDiagnostics;
      if |kept| >= MAX_DIAGNOSTIC_ENTRIES {
        kept, dropped := kept[1..], dropped + 1;
      }
      SetRecord(rec.(diagnostics := kept + [d], droppedDiagnostics := dropped,
                     updatedAt := now, revision := rec.revision + 1));
      answer := Reported;
    }

    /** A result that arrives while the job is Cancelling is dropped. */
    method Succeed(value: Payload, now: nat) returns (answer: ReportResult)
      modifies this, registry
      ensures ReporterOutcome(registry.State(), terminalReported, answer)
           == JobModel.Succeed(old(registry.State()), jobId, value, now)
    {
      terminalReported := true;
      if jobId !in registry.jobs {
        return Refused(NotFound);
      }
      var rec := registry.jobs[jobId];
      if rec.state.IsTerminal() {
        terminalReported := false;
        return Refused(TerminalConflict);
      }
      if rec.state == Cancelling {
        SetRecord(rec.(state := Cancelled, terminalAt := Some(now), updatedAt := now, revision := rec.revision + 1));
        return Reported;
      }
      SetRecord(rec.(state := Succeeded, result := Some(value), terminalAt := Some(now),
                     updatedAt := now, revision := rec.revision + 1));
      answer := Reported;
    }

    method Fail(category: JobFailureCategory, now: nat) returns (answer: ReportResult)
      modifies this, registry
      ensures ReporterOutcome(registry.State(), terminalReported, answer)
           == JobModel.Fail(old(registry.State()), jobId, category, now)
    {
      terminalReported := true;
      if jobId !in registry.jobs {
        return Refused(NotFound);
      }
      var rec := registry.jobs[jobId];
      if rec.state.IsTerminal() {
        terminalReported := false;
        return Refused(TerminalConflict);
      }
      SetRecord(rec.(state := Failed, failureCategory := Some(category), terminalAt := Some(now),
                     updatedAt := now, revision := rec.revision + 1));
      answer := Reported;
    }

    method ReportCancelled(now: nat) returns (answer: ReportResult)
      modifies this, registry
      ensures ReporterOutcome(registry.State(), terminalReported, answer)
           == JobModel.ReportCancelled(old(registry.State()), jobId, now)
    {
      terminalReported := true;
      if jobId !in registry.jobs {
        return Refused(NotFound);
      }
      var rec := registry.jobs[jobId];
      if rec.state.IsTerminal() {
        terminalReported := false;
        return Refused(TerminalConflict);
      }
      if rec.state != Cancelling {
        terminalReported := false;
        return Refused(InvalidTransition(rec.state));
      }
      SetRecord(rec.(state := Cancelled, terminalAt := Some(now), updatedAt := now, revision := rec.revision + 1));
      answer := Reported;
    }

    /** Dropping the handle terminates a job that is still active. */
    method Drop()
      modifies registry
      ensures registry.State() == DropReporter(old(registry.State()), jobId, terminalReported)
    {
      if terminalReported || jobId !in registry.jobs {
        return;
      }
      var rec := registry.jobs[jobId];
      if rec.state.IsTerminal() {
        return;
      }
      if rec.state == Cancelling {
        SetRecord(rec.(state := Cancelled, terminalAt := Some(rec.updatedAt), revision := rec.revision + 1));
      } else {
        SetRecord(rec.(state := Failed, failureCategory := Some(WorkerAbandoned),
                       terminalAt := Some(rec.updatedAt), revision := rec.revision + 1));
      }
    }
  }
}
