/** What pruning may take away: never an active job, never a result that is
    still uncollected and unexpired while the clock does not go back. */
module JobPruning {
  import opened Prelude
  import opened JobModel
  import opened JobRuns

  /** Expiry changes no state and no time. */
  lemma ExpiryKeepsStates(jobs: map<JobId, JobRecord>, now: nat)
    ensures TerminalIds(ExpireJobs(jobs, now)) == TerminalIds(jobs)
    ensures ActiveIds(ExpireJobs(jobs, now)) == ActiveIds(jobs)
  {
    var mid := ExpireJobs(jobs, now);
    assert forall id | id in jobs :: mid[id].state == jobs[id].state;
  }

  /** An eviction takes terminal records away and nothing else. */
  lemma EvictionSplits(mid: map<JobId, JobRecord>, jobs': map<JobId, JobRecord>, evicted: set<JobId>)
    requires jobs'.Keys <= mid.Keys && evicted == mid.Keys - jobs'.Keys
    requires forall id | id in jobs' :: jobs'[id] == mid[id]
    ensures TerminalIds(jobs') == TerminalIds(mid) - evicted
    ensures ActiveIds(jobs') == ActiveIds(mid) - evicted
  {
  }

  lemma EvictionSizes(mid: map<JobId, JobRecord>, evicted: set<JobId>)
    requires evicted <= TerminalIds(mid)
    ensures ActiveIds(mid) - evicted == ActiveIds(mid)
    ensures |TerminalIds(mid) - evicted| == |TerminalIds(mid)| - |evicted|
  {
    assert TerminalIds(mid) == (TerminalIds(mid) - evicted) + evicted;
  }

  /** What is left after pruning, counted. */
  lemma PruneCounts(r: Registry, now: nat, makeRoom: bool, r': Registry)
    requires Pruned(r, now, makeRoom, r')
    ensures TerminalIds(r'.jobs) <= TerminalIds(r.jobs)
    ensures |TerminalIds(r'.jobs)| == |TerminalIds(r.jobs)| - Excess(r.jobs, makeRoom)
    ensures ActiveIds(r'.jobs) == ActiveIds(r.jobs)
  {
    var mid := ExpireJobs(r.jobs, now);
    var evicted := r.jobs.Keys - r'.jobs.Keys;
    ExpiryKeepsStates(r.jobs, now);
    EvictionSplits(mid, r'.jobs, evicted);
    EvictionSizes(mid, evicted);
  }

  /** A record that could be kept while a held result goes: a result held too, or
      one that has expired though it ended no earlier. */
  predicate Outlives(r: Registry, now: nat, live: JobId, b: JobId)
    requires live in r.jobs && b in r.jobs
  {
    var rec := ExpireRecord(r.jobs[b], now);
    rec.resultExpired && TerminalTime(r.jobs[live]) <= TerminalTime(rec)
  }

  lemma KeptAfterLive(r: Registry, now: nat, live: JobId, b: JobId)
    requires live in r.jobs && ExpireRecord(r.jobs[live], now).result.Some? && RecordOk(r.jobs[live])
    requires b in r.jobs && r.jobs[b].state.IsTerminal() && RecordOk(r.jobs[b])
    requires EvictedNoLater(ExpireRecord(r.jobs[live], now), ExpireRecord(r.jobs[b], now))
    ensures b in ReservedIds(r.jobs) || Outlives(r, now, live, b)
  {
  }

  /** Whatever the clock does, a held result that has not expired is evicted only
      while a result that ended no earlier is kept although that one has expired. */
  lemma EvictedLive(w: World, now: nat, makeRoom: bool, r': Registry, live: JobId) returns (b: JobId)
    requires Inv(w) && Pruned(w.reg, now, makeRoom, r')
    requires live in w.reg.jobs && ExpireRecord(w.reg.jobs[live], now).result.Some? && live !in r'.jobs
    ensures b in r'.jobs && b in w.reg.jobs && Outlives(w.reg, now, live, b)
  {
    var mid := ExpireJobs(w.reg.jobs, now);
    PruneCounts(w.reg, now, makeRoom, r');
    ExpiryKeepsStates(w.reg.jobs, now);
    EvictionNeedsExcess(w.reg, now, makeRoom, r', live);
    if TerminalIds(r'.jobs) <= ReservedIds(w.reg.jobs) {
      SubsetSize(TerminalIds(r'.jobs), ReservedIds(w.reg.jobs));
      assert false;
    }
    b :| b in TerminalIds(r'.jobs) && b !in ReservedIds(w.reg.jobs);
    assert EvictedNoLater(mid[live], mid[b]);
    assert JobOk(w, live) && JobOk(w, b);
    KeptAfterLive(w.reg, now, live, b);
  }

  /** Under a clock that never went back, pruning evicts no held result. */
  lemma PruneKeepsHeld(w: World, now: nat, makeRoom: bool, r': Registry, live: JobId)
    requires Inv(w) && w.hist.monotone && w.hist.clock <= now
    requires Pruned(w.reg, now, makeRoom, r')
    requires live in w.reg.jobs && ExpireRecord(w.reg.jobs[live], now).result.Some?
    ensures live in r'.jobs
  {
    if live !in r'.jobs {
      var b := EvictedLive(w, now, makeRoom, r', live);
      NoneOutlives(w, now, live, b);
    }
  }

  lemma NoneOutlives(w: World, now: nat, live: JobId, b: JobId)
    requires Inv(w) && w.hist.monotone && w.hist.clock <= now
    requires live in w.reg.jobs && ExpireRecord(w.reg.jobs[live], now).result.Some? && b in w.reg.jobs
    ensures !Outlives(w.reg, now, live, b)
  {
    assert JobOk(w, live) && JobOk(w, b);
  }

  lemma EvictionNeedsExcess(r: Registry, now: nat, makeRoom: bool, r': Registry, id: JobId)
    requires Pruned(r, now, makeRoom, r')
    requires id in r.jobs && id !in r'.jobs
    ensures makeRoom && |TerminalIds(r.jobs)| >= MAX_TERMINAL_JOBS
  {
    ExpiryKeepsStates(r.jobs, now);
    assert id in r.jobs.Keys - r'.jobs.Keys;
  }

  // ------------------------------------------------ pruning keeps the invariant

  /** Pruning, seen from one job. */
  predicate PrunedOne(r: Registry, now: nat, r': Registry, id: JobId) {
    && (id in r'.jobs ==> id in r.jobs && r'.jobs[id] == ExpireRecord(r.jobs[id], now))
    && (id in r.jobs && id !in r'.jobs ==> r.jobs[id].state.IsTerminal())
    && (id in r.tombstones ==> id in r'.tombstones)
    && (id in r'.tombstones && id !in r.tombstones ==>
          id in r.jobs && HasUncollected(ExpireRecord(r.jobs[id], now))
          && (id in r'.jobs ==> r'.jobs[id].resultExpired))
  }

  lemma PrunedEach(r: Registry, now: nat, makeRoom: bool, r': Registry, id: JobId)
    requires Pruned(r, now, makeRoom, r')
    ensures PrunedOne(r, now, r', id)
  {
    ExpiryKeepsStates(r.jobs, now);
    var mid := ExpireJobs(r.jobs, now);
    if id in r'.jobs {
      assert r'.jobs[id] == mid[id];
    }
    if id in r.jobs && id !in r'.jobs {
      assert id in r.jobs.Keys - r'.jobs.Keys;
    }
  }

  lemma PruneReserved(r: Registry, now: nat, r': Registry)
    requires forall id | id in r'.jobs :: PrunedOne(r, now, r', id)
    ensures ReservedIds(r'.jobs) <= ReservedIds(r.jobs)
    ensures OpenIds(r'.jobs) <= OpenIds(r.jobs)
    ensures CancellingIds(r'.jobs) <= CancellingIds(r.jobs)
    ensures TerminalIds(r'.jobs) <= TerminalIds(r.jobs)
    ensures r'.jobs.Keys <= r.jobs.Keys
  {
    forall id | id in r'.jobs
      ensures id in r.jobs && r'.jobs[id].state == r.jobs[id].state
      ensures r'.jobs[id].result.Some? ==> r.jobs[id].result.Some?
    {
      assert PrunedOne(r, now, r', id);
    }
  }

  lemma PruneCapacity(r: Registry, now: nat, makeRoom: bool, r': Registry)
    requires CapacityOk(r) && Pruned(r, now, makeRoom, r')
    ensures CapacityOk(r')
    ensures r'.tombstones <= r.jobs.Keys + r.tombstones
  {
    forall id | id in r'.jobs
      ensures PrunedOne(r, now, r', id)
    {
      PrunedEach(r, now, makeRoom, r', id);
    }
    PruneReserved(r, now, r');
    SubsetSize(ReservedIds(r'.jobs), ReservedIds(r.jobs));
    SubsetSize(r'.jobs.Keys, r.jobs.Keys);
    PruneTombstones(r, now, makeRoom, r');
  }

  /** Tombstones persist, stay within their limit, are frozen once full, and new
      ones stand for jobs there were. */
  lemma PruneTombstones(r: Registry, now: nat, makeRoom: bool, r': Registry)
    requires Pruned(r, now, makeRoom, r')
    ensures r.tombstones <= r'.tombstones <= r.jobs.Keys + r.tombstones && r'.shuttingDown == r.shuttingDown
    ensures |r.tombstones| <= MAX_TERMINAL_JOBS ==> |r'.tombstones| <= MAX_TERMINAL_JOBS
    ensures |r.tombstones| >= MAX_TERMINAL_JOBS ==> r'.tombstones == r.tombstones
  {
    var mid, evicted := ExpireJobs(r.jobs, now), r.jobs.Keys - r'.jobs.Keys;
    TombstonesGrow(r.tombstones, ExpiringIds(r.jobs, now) + UncollectedAmong(mid, evicted), r'.tombstones);
  }

  lemma TombstonesGrow(before: set<JobId>, wanted: set<JobId>, after: set<JobId>)
    requires Tombstoned(before, wanted, after)
    ensures |before| <= MAX_TERMINAL_JOBS ==> |after| <= MAX_TERMINAL_JOBS
    ensures |before| >= MAX_TERMINAL_JOBS ==> after == before
  {
    assert after == before + (after - before);
  }

  function AfterPrune(w: World, now: nat, r': Registry): World {
    World(r', w.reporters, Tick(w.hist, now))
  }

  /** Pruning shows no state that was not seen before. */
  lemma PruneSeen(w: World, now: nat, r': Registry)
    requires Inv(w)
    requires forall id | id in r'.jobs :: PrunedOne(w.reg, now, r', id)
    ensures Observe(Tick(w.hist, now), r') == Tick(w.hist, now)
  {
    PruneReserved(w.reg, now, r');
    SeenStates(w);
  }

  lemma PrunePresent(w: World, now: nat, r': Registry, id: JobId)
    requires JobOk(w, id) && PrunedOne(w.reg, now, r', id) && id in r'.jobs
    ensures JobOk(AfterPrune(w, now, r'), id)
  {
  }

  lemma PruneAbsent(w: World, now: nat, r': Registry, id: JobId)
    requires JobOk(w, id) && PrunedOne(w.reg, now, r', id) && id !in r'.jobs
    requires w.hist.monotone && w.hist.clock <= now && id in w.reg.jobs ==>
               ExpireRecord(w.reg.jobs[id], now).result == None
    ensures JobOk(AfterPrune(w, now, r'), id)
  {
  }

  lemma PruneKeeps(w: World, now: nat, makeRoom: bool, r': Registry)
    requires Inv(w) && Pruned(w.reg, now, makeRoom, r')
    ensures Inv(AfterPrune(w, now, r'))
    ensures Observe(Tick(w.hist, now), r') == Tick(w.hist, now)
  {
    var w' := AfterPrune(w, now, r');
    PruneCapacity(w.reg, now, makeRoom, r');
    forall id | id in w.hist.ids
      ensures PrunedOne(w.reg, now, r', id) && JobOk(w', id)
    {
      PrunedEach(w.reg, now, makeRoom, r', id);
      assert JobOk(w, id);
      if id in r'.jobs {
        PrunePresent(w, now, r', id);
      } else {
        if w.hist.monotone && w.hist.clock <= now && id in w.reg.jobs && ExpireRecord(w.reg.jobs[id], now).result.Some? {
          PruneKeepsHeld(w, now, makeRoom, r', id);
        }
        PruneAbsent(w, now, r', id);
      }
    }
    PruneSeen(w, now, r');
  }
}
