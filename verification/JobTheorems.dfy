/** What every run of the registry guarantees. */
module JobTheorems {
  import opened Prelude
  import opened JobModel
  import opened JobRuns
  import opened JobPruning
  import opened JobSafety

  // ------------------------------------------------------- what a step does

  /** The transitions the code allows. */
  predicate Allowed(from: JobState, to: JobState) {
    || (from == Starting && to == Running)
    || (from in {Starting, Running} && to in {Succeeded, Failed, Cancelling})
    || (from == Cancelling && to in {Cancelled, Failed})
  }

  /** What one step may do to one job. */
  predicate Moved(r: Registry, r': Registry, id: JobId) {
    && (id in r.jobs && id in r'.jobs ==>
          r'.jobs[id].state == r.jobs[id].state || Allowed(r.jobs[id].state, r'.jobs[id].state))
    && (id in r.jobs && id !in r'.jobs ==> r.jobs[id].state.IsTerminal())
    && (id !in r.jobs && id in r'.jobs ==> r'.jobs[id].state == Starting && !r.shuttingDown)
    && (id in r.tombstones ==> id in r'.tombstones)
    && (r.shuttingDown ==> r'.shuttingDown)
  }

  lemma ReportMoves(w: World, op: Op, x: JobId)
    requires IsReport(op) && op.id in w.reporters
    ensures Moved(w.reg, Report(w, op).reg, x)
    ensures Report(w, op).reg.tombstones == w.reg.tombstones
    ensures Report(w, op).reg.jobs.Keys == w.reg.jobs.Keys
  {
  }

  lemma PruneMoves(r: Registry, now: nat, makeRoom: bool, r': Registry, x: JobId)
    requires Pruned(r, now, makeRoom, r')
    ensures Moved(r, r', x) && r'.jobs.Keys <= r.jobs.Keys
    ensures |r.tombstones| >= MAX_TERMINAL_JOBS ==> r'.tombstones == r.tombstones
  {
    PrunedEach(r, now, makeRoom, r', x);
    PruneTombstones(r, now, makeRoom, r');
    PrunedMoves(r, now, r', x);
  }

  lemma PrunedMoves(r: Registry, now: nat, r': Registry, x: JobId)
    requires PrunedOne(r, now, r', x) && r'.shuttingDown == r.shuttingDown
    ensures Moved(r, r', x)
  {
  }

  lemma CollectMoves(r: Registry, pruned: Registry, id: JobId, x: JobId)
    requires Moved(r, pruned, x) && pruned.jobs.Keys <= r.jobs.Keys
    ensures Moved(r, Collect(pruned, id).0, x)
    ensures Collect(pruned, id).0.tombstones == pruned.tombstones
    ensures Collect(pruned, id).0.jobs.Keys <= r.jobs.Keys
  {
  }

  lemma AdmitMoves(r: Registry, a: JobAdmission, now: nat, id: JobId, pruned: Registry, x: JobId)
    requires Moved(r, pruned, x) && pruned.jobs.Keys <= r.jobs.Keys && id !in r.jobs
    ensures Moved(r, Admit(r, a, now, id, pruned).0, x)
    ensures Admit(r, a, now, id, pruned).0.tombstones in {r.tombstones, pruned.tombstones}
    ensures Admit(r, a, now, id, pruned).0.jobs.Keys <= r.jobs.Keys + {id}
  {
  }

  lemma OtherMoves(w: World, op: Op, x: JobId)
    requires Enabled(w, op) && (op.OpDropReporter? || op.OpCancel? || op.OpCallback? || op.OpShutdown?)
    ensures Moved(w.reg, NextReg(w, op), x)
    ensures NextReg(w, op).tombstones == w.reg.tombstones
    ensures NextReg(w, op).jobs.Keys == w.reg.jobs.Keys
  {
    match op
    case OpDropReporter(_) =>
    case OpCancel(_, _) =>
    case OpCallback(_) =>
    case OpShutdown(_) =>
  }

  /** Every step moves every job along an allowed transition or not at all. */
  lemma StepMoves(w: World, op: Op, x: JobId)
    requires IdsOk(w) && Enabled(w, op)
    ensures Moved(w.reg, NextReg(w, op), x)
    ensures x !in w.reg.jobs && x in NextReg(w, op).jobs ==> x !in w.hist.ids
    ensures |w.reg.tombstones| >= MAX_TERMINAL_JOBS ==> NextReg(w, op).tombstones == w.reg.tombstones
  {
    if IsReport(op) {
      ReportMoves(w, op, x);
    } else {
      match op
      case OpAdmit(a, now, id, pruned) =>
        PruneMoves(w.reg, now, true, pruned, x);
        AdmitMoves(w.reg, a, now, id, pruned, x);
      case OpCollect(id, now, pruned) =>
        PruneMoves(w.reg, now, false, pruned, x);
        CollectMoves(w.reg, pruned, id, x);
      case OpPrune(now, pruned) =>
        PruneMoves(w.reg, now, false, pruned, x);
      case _ =>
        OtherMoves(w, op, x);
    }
  }

  lemma RunMoves(ws: seq<World>, ops: seq<Op>, k: nat, x: JobId)
    requires Run(ws, ops) && k < |ops|
    ensures Moved(ws[k].reg, ws[k + 1].reg, x)
    ensures x !in ws[k].reg.jobs && x in ws[k + 1].reg.jobs ==> x !in ws[k].hist.ids
    ensures |ws[k].reg.tombstones| >= MAX_TERMINAL_JOBS ==> ws[k + 1].reg.tombstones == ws[k].reg.tombstones
  {
    RunKeeps(ws, ops, k);
    StepMoves(ws[k], ops[k], x);
  }

  // ------------------------------------------------- history means history

  ghost predicate EverCancelling(ws: seq<World>, k: nat, id: JobId)
    requires k < |ws|
  {
    exists j | 0 <= j <= k :: id in CancellingIds(ws[j].reg.jobs)
  }

  ghost predicate EverTerminal(ws: seq<World>, k: nat, id: JobId)
    requires k < |ws|
  {
    exists j | 0 <= j <= k :: id in TerminalIds(ws[j].reg.jobs)
  }

  lemma EverStep(ws: seq<World>, k: nat, id: JobId)
    requires 0 < k < |ws|
    ensures EverCancelling(ws, k, id) <==> EverCancelling(ws, k - 1, id) || id in CancellingIds(ws[k].reg.jobs)
    ensures EverTerminal(ws, k, id) <==> EverTerminal(ws, k - 1, id) || id in TerminalIds(ws[k].reg.jobs)
  {
  }

  /** The observation sets are exactly what some earlier state of the run showed. */
  lemma {:induction false} SeenInRun(ws: seq<World>, ops: seq<Op>, k: nat, id: JobId)
    requires Run(ws, ops) && k < |ws|
    ensures id in ws[k].hist.entered <==> EverCancelling(ws, k, id)
    ensures id in ws[k].hist.terminated <==> EverTerminal(ws, k, id)
  {
    if k > 0 {
      SeenInRun(ws, ops, k - 1, id);
      EverStep(ws, k, id);
      RunObserves(ws, ops, k - 1);
    }
  }

  lemma RunObserves(ws: seq<World>, ops: seq<Op>, k: nat)
    requires Run(ws, ops) && k < |ops|
    ensures Observed(ws[k], ws[k + 1])
  {
    StepObserves(ws[k], ops[k]);
  }

  predicate Observed(w: World, w': World) {
    && w'.hist.entered == w.hist.entered + CancellingIds(w'.reg.jobs)
    && w'.hist.terminated == w.hist.terminated + TerminalIds(w'.reg.jobs)
  }

  lemma StepObserves(w: World, op: Op)
    requires Addressed(w, op)
    ensures Observed(w, Step(w, op))
  {
    LogObservesNothing(w, op);
  }

  predicate LogGrows(h: History, h': History) {
    h'.entered == h.entered && h'.terminated == h.terminated && h.ids <= h'.ids
  }

  lemma ReportLogGrows(h: History, op: Op, answer: ReportResult)
    requires IsReport(op)
    ensures LogGrows(h, ReportLog(h, op, answer))
  {
  }

  lemma LogObservesNothing(w: World, op: Op)
    requires Addressed(w, op)
    ensures LogGrows(w.hist, NextLog(w, op))
  {
    if IsReport(op) {
      ReportLogGrows(w.hist, op, Report(w, op).answer);
    } else {
      match op
      case OpAdmit(_, _, _, _) =>
      case OpDropReporter(_) =>
      case OpCancel(_, _) =>
      case OpCallback(_) =>
      case OpCollect(_, _, _) =>
      case OpPrune(_, _) =>
      case OpShutdown(_) =>
    }
  }

  // --------------------------------------------------- result conservation

  predicate IsHeld(w: World, id: JobId) {
    id in w.reg.jobs && w.reg.jobs[id].result.Some?
  }

  predicate WasCollected(w: World, id: JobId) { id in CollectedIds(w.hist.collected) }

  /** Expired in place, or evicted without having been collected. */
  predicate WasLost(w: World, id: JobId) {
    if id in w.reg.jobs then w.reg.jobs[id].resultExpired
    else id !in w.hist.entered && !WasCollected(w, id)
  }

  /** The job had been cancelled when its result arrived. */
  predicate WasDropped(w: World, id: JobId) { id in w.hist.entered }

  function Count(b: bool): nat { if b then 1 else 0 }

  /** A value accepted by `succeed` has exactly one fate, and a held value is the accepted one. */
  lemma ExactlyOneFate(ws: seq<World>, ops: seq<Op>, k: nat, id: JobId)
    requires Run(ws, ops) && k < |ws| && id in ws[k].hist.accepted
    ensures var w := ws[k];
            Count(IsHeld(w, id)) + Count(WasCollected(w, id)) + Count(WasLost(w, id)) + Count(WasDropped(w, id)) == 1
    ensures IsHeld(ws[k], id) ==> ws[k].reg.jobs[id].result.value == ws[k].hist.accepted[id].value
    ensures ws[k].hist.monotone && WasLost(ws[k], id) ==>
              ws[k].hist.accepted[id].at + TERMINAL_TTL_MS <= ws[k].hist.clock
  {
    RunKeeps(ws, ops, k);
    assert JobOk(ws[k], id);
  }

  /** Nothing but an accepted value is ever held. */
  lemma HeldWasAccepted(ws: seq<World>, ops: seq<Op>, k: nat, id: JobId)
    requires Run(ws, ops) && k < |ws| && IsHeld(ws[k], id)
    ensures id in ws[k].hist.accepted && ws[k].reg.jobs[id].result.value == ws[k].hist.accepted[id].value
  {
    RunKeeps(ws, ops, k);
    assert JobOk(ws[k], id);
  }

  /** `collect` answers Ok at most once per id, with that job's own value. */
  lemma CollectedOnce(ws: seq<World>, ops: seq<Op>, k: nat, i: nat, j: nat)
    requires Run(ws, ops) && k < |ws| && i < j < |ws[k].hist.collected|
    ensures var log := ws[k].hist.collected;
            log[i].id != log[j].id && log[j].id in ws[k].hist.accepted
            && log[j].value == ws[k].hist.accepted[log[j].id].value
  {
    RunKeeps(ws, ops, k);
  }

  /** `collect` right after the pruning inside the call, for a job of the registry. */
  lemma CollectPresent(w: World, id: JobId, now: nat, pruned: Registry)
    requires JobOk(w, id) && PrunedOne(w.reg, now, pruned, id) && id in w.reg.jobs
    requires w.hist.monotone && w.hist.clock <= now
    requires ExpireRecord(w.reg.jobs[id], now).result.Some? ==> id in pruned.jobs
    ensures Collect(pruned, id).1.Collected? <==>
              && id in w.hist.accepted && id !in w.hist.entered && id !in CollectedIds(w.hist.collected)
              && now < w.hist.accepted[id].at + TERMINAL_TTL_MS
    ensures Collect(pruned, id).1.Collected? ==> Collect(pruned, id).1.value == w.hist.accepted[id].value
  {
  }

  /** Under a clock that does not go back, `collect` answers Ok exactly while the
      result is accepted, not lost to a cancellation, not collected and younger
      than the time to live. */
  lemma CollectAnswersOk(ws: seq<World>, ops: seq<Op>, k: nat, id: JobId, now: nat, pruned: Registry)
    requires Run(ws, ops) && k < |ws| && ws[k].hist.monotone && ws[k].hist.clock <= now
    requires Pruned(ws[k].reg, now, false, pruned)
    ensures var h := ws[k].hist;
            Collect(pruned, id).1.Collected? <==>
              && id in h.accepted && id !in h.entered && id !in CollectedIds(h.collected)
              && now < h.accepted[id].at + TERMINAL_TTL_MS
    ensures Collect(pruned, id).1.Collected? ==> Collect(pruned, id).1.value == ws[k].hist.accepted[id].value
  {
    var w := ws[k];
    RunKeeps(ws, ops, k);
    PrunedEach(w.reg, now, false, pruned, id);
    if id in w.reg.jobs {
      assert JobOk(w, id);
      if ExpireRecord(w.reg.jobs[id], now).result.Some? {
        PruneKeepsHeld(w, now, false, pruned, id);
      }
      CollectPresent(w, id, now, pruned);
    } else if id in w.hist.ids {
      assert JobOk(w, id);
    }
  }

  /** Whatever the clock does, `collect` answers Ok exactly for a result that was
      accepted and met no other fate, and is younger than the time to live. */
  lemma CollectAnswersEver(ws: seq<World>, ops: seq<Op>, k: nat, id: JobId, now: nat, pruned: Registry)
    requires Run(ws, ops) && k < |ws| && Pruned(ws[k].reg, now, false, pruned)
    ensures var w := ws[k];
            Collect(pruned, id).1.Collected? <==>
              && id in w.hist.accepted && !WasDropped(w, id) && !WasCollected(w, id) && !WasLost(w, id)
              && Monus(now, w.hist.accepted[id].at) < TERMINAL_TTL_MS
    ensures Collect(pruned, id).1.Collected? ==> Collect(pruned, id).1.value == ws[k].hist.accepted[id].value
  {
    var w := ws[k];
    RunKeeps(ws, ops, k);
    PrunedEach(w.reg, now, false, pruned, id);
    if id in w.reg.jobs {
      assert JobOk(w, id);
      if id !in pruned.jobs {
        EvictionNeedsExcess(w.reg, now, false, pruned, id);
      }
    } else if id in w.hist.ids {
      assert JobOk(w, id);
    }
  }

  /** Once an id is a tombstone it stays one; the set never outgrows its limit,
      and once full it never changes again. */
  lemma {:induction false} TombstonesLast(ws: seq<World>, ops: seq<Op>, j: nat, k: nat, id: JobId)
    requires Run(ws, ops) && j <= k < |ws|
    ensures id in ws[j].reg.tombstones ==> id in ws[k].reg.tombstones
    ensures |ws[j].reg.tombstones| >= MAX_TERMINAL_JOBS ==> ws[k].reg.tombstones == ws[j].reg.tombstones
    ensures |ws[k].reg.tombstones| <= MAX_TERMINAL_JOBS
    decreases k - j
  {
    if j < k {
      TombstonesLast(ws, ops, j, k - 1, id);
      RunMoves(ws, ops, k - 1, id);
    }
    RunKeeps(ws, ops, k);
  }

  /** A tombstoned id answers ResultExpired to every later `collect`. */
  lemma TombstoneAnswers(ws: seq<World>, ops: seq<Op>, j: nat, k: nat, id: JobId, now: nat, pruned: Registry)
    requires Run(ws, ops) && j <= k < |ws| && id in ws[j].reg.tombstones
    requires Pruned(ws[k].reg, now, false, pruned)
    ensures Collect(pruned, id).1 == ResultExpired
  {
    TombstonesLast(ws, ops, j, k, id);
    RunKeeps(ws, ops, k);
    assert JobOk(ws[k], id);
    PrunedEach(ws[k].reg, now, false, pruned, id);
  }

  /** The tombstone promise has a limit: an evicted result that expired answers
      ResultExpired exactly if it found room among the tombstones, and is
      otherwise forgotten. */
  lemma EvictedAnswer(ws: seq<World>, ops: seq<Op>, k: nat, id: JobId, now: nat, pruned: Registry)
    requires Run(ws, ops) && k < |ws| && id in ws[k].hist.ids && id !in ws[k].reg.jobs
    requires Pruned(ws[k].reg, now, false, pruned)
    ensures Collect(pruned, id).1 == if id in ws[k].reg.tombstones then ResultExpired else JobNotFound
  {
    PrunedEach(ws[k].reg, now, false, pruned, id);
  }

  // --------------------------------------------------------- cancellation

  /** At every moment each job's callback has run or is about to run exactly once
      if some state so far showed the job Cancelling, and never otherwise. */
  lemma CallbackExactlyOnce(ws: seq<World>, ops: seq<Op>, k: nat, id: JobId)
    requires Run(ws, ops) && k < |ws|
    ensures var h := ws[k].hist;
            h.pending[id] + h.ran[id]
            == Count(EverCancelling(ws, k, id))
  {
    SeenInRun(ws, ops, k, id);
    RunKeeps(ws, ops, k);
    var h := ws[k].hist;
    assert (h.pending + h.ran)[id] == multiset(h.entered)[id];
  }

  /** A job that was ever Cancelling is never Succeeded later, and no result of it is ever held or collected. */
  lemma CancelledNeverSucceeds(ws: seq<World>, ops: seq<Op>, j: nat, k: nat, id: JobId)
    requires Run(ws, ops) && j <= k < |ws| && id in CancellingIds(ws[j].reg.jobs)
    ensures id in ws[k].reg.jobs ==> ws[k].reg.jobs[id].state in {Cancelling, Cancelled, Failed}
    ensures !IsHeld(ws[k], id) && !WasCollected(ws[k], id)
  {
    SeenInRun(ws, ops, k, id);
    RunKeeps(ws, ops, k);
    if id in ws[k].hist.ids {
      assert JobOk(ws[k], id);
    }
  }

  lemma {:induction false} IdsPersist(ws: seq<World>, ops: seq<Op>, j: nat, k: nat, id: JobId)
    requires Run(ws, ops) && j <= k < |ws| && id in ws[j].hist.ids
    ensures id in ws[k].hist.ids
    decreases k - j
  {
    if j < k {
      IdsPersist(ws, ops, j, k - 1, id);
      LogObservesNothing(ws[k - 1], ops[k - 1]);
    }
  }

  lemma JobIdsKnown(ws: seq<World>, ops: seq<Op>, k: nat)
    requires Run(ws, ops) && k < |ws|
    ensures ws[k].reg.jobs.Keys <= ws[k].hist.ids
  {
    RunKeeps(ws, ops, k);
  }

  /** A terminal state is never left: later the job is in it still, or gone for good. */
  lemma {:induction false} TerminalAbsorbing(ws: seq<World>, ops: seq<Op>, j: nat, k: nat, id: JobId)
    requires Run(ws, ops) && j <= k < |ws| && id in TerminalIds(ws[j].reg.jobs)
    ensures id in ws[k].reg.jobs ==> ws[k].reg.jobs[id].state == ws[j].reg.jobs[id].state
    decreases k - j
  {
    if j < k {
      TerminalAbsorbing(ws, ops, j, k - 1, id);
      RunMoves(ws, ops, k - 1, id);
      JobIdsKnown(ws, ops, j);
      IdsPersist(ws, ops, j, k - 1, id);
    }
  }

  /** After a shutdown no job is Starting or Running, none is added, and none newly succeeds. */
  lemma {:induction false} AfterShutdown(ws: seq<World>, ops: seq<Op>, j: nat, k: nat, id: JobId)
    requires Run(ws, ops) && j <= k < |ws| && ws[j].reg.shuttingDown
    ensures ws[k].reg.shuttingDown && OpenIds(ws[k].reg.jobs) == {}
    ensures id in ws[k].reg.jobs ==> id in ws[j].reg.jobs
    ensures id in ws[k].reg.jobs && ws[k].reg.jobs[id].state == Succeeded ==> ws[j].reg.jobs[id].state == Succeeded
    decreases k - j
  {
    RunKeeps(ws, ops, k);
    if j < k {
      AfterShutdown(ws, ops, j, k - 1, id);
      RunMoves(ws, ops, k - 1, id);
      if id in ws[k - 1].reg.jobs {
        assert id !in OpenIds(ws[k - 1].reg.jobs);
      }
    }
  }

  // -------------------------------------------------------------- capacity

  /** Jobs that hold a slot at time `now`: active, or with a result that has not expired by then. */
  function SlotIds(jobs: map<JobId, JobRecord>, now: nat): set<JobId> {
    set id | id in jobs && (jobs[id].state.IsActive() || ExpireRecord(jobs[id], now).result.Some?)
  }

  lemma CapacityBounds(ws: seq<World>, ops: seq<Op>, k: nat)
    requires Run(ws, ops) && k < |ws|
    ensures var jobs := ws[k].reg.jobs;
            |ActiveIds(jobs)| <= MAX_ACTIVE_JOBS
            && |ActiveIds(jobs) + HeldIds(jobs)| <= MAX_UNCOLLECTED_RESULT_SLOTS
            && |jobs| <= 131 && Excess(jobs, true) <= 4
  {
    RunKeeps(ws, ops, k);
    var jobs := ws[k].reg.jobs;
    assert ActiveIds(jobs) + HeldIds(jobs) == ReservedIds(jobs);
    SubsetSize(ActiveIds(jobs), ReservedIds(jobs));
    SubsetSize(TerminalIds(jobs), jobs.Keys);
  }

  /** `admit` never runs out of terminal capacity, whatever the clock does. */
  lemma NeverTerminalCapacity(ws: seq<World>, ops: seq<Op>, k: nat, a: JobAdmission, now: nat, id: JobId, pruned: Registry)
    requires Run(ws, ops) && k < |ws| && Enabled(ws[k], OpAdmit(a, now, id, pruned))
    ensures Admit(ws[k].reg, a, now, id, pruned).1 != NotAdmitted(TerminalCapacity)
  {
    PruneMakesRoom(ws[k].reg, now, pruned);
  }

  lemma PruneMakesRoom(r: Registry, now: nat, pruned: Registry)
    requires Pruned(r, now, true, pruned)
    ensures |TerminalIds(pruned.jobs)| < MAX_TERMINAL_JOBS
  {
    PruneCounts(r, now, true, pruned);
  }

  /** After pruning, exactly the slots that were really in use are reserved. */
  lemma PrunedSlots(w: World, now: nat, makeRoom: bool, pruned: Registry)
    requires Inv(w) && w.hist.monotone && w.hist.clock <= now
    requires Pruned(w.reg, now, makeRoom, pruned)
    ensures ReservedIds(pruned.jobs) == SlotIds(w.reg.jobs, now)
    ensures ActiveIds(pruned.jobs) == ActiveIds(w.reg.jobs)
  {
    PruneCounts(w.reg, now, makeRoom, pruned);
    forall id | id in w.reg.jobs
      ensures id in ReservedIds(pruned.jobs) <==> id in SlotIds(w.reg.jobs, now)
    {
      PrunedEach(w.reg, now, makeRoom, pruned, id);
      if ExpireRecord(w.reg.jobs[id], now).result.Some? {
        PruneKeepsHeld(w, now, makeRoom, pruned, id);
      }
    }
    assert pruned.jobs.Keys <= w.reg.jobs.Keys;
  }

  lemma AllocateAnswer(r: Registry, a: JobAdmission, now: nat, id: JobId)
    requires |TerminalIds(r.jobs)| < MAX_TERMINAL_JOBS
    ensures Allocate(r, a, now, id).1.Admitted? <==> |ReservedIds(r.jobs)| < MAX_UNCOLLECTED_RESULT_SLOTS
  {
    assert ActiveIds(r.jobs) <= ReservedIds(r.jobs);
    SubsetSize(ActiveIds(r.jobs), ReservedIds(r.jobs));
  }

  /** The answer of `admit`, for every run under a clock that does not go back: it
      succeeds exactly if the registry is open, the admission is valid, and fewer
      than four slots are held by active jobs or unexpired results. */
  lemma AdmitAnswer(ws: seq<World>, ops: seq<Op>, k: nat, a: JobAdmission, now: nat, id: JobId, pruned: Registry)
    requires Run(ws, ops) && k < |ws| && ws[k].hist.monotone && ws[k].hist.clock <= now
    requires Enabled(ws[k], OpAdmit(a, now, id, pruned))
    ensures Admit(ws[k].reg, a, now, id, pruned).1.Admitted? <==>
              && !ws[k].reg.shuttingDown
              && a.authority.DirectUserAction? && a.owner.DirectProductAction?
              && |SlotIds(ws[k].reg.jobs, now)| < MAX_UNCOLLECTED_RESULT_SLOTS
  {
    RunKeeps(ws, ops, k);
    PrunedSlots(ws[k], now, true, pruned);
    PruneMakesRoom(ws[k].reg, now, pruned);
    AllocateAnswer(pruned, a, now, id);
  }

  /** Pruning frees the slots of expired and of evicted results, and no others. */
  lemma PrunedReserved(r: Registry, now: nat, makeRoom: bool, pruned: Registry)
    requires Pruned(r, now, makeRoom, pruned)
    ensures ReservedIds(pruned.jobs) == SlotIds(r.jobs, now) * pruned.jobs.Keys
  {
    forall id
      ensures id in ReservedIds(pruned.jobs) <==> id in SlotIds(r.jobs, now) && id in pruned.jobs
    {
      PrunedEach(r, now, makeRoom, pruned, id);
    }
  }

  /** Whatever the clock does, `admit` succeeds exactly if the registry is open, the
      admission is valid, and fewer than four slots are held by active jobs or
      unexpired results that pruning leaves. */
  lemma AdmitAnswersEver(ws: seq<World>, ops: seq<Op>, k: nat, a: JobAdmission, now: nat, id: JobId, pruned: Registry)
    requires Run(ws, ops) && k < |ws| && Enabled(ws[k], OpAdmit(a, now, id, pruned))
    ensures Admit(ws[k].reg, a, now, id, pruned).1.Admitted? <==>
              && !ws[k].reg.shuttingDown
              && a.authority.DirectUserAction? && a.owner.DirectProductAction?
              && |SlotIds(ws[k].reg.jobs, now) * pruned.jobs.Keys| < MAX_UNCOLLECTED_RESULT_SLOTS
  {
    PrunedReserved(ws[k].reg, now, true, pruned);
    PruneMakesRoom(ws[k].reg, now, pruned);
    AllocateAnswer(pruned, a, now, id);
  }

  /** Making room never evicts a success that is uncollected and unexpired. */
  lemma MakingRoomKeepsLiveResults(ws: seq<World>, ops: seq<Op>, k: nat, now: nat, pruned: Registry, id: JobId)
    requires Run(ws, ops) && k < |ws| && ws[k].hist.monotone && ws[k].hist.clock <= now
    requires Pruned(ws[k].reg, now, true, pruned)
    requires IsHeld(ws[k], id) && now < ws[k].reg.jobs[id].terminalAt.GetOr(0) + TERMINAL_TTL_MS
    ensures id in pruned.jobs && pruned.jobs[id] == ws[k].reg.jobs[id]
  {
    RunKeeps(ws, ops, k);
    assert JobOk(ws[k], id);
    PruneKeepsHeld(ws[k], now, true, pruned, id);
    PrunedEach(ws[k].reg, now, true, pruned, id);
  }

  // ---------------------------------------------------------- leaked slots

  /** Every active job has a live reporter that has not reported a terminal state. */
  lemma ActiveJobsHaveReporters(ws: seq<World>, ops: seq<Op>, k: nat)
    requires Run(ws, ops) && k < |ws|
    ensures ActiveIds(ws[k].reg.jobs) <= set id | id in ws[k].reporters && !ws[k].reporters[id]
  {
    RunKeeps(ws, ops, k);
    forall id | id in ActiveIds(ws[k].reg.jobs)
      ensures id in ws[k].reporters && !ws[k].reporters[id]
    {
      assert JobOk(ws[k], id);
    }
  }

  /** A reporter whose flag is set, or whose job is not found, has a job that was terminal. */
  lemma StaleOnlyAfterTerminal(ws: seq<World>, ops: seq<Op>, k: nat, id: JobId)
    requires Run(ws, ops) && k < |ws| && id in ws[k].reporters
    requires ws[k].reporters[id] || id !in ws[k].reg.jobs
    ensures EverTerminal(ws, k, id) && id !in ActiveIds(ws[k].reg.jobs)
  {
    RunKeeps(ws, ops, k);
    SeenInRun(ws, ops, k, id);
    assert JobOk(ws[k], id);
  }

  /** A step that drops a reporter leaves its job terminal or evicted. */
  lemma DropTerminates(w: World, id: JobId)
    requires Inv(w) && id in w.reporters
    ensures id in Step(w, OpDropReporter(id)).hist.terminated
  {
    assert JobOk(w, id);
  }

  lemma {:induction false} TerminatedPersists(ws: seq<World>, ops: seq<Op>, j: nat, k: nat, id: JobId)
    requires Run(ws, ops) && j <= k < |ws| && id in ws[j].hist.terminated
    ensures id in ws[k].hist.terminated
    decreases k - j
  {
    if j < k {
      TerminatedPersists(ws, ops, j, k - 1, id);
      RunObserves(ws, ops, k - 1);
    }
  }

  /** After its reporter is dropped a job is never active again. */
  lemma DroppedReporterFreesSlot(ws: seq<World>, ops: seq<Op>, j: nat, k: nat, id: JobId)
    requires Run(ws, ops) && j < k < |ws| && ops[j] == OpDropReporter(id)
    ensures id !in ActiveIds(ws[k].reg.jobs)
  {
    RunKeeps(ws, ops, j);
    DropTerminates(ws[j], id);
    TerminatedPersists(ws, ops, j + 1, k, id);
    RunKeeps(ws, ops, k);
    assert id in ws[k].reg.jobs ==> JobOk(ws[k], id);
  }
}
