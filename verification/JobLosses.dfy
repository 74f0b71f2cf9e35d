/** Which lost results leave a tombstone: as many as there is room for. */
module JobLosses {
  import opened Prelude
  import opened JobModel
  import opened JobRuns
  import opened JobPruning
  import opened JobSafety
  import opened JobTheorems

  /** The accepted results that expired or were evicted uncollected. */
  function LostIds(w: World): set<JobId> {
    set id | id in w.hist.accepted && WasLost(w, id)
  }

  /** Tombstones stand for lost results, and for all of them until there are 128. */
  ghost predicate TombstonesFill(w: World) {
    w.reg.tombstones <= LostIds(w) && |w.reg.tombstones| == Min(|LostIds(w)|, MAX_TERMINAL_JOBS)
  }

  lemma TombstonesLost(w: World)
    requires Inv(w)
    ensures w.reg.tombstones <= LostIds(w)
  {
    forall id | id in w.reg.tombstones
      ensures id in LostIds(w)
    {
      assert JobOk(w, id);
    }
  }

  /** Filling a set of lost ids up to the limit. */
  lemma Fill(before: set<JobId>, lost: set<JobId>, wanted: set<JobId>, after: set<JobId>)
    requires before <= lost && |before| == Min(|lost|, MAX_TERMINAL_JOBS)
    requires Tombstoned(before, wanted, after)
    ensures |after| == Min(|lost + wanted|, MAX_TERMINAL_JOBS)
  {
    SubsetSize(before, after);
    SubsetSize(after, lost + wanted);
    SubsetSize(lost, lost + wanted);
    if |lost| <= MAX_TERMINAL_JOBS {
      SameSize(before, lost);
    }
  }

  lemma SameSize(a: set<JobId>, b: set<JobId>)
    requires a <= b && |a| == |b|
    ensures a == b
  {
    assert b == a + (b - a);
  }

  // --------------------------------------------------- steps that lose nothing

  /** What a step that neither expires nor evicts does to what is lost: nothing. */
  lemma LosesNothing(w: World, w': World, added: set<JobId>)
    requires forall x | x in added :: x in w.reg.jobs && !w.reg.jobs[x].resultExpired
    requires w'.hist.accepted.Keys == w.hist.accepted.Keys + added
    requires w'.reg.jobs.Keys == w.reg.jobs.Keys && w'.hist.collected == w.hist.collected
    requires forall x | x in w.reg.jobs :: w'.reg.jobs[x].resultExpired == w.reg.jobs[x].resultExpired
    requires w'.hist.entered == w.hist.entered + CancellingIds(w'.reg.jobs)
    ensures LostIds(w') == LostIds(w)
  {
    forall x
      ensures x in LostIds(w') <==> x in LostIds(w)
    {
      assert x !in w'.reg.jobs ==> (x in w'.hist.entered <==> x in w.hist.entered);
    }
  }

  predicate SameExpired(r: Registry, r': Registry) {
    && r'.jobs.Keys == r.jobs.Keys && r'.tombstones == r.tombstones
    && forall x | x in r.jobs :: r'.jobs[x].resultExpired == r.jobs[x].resultExpired
  }

  /** The one new acceptance of a reporter call, if there is one. */
  function Accepting(w: World, op: Op): set<JobId>
    requires IsReport(op) && op.id in w.reporters
  {
    if op.OpSucceed? && Report(w, op).answer.Reported? then {op.id} else {}
  }

  lemma ReportExpiresNothing(w: World, op: Op)
    requires IsReport(op) && op.id in w.reporters && (op.id in w.reg.jobs ==> RecordOk(w.reg.jobs[op.id]))
    ensures SameExpired(w.reg, Report(w, op).reg)
    ensures forall x | x in Accepting(w, op) :: x in w.reg.jobs && !w.reg.jobs[x].resultExpired
  {
  }

  lemma ReportLogged(w: World, op: Op)
    requires IsReport(op) && op.id in w.reporters
    ensures var h := NextLog(w, op);
            && h.accepted.Keys == w.hist.accepted.Keys + Accepting(w, op)
            && h.collected == w.hist.collected && h.entered == w.hist.entered
  {
  }

  lemma ReportLosesNothing(w: World, op: Op)
    requires Inv(w) && IsReport(op) && op.id in w.reporters
    ensures LostIds(Step(w, op)) == LostIds(w) && Step(w, op).reg.tombstones == w.reg.tombstones
  {
    assert JobOk(w, op.id);
    ReportExpiresNothing(w, op);
    ReportLogged(w, op);
    LosesNothing(w, Step(w, op), Accepting(w, op));
  }

  lemma OtherExpiresNothing(w: World, op: Op)
    requires op.OpDropReporter? || op.OpCancel? || op.OpCallback? || op.OpShutdown?
    requires Addressed(w, op)
    ensures SameExpired(w.reg, NextReg(w, op))
    ensures var h := NextLog(w, op);
            h.accepted == w.hist.accepted && h.collected == w.hist.collected && h.entered == w.hist.entered
  {
    match op
    case OpDropReporter(_) =>
    case OpCancel(_, _) =>
    case OpCallback(_) =>
    case OpShutdown(_) =>
  }

  lemma OtherLosesNothing(w: World, op: Op)
    requires op.OpDropReporter? || op.OpCancel? || op.OpCallback? || op.OpShutdown?
    requires Addressed(w, op)
    ensures LostIds(Step(w, op)) == LostIds(w) && Step(w, op).reg.tombstones == w.reg.tombstones
  {
    OtherExpiresNothing(w, op);
    LosesNothing(w, Step(w, op), {});
  }

  // ----------------------------------------------------------------- pruning

  /** The results a pruning expires or evicts. */
  ghost function Losing(r: Registry, now: nat, r': Registry): set<JobId> {
    ExpiringIds(r.jobs, now) + UncollectedAmong(ExpireJobs(r.jobs, now), r.jobs.Keys - r'.jobs.Keys)
  }

  lemma PruneLosesOne(w: World, now: nat, r': Registry, id: JobId)
    requires JobOk(w, id) && PrunedOne(w.reg, now, r', id)
    ensures id in LostIds(AfterPrune(w, now, r')) <==> id in LostIds(w) || id in Losing(w.reg, now, r')
  {
  }

  /** Pruning loses exactly what it expires and what it evicts uncollected. */
  lemma PruneLoses(w: World, now: nat, makeRoom: bool, r': Registry)
    requires Inv(w) && Pruned(w.reg, now, makeRoom, r')
    ensures LostIds(AfterPrune(w, now, r')) == LostIds(w) + Losing(w.reg, now, r')
  {
    forall id
      ensures id in LostIds(AfterPrune(w, now, r')) <==> id in LostIds(w) + Losing(w.reg, now, r')
    {
      PrunedEach(w.reg, now, makeRoom, r', id);
      if id in w.hist.ids {
        assert JobOk(w, id);
        PruneLosesOne(w, now, r', id);
      }
    }
  }

  lemma PruneWants(r: Registry, now: nat, makeRoom: bool, r': Registry)
    requires Pruned(r, now, makeRoom, r')
    ensures Tombstoned(r.tombstones, Losing(r, now, r'), r'.tombstones)
  {
  }

  /** ... and leaves tombstones for it while there is room. */
  lemma PruneFills(w: World, now: nat, makeRoom: bool, r': Registry)
    requires Inv(w) && Pruned(w.reg, now, makeRoom, r')
    ensures LostIds(w) <= LostIds(AfterPrune(w, now, r'))
    ensures TombstonesFill(w) ==> TombstonesFill(AfterPrune(w, now, r'))
  {
    PruneLoses(w, now, makeRoom, r');
    PruneWants(w.reg, now, makeRoom, r');
    PruneKeeps(w, now, makeRoom, r');
    TombstonesLost(AfterPrune(w, now, r'));
    if TombstonesFill(w) {
      Fill(w.reg.tombstones, LostIds(w), Losing(w.reg, now, r'), r'.tombstones);
    }
  }

  lemma AdmittedLosesNothing(w: World, id: JobId, rec: JobRecord)
    requires Inv(w) && id !in w.hist.ids
    ensures LostIds(WithAdmitted(w, id, rec)) == LostIds(w)
  {
  }

  lemma CollectionLosesNothing(w: World, id: JobId)
    requires Inv(w) && id in w.reg.jobs && w.reg.jobs[id].result.Some?
    ensures LostIds(WithCollection(w, id)) == LostIds(w)
  {
    AppendedIds(w.hist.collected, Collection(id, w.reg.jobs[id].result.value));
    assert JobOk(w, id);
  }

  /** What an admission leaves: the pruned world with the new job, that world, or nothing new. */
  lemma AdmitWorld(w: World, a: JobAdmission, now: nat, id: JobId, pruned: Registry)
    requires Inv(w) && id !in w.hist.ids && Pruned(w.reg, now, true, pruned)
    ensures var w', wp := Step(w, OpAdmit(a, now, id, pruned)), AfterPrune(w, now, pruned);
            if Admit(w.reg, a, now, id, pruned).1.Admitted? then w' == WithAdmitted(wp, id, NewRecord(a, now))
            else w' == wp || w' == w.(hist := Tick(w.hist, now))
  {
    StepAdmit(w, a, now, id, pruned);
    AdmitCases(w.reg, a, now, id, pruned);
    PruneKeeps(w, now, true, pruned);
    if Admit(w.reg, a, now, id, pruned).1.Admitted? {
      AdmittedSeen(Tick(w.hist, now), pruned, id, a, now);
    } else {
      SeenAgain(w, now);
    }
  }

  lemma AdmitFills(w: World, a: JobAdmission, now: nat, id: JobId, pruned: Registry)
    requires Inv(w) && id !in w.hist.ids && Pruned(w.reg, now, true, pruned)
    ensures var w' := Step(w, OpAdmit(a, now, id, pruned));
            LostIds(w) <= LostIds(w') && (TombstonesFill(w) ==> TombstonesFill(w'))
  {
    var w', wp := Step(w, OpAdmit(a, now, id, pruned)), AfterPrune(w, now, pruned);
    AdmitWorld(w, a, now, id, pruned);
    PruneKeeps(w, now, true, pruned);
    PruneFills(w, now, true, pruned);
    if w' == w.(hist := Tick(w.hist, now)) {
      SameLosses(w, w');
    } else if w' != wp {
      AdmittedLosesNothing(wp, id, NewRecord(a, now));
    }
  }

  lemma SameLosses(w: World, w': World)
    requires w'.reg == w.reg && w'.hist == w.hist.(clock := w'.hist.clock, monotone := w'.hist.monotone)
    ensures LostIds(w') == LostIds(w)
  {
  }

  lemma CollectFills(w: World, id: JobId, now: nat, pruned: Registry)
    requires Inv(w) && Enabled(w, OpCollect(id, now, pruned))
    ensures var w' := Step(w, OpCollect(id, now, pruned));
            LostIds(w) <= LostIds(w') && (TombstonesFill(w) ==> TombstonesFill(w'))
  {
    var wp := AfterPrune(w, now, pruned);
    PruneKeeps(w, now, false, pruned);
    PruneFills(w, now, false, pruned);
    if Collect(pruned, id).1.Collected? {
      CollectSucceeded(w, id, now, pruned);
      CollectionLosesNothing(wp, id);
    } else {
      CollectRefused(wp, id);
    }
  }

  /** Every step keeps what is lost lost, and the tombstones full. */
  lemma StepFills(w: World, op: Op)
    requires Inv(w) && Enabled(w, op)
    ensures LostIds(w) <= LostIds(Step(w, op)) && (TombstonesFill(w) ==> TombstonesFill(Step(w, op)))
  {
    if IsReport(op) {
      ReportLosesNothing(w, op);
    } else {
      match op
      case OpAdmit(a, now, id, pruned) => AdmitFills(w, a, now, id, pruned);
      case OpCollect(id, now, pruned) => CollectFills(w, id, now, pruned);
      case OpPrune(now, pruned) =>
        PruneKeeps(w, now, false, pruned);
        PruneFills(w, now, false, pruned);
      case _ => OtherLosesNothing(w, op);
    }
  }

  // ------------------------------------------------------------- whole runs

  /** In every state of every run the tombstones are lost results, as many of them
      as were lost or the 128 there is room for. */
  lemma {:induction false} TombstonesCountLosses(ws: seq<World>, ops: seq<Op>, k: nat)
    requires Run(ws, ops) && k < |ws|
    ensures TombstonesFill(ws[k])
  {
    if k > 0 {
      TombstonesCountLosses(ws, ops, k - 1);
      RunKeeps(ws, ops, k - 1);
      StepFills(ws[k - 1], ops[k - 1]);
    }
  }

  /** A lost result has its tombstone, or the tombstones are full. */
  lemma LostLeavesTombstone(ws: seq<World>, ops: seq<Op>, k: nat, id: JobId)
    requires Run(ws, ops) && k < |ws| && id in LostIds(ws[k])
    ensures id in ws[k].reg.tombstones || |ws[k].reg.tombstones| == MAX_TERMINAL_JOBS
  {
    TombstonesCountLosses(ws, ops, k);
    if |ws[k].reg.tombstones| == |LostIds(ws[k])| {
      SameSize(ws[k].reg.tombstones, LostIds(ws[k]));
    }
  }

  lemma {:induction false} LostForGood(ws: seq<World>, ops: seq<Op>, j: nat, k: nat)
    requires Run(ws, ops) && j <= k < |ws|
    ensures LostIds(ws[j]) <= LostIds(ws[k])
    decreases k - j
  {
    if j < k {
      LostForGood(ws, ops, j, k - 1);
      RunKeeps(ws, ops, k - 1);
      StepFills(ws[k - 1], ops[k - 1]);
    }
  }

  /** The tombstones a result finds when it is lost decide for good: it is one of
      them later exactly if it is one then. */
  lemma TombstonedWhenLost(ws: seq<World>, ops: seq<Op>, j: nat, k: nat, id: JobId)
    requires Run(ws, ops) && j <= k < |ws| && id in LostIds(ws[j])
    ensures id in ws[k].reg.tombstones <==> id in ws[j].reg.tombstones
  {
    TombstonesLast(ws, ops, j, k, id);
    LostLeavesTombstone(ws, ops, j, id);
  }

  /** What `collect` answers for a lost result: ResultExpired exactly while its
      record is there or if it has a tombstone, and never a value. */
  lemma LostAnswer(ws: seq<World>, ops: seq<Op>, k: nat, id: JobId, now: nat, pruned: Registry)
    requires Run(ws, ops) && k < |ws| && id in LostIds(ws[k])
    requires Pruned(ws[k].reg, now, false, pruned)
    ensures Collect(pruned, id).1 ==
            if id in ws[k].reg.jobs || id in ws[k].reg.tombstones then ResultExpired else JobNotFound
  {
    RunKeeps(ws, ops, k);
    if id in ws[k].reg.jobs {
      assert JobOk(ws[k], id);
      PrunedEach(ws[k].reg, now, false, pruned, id);
      if id !in pruned.jobs {
        EvictionNeedsExcess(ws[k].reg, now, false, pruned, id);
      }
    } else {
      EvictedAnswer(ws, ops, k, id, now, pruned);
    }
  }

  /** The results lost in one step. */
  function LostInStep(ws: seq<World>, j: nat): set<JobId>
    requires j + 1 < |ws|
  {
    LostIds(ws[j + 1]) - LostIds(ws[j])
  }

  /** Whether a result finds room when it is lost, by the number of losses: while no
      more than 128 have been lost it does, and once 128 were lost before it does not. */
  lemma RoomWhenLost(ws: seq<World>, ops: seq<Op>, j: nat, id: JobId)
    requires Run(ws, ops) && j + 1 < |ws| && id in LostInStep(ws, j)
    ensures |LostIds(ws[j + 1])| <= MAX_TERMINAL_JOBS ==> id in ws[j + 1].reg.tombstones
    ensures |LostIds(ws[j])| >= MAX_TERMINAL_JOBS ==> id !in ws[j + 1].reg.tombstones
  {
    TombstonesCountLosses(ws, ops, j);
    TombstonesCountLosses(ws, ops, j + 1);
    TombstonesLast(ws, ops, j, j + 1, id);
    if |LostIds(ws[j + 1])| <= MAX_TERMINAL_JOBS {
      SameSize(ws[j + 1].reg.tombstones, LostIds(ws[j + 1]));
    }
  }

  /** The promise of ResultExpired: a result lost by step `j` answers so at every
      later collect exactly while its record is there or if it was a tombstone
      then; and JobNotFound otherwise. */
  lemma ExpiredAnswerIff(ws: seq<World>, ops: seq<Op>, j: nat, k: nat, id: JobId, now: nat, pruned: Registry)
    requires Run(ws, ops) && j <= k < |ws| && id in LostIds(ws[j])
    requires Pruned(ws[k].reg, now, false, pruned)
    ensures Collect(pruned, id).1 ==
            if id in ws[k].reg.jobs || id in ws[j].reg.tombstones then ResultExpired else JobNotFound
  {
    LostForGood(ws, ops, j, k);
    TombstonedWhenLost(ws, ops, j, k, id);
    LostAnswer(ws, ops, k, id, now, pruned);
  }

  /** In particular, while fewer than 129 results have been lost every one of them
      answers ResultExpired. */
  lemma FewLossesKept(ws: seq<World>, ops: seq<Op>, k: nat, id: JobId, now: nat, pruned: Registry)
    requires Run(ws, ops) && k < |ws| && id in LostIds(ws[k]) && |LostIds(ws[k])| <= MAX_TERMINAL_JOBS
    requires Pruned(ws[k].reg, now, false, pruned)
    ensures Collect(pruned, id).1 == ResultExpired
  {
    TombstonesCountLosses(ws, ops, k);
    SameSize(ws[k].reg.tombstones, LostIds(ws[k]));
    LostAnswer(ws, ops, k, id, now, pruned);
  }

  /** For a result lost on its own: it answers ResultExpired for ever exactly if
      fewer than 128 results were lost before it, and otherwise only while its
      record is there. */
  lemma LostAlone(ws: seq<World>, ops: seq<Op>, j: nat, k: nat, id: JobId, now: nat, pruned: Registry)
    requires Run(ws, ops) && j < k < |ws| && LostInStep(ws, j) == {id}
    requires Pruned(ws[k].reg, now, false, pruned)
    ensures Collect(pruned, id).1 ==
            if id in ws[k].reg.jobs || |LostIds(ws[j])| < MAX_TERMINAL_JOBS then ResultExpired else JobNotFound
  {
    assert id in LostInStep(ws, j);
    ExpiredAnswerIff(ws, ops, j + 1, k, id, now, pruned);
    RoomWhenLost(ws, ops, j, id);
    LostAloneCount(ws, ops, j, id);
  }

  lemma LostAloneCount(ws: seq<World>, ops: seq<Op>, j: nat, id: JobId)
    requires Run(ws, ops) && j + 1 < |ws| && LostInStep(ws, j) == {id}
    ensures |LostIds(ws[j + 1])| == |LostIds(ws[j])| + 1
  {
    LostForGood(ws, ops, j, j + 1);
    OneMore(LostIds(ws[j]), LostIds(ws[j + 1]), id);
  }

  lemma OneMore(a: set<JobId>, b: set<JobId>, id: JobId)
    requires a <= b && b - a == {id}
    ensures |b| == |a| + 1
  {
    assert b == a + {id};
  }
}
