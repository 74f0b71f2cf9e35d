/** What every call answers and writes, told from the history of the run. */
module JobAnswers {
  import opened Prelude
  import opened JobModel
  import opened JobRuns
  import opened JobPruning
  import opened JobSafety
  import opened JobTheorems

  // ---------------------------------------------------------------- clients

  /** A `collect` evicts nothing. */
  lemma CollectKeepsRecords(r: Registry, now: nat, pruned: Registry)
    requires Pruned(r, now, false, pruned)
    ensures pruned.jobs.Keys == r.jobs.Keys
  {
    forall id | id in r.jobs
      ensures id in pruned.jobs
    {
      if id !in pruned.jobs {
        EvictionNeedsExcess(r, now, false, pruned, id);
      }
    }
  }

  /** All five answers of `collect`, in every run, from what happened: a value was
      accepted, met a cancellation, was collected, was lost, or is over its time. */
  lemma CollectAnswers(ws: seq<World>, ops: seq<Op>, k: nat, id: JobId, now: nat, pruned: Registry)
    requires Run(ws, ops) && k < |ws| && Pruned(ws[k].reg, now, false, pruned)
    ensures var w, answer := ws[k], Collect(pruned, id).1;
            if id !in w.reg.jobs then answer == if id in w.reg.tombstones then ResultExpired else JobNotFound
            else if id !in w.hist.accepted || WasDropped(w, id) then answer == NotSucceeded
            else if WasCollected(w, id) then answer == AlreadyCollected
            else if WasLost(w, id) || Monus(now, w.hist.accepted[id].at) >= TERMINAL_TTL_MS then answer == ResultExpired
            else answer == Collected(w.hist.accepted[id].value)
  {
    RunKeeps(ws, ops, k);
    CollectKeepsRecords(ws[k].reg, now, pruned);
    PrunedEach(ws[k].reg, now, false, pruned, id);
    if id in ws[k].reg.jobs {
      assert JobOk(ws[k], id);
    } else {
      CollectGone(ws[k], id, now, pruned);
    }
  }

  lemma CollectGone(w: World, id: JobId, now: nat, pruned: Registry)
    requires PrunedOne(w.reg, now, pruned, id) && id !in w.reg.jobs
    ensures Collect(pruned, id).1 == if id in w.reg.tombstones then ResultExpired else JobNotFound
  {
  }

  /** The four outcomes of `cancel`, from what had been seen of the job. */
  lemma CancelAnswers(ws: seq<World>, ops: seq<Op>, k: nat, id: JobId, now: nat)
    requires Run(ws, ops) && k < |ws|
    ensures var w := ws[k];
            Cancel(w.reg, id, now).1 ==
            if id !in w.reg.jobs then CancelNotFound
            else if EverTerminal(ws, k, id) then AlreadyTerminal
            else if EverCancelling(ws, k, id) then AlreadyRequested
            else Requested
  {
    RunKeeps(ws, ops, k);
    SeenInRun(ws, ops, k, id);
    assert id in ws[k].reg.jobs ==> JobOk(ws[k], id);
  }

  /** `shutdown` asks exactly the jobs that were never seen Cancelling or terminal. */
  lemma ShutdownAnswers(ws: seq<World>, ops: seq<Op>, k: nat, id: JobId, now: nat)
    requires Run(ws, ops) && k < |ws|
    ensures id in Shutdown(ws[k].reg, now).1 <==>
              id in ws[k].reg.jobs && !EverTerminal(ws, k, id) && !EverCancelling(ws, k, id)
  {
    RunKeeps(ws, ops, k);
    SeenInRun(ws, ops, k, id);
    assert id in ws[k].reg.jobs ==> JobOk(ws[k], id);
  }

  /** Why `admit` refuses: first a shutdown, then an invalid admission, then four
      active jobs, then four slots in use. */
  lemma AdmitRefusals(ws: seq<World>, ops: seq<Op>, k: nat, a: JobAdmission, now: nat, id: JobId, pruned: Registry)
    requires Run(ws, ops) && k < |ws| && Enabled(ws[k], OpAdmit(a, now, id, pruned))
    ensures var w, answer := ws[k], Admit(ws[k].reg, a, now, id, pruned).1;
            if w.reg.shuttingDown then answer == NotAdmitted(ShuttingDown)
            else if a.authority.AgentTask? then answer == NotAdmitted(UnsupportedAuthoritySource)
            else if a.owner.ProductTask? then answer == NotAdmitted(OwnerAuthorityMismatch)
            else if |ActiveIds(w.reg.jobs)| >= 4 then answer == NotAdmitted(ActiveLimit)
            else if |SlotIds(w.reg.jobs, now) * pruned.jobs.Keys| >= 4 then answer == NotAdmitted(ResultCapacity)
            else answer == Admitted(id)
  {
    PruneMakesRoom(ws[k].reg, now, pruned);
    PrunedReserved(ws[k].reg, now, true, pruned);
    PruneCounts(ws[k].reg, now, true, pruned);
  }

  // --------------------------------------------------------------- eviction

  /** Making room takes the oldest first: no record without an uncollected result
      is kept while a younger one goes, or while an uncollected one goes; and among
      uncollected ones, too, none is kept while a younger one goes. */
  lemma OldestEvictedFirst(r: Registry, now: nat, pruned: Registry, gone: JobId, kept: JobId)
    requires Pruned(r, now, true, pruned)
    requires gone in r.jobs && gone !in pruned.jobs && kept in pruned.jobs && pruned.jobs[kept].state.IsTerminal()
    ensures var a, b := ExpireRecord(r.jobs[gone], now), pruned.jobs[kept];
            var uncollected := (rec: JobRecord) =>
              rec.state == Succeeded && !rec.resultCollected && (rec.result.Some? || rec.resultExpired);
            && (uncollected(a) ==> uncollected(b))
            && (uncollected(a) == uncollected(b) ==> TerminalTime(a) <= TerminalTime(b))
  {
    var mid := ExpireJobs(r.jobs, now);
    assert EvictedNoLater(mid[gone], mid[kept]);
  }

  // --------------------------------------------------------------- reporters

  /** Why a reporter call is refused: its flag, or what the job has come to. */
  lemma ReporterAnswers(ws: seq<World>, ops: seq<Op>, k: nat, op: Op)
    requires Run(ws, ops) && k < |ws| && IsReport(op) && op.id in ws[k].reporters
    ensures var w, answer := ws[k], Report(ws[k], op).answer;
            var ends := op.OpSucceed? || op.OpFail? || op.OpCancelled?;
            if !ends && w.reporters[op.id] then answer == Refused(StaleReporter)
            else if op.id !in w.reg.jobs then answer == Refused(NotFound)
            else if ends && EverTerminal(ws, k, op.id) then answer == Refused(TerminalConflict)
            else if EverTerminal(ws, k, op.id)
                    || (op.OpMarkRunning? && w.reg.jobs[op.id].state != Starting)
                    || (op.OpCancelled? && !EverCancelling(ws, k, op.id))
            then answer == Refused(InvalidTransition(w.reg.jobs[op.id].state))
            else answer == Reported
  {
    RunKeeps(ws, ops, k);
    SeenInRun(ws, ops, k, op.id);
    assert JobOk(ws[k], op.id);
  }

  /** A call that changes the record of its job: an accepted report, a granted
      cancellation, or the drop of a reporter whose job is still active. */
  predicate Writes(w: World, op: Op, id: JobId)
    requires Addressed(w, op)
  {
    id in w.reg.jobs &&
    match op
    case OpCancel(x, now) => x == id && Cancel(w.reg, x, now).1 == Requested
    case OpShutdown(now) => id in Shutdown(w.reg, now).1
    case OpDropReporter(x) => x == id && !w.reporters[x] && w.reg.jobs[x].state.IsActive()
    case _ => IsReport(op) && op.id == id && Report(w, op).answer.Reported?
  }

  function AcceptedAt(op: Op): nat {
    match op
    case OpMarkRunning(_, now) => now
    case OpProgress(_, _, now) => now
    case OpDiagnostic(_, _, now) => now
    case OpSucceed(_, _, now) => now
    case OpFail(_, _, now) => now
    case OpCancelled(_, now) => now
    case OpCancel(_, now) => now
    case OpShutdown(now) => now
    case _ => 0
  }

  /** What a step writes to a record that outlives it, field by field. */
  predicate Written(w: World, op: Op, id: JobId, rec: JobRecord, rec': JobRecord)
    requires Addressed(w, op)
  {
    var writes := Writes(w, op, id);
    var asked := op.OpCancel? || op.OpShutdown?;
    && rec'.kind == rec.kind && rec'.owner == rec.owner && rec'.createdAt == rec.createdAt
    && rec'.revision == rec.revision + (if writes then 1 else 0)
    && rec'.updatedAt == (if writes && IsReport(op) then AcceptedAt(op) else rec.updatedAt)
    && rec'.cancelledAt == (if writes && asked then Some(AcceptedAt(op)) else rec.cancelledAt)
    && rec'.terminalAt == (if rec'.state.IsTerminal() && !rec.state.IsTerminal()
                           then Some(if op.OpDropReporter? then rec.updatedAt else AcceptedAt(op)) else rec.terminalAt)
    && rec'.progress == (if writes && op.OpProgress? then Some(op.progress) else rec.progress)
    && rec'.failureCategory == (if writes && op.OpFail? then Some(op.category)
                                else if writes && op.OpDropReporter? && rec.state != Cancelling then Some(WorkerAbandoned)
                                else rec.failureCategory)
    && (var ds := if writes && op.OpDiagnostic? then rec.diagnostics + [op.diagnostic] else rec.diagnostics;
        var over := Monus(|ds|, MAX_DIAGNOSTIC_ENTRIES);
        |rec.diagnostics| <= MAX_DIAGNOSTIC_ENTRIES ==>
          rec'.diagnostics == ds[over..] && rec'.droppedDiagnostics == rec.droppedDiagnostics + over)
  }

  lemma UpdateWrites(w: World, op: Op)
    requires (op.OpMarkRunning? || op.OpProgress? || op.OpDiagnostic?) && op.id in w.reporters && op.id in w.reg.jobs
    ensures op.id in Report(w, op).reg.jobs && Written(w, op, op.id, w.reg.jobs[op.id], Report(w, op).reg.jobs[op.id])
  {
  }

  lemma EndWrites(w: World, op: Op)
    requires (op.OpSucceed? || op.OpFail? || op.OpCancelled?) && op.id in w.reporters && op.id in w.reg.jobs
    ensures op.id in Report(w, op).reg.jobs && Written(w, op, op.id, w.reg.jobs[op.id], Report(w, op).reg.jobs[op.id])
  {
  }

  lemma ReportWrites(w: World, op: Op, id: JobId)
    requires IsReport(op) && op.id in w.reporters && id in w.reg.jobs
    ensures id in Report(w, op).reg.jobs && Written(w, op, id, w.reg.jobs[id], Report(w, op).reg.jobs[id])
  {
    if op.id != id {
      ReportTouchesOne(w, op, id);
      NothingWritten(w, op, id, w.reg.jobs[id], Report(w, op).reg.jobs[id]);
    } else if op.OpMarkRunning? || op.OpProgress? || op.OpDiagnostic? {
      UpdateWrites(w, op);
    } else {
      EndWrites(w, op);
    }
  }

  lemma ReportTouchesOne(w: World, op: Op, id: JobId)
    requires IsReport(op) && op.id in w.reporters && id in w.reg.jobs && id != op.id
    ensures Report(w, op).reg.jobs.Keys == w.reg.jobs.Keys && Report(w, op).reg.jobs[id] == w.reg.jobs[id]
  {
  }

  lemma OtherWrites(w: World, op: Op, id: JobId)
    requires op.OpDropReporter? || op.OpCancel? || op.OpCallback? || op.OpShutdown?
    requires Addressed(w, op) && id in w.reg.jobs
    ensures Written(w, op, id, w.reg.jobs[id], NextReg(w, op).jobs[id])
  {
    match op
    case OpDropReporter(_) =>
    case OpCancel(_, _) =>
    case OpCallback(_) =>
    case OpShutdown(_) =>
  }

  /** Only the result and its marks differ. */
  predicate Unwritten(rec: JobRecord, rec': JobRecord) {
    rec' == rec.(result := rec'.result, resultCollected := rec'.resultCollected, resultExpired := rec'.resultExpired)
  }

  lemma NothingWritten(w: World, op: Op, id: JobId, rec: JobRecord, rec': JobRecord)
    requires Addressed(w, op) && !Writes(w, op, id) && Unwritten(rec, rec')
    ensures Written(w, op, id, rec, rec')
  {
  }

  lemma AdmitWritesNothing(w: World, op: Op, id: JobId)
    requires Enabled(w, op) && op.OpAdmit? && id in w.reg.jobs && id in NextReg(w, op).jobs && op.id !in w.reg.jobs
    ensures Unwritten(w.reg.jobs[id], NextReg(w, op).jobs[id])
  {
    PrunedEach(w.reg, op.now, true, op.pruned, id);
    AdmitCases(w.reg, op.admission, op.now, op.id, op.pruned);
  }

  lemma CollectWritesNothing(w: World, op: Op, id: JobId)
    requires Enabled(w, op) && op.OpCollect? && id in w.reg.jobs && id in NextReg(w, op).jobs
    ensures Unwritten(w.reg.jobs[id], NextReg(w, op).jobs[id])
  {
    PrunedEach(w.reg, op.now, false, op.pruned, id);
    CollectChangesOne(op.pruned, op.id, id);
  }

  lemma CollectChangesOne(pruned: Registry, x: JobId, id: JobId)
    requires id in Collect(pruned, x).0.jobs
    ensures id in pruned.jobs && Unwritten(pruned.jobs[id], Collect(pruned, x).0.jobs[id])
  {
  }

  lemma PruneWrites(w: World, op: Op, id: JobId)
    requires IdsOk(w) && Enabled(w, op) && (op.OpAdmit? || op.OpCollect? || op.OpPrune?)
    requires id in w.reg.jobs && id in NextReg(w, op).jobs
    ensures Written(w, op, id, w.reg.jobs[id], NextReg(w, op).jobs[id])
  {
    if op.OpAdmit? {
      AdmitWritesNothing(w, op, id);
    } else if op.OpCollect? {
      CollectWritesNothing(w, op, id);
    } else {
      PrunedEach(w.reg, op.now, false, op.pruned, id);
    }
    NothingWritten(w, op, id, w.reg.jobs[id], NextReg(w, op).jobs[id]);
  }

  /** Every step writes to every record it leaves what the call says, and nothing else. */
  lemma StepWrites(w: World, op: Op, id: JobId)
    requires Inv(w) && Enabled(w, op) && id in w.reg.jobs && id in NextReg(w, op).jobs
    ensures Written(w, op, id, w.reg.jobs[id], NextReg(w, op).jobs[id])
  {
    if IsReport(op) {
      ReportWrites(w, op, id);
    } else if op.OpAdmit? || op.OpCollect? || op.OpPrune? {
      PruneWrites(w, op, id);
    } else {
      OtherWrites(w, op, id);
    }
  }

  /** What has been written to a job in the first `k` calls of a run: its last
      progress and all its diagnostics. */
  function Progresses(ws: seq<World>, ops: seq<Op>, k: nat, id: JobId): Option<Progress>
    requires k <= |ops| < |ws| && forall i | 0 <= i < |ops| :: Addressed(ws[i], ops[i])
  {
    if k == 0 then None
    else if Writes(ws[k - 1], ops[k - 1], id) && ops[k - 1].OpProgress? then Some(ops[k - 1].progress)
    else Progresses(ws, ops, k - 1, id)
  }

  function Diagnosed(ws: seq<World>, ops: seq<Op>, k: nat, id: JobId): seq<Diagnostic>
    requires k <= |ops| < |ws| && forall i | 0 <= i < |ops| :: Addressed(ws[i], ops[i])
  {
    if k == 0 then []
    else if Writes(ws[k - 1], ops[k - 1], id) && ops[k - 1].OpDiagnostic? then
      Diagnosed(ws, ops, k - 1, id) + [ops[k - 1].diagnostic]
    else Diagnosed(ws, ops, k - 1, id)
  }

  /** A job's record shows its last accepted progress and its last 64 accepted
      diagnostics, in order, and counts the earlier ones. */
  predicate ShowsReports(rec: JobRecord, progress: Option<Progress>, diagnostics: seq<Diagnostic>) {
    var over := Monus(|diagnostics|, MAX_DIAGNOSTIC_ENTRIES);
    rec.progress == progress && rec.diagnostics == diagnostics[over..] && rec.droppedDiagnostics == over
  }

  lemma ShowsMore(w: World, op: Op, id: JobId, rec: JobRecord, rec': JobRecord, progress: Option<Progress>,
                  diagnostics: seq<Diagnostic>)
    requires Addressed(w, op) && Written(w, op, id, rec, rec') && ShowsReports(rec, progress, diagnostics)
    ensures ShowsReports(rec', if Writes(w, op, id) && op.OpProgress? then Some(op.progress) else progress,
                         if Writes(w, op, id) && op.OpDiagnostic? then diagnostics + [op.diagnostic] else diagnostics)
  {
    var over := Monus(|diagnostics|, MAX_DIAGNOSTIC_ENTRIES);
    if Writes(w, op, id) && op.OpDiagnostic? {
      assert diagnostics[over..] + [op.diagnostic] == (diagnostics + [op.diagnostic])[over..];
    }
  }

  lemma {:induction false} NothingBefore(ws: seq<World>, ops: seq<Op>, k: nat, id: JobId)
    requires Run(ws, ops) && k <= |ops| && id !in ws[k].hist.ids
    ensures Progresses(ws, ops, k, id) == None && Diagnosed(ws, ops, k, id) == []
  {
    if k > 0 {
      LogObservesNothing(ws[k - 1], ops[k - 1]);
      JobIdsKnown(ws, ops, k - 1);
      NothingBefore(ws, ops, k - 1, id);
    }
  }

  /** A record appears by an admission only, and shows what was admitted and when. */
  lemma AdmittedFresh(w: World, op: Op, id: JobId)
    requires IdsOk(w) && Enabled(w, op) && id !in w.reg.jobs && id in NextReg(w, op).jobs
    ensures op.OpAdmit? && op.id == id && NextReg(w, op).jobs[id] == NewRecord(op.admission, op.now)
  {
    NewKeys(w, op);
    AdmitCases(w.reg, op.admission, op.now, op.id, op.pruned);
  }

  lemma NewKeys(w: World, op: Op)
    requires IdsOk(w) && Enabled(w, op)
    ensures NextReg(w, op).jobs.Keys <= w.reg.jobs.Keys || op.OpAdmit?
    ensures op.OpAdmit? || op.OpCollect? || op.OpPrune? ==> op.pruned.jobs.Keys <= w.reg.jobs.Keys
  {
    if IsReport(op) {
      ReportMoves(w, op, op.id);
    } else if op.OpDropReporter? || op.OpCancel? || op.OpCallback? || op.OpShutdown? {
      OtherMoves(w, op, JobId(0));
    } else if op.OpCollect? {
      CollectKeys(op.pruned, op.id);
    }
  }

  lemma CollectKeys(pruned: Registry, id: JobId)
    ensures Collect(pruned, id).0.jobs.Keys == pruned.jobs.Keys
  {
  }

  /** What a new record shows. */
  lemma NewShows(a: JobAdmission, now: nat)
    ensures var rec := NewRecord(a, now);
            && rec.kind == a.kind && rec.owner == a.owner && rec.state == Starting && rec.revision == 1
            && rec.createdAt == now && rec.updatedAt == now && ShowsReports(rec, None, [])
  {
  }

  lemma {:induction false} RecordShowsReports(ws: seq<World>, ops: seq<Op>, k: nat, id: JobId)
    requires Run(ws, ops) && k < |ws| && id in ws[k].reg.jobs
    ensures ShowsReports(ws[k].reg.jobs[id], Progresses(ws, ops, k, id), Diagnosed(ws, ops, k, id))
  {
    if k == 0 {
      return;
    }
    RunKeeps(ws, ops, k - 1);
    if id in ws[k - 1].reg.jobs {
      RecordShowsReports(ws, ops, k - 1, id);
    } else {
      RunMoves(ws, ops, k - 1, id);
      NothingBefore(ws, ops, k - 1, id);
    }
    RecordShowsNext(ws[k - 1], ops[k - 1], id, Progresses(ws, ops, k - 1, id), Diagnosed(ws, ops, k - 1, id));
  }

  lemma RecordShowsNext(w: World, op: Op, id: JobId, progress: Option<Progress>, diagnostics: seq<Diagnostic>)
    requires Inv(w) && Enabled(w, op) && id in NextReg(w, op).jobs
    requires if id in w.reg.jobs then ShowsReports(w.reg.jobs[id], progress, diagnostics)
             else progress == None && diagnostics == []
    ensures ShowsReports(NextReg(w, op).jobs[id], if Writes(w, op, id) && op.OpProgress? then Some(op.progress) else progress,
                         if Writes(w, op, id) && op.OpDiagnostic? then diagnostics + [op.diagnostic] else diagnostics)
  {
    if id in w.reg.jobs {
      StepWrites(w, op, id);
      ShowsMore(w, op, id, w.reg.jobs[id], NextReg(w, op).jobs[id], progress, diagnostics);
    } else {
      AdmittedFresh(w, op, id);
      NewShows(op.admission, op.now);
    }
  }

  /** A reporter's flag is set by a terminal report that was accepted or found no
      job, taken back by one that was refused otherwise, and left alone by the rest. */
  lemma FlagTells(w: World, op: Op)
    requires IsReport(op) && op.id in w.reporters
    ensures var ends := op.OpSucceed? || op.OpFail? || op.OpCancelled?;
            var out := Report(w, op);
            out.terminalReported == if ends then out.answer == Reported || out.answer == Refused(NotFound) else w.reporters[op.id]
  {
  }

  /** Watchers are told, once, of every call that wrote to some record or admitted one. */
  lemma WatchCounts(w: World, op: Op)
    requires Enabled(w, op)
    ensures var told := (op.OpAdmit? && Admit(w.reg, op.admission, op.now, op.id, op.pruned).1.Admitted?)
                        || exists id :: Writes(w, op, id);
            NextReg(w, op).watchRevision == w.reg.watchRevision + if told then 1 else 0
  {
    if IsReport(op) {
      ReportWatched(w, op);
    } else if op.OpShutdown? {
      ShutdownWatched(w, op.now);
    } else if op.OpAdmit? || op.OpCollect? || op.OpPrune? {
      assert forall id :: !Writes(w, op, id);
      PruneWatched(w, op);
    } else {
      CallWatched(w, op);
    }
  }

  lemma ReportWatched(w: World, op: Op)
    requires IsReport(op) && op.id in w.reporters
    ensures NextReg(w, op).watchRevision == w.reg.watchRevision + if exists id :: Writes(w, op, id) then 1 else 0
  {
    assert Writes(w, op, op.id) <==> exists id :: Writes(w, op, id);
  }

  lemma CallWatched(w: World, op: Op)
    requires Addressed(w, op) && (op.OpDropReporter? || op.OpCancel? || op.OpCallback?)
    ensures NextReg(w, op).watchRevision == w.reg.watchRevision + if exists id :: Writes(w, op, id) then 1 else 0
  {
    if !op.OpCallback? {
      assert Writes(w, op, op.id) <==> exists id :: Writes(w, op, id);
    }
  }

  lemma ShutdownWatched(w: World, now: nat)
    ensures var op := OpShutdown(now);
            NextReg(w, op).watchRevision == w.reg.watchRevision + if exists id :: Writes(w, op, id) then 1 else 0
  {
    var op := OpShutdown(now);
    if OpenIds(w.reg.jobs) != {} {
      var id :| id in OpenIds(w.reg.jobs);
      assert Writes(w, op, id);
    }
  }

  lemma PruneWatched(w: World, op: Op)
    requires Enabled(w, op) && (op.OpAdmit? || op.OpCollect? || op.OpPrune?)
    ensures NextReg(w, op).watchRevision == w.reg.watchRevision
            + if op.OpAdmit? && Admit(w.reg, op.admission, op.now, op.id, op.pruned).1.Admitted? then 1 else 0
  {
    assert op.pruned.watchRevision == w.reg.watchRevision;
    if op.OpAdmit? {
      AdmitWatched(w.reg, op.admission, op.now, op.id, op.pruned);
    } else if op.OpCollect? {
      CollectWatched(op.pruned, op.id);
    }
  }

  lemma AdmitWatched(r: Registry, a: JobAdmission, now: nat, id: JobId, pruned: Registry)
    requires pruned.watchRevision == r.watchRevision
    ensures var (r', answer) := Admit(r, a, now, id, pruned); r'.watchRevision == r.watchRevision + if answer.Admitted? then 1 else 0
  {
  }

  lemma CollectWatched(pruned: Registry, id: JobId)
    ensures Collect(pruned, id).0.watchRevision == pruned.watchRevision
  {
  }
}
