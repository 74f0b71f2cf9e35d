/** Runs of the registry: any interleaving of clients, reporters and the
    cancellation callbacks that run outside the lock. */
module JobRuns {
  import opened Prelude
  import opened JobModel

  datatype Acceptance = Acceptance(value: Payload, at: nat)
  datatype Collection = Collection(id: JobId, value: Payload)

  /** What an outside observer of the calls and their answers could record. */
  datatype History = History(
    clock: nat,                           // time of the last timed call
    monotone: bool,                       // no timed call went back in time
    ids: set<JobId>,                      // every id ever issued
    accepted: map<JobId, Acceptance>,     // `succeed` answered Ok
    collected: seq<Collection>,           // every Ok answer of `collect`, in order
    entered: set<JobId>,                  // jobs that were ever seen Cancelling
    terminated: set<JobId>,               // jobs that were ever seen terminal
    pending: multiset<JobId>,             // callbacks taken out of the lock, not yet run
    ran: multiset<JobId>)                 // callbacks run

  datatype World = World(reg: Registry, reporters: map<JobId, bool>, hist: History)

  /** A call, with what the environment chooses: the time, the fresh id, and
      the registry that the pruning inside the call leaves. */
  datatype Op =
    | OpAdmit(admission: JobAdmission, now: nat, id: JobId, pruned: Registry)
    | OpMarkRunning(id: JobId, now: nat)
    | OpProgress(id: JobId, progress: Progress, now: nat)
    | OpDiagnostic(id: JobId, diagnostic: Diagnostic, now: nat)
    | OpSucceed(id: JobId, value: Payload, now: nat)
    | OpFail(id: JobId, category: JobFailureCategory, now: nat)
    | OpCancelled(id: JobId, now: nat)
    | OpDropReporter(id: JobId)
    | OpCancel(id: JobId, now: nat)
    | OpCallback(id: JobId)
    | OpCollect(id: JobId, now: nat, pruned: Registry)
    | OpPrune(now: nat, pruned: Registry)
    | OpShutdown(now: nat)

  const START := World(EMPTY_REGISTRY, map[], History(0, true, {}, map[], [], {}, {}, multiset{}, multiset{}))

  function CollectedIds(log: seq<Collection>): set<JobId> { set c | c in log :: c.id }

  /** A reporter call comes from a reporter that is still alive. */
  predicate Addressed(w: World, op: Op) {
    IsReport(op) || op.OpDropReporter? ==> op.id in w.reporters
  }

  /** The environment's choices are possible ones. */
  ghost predicate Enabled(w: World, op: Op) {
    && Addressed(w, op)
    && match op
       case OpAdmit(_, now, id, pruned) => id !in w.hist.ids && Pruned(w.reg, now, true, pruned)
       case OpCallback(id) => id in w.hist.pending
       case OpCollect(_, now, pruned) => Pruned(w.reg, now, false, pruned)
       case OpPrune(now, pruned) => Pruned(w.reg, now, false, pruned)
       case _ => true
  }

  function CancellingIds(jobs: map<JobId, JobRecord>): set<JobId> {
    set id | id in jobs && jobs[id].state == Cancelling
  }

  /** Record the states that everyone can now see. */
  function Observe(h: History, reg: Registry): History {
    h.(entered := h.entered + CancellingIds(reg.jobs), terminated := h.terminated + TerminalIds(reg.jobs))
  }

  function Tick(h: History, now: nat): History {
    h.(clock := now, monotone := h.monotone && h.clock <= now)
  }

  function AfterReport(w: World, id: JobId, out: ReporterOutcome, h: History): World {
    World(out.reg, w.reporters[id := out.terminalReported], Observe(h, out.reg))
  }

  /** The locked section of a reporter call. */
  function Report(w: World, op: Op): ReporterOutcome
    requires IsReport(op) && op.id in w.reporters
  {
    match op
    case OpMarkRunning(id, now) => MarkRunning(w.reg, id, w.reporters[id], now)
    case OpProgress(id, p, now) => ReportProgress(w.reg, id, w.reporters[id], p, now)
    case OpDiagnostic(id, d, now) => AppendDiagnostic(w.reg, id, w.reporters[id], d, now)
    case OpSucceed(id, v, now) => Succeed(w.reg, id, v, now)
    case OpFail(id, c, now) => Fail(w.reg, id, c, now)
    case OpCancelled(id, now) => ReportCancelled(w.reg, id, now)
  }

  predicate IsReport(op: Op) {
    op.OpMarkRunning? || op.OpProgress? || op.OpDiagnostic? || op.OpSucceed? || op.OpFail? || op.OpCancelled?
  }

  /** A reporter call in the history: an Ok answer to `succeed` is an acceptance. */
  function ReportLog(h: History, op: Op, answer: ReportResult): History
    requires IsReport(op)
  {
    if op.OpSucceed? && answer.Reported? then
      Tick(h, op.now).(accepted := h.accepted[op.id := Acceptance(op.value, op.now)])
    else Tick(h, op.now)
  }

  /** The registry after the call. */
  function NextReg(w: World, op: Op): Registry
    requires Addressed(w, op)
  {
    if IsReport(op) then Report(w, op).reg
    else
      match op
      case OpAdmit(a, now, id, pruned) => Admit(w.reg, a, now, id, pruned).0
      case OpDropReporter(id) => DropReporter(w.reg, id, w.reporters[id])
      case OpCancel(id, now) => Cancel(w.reg, id, now).0
      case OpCallback(id) => w.reg
      case OpCollect(id, now, pruned) => Collect(pruned, id).0
      case OpPrune(now, pruned) => pruned
      case OpShutdown(now) => Shutdown(w.reg, now).0
  }

  /** The reporters still alive, each with its flag. */
  function NextReporters(w: World, op: Op): map<JobId, bool>
    requires Addressed(w, op)
  {
    if IsReport(op) then w.reporters[op.id := Report(w, op).terminalReported]
    else
      match op
      case OpAdmit(a, now, id, pruned) =>
        if Admit(w.reg, a, now, id, pruned).1.Admitted? then w.reporters[id := false] else w.reporters
      case OpDropReporter(id) => w.reporters - {id}
      case _ => w.reporters
  }

  /** What the caller can add to the history from the call and its answer. */
  function NextLog(w: World, op: Op): History
    requires Addressed(w, op)
  {
    var h := w.hist;
    if IsReport(op) then ReportLog(h, op, Report(w, op).answer)
    else
      match op
      case OpAdmit(a, now, id, pruned) =>
        if Admit(w.reg, a, now, id, pruned).1.Admitted? then Tick(h, now).(ids := h.ids + {id}) else Tick(h, now)
      case OpDropReporter(id) => h
      case OpCancel(id, now) =>
        if Cancel(w.reg, id, now).1 == Requested then h.(pending := h.pending + multiset{id}) else h
      case OpCallback(id) => h.(pending := h.pending - multiset{id}, ran := h.ran + multiset{id})
      case OpCollect(id, now, pruned) =>
        var res := Collect(pruned, id).1;
        if res.Collected? then Tick(h, now).(collected := h.collected + [Collection(id, res.value)]) else Tick(h, now)
      case OpPrune(now, pruned) => Tick(h, now)
      case OpShutdown(now) => h.(pending := h.pending + multiset(Shutdown(w.reg, now).1))
  }

  function Step(w: World, op: Op): World
    requires Addressed(w, op)
  {
    World(NextReg(w, op), NextReporters(w, op), Observe(NextLog(w, op), NextReg(w, op)))
  }

  // ------------------------------------------------------------ invariant

  predicate RecordOk(rec: JobRecord) {
    && (rec.state.IsTerminal() <==> rec.terminalAt.Some?)
    && (rec.result.Some? ==> rec.state == Succeeded && !rec.resultCollected && !rec.resultExpired)
    && (rec.state == Succeeded ==> rec.result.Some? || rec.resultCollected || rec.resultExpired)
    && (rec.resultCollected || rec.resultExpired ==> rec.state == Succeeded)
    && !(rec.resultCollected && rec.resultExpired)
    && |rec.diagnostics| <= MAX_DIAGNOSTIC_ENTRIES
  }

  /** Facts that need a clock that never went back. */
  predicate TimesOk(h: History, id: JobId, rec: JobRecord) {
    && rec.updatedAt <= h.clock
    && (rec.terminalAt.Some? ==> rec.terminalAt.value <= h.clock)
    && (rec.resultExpired ==> TerminalTime(rec) + TERMINAL_TTL_MS <= h.clock)
  }

  predicate PresentOk(w: World, id: JobId, rec: JobRecord) {
    var h := w.hist;
    var collected := CollectedIds(h.collected);
    && RecordOk(rec)
    && (h.monotone ==> TimesOk(h, id, rec))
    && (id in h.terminated <==> rec.state.IsTerminal())
    && (id in h.entered ==> rec.state in {Cancelling, Cancelled, Failed})
    && (rec.state in {Cancelling, Cancelled} ==> id in h.entered)
    && (rec.state.IsActive() ==>
          && id in w.reporters && !w.reporters[id]
          && id !in h.accepted && id !in w.reg.tombstones)
    && (rec.state == Succeeded ==>
          && id in h.accepted && rec.terminalAt == Some(h.accepted[id].at)
          && (rec.result.Some? ==> rec.result.value == h.accepted[id].value))
    && (rec.resultCollected <==> id in collected)
    && (id in w.reg.tombstones ==> rec.resultExpired)
    && (id in h.accepted && rec.state == Failed ==> false)
  }

  predicate AbsentOk(w: World, id: JobId) {
    var h := w.hist;
    && id in h.terminated
    && (h.monotone && id in h.accepted && id !in h.entered && id !in CollectedIds(h.collected) ==>
          h.accepted[id].at + TERMINAL_TTL_MS <= h.clock)
  }

  predicate JobOk(w: World, id: JobId) {
    var h := w.hist;
    && (if id in w.reg.jobs then PresentOk(w, id, w.reg.jobs[id]) else AbsentOk(w, id))
    && (id in w.reporters && w.reporters[id] ==> id in h.terminated)
    && (id in CollectedIds(h.collected) ==> id in h.accepted && id !in h.entered)
    && (id in w.reg.tombstones ==> id in h.accepted && id !in h.entered && id !in CollectedIds(h.collected))
  }

  ghost predicate LogOk(h: History) {
    && (forall i, j | 0 <= i < j < |h.collected| :: h.collected[i].id != h.collected[j].id)
    && (forall i | 0 <= i < |h.collected| ::
          h.collected[i].id in h.accepted && h.collected[i].value == h.accepted[h.collected[i].id].value)
    && h.pending + h.ran == multiset(h.entered)
  }

  ghost predicate CapacityOk(r: Registry) {
    && |ReservedIds(r.jobs)| <= MAX_UNCOLLECTED_RESULT_SLOTS
    && |r.jobs| <= MAX_TERMINAL_JOBS - 1 + MAX_ACTIVE_JOBS
    && |r.tombstones| <= MAX_TERMINAL_JOBS
    && (r.shuttingDown ==> OpenIds(r.jobs) == {})
  }

  ghost predicate IdsOk(w: World) {
    && w.reg.jobs.Keys <= w.hist.ids
    && w.reg.tombstones <= w.hist.ids
    && w.reporters.Keys <= w.hist.ids
    && w.hist.accepted.Keys <= w.hist.ids
    && w.hist.entered <= w.hist.ids
    && w.hist.terminated <= w.hist.ids
  }

  ghost predicate Inv(w: World) {
    && CapacityOk(w.reg)
    && IdsOk(w)
    && LogOk(w.hist)
    && (forall id {:trigger JobOk(w, id)} | id in w.hist.ids :: JobOk(w, id))
  }

  /** What is Cancelling or terminal has been seen so. */
  lemma SeenStates(w: World)
    requires Inv(w)
    ensures CancellingIds(w.reg.jobs) <= w.hist.entered
    ensures TerminalIds(w.reg.jobs) <= w.hist.terminated
    ensures OpenIds(w.reg.jobs) !! w.hist.entered
  {
    forall x | x in w.reg.jobs
      ensures x in CancellingIds(w.reg.jobs) ==> x in w.hist.entered
      ensures x in TerminalIds(w.reg.jobs) ==> x in w.hist.terminated
      ensures x in OpenIds(w.reg.jobs) ==> x !in w.hist.entered
    {
      assert JobOk(w, x);
    }
  }
}
