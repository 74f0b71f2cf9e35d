/** The live job registry as a transition system: one function or relation per
    locked section. Identifiers, progress values and results are opaque. */
module JobModel {
  import opened Prelude

  const MAX_ACTIVE_JOBS: nat := 4
  const MAX_UNCOLLECTED_RESULT_SLOTS: nat := 4
  const MAX_TERMINAL_JOBS: nat := 128
  const TERMINAL_TTL_MS: nat := 5 * 60 * 1000
  const MAX_DIAGNOSTIC_ENTRIES: nat := 64

  datatype JobId = JobId(uuid: nat)
  type Progress = int
  type Payload = int
  type Diagnostic = int

  datatype JobKind = ActionGuideVideoImport
  datatype JobOwner = DirectProductAction(operationNonce: nat) | ProductTask(taskRef: nat)
  datatype JobAuthoritySource = DirectUserAction | AgentTask(taskRef: nat)
  datatype JobAdmission = JobAdmission(kind: JobKind, owner: JobOwner, authority: JobAuthoritySource)

  datatype JobState = Starting | Running | Cancelling | Succeeded | Failed | Cancelled {
    predicate IsTerminal() { Succeeded? || Failed? || Cancelled? }
    predicate IsActive() { Starting? || Running? || Cancelling? }
  }

  datatype JobFailureCategory =
    | ProbeFailed | MissingVideoStream | InvalidVideoMetadata | DecoderUnavailable | DecodeFailed
    | EvidenceMissing | ScratchIo | ResourceLimit | WorkerAbandoned | WorkerPanic

  datatype JobRecord = JobRecord(
    kind: JobKind,
    owner: JobOwner,
    state: JobState,
    progress: Option<Progress>,
    failureCategory: Option<JobFailureCategory>,
    result: Option<Payload>,
    resultCollected: bool,
    resultExpired: bool,
    revision: nat,
    createdAt: nat,
    updatedAt: nat,
    terminalAt: Option<nat>,
    cancelledAt: Option<nat>,
    diagnostics: seq<Diagnostic>,
    droppedDiagnostics: nat)

  datatype Registry = Registry(
    jobs: map<JobId, JobRecord>,
    shuttingDown: bool,
    watchRevision: nat,
    tombstones: set<JobId>)

  datatype JobAdmissionError =
    | OwnerAuthorityMismatch | UnsupportedAuthoritySource | ShuttingDown
    | ActiveLimit | TerminalCapacity | ResultCapacity
  datatype AdmitResult = Admitted(id: JobId) | NotAdmitted(error: JobAdmissionError)

  datatype JobCancelOutcome = Requested | AlreadyRequested | AlreadyTerminal | CancelNotFound

  datatype CollectResult =
    | Collected(value: Payload) | JobNotFound | NotSucceeded | AlreadyCollected | ResultExpired

  datatype JobTransitionError =
    | NotFound | StaleReporter | InvalidTransition(from: JobState) | TerminalConflict
  datatype ReportResult = Reported | Refused(error: JobTransitionError)

  /** What a reporter call leaves: the registry, its own flag, and its answer. */
  datatype ReporterOutcome = ReporterOutcome(reg: Registry, terminalReported: bool, answer: ReportResult)

  const EMPTY_REGISTRY := Registry(map[], false, 0, {})

  // ---------------------------------------------------------------- views

  function TerminalTime(rec: JobRecord): nat { rec.terminalAt.GetOr(rec.createdAt) }

  predicate HasUncollected(rec: JobRecord) {
    rec.state == Succeeded && (rec.result.Some? || rec.resultExpired) && !rec.resultCollected
  }

  function ActiveIds(jobs: map<JobId, JobRecord>): set<JobId> {
    set id | id in jobs && jobs[id].state.IsActive()
  }

  function TerminalIds(jobs: map<JobId, JobRecord>): set<JobId> {
    set id | id in jobs && jobs[id].state.IsTerminal()
  }

  function HeldIds(jobs: map<JobId, JobRecord>): set<JobId> {
    set id | id in jobs && jobs[id].result.Some?
  }

  /** Active jobs plus results not yet collected. */
  function ReservedIds(jobs: map<JobId, JobRecord>): set<JobId> {
    set id | id in jobs && (jobs[id].state.IsActive() || jobs[id].result.Some?)
  }

  // -------------------------------------------------------------- pruning

  predicate Expires(rec: JobRecord, now: nat) {
    && rec.state.IsTerminal()
    && Monus(now, TerminalTime(rec)) >= TERMINAL_TTL_MS
    && rec.state == Succeeded && rec.result.Some? && !rec.resultCollected
  }

  function ExpireRecord(rec: JobRecord, now: nat): JobRecord {
    if Expires(rec, now) then rec.(result := None, resultExpired := true) else rec
  }

  function ExpireJobs(jobs: map<JobId, JobRecord>, now: nat): map<JobId, JobRecord> {
    map id | id in jobs :: ExpireRecord(jobs[id], now)
  }

  function ExpiringIds(jobs: map<JobId, JobRecord>, now: nat): set<JobId> {
    set id | id in jobs && Expires(jobs[id], now)
  }

  /** The order in which making room gives records up: everything without an
      uncollected result first, and oldest first within each class. */
  predicate EvictedNoLater(a: JobRecord, b: JobRecord) {
    || (!HasUncollected(a) && HasUncollected(b))
    || (HasUncollected(a) == HasUncollected(b) && TerminalTime(a) <= TerminalTime(b))
  }

  function Excess(jobs: map<JobId, JobRecord>, makeRoom: bool): nat {
    var n := |TerminalIds(jobs)|;
    if makeRoom && n >= MAX_TERMINAL_JOBS then n - MAX_TERMINAL_JOBS + 1 else 0
  }

  /** `evicted` is what some sort of the terminal records by time lets the two
      eviction passes remove. Ties are free, as the hash order leaves them. */
  ghost predicate EvictedSet(jobs: map<JobId, JobRecord>, excess: nat, evicted: set<JobId>) {
    && evicted <= TerminalIds(jobs)
    && |evicted| == excess
    && forall a, b {:trigger EvictedNoLater(jobs[a], jobs[b])} |
         a in evicted && b in jobs && b !in evicted && jobs[b].state.IsTerminal() ::
         EvictedNoLater(jobs[a], jobs[b])
  }

  function UncollectedAmong(jobs: map<JobId, JobRecord>, ids: set<JobId>): set<JobId> {
    set id | id in ids && id in jobs && HasUncollected(jobs[id])
  }

  /** Tombstones grow by the wanted ids until the set is full. */
  ghost predicate Tombstoned(before: set<JobId>, wanted: set<JobId>, after: set<JobId>) {
    && before <= after <= before + wanted
    && (after == before || |after| <= MAX_TERMINAL_JOBS)
    && (after == before + wanted || |after| >= MAX_TERMINAL_JOBS)
  }

  /** One call of `prune_terminals`, over every order of the hash map. */
  ghost predicate Pruned(r: Registry, now: nat, makeRoom: bool, r': Registry) {
    var mid := ExpireJobs(r.jobs, now);
    var evicted := r.jobs.Keys - r'.jobs.Keys;
    && r'.shuttingDown == r.shuttingDown
    && r'.watchRevision == r.watchRevision
    && r'.jobs.Keys <= r.jobs.Keys
    && (forall id | id in r'.jobs :: r'.jobs[id] == mid[id])
    && EvictedSet(mid, Excess(mid, makeRoom), evicted)
    && Tombstoned(r.tombstones,
                  ExpiringIds(r.jobs, now) + UncollectedAmong(mid, evicted),
                  r'.tombstones)
  }

  // ----------------------------------------------------- registry sections

  function ValidateAdmission(a: JobAdmission): Option<JobAdmissionError> {
    match a.authority
    case DirectUserAction =>
      (match a.owner
       case DirectProductAction(_) => None
       case ProductTask(_) => Some(OwnerAuthorityMismatch))
    case AgentTask(_) => Some(UnsupportedAuthoritySource)
  }

  function NewRecord(a: JobAdmission, now: nat): JobRecord {
    JobRecord(a.kind, a.owner, Starting, None, None, None, false, false, 1, now, now, None, None, [], 0)
  }

  function WithRecord(r: Registry, id: JobId, rec: JobRecord): Registry {
    r.(jobs := r.jobs[id := rec], watchRevision := r.watchRevision + 1)
  }

  /** The capacity checks and the allocation of `admit`, after pruning. */
  function Allocate(r: Registry, a: JobAdmission, now: nat, id: JobId): (Registry, AdmitResult) {
    if |TerminalIds(r.jobs)| >= MAX_TERMINAL_JOBS then (r, NotAdmitted(TerminalCapacity))
    else if |ActiveIds(r.jobs)| >= MAX_ACTIVE_JOBS then (r, NotAdmitted(ActiveLimit))
    else if |ReservedIds(r.jobs)| >= MAX_UNCOLLECTED_RESULT_SLOTS then (r, NotAdmitted(ResultCapacity))
    else (WithRecord(r, id, NewRecord(a, now)), Admitted(id))
  }

  /** `admit`. `pruned` is what the pruning inside the call leaves, `id` the fresh id. */
  function Admit(r: Registry, a: JobAdmission, now: nat, id: JobId, pruned: Registry): (Registry, AdmitResult) {
    if r.shuttingDown then (r, NotAdmitted(ShuttingDown))
    else if ValidateAdmission(a).Some? then (r, NotAdmitted(ValidateAdmission(a).value))
    else Allocate(pruned, a, now, id)
  }

  function RequestCancel(rec: JobRecord, now: nat): JobRecord {
    rec.(state := Cancelling, cancelledAt := Some(now), revision := rec.revision + 1)
  }

  /** The locked section of `cancel`; the callback runs later, on `Requested`. */
  function Cancel(r: Registry, id: JobId, now: nat): (Registry, JobCancelOutcome) {
    if id !in r.jobs then (r, CancelNotFound)
    else if r.jobs[id].state.IsTerminal() then (r, AlreadyTerminal)
    else if r.jobs[id].state == Cancelling then (r, AlreadyRequested)
    else (WithRecord(r, id, RequestCancel(r.jobs[id], now)), Requested)
  }

  /** `collect`, after the pruning inside the call left `pruned`. */
  function Collect(pruned: Registry, id: JobId): (Registry, CollectResult) {
    if id !in pruned.jobs then
      (pruned, if id in pruned.tombstones then ResultExpired else JobNotFound)
    else
      var rec := pruned.jobs[id];
      if rec.state != Succeeded then (pruned, NotSucceeded)
      else if rec.resultCollected then (pruned, AlreadyCollected)
      else if rec.result.Some? then
        (pruned.(jobs := pruned.jobs[id := rec.(result := None, resultCollected := true)]),
         Collected(rec.result.value))
      else (pruned.(jobs := pruned.jobs[id := rec.(resultExpired := true)]), ResultExpired)
  }

  function OpenIds(jobs: map<JobId, JobRecord>): set<JobId> {
    set id | id in jobs && (jobs[id].state == Starting || jobs[id].state == Running)
  }

  /** The locked section of `shutdown`; its answer is the set of requested ids. */
  function Shutdown(r: Registry, now: nat): (Registry, set<JobId>) {
    var open := OpenIds(r.jobs);
    (r.(jobs := map id | id in r.jobs :: if id in open then RequestCancel(r.jobs[id], now) else r.jobs[id],
        shuttingDown := true,
        watchRevision := if open == {} then r.watchRevision else r.watchRevision + 1),
     open)
  }

  // ----------------------------------------------------- reporter sections

  function Touch(rec: JobRecord, now: nat): JobRecord {
    rec.(updatedAt := now, revision := rec.revision + 1)
  }

  function Terminate(rec: JobRecord, state: JobState, now: nat): JobRecord {
    Touch(rec, now).(state := state, terminalAt := Some(now))
  }

  function MarkRunning(r: Registry, id: JobId, reported: bool, now: nat): ReporterOutcome {
    if reported then ReporterOutcome(r, reported, Refused(StaleReporter))
    else if id !in r.jobs then ReporterOutcome(r, reported, Refused(NotFound))
    else if r.jobs[id].state != Starting then ReporterOutcome(r, reported, Refused(InvalidTransition(r.jobs[id].state)))
    else ReporterOutcome(WithRecord(r, id, Touch(r.jobs[id], now).(state := Running)), reported, Reported)
  }

  function ReportProgress(r: Registry, id: JobId, reported: bool, progress: Progress, now: nat): ReporterOutcome {
    if reported then ReporterOutcome(r, reported, Refused(StaleReporter))
    else if id !in r.jobs then ReporterOutcome(r, reported, Refused(NotFound))
    else if r.jobs[id].state.IsTerminal() then ReporterOutcome(r, reported, Refused(InvalidTransition(r.jobs[id].state)))
    else ReporterOutcome(WithRecord(r, id, Touch(r.jobs[id], now).(progress := Some(progress))), reported, Reported)
  }

  function PushDiagnostic(rec: JobRecord, d: Diagnostic): JobRecord {
    if |rec.diagnostics| >= MAX_DIAGNOSTIC_ENTRIES then
      rec.(diagnostics := rec.diagnostics[1..] + [d], droppedDiagnostics := rec.droppedDiagnostics + 1)
    else rec.(diagnostics := rec.diagnostics + [d])
  }

  function AppendDiagnostic(r: Registry, id: JobId, reported: bool, d: Diagnostic, now: nat): ReporterOutcome {
    if reported then ReporterOutcome(r, reported, Refused(StaleReporter))
    else if id !in r.jobs then ReporterOutcome(r, reported, Refused(NotFound))
    else if r.jobs[id].state.IsTerminal() then ReporterOutcome(r, reported, Refused(InvalidTransition(r.jobs[id].state)))
    else ReporterOutcome(WithRecord(r, id, Touch(PushDiagnostic(r.jobs[id], d), now)), reported, Reported)
  }

  /** `succeed`: a result that loses the race with a cancellation is dropped. */
  function Succeed(r: Registry, id: JobId, value: Payload, now: nat): ReporterOutcome {
    if id !in r.jobs then ReporterOutcome(r, true, Refused(NotFound))
    else if r.jobs[id].state.IsTerminal() then ReporterOutcome(r, false, Refused(TerminalConflict))
    else if r.jobs[id].state == Cancelling then
      ReporterOutcome(WithRecord(r, id, Terminate(r.jobs[id], Cancelled, now)), true, Reported)
    else
      ReporterOutcome(WithRecord(r, id, Terminate(r.jobs[id], Succeeded, now).(result := Some(value))), true, Reported)
  }

  function Fail(r: Registry, id: JobId, category: JobFailureCategory, now: nat): ReporterOutcome {
    if id !in r.jobs then ReporterOutcome(r, true, Refused(NotFound))
    else if r.jobs[id].state.IsTerminal() then ReporterOutcome(r, false, Refused(TerminalConflict))
    else
      ReporterOutcome(
        WithRecord(r, id, Terminate(r.jobs[id], Failed, now).(failureCategory := Some(category))), true, Reported)
  }

  function ReportCancelled(r: Registry, id: JobId, now: nat): ReporterOutcome {
    if id !in r.jobs then ReporterOutcome(r, true, Refused(NotFound))
    else if r.jobs[id].state.IsTerminal() then ReporterOutcome(r, false, Refused(TerminalConflict))
    else if r.jobs[id].state != Cancelling then
      ReporterOutcome(r, false, Refused(InvalidTransition(r.jobs[id].state)))
    else ReporterOutcome(WithRecord(r, id, Terminate(r.jobs[id], Cancelled, now)), true, Reported)
  }

  /** Dropping a reporter: the terminal time is the last update, not the clock. */
  function Abandon(rec: JobRecord): JobRecord {
    if rec.state == Cancelling then
      rec.(state := Cancelled, terminalAt := Some(rec.updatedAt), revision := rec.revision + 1)
    else
      rec.(state := Failed, failureCategory := Some(WorkerAbandoned),
           terminalAt := Some(rec.updatedAt), revision := rec.revision + 1)
  }

  function DropReporter(r: Registry, id: JobId, reported: bool): Registry {
    if reported || id !in r.jobs || r.jobs[id].state.IsTerminal() then r
    else WithRecord(r, id, Abandon(r.jobs[id]))
  }
}
