/** The reducers that move a product task from snapshot to snapshot, and why
    every step they take has audit evidence. */
module ProductTasks {
  import opened Prelude
  import opened AuditModel
  import opened AuditTheorems

  datatype TaskError =
    | IllegalTransition | ClockRegression | MissingAttempt | RunMismatch | ConflictingAttempt | RunContractConflict
    | MissingRunContract | MissingPayload | UnsupportedTerminal | ArtifactMismatch | ArtifactRevisionMismatch
    | ProposalMismatch

  datatype Outcome = Next(task: Snapshot) | Refused(error: TaskError)

  datatype Op =
    | StartAttempt(attemptId: nat, runId: Str)
    | BindRunContract(receipt: Contract)
    | RecordReadyForReview(meta: ArtifactMeta, payloadEmpty: bool)
    | RecordTerminal(terminal: Terminal)
    | BeginApply
    | CompleteApply(review: ReviewReceipt)
    | RejectApply(review: ReviewReceipt)
    | Reject(review: ReviewReceipt)
    | MarkStale
    | ReconcileInterrupted

  /** A new task, of any of the three schema versions. */
  function NewTask(schemaVersion: nat, taskId: Str, now: int): Snapshot {
    Snapshot(schemaVersion, taskId, Created, 0, now, [], None, None)
  }

  function Stepped(s: Snapshot, status: TaskStatus, now: int): Snapshot {
    s.(status := status, revision := s.revision + 1, updatedAt := now)
  }

  /** The last attempt ends. */
  function Finished(attempts: seq<Attempt>, terminal: Terminal): seq<Attempt> {
    if attempts == [] then [] else
      attempts[|attempts| - 1 := attempts[|attempts| - 1].(terminal := Some(terminal))]
  }

  function TerminalStatus(terminal: Terminal): TaskStatus {
    match terminal
    case NeedsUserInput => WaitingForUser
    case Cancelled => CancelledTask
    case _ => Failed(terminal)
  }

  function Bind(s: Snapshot, receipt: Contract, now: int): Outcome {
    if !s.HasAttempt() then Refused(MissingAttempt)
    else
      var last := s.LastAttempt();
      if last.terminal.Some? then Refused(IllegalTransition)
      else if receipt.authority.runId != last.runId then Refused(RunMismatch)
      else if receipt.authority.taskId != s.taskId then Refused(RunMismatch)
      else if receipt.authority.attemptId != last.attemptId then Refused(ConflictingAttempt)
      else if last.contract.Some? then (if last.contract.value == receipt then Next(s) else Refused(RunContractConflict))
      else
        Next(Stepped(s, Running, now).(attempts := s.attempts[|s.attempts| - 1 := last.(contract := Some(receipt))]))
  }

  function Promote(s: Snapshot, meta: ArtifactMeta, payloadEmpty: bool, now: int): Outcome {
    if !s.HasAttempt() then Refused(MissingAttempt)
    else
      var last := s.LastAttempt();
      if meta.attemptId != last.attemptId then Refused(ConflictingAttempt)
      else if meta.runId != last.runId then Refused(RunMismatch)
      else if s.schemaVersion >= 2 && last.contract.None? then Refused(MissingRunContract)
      else if payloadEmpty then Refused(MissingPayload)
      else Next(Stepped(s, ReadyForReview, now).(artifact := Some(meta)))
  }

  function ReviewError(s: Snapshot, r: ReviewReceipt): Option<TaskError> {
    match s.artifact
    case None => None
    case Some(meta) =>
      if r.artifactId != meta.artifactId then Some(ArtifactMismatch)
      else if r.artifactRevision != meta.artifactRevision then Some(ArtifactRevisionMismatch)
      else if r.proposalId != meta.proposalId then Some(ProposalMismatch)
      else None
  }

  /** The status a reducer starts from; an interruption has several. */
  predicate StartsFrom(op: Op, status: TaskStatus) {
    match op
    case StartAttempt(_, _) => status == Created
    case BindRunContract(_) => status == Running
    case RecordReadyForReview(_, _) => status == Running
    case RecordTerminal(_) => status == Running
    case BeginApply => status == ReadyForReview
    case CompleteApply(_) => status == Applying
    case RejectApply(_) => status == Applying
    case Reject(_) => status == ReadyForReview
    case MarkStale => status == ReadyForReview
    case ReconcileInterrupted => status == Created || status == Running || status == Applying
  }

  function Reduce(s: Snapshot, op: Op, now: int): Outcome {
    if !StartsFrom(op, s.status) then (if op.ReconcileInterrupted? then Next(s) else Refused(IllegalTransition))
    else if now < s.updatedAt then Refused(ClockRegression)
    else
      match op
      case StartAttempt(attemptId, runId) =>
        Next(Stepped(s, Running, now).(attempts := s.attempts + [Attempt(attemptId, runId, None, None)]))
      case BindRunContract(receipt) => Bind(s, receipt, now)
      case RecordReadyForReview(meta, payloadEmpty) => Promote(s, meta, payloadEmpty, now)
      case RecordTerminal(terminal) =>
        if terminal == Stale || terminal == Interrupted then Refused(UnsupportedTerminal)
        else Next(Stepped(s, TerminalStatus(terminal), now).(attempts := Finished(s.attempts, terminal)))
      case BeginApply => Next(Stepped(s, Applying, now))
      case CompleteApply(review) =>
        (match ReviewError(s, review)
         case Some(error) => Refused(error)
         case None => Next(Stepped(s, Completed, now).(review := Some(review))))
      case RejectApply(review) =>
        (match ReviewError(s, review)
         case Some(error) => Refused(error)
         case None => Next(Stepped(s, Rejected, now).(review := Some(review))))
      case Reject(review) => Next(Stepped(s, Rejected, now).(review := Some(review)))
      case MarkStale => Next(Stepped(s, StaleTask, now))
      case ReconcileInterrupted => Next(Stepped(s, InterruptedTask, now).(attempts := Finished(s.attempts, Interrupted)))
  }

  // ------------------------------------------------------- what is accepted

  /** The receipt is about the artifact under review, if there is one. */
  predicate AboutArtifact(s: Snapshot, r: ReviewReceipt) {
    s.artifact.Some? ==>
      && r.artifactId == s.artifact.value.artifactId && r.artifactRevision == s.artifact.value.artifactRevision
      && r.proposalId == s.artifact.value.proposalId
  }

  /** When a reducer accepts a call, and the status it then leaves. */
  predicate Accepts(s: Snapshot, op: Op, now: int, status: TaskStatus) {
    && now >= s.updatedAt
    && match op
       case StartAttempt(_, _) => s.status == Created && status == Running
       case BindRunContract(receipt) =>
         && s.status == Running && status == Running && s.HasAttempt() && s.LastAttempt().terminal.None?
         && ContractNames(receipt, s) && s.LastAttempt().contract.None?
       case RecordReadyForReview(meta, payloadEmpty) =>
         && s.status == Running && status == ReadyForReview && s.HasAttempt()
         && meta.attemptId == s.LastAttempt().attemptId && meta.runId == s.LastAttempt().runId
         && (s.schemaVersion >= 2 ==> s.LastAttempt().contract.Some?) && !payloadEmpty
       case RecordTerminal(terminal) =>
         && s.status == Running && terminal != Stale && terminal != Interrupted
         && status == (if terminal == NeedsUserInput then WaitingForUser
                       else if terminal == Cancelled then CancelledTask else Failed(terminal))
       case BeginApply => s.status == ReadyForReview && status == Applying
       case CompleteApply(review) => s.status == Applying && status == Completed && AboutArtifact(s, review)
       case RejectApply(review) => s.status == Applying && status == Rejected && AboutArtifact(s, review)
       case Reject(_) => s.status == ReadyForReview && status == Rejected
       case MarkStale => s.status == ReadyForReview && status == StaleTask
       case ReconcileInterrupted => s.status in {Created, Running, Applying} && status == InterruptedTask
  }

  /** A reducer changes a task exactly when it accepts the call; and then it writes
      the new status, one more revision, the time, and what the call brings: the
      receipt, the artifact, the attempt, its contract or its end. */
  lemma ChangesIff(s: Snapshot, op: Op, now: int)
    ensures Reduce(s, op, now).Next? && Reduce(s, op, now).task != s <==> exists status :: Accepts(s, op, now, status)
    ensures Reduce(s, op, now).Next? && Reduce(s, op, now).task != s ==>
              var t := Reduce(s, op, now).task;
              && Accepts(s, op, now, t.status)
              && t.revision == s.revision + 1 && t.updatedAt == now && t.taskId == s.taskId && t.schemaVersion == s.schemaVersion
              && t.review == (if op.CompleteApply? || op.RejectApply? || op.Reject? then Some(op.review) else s.review)
              && t.artifact == (if op.RecordReadyForReview? then Some(op.meta) else s.artifact)
              && t.attempts == (match op
                 case StartAttempt(attemptId, runId) => s.attempts + [Attempt(attemptId, runId, None, None)]
                 case BindRunContract(receipt) =>
                   s.attempts[..|s.attempts| - 1] + [s.LastAttempt().(contract := Some(receipt))]
                 case RecordTerminal(terminal) => Ended(s, terminal)
                 case ReconcileInterrupted => Ended(s, Interrupted)
                 case _ => s.attempts)
  {
    var r := Reduce(s, op, now);
    if r.Next? && r.task != s {
      assert r.task.revision == s.revision + 1;
      assert Accepts(s, op, now, r.task.status);
    }
    if status :| Accepts(s, op, now, status) {
      assert r.Next? && r.task.revision == s.revision + 1;
    }
  }

  /** The task is where the call is made from. */
  predicate Placed(s: Snapshot, op: Op) {
    if op.ReconcileInterrupted? then s.status in {Created, Running, Applying}
    else
      s.status == match op
        case StartAttempt(_, _) => Created
        case BindRunContract(_) => Running
        case RecordReadyForReview(_, _) => Running
        case RecordTerminal(_) => Running
        case CompleteApply(_) => Applying
        case RejectApply(_) => Applying
        case _ => ReadyForReview
  }

  /** The active attempt is still open, for a receipt to be bound to. */
  predicate Bindable(s: Snapshot, op: Op) {
    op.BindRunContract? && s.HasAttempt() && s.LastAttempt().terminal.None?
  }

  predicate Promoting(s: Snapshot, op: Op) { op.RecordReadyForReview? && s.HasAttempt() }

  predicate PromotesLast(s: Snapshot, op: Op) {
    Promoting(s, op) && op.meta.attemptId == s.LastAttempt().attemptId && op.meta.runId == s.LastAttempt().runId
  }

  predicate NeedsContract(s: Snapshot) { s.schemaVersion >= 2 && s.ActiveContract().None? }

  /** A review of an apply under way, of a task with an artifact. */
  predicate Reviewing(s: Snapshot, op: Op) { (op.CompleteApply? || op.RejectApply?) && s.artifact.Some? }

  /** What each refusal says of a call made in its place and time. */
  predicate RefusedFor(s: Snapshot, op: Op, e: TaskError) {
    match e
    case IllegalTransition => op.BindRunContract? && s.HasAttempt() && s.LastAttempt().terminal.Some?
    case ClockRegression => false
    case MissingAttempt => (op.BindRunContract? || op.RecordReadyForReview?) && s.attempts == []
    case RunMismatch =>
      || (Bindable(s, op)
          && (op.receipt.authority.runId != s.LastAttempt().runId || op.receipt.authority.taskId != s.taskId))
      || (Promoting(s, op) && op.meta.attemptId == s.LastAttempt().attemptId && op.meta.runId != s.LastAttempt().runId)
    case ConflictingAttempt =>
      || (Bindable(s, op)
          && op.receipt.authority.runId == s.LastAttempt().runId && op.receipt.authority.taskId == s.taskId
          && op.receipt.authority.attemptId != s.LastAttempt().attemptId)
      || (Promoting(s, op) && op.meta.attemptId != s.LastAttempt().attemptId)
    case RunContractConflict =>
      && Bindable(s, op) && ContractNames(op.receipt, s)
      && s.ActiveContract().Some? && s.ActiveContract().value != op.receipt
    case MissingRunContract => PromotesLast(s, op) && NeedsContract(s)
    case MissingPayload => PromotesLast(s, op) && !NeedsContract(s) && op.payloadEmpty
    case UnsupportedTerminal => op.RecordTerminal? && (op.terminal == Stale || op.terminal == Interrupted)
    case ArtifactMismatch => Reviewing(s, op) && op.review.artifactId != s.artifact.value.artifactId
    case ArtifactRevisionMismatch =>
      && Reviewing(s, op) && op.review.artifactId == s.artifact.value.artifactId
      && op.review.artifactRevision != s.artifact.value.artifactRevision
    case ProposalMismatch =>
      && Reviewing(s, op) && op.review.artifactId == s.artifact.value.artifactId
      && op.review.artifactRevision == s.artifact.value.artifactRevision
      && op.review.proposalId != s.artifact.value.proposalId
  }

  /** Which refusal a reducer answers. */
  lemma RefusesIff(s: Snapshot, op: Op, now: int, e: TaskError)
    ensures Reduce(s, op, now) == Refused(e) <==>
              if !Placed(s, op) then e == IllegalTransition && !op.ReconcileInterrupted?
              else if now < s.updatedAt then e == ClockRegression
              else RefusedFor(s, op, e)
  {
  }

  /** When a reducer answers the task as it was: for an interruption with nothing to
      interrupt, and for a contract that is bound already. */
  lemma UnchangedIff(s: Snapshot, op: Op, now: int)
    ensures Reduce(s, op, now) == Next(s) <==>
              if op.ReconcileInterrupted? then !Placed(s, op)
              else && Placed(s, op) && now >= s.updatedAt && Bindable(s, op) && ContractNames(op.receipt, s)
                   && s.ActiveContract() == Some(op.receipt)
  {
    var r := Reduce(s, op, now);
    if r.Next? && r.task != s {
      ChangesIff(s, op, now);
    }
  }

  /** The attempts, the last of them, if any, ended. */
  function Ended(s: Snapshot, terminal: Terminal): seq<Attempt> {
    if s.HasAttempt() then s.attempts[..|s.attempts| - 1] + [s.LastAttempt().(terminal := Some(terminal))] else []
  }

  // -------------------------------------------------------------- evidence

  /** What every task keeps: an attempt once it runs, an artifact once it is
      reviewed, and a contract only of its own task and attempt. */
  predicate TaskOk(s: Snapshot) {
    && (s.status in {Running, ReadyForReview, Applying} ==> s.HasAttempt())
    && (s.status in {ReadyForReview, Applying} ==> s.artifact.Some?)
    && (s.status == Created ==> s.attempts == [])
    && (s.HasAttempt() && s.LastAttempt().contract.Some? ==> ContractNames(s.LastAttempt().contract.value, s))
    && (s.status == ReadyForReview && s.schemaVersion >= 2 ==> s.LastAttempt().contract.Some?)
  }

  lemma ReducersKeep(s: Snapshot, op: Op, now: int)
    requires TaskOk(s) && Reduce(s, op, now).Next?
    ensures var s' := Reduce(s, op, now).task;
            && TaskOk(s') && s'.taskId == s.taskId && s'.schemaVersion == s.schemaVersion
            && (s' == s || (s'.revision == s.revision + 1 && s'.updatedAt == now >= s.updatedAt))
  {
  }

  /** Reasons evidence can be refused for that no reducer guards against. */
  predicate Unguarded(e: ContractError) { e == StringTooLong || e == DigestUnavailable }

  /** Every step a reducer takes has its evidence: derivation refuses it only for
      an oversized string or an artifact without a digest, never for its place in
      the task's life. */
  lemma StepHasEvidence(s: Snapshot, op: Op, now: int, eventId: int)
    requires TaskOk(s) && Reduce(s, op, now).Next? && Reduce(s, op, now).task != s
    ensures var r := DeriveTransition(Some(s), Reduce(s, op, now).task, eventId, now); r.Err? ==> Unguarded(r.error)
  {
    var s' := Reduce(s, op, now).task;
    ReducersKeep(s, op, now);
    match DeriveEvent(Some(s.status), s')
    case Err(_) =>
    case Ok(e) =>
      match Correlate(e, s')
      case Err(_) =>
      case Ok(c) =>
        DerivedRecordOk(Some(s.status), s', e, c);
        ValidIff(e, c);
  }

  /** A step that changes nothing has none. */
  lemma IdleHasNoEvidence(s: Snapshot, op: Op, now: int, eventId: int)
    requires Reduce(s, op, now) == Next(s)
    ensures DeriveTransition(Some(s), s, eventId, now).Err?
  {
  }

  // ------------------------------------------------------------- whole runs

  datatype Call = Call(op: Op, now: int, eventId: int)

  /** The evidence of a run of calls: one link for each that changed the task. */
  function Evidence(s: Snapshot, calls: seq<Call>): seq<Link>
    decreases |calls|
  {
    if calls == [] then []
    else
      match Reduce(s, calls[0].op, calls[0].now)
      case Refused(_) => Evidence(s, calls[1..])
      case Next(s') =>
        (if s' == s then [] else [Link(s', calls[0].eventId, calls[0].now)]) + Evidence(s', calls[1..])
  }

  /** How the evidence of a task reads from a status on: at most one contract, and
      from schema version 2 no promotion without one. */
  predicate TaskWord(s: Snapshot, w: seq<EventKind>) {
    match s.status
    case Created =>
      w == [] || w == [KTaskTerminated]
      || (w[0] == KAttemptStarted && RunningWord(s.schemaVersion, false, w[1..]))
    case Running => RunningWord(s.schemaVersion, s.ActiveContract().Some?, w)
    case ReadyForReview => FromReview(w)
    case Applying => FromApplying(w)
    case _ => w == []
  }

  predicate RunningWord(schemaVersion: nat, bound: bool, w: seq<EventKind>)
    decreases |w|
  {
    || w == [] || w == [KTaskTerminated]
    || (w[0] == KRunContractBound && !bound && RunningWord(schemaVersion, true, w[1..]))
    || (w[0] == KArtifactPromoted && (schemaVersion < 2 || bound) && FromReview(w[1..]))
  }

  lemma StepWord(s: Snapshot, op: Op, now: int, eventId: int, w: seq<EventKind>)
    requires TaskOk(s) && Reduce(s, op, now).Next? && Reduce(s, op, now).task != s
    requires LinkOk(Some(s), Link(Reduce(s, op, now).task, eventId, now)) && TaskWord(Reduce(s, op, now).task, w)
    ensures TaskWord(s, [DeriveTransition(Some(s), Reduce(s, op, now).task, eventId, now).value.event.Kind()] + w)
  {
    var kind := DeriveTransition(Some(s), Reduce(s, op, now).task, eventId, now).value.event.Kind();
    assert ([kind] + w)[1..] == w;
  }

  /** The evidence is complete up to the first refusal no reducer guards against. */
  predicate Evidenced(prior: Snapshot, chain: seq<Link>)
    decreases |chain|
  {
    chain == []
    || var r := DeriveTransition(Some(prior), chain[0].snapshot, chain[0].eventId, chain[0].occurredAt);
       (r.Err? ==> Unguarded(r.error)) && Evidenced(chain[0].snapshot, chain[1..])
  }

  /** Whatever calls are made on a task, in whatever order and at whatever times,
      every change has its evidence, and that evidence is a task's. */
  lemma {:induction false} RunsEvidenced(s: Snapshot, calls: seq<Call>)
    requires TaskOk(s)
    ensures Evidenced(s, Evidence(s, calls))
    ensures Accepted(Some(s), Evidence(s, calls)) ==> TaskWord(s, Word(Some(s), Evidence(s, calls)))
    decreases |calls|
  {
    if calls != [] {
      match Reduce(s, calls[0].op, calls[0].now)
      case Refused(_) =>
        RunsEvidenced(s, calls[1..]);
      case Next(s') =>
        ReducersKeep(s, calls[0].op, calls[0].now);
        RunsEvidenced(s', calls[1..]);
        if s' == s {
          assert Evidence(s, calls) == Evidence(s, calls[1..]);
        } else {
          var link := Link(s', calls[0].eventId, calls[0].now);
          assert Evidence(s, calls) == [link] + Evidence(s', calls[1..]);
          assert Evidence(s, calls)[1..] == Evidence(s', calls[1..]);
          StepHasEvidence(s, calls[0].op, calls[0].now, calls[0].eventId);
          if Accepted(Some(s), Evidence(s, calls)) {
            StepWord(s, calls[0].op, calls[0].now, calls[0].eventId, Word(Some(s'), Evidence(s', calls[1..])));
          }
        }
    }
  }

  /** Each link occurs at the update time of its snapshot, none before `from`, in order. */
  predicate OccursInOrder(chain: seq<Link>, from: int) {
    && (forall i | 0 <= i < |chain| :: from <= chain[i].occurredAt == chain[i].snapshot.updatedAt)
    && (forall i, j | 0 <= i <= j < |chain| :: chain[i].occurredAt <= chain[j].occurredAt)
  }

  lemma OccursBefore(link: Link, rest: seq<Link>, from: int)
    requires OccursInOrder(rest, link.occurredAt) && from <= link.occurredAt == link.snapshot.updatedAt
    ensures OccursInOrder([link] + rest, from)
  {
  }

  /** The evidence of a task occurs in order, each at the time of the change. */
  lemma {:induction false} EvidenceInOrder(s: Snapshot, calls: seq<Call>)
    requires TaskOk(s)
    ensures OccursInOrder(Evidence(s, calls), s.updatedAt)
    decreases |calls|
  {
    if calls != [] {
      match Reduce(s, calls[0].op, calls[0].now)
      case Refused(_) =>
        EvidenceInOrder(s, calls[1..]);
      case Next(s') =>
        ReducersKeep(s, calls[0].op, calls[0].now);
        EvidenceInOrder(s', calls[1..]);
        var rest := Evidence(s', calls[1..]);
        if s' == s {
          assert Evidence(s, calls) == rest;
        } else {
          OccursBefore(Link(s', calls[0].eventId, calls[0].now), rest, s.updatedAt);
        }
    }
  }

  /** A new task starts the story: its creation has evidence unless its id is too
      long, and no promotion of a version-2 task goes without a bound contract. */
  lemma NewTaskEvidenced(schemaVersion: nat, taskId: Str, now: int, eventId: int, calls: seq<Call>)
    ensures var s := NewTask(schemaVersion, taskId, now);
            && TaskOk(s)
            && (LinkOk(None, Link(s, eventId, now)) <==> Bounded(taskId))
            && Evidenced(s, Evidence(s, calls))
            && (Accepted(Some(s), Evidence(s, calls)) ==> OneContract(schemaVersion, Word(Some(s), Evidence(s, calls))))
  {
    var s := NewTask(schemaVersion, taskId, now);
    RunsEvidenced(s, calls);
    if Accepted(Some(s), Evidence(s, calls)) {
      ContractInWord(s, Word(Some(s), Evidence(s, calls)));
    }
  }

  lemma ContractInWord(s: Snapshot, w: seq<EventKind>)
    requires s.status == Created && TaskWord(s, w)
    ensures OneContract(s.schemaVersion, w)
  {
    if |w| > 1 {
      var x := w[1..];
      assert RunningWord(s.schemaVersion, false, x) && x[0] == w[1];
      assert x[1..] == w[2..];
      if w[1] == KArtifactPromoted {
        NoContractInReview(x[1..], w, 2);
      } else if w[1] == KRunContractBound && |w| > 2 {
        var y := x[1..];
        assert RunningWord(s.schemaVersion, true, y) && y[0] == w[2];
        assert y[1..] == w[3..];
        if w[2] == KArtifactPromoted {
          NoContractInReview(y[1..], w, 3);
        }
      }
    }
  }

  lemma NoContractInReview(tail: seq<EventKind>, w: seq<EventKind>, from: nat)
    requires from <= |w| && tail == w[from..] && FromReview(tail)
    ensures forall i | from <= i < |w| :: w[i] != KRunContractBound && w[i] != KArtifactPromoted
  {
    forall i | from <= i < |w|
      ensures w[i] != KRunContractBound && w[i] != KArtifactPromoted
    {
      assert w[i] == tail[i - from];
      if i > from && tail[0] == KReviewApplyStarted {
        assert tail[i - from] == tail[1..][i - from - 1];
      }
    }
  }

  /** A contract is bound directly after the attempt starts if at all, and a
      version-2 promotion comes directly after that. */
  predicate OneContract(schemaVersion: nat, w: seq<EventKind>) {
    forall i | 0 <= i < |w| ::
      && (w[i] == KRunContractBound ==> i == 1)
      && (w[i] == KArtifactPromoted ==> 1 <= i <= 2 && (schemaVersion >= 2 ==> i == 2) && (i == 2 ==> w[1] == KRunContractBound))
  }

  // --------------------------------------------------------------- the words

  const NAME := Str(0, 1)
  const ANY_AUTHORITY := AuthorityRef(NAME, 1, NAME, NAME, NAME, 0)
  const ANY_ATTEMPT := Attempt(1, NAME, None, Some(Contract(ANY_AUTHORITY, SkillRef(NAME, NAME, 0), 0)))
  const ANY_ARTIFACT := ArtifactMeta(NAME, 1, NAME, NAME, Some(NAME), 1, NAME, 0)
  const ANY_REVIEW := ReviewReceipt(NAME, 1, NAME, [], [], None, None, 0)

  /** A snapshot that has everything any status needs. */
  function Full(status: TaskStatus, revision: nat): Snapshot {
    Snapshot(3, NAME, status, revision, 0, [ANY_ATTEMPT], Some(ANY_ARTIFACT), Some(ANY_REVIEW))
  }

  /** A status to go to for an event. */
  function Toward(status: Option<TaskStatus>, kind: EventKind): TaskStatus {
    match kind
    case KTaskCreated => Created
    case KAttemptStarted => Running
    case KRunContractBound => Running
    case KArtifactPromoted => ReadyForReview
    case KReviewApplyStarted => Applying
    case KReviewDecisionCommitted => Rejected
    case _ => if status == Some(ReadyForReview) then StaleTask else InterruptedTask
  }

  /** Every word of the language is spelled by some accepted chain. */
  lemma {:induction false} WordRealised(prior: Option<Snapshot>, w: seq<EventKind>) returns (chain: seq<Link>)
    requires prior.Some? ==> prior.value == Full(prior.value.status, prior.value.revision)
    requires After(StatusOf(prior), w)
    ensures Accepted(prior, chain) && Word(prior, chain) == w
    decreases |w|
  {
    if w == [] {
      chain := [];
    } else {
      var s := Full(Toward(StatusOf(prior), w[0]), if prior.Some? then prior.value.revision + 1 else 0);
      StepRealised(prior, w, s);
      var rest := WordRealised(Some(s), w[1..]);
      chain := [Link(s, 0, 0)] + rest;
      assert chain[1..] == rest;
    }
  }

  lemma StepRealised(prior: Option<Snapshot>, w: seq<EventKind>, s: Snapshot)
    requires prior.Some? ==> prior.value == Full(prior.value.status, prior.value.revision)
    requires w != [] && After(StatusOf(prior), w)
    requires s == Full(Toward(StatusOf(prior), w[0]), if prior.Some? then prior.value.revision + 1 else 0)
    ensures var r := DeriveTransition(prior, s, 0, 0); r.Ok? && r.value.event.Kind() == w[0]
    ensures After(Some(s.status), w[1..])
  {
    EventRealised(StatusOf(prior), w[0], s);
    match DeriveEvent(StatusOf(prior), s)
    case Ok(e) =>
      match Correlate(e, s)
      case Ok(c) =>
        DerivedRecordOk(StatusOf(prior), s, e, c);
        ValidIff(e, c);
  }

  /** Which events lead on from a status. */
  predicate Leads(status: Option<TaskStatus>, kind: EventKind) {
    match status
    case None => kind == KTaskCreated
    case Some(Created) => kind == KAttemptStarted || kind == KTaskTerminated
    case Some(Running) => kind == KRunContractBound || kind == KArtifactPromoted || kind == KTaskTerminated
    case Some(ReadyForReview) => kind == KReviewApplyStarted || kind == KReviewDecisionCommitted || kind == KTaskTerminated
    case Some(Applying) => kind == KReviewDecisionCommitted || kind == KTaskTerminated
    case Some(_) => false
  }

  lemma EventRealised(status: Option<TaskStatus>, kind: EventKind, s: Snapshot)
    requires Leads(status, kind) && s == Full(Toward(status, kind), s.revision)
    ensures var r := DeriveEvent(status, s); r.Ok? && r.value.Kind() == kind && Correlate(r.value, s).Ok?
  {
  }
}
