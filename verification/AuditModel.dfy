/** Audit evidence for product-task transitions: the event a pair of snapshots
    means, its correlation record, and the checks on both. */
module AuditModel {
  import opened Prelude

  const MAX_AUDIT_STRING_BYTES: nat := 512
  const MAX_AUDIT_CANDIDATE_IDS: nat := 256

  /** A text nothing here looks into: which one it is, and its length in bytes. */
  datatype Str = Str(id: int, bytes: nat)

  // ------------------------------------------------------------ snapshots

  datatype Terminal =
    | NeedsUserInput | Cancelled | BudgetExhausted | SourceValidationFailure | RuntimeFailure | AgentProtocolFailure
    | ProviderFailure | Interrupted | Stale | ContextOverflow | ContextRecoveryFailure | AuditFailure

  datatype TaskStatus =
    | Created | Running | ReadyForReview | Applying | Completed | Rejected | StaleTask
    | Failed(terminal: Terminal) | WaitingForUser | CancelledTask | InterruptedTask

  /** `rest` stands for the disclosure ceiling and capture flag. */
  datatype AuthorityRef = AuthorityRef(
    taskId: Str, attemptId: nat, runId: Str, policyRevision: Str, snapshotDigest: Str, rest: int)

  datatype SkillRef = SkillRef(packageId: Str, packageDigest: Str, rest: int)

  datatype Contract = Contract(authority: AuthorityRef, skillUse: SkillRef, rest: int)

  datatype Attempt = Attempt(attemptId: nat, runId: Str, terminal: Option<Terminal>, contract: Option<Contract>)

  /** `sourceDigest` is absent when the source binding has no canonical digest. */
  datatype ArtifactMeta = ArtifactMeta(
    artifactId: Str, artifactRevision: nat, proposalId: Str, runConfigDigest: Str, sourceDigest: Option<Str>,
    attemptId: nat, runId: Str, rest: int)

  datatype ReviewReceipt = ReviewReceipt(
    artifactId: Str, artifactRevision: nat, proposalId: Str, applied: seq<nat>, rejected: seq<nat>,
    documentStateId: Option<nat>, documentDigest: Option<Str>, decidedAt: int)

  datatype Snapshot = Snapshot(
    schemaVersion: nat, taskId: Str, status: TaskStatus, revision: nat, updatedAt: int,
    attempts: seq<Attempt>, artifact: Option<ArtifactMeta>, review: Option<ReviewReceipt>)
  {
    predicate HasAttempt() { attempts != [] }

    function LastAttempt(): Attempt
      requires HasAttempt()
    {
      attempts[|attempts| - 1]
    }

    function ActiveContract(): Option<Contract> { if HasAttempt() then LastAttempt().contract else None }
  }

  // --------------------------------------------------------------- events

  datatype EventKind =
    | KTaskCreated | KAttemptStarted | KRunContractBound | KAuthorityDenied
    | KArtifactPromoted | KReviewApplyStarted | KReviewDecisionCommitted | KTaskTerminated

  datatype ArtifactRef = ArtifactRef(
    artifactId: Str, artifactRevision: nat, proposalId: Str, runConfigDigest: Str, sourceDigest: Str, rest: int)

  datatype Decision = Decision(
    artifactId: Str, artifactRevision: nat, proposalId: Str, applied: seq<nat>, rejected: seq<nat>, decidedAt: int)

  datatype DocumentState = DocumentState(stateId: nat, digest: Option<Str>)

  datatype Event =
    | TaskCreated
    | AttemptStarted(attemptId: nat, runId: Str)
    | RunContractBound(authority: AuthorityRef, skillUse: SkillRef)
    | AuthorityDenied(authority: AuthorityRef, toolName: Str, requiredOperation: Str)
    | ArtifactPromoted(artifact: ArtifactRef)
    | ReviewApplyStarted(artifact: ArtifactRef)
    | ReviewDecisionCommitted(applied: bool, decision: Decision, documentState: Option<DocumentState>)
    | TaskTerminated(terminal: Terminal)
  {
    function Kind(): EventKind {
      match this
      case TaskCreated => KTaskCreated
      case AttemptStarted(_, _) => KAttemptStarted
      case RunContractBound(_, _) => KRunContractBound
      case AuthorityDenied(_, _, _) => KAuthorityDenied
      case ArtifactPromoted(_) => KArtifactPromoted
      case ReviewApplyStarted(_) => KReviewApplyStarted
      case ReviewDecisionCommitted(_, _, _) => KReviewDecisionCommitted
      case TaskTerminated(_) => KTaskTerminated
    }
  }

  datatype Correlation = Correlation(
    taskId: Str, attemptId: Option<nat>, runId: Option<Str>, authority: Option<AuthorityRef>, skillUse: Option<SkillRef>,
    artifact: Option<ArtifactRef>, proposalId: Option<Str>, decision: Option<Decision>, documentState: Option<DocumentState>)

  function ForTask(taskId: Str): Correlation { Correlation(taskId, None, None, None, None, None, None, None, None) }

  datatype Envelope = Envelope(eventId: int, occurredAt: int, event: Event, correlation: Correlation)

  datatype ContractError =
    | StringTooLong
    | TransitionMismatch
    | TaskIdMismatch
    | RevisionMismatch
    | TimestampRegression
    | CorrelationMismatch(kind: EventKind, field: string)
    | MissingTransitionField(kind: EventKind)
    | DigestUnavailable

  datatype Result<+T> = Ok(value: T) | Err(error: ContractError)

  // ------------------------------------------------------ correlation check

  /** The field a check refuses, or what the later checks say. */
  function Refuse(bad: bool, field: string, later: Option<string>): Option<string> {
    if bad then Some(field) else later
  }

  function CheckAttemptRun(c: Correlation, later: Option<string>): Option<string> {
    Refuse(c.attemptId.None?, "attempt_id", Refuse(c.runId.None?, "run_id", later))
  }

  function CheckAuthority(c: Correlation, a: AuthorityRef, later: Option<string>): Option<string> {
    match c.authority
    case None => Some("authority")
    case Some(bound) =>
      Refuse(bound != a, "authority",
      Refuse(bound.taskId != c.taskId, "authority.task_id",
      Refuse(Some(bound.attemptId) != c.attemptId, "authority.attempt_id",
      Refuse(Some(bound.runId) != c.runId, "authority.run_id", later))))
  }

  function CheckArtifact(c: Correlation, a: ArtifactRef, later: Option<string>): Option<string> {
    Refuse(c.artifact.None?, "artifact",
    Refuse(c.artifact != Some(a), "artifact",
    Refuse(c.proposalId.Some? && c.proposalId != Some(a.proposalId), "proposal_id", later)))
  }

  function CheckNoReview(c: Correlation, later: Option<string>): Option<string> {
    Refuse(c.decision.Some?, "review_decision", Refuse(c.documentState.Some?, "document_state", later))
  }

  function CheckNoAuthority(c: Correlation, later: Option<string>): Option<string> {
    Refuse(c.authority.Some?, "authority", Refuse(c.skillUse.Some?, "skill_use", later))
  }

  /** Fields that never belong to a non-owning variant. */
  function CheckForeign(e: Event, c: Correlation): Option<string> {
    match e.Kind()
    case KRunContractBound => Refuse(c.artifact.Some?, "artifact", CheckNoReview(c, None))
    case KAttemptStarted => Refuse(c.artifact.Some?, "artifact", CheckNoReview(c, None))
    case KTaskCreated => CheckNoAuthority(c, Refuse(c.artifact.Some?, "artifact", CheckNoReview(c, None)))
    case _ => None
  }

  /** What the event's own variant requires, in the order it is checked. */
  function CheckVariant(e: Event, c: Correlation, later: Option<string>): Option<string> {
    match e
    case TaskCreated => Refuse(c.attemptId.Some?, "attempt_id", Refuse(c.runId.Some?, "run_id", later))
    case AttemptStarted(attemptId, runId) =>
      CheckAttemptRun(c,
      Refuse(c.attemptId != Some(attemptId), "attempt_id",
      Refuse(c.runId != Some(runId), "run_id", later)))
    case RunContractBound(authority, skillUse) =>
      CheckAttemptRun(c,
      CheckAuthority(c, authority,
      Refuse(c.skillUse.None?, "skill_use",
      Refuse(c.skillUse != Some(skillUse), "skill_use", later))))
    case AuthorityDenied(authority, _, _) => CheckAttemptRun(c, CheckAuthority(c, authority, later))
    case ArtifactPromoted(artifact) => CheckAttemptRun(c, CheckArtifact(c, artifact, later))
    case ReviewApplyStarted(artifact) => CheckAttemptRun(c, CheckArtifact(c, artifact, later))
    case ReviewDecisionCommitted(applied, decision, documentState) =>
      CheckAttemptRun(c,
      Refuse(c.decision.None?, "review_decision",
      Refuse(c.decision != Some(decision), "review_decision",
      Refuse(c.documentState != documentState, "document_state",
      Refuse(!applied && documentState.Some?, "document_state", later)))))
    case TaskTerminated(_) => CheckNoAuthority(c, CheckNoReview(c, later))
  }

  function ValidateCorrelation(e: Event, c: Correlation): Option<ContractError> {
    match CheckVariant(e, c, CheckForeign(e, c))
    case None => None
    case Some(field) => Some(CorrelationMismatch(e.Kind(), field))
  }

  // -------------------------------------------------------------- envelopes

  predicate Bounded(s: Str) { s.bytes <= MAX_AUDIT_STRING_BYTES }

  predicate StringsFit(e: Event, c: Correlation) {
    && Bounded(c.taskId)
    && (c.runId.Some? ==> Bounded(c.runId.value))
    && (c.proposalId.Some? ==> Bounded(c.proposalId.value))
    && (c.authority.Some? ==> Bounded(c.authority.value.policyRevision) && Bounded(c.authority.value.snapshotDigest))
    && (c.skillUse.Some? ==> Bounded(c.skillUse.value.packageId) && Bounded(c.skillUse.value.packageDigest))
    && (c.artifact.Some? ==>
          && Bounded(c.artifact.value.artifactId) && Bounded(c.artifact.value.proposalId)
          && Bounded(c.artifact.value.runConfigDigest))
    && (c.decision.Some? ==>
          && Bounded(c.decision.value.artifactId) && Bounded(c.decision.value.proposalId)
          && |c.decision.value.applied| <= MAX_AUDIT_CANDIDATE_IDS && |c.decision.value.rejected| <= MAX_AUDIT_CANDIDATE_IDS)
    && (e.AuthorityDenied? ==> Bounded(e.toolName) && Bounded(e.requiredOperation))
  }

  function NewEnvelope(eventId: int, occurredAt: int, e: Event, c: Correlation): Result<Envelope> {
    if !StringsFit(e, c) then Err(StringTooLong)
    else
      match ValidateCorrelation(e, c)
      case Some(error) => Err(error)
      case None => Ok(Envelope(eventId, occurredAt, e, c))
  }

  /** The envelope for a denied tool call, from the authority it was denied under. */
  function AuthorityDeniedEnvelope(
    authority: AuthorityRef, toolName: Str, requiredOperation: Str, eventId: int, occurredAt: int): Result<Envelope>
  {
    NewEnvelope(eventId, occurredAt, AuthorityDenied(authority, toolName, requiredOperation),
                ForTask(authority.taskId).(attemptId := Some(authority.attemptId), runId := Some(authority.runId),
                                           authority := Some(authority)))
  }

  // ------------------------------------------------------------- derivation

  function MakeArtifactRef(meta: ArtifactMeta): Result<ArtifactRef> {
    match meta.sourceDigest
    case None => Err(DigestUnavailable)
    case Some(digest) =>
      Ok(ArtifactRef(meta.artifactId, meta.artifactRevision, meta.proposalId, meta.runConfigDigest, digest, meta.rest))
  }

  function DecisionRef(r: ReviewReceipt): Decision {
    Decision(r.artifactId, r.artifactRevision, r.proposalId, r.applied, r.rejected, r.decidedAt)
  }

  function DocumentStateOf(r: ReviewReceipt): Option<DocumentState> {
    match r.documentStateId case Some(id) => Some(DocumentState(id, r.documentDigest)) case None => None
  }

  /** The event a status pair means. */
  function DeriveEvent(prior: Option<TaskStatus>, s: Snapshot): Result<Event> {
    match (prior, s.status)
    case (None, Created) => Ok(TaskCreated)
    case (Some(Created), Running) =>
      if s.HasAttempt() then Ok(AttemptStarted(s.LastAttempt().attemptId, s.LastAttempt().runId))
      else Err(MissingTransitionField(KAttemptStarted))
    case (Some(Running), Running) =>
      (match s.ActiveContract()
       case None => Err(TransitionMismatch)
       case Some(contract) => Ok(RunContractBound(contract.authority, contract.skillUse)))
    case (Some(Running), ReadyForReview) =>
      (match s.artifact
       case None => Err(MissingTransitionField(KArtifactPromoted))
       case Some(meta) =>
         match MakeArtifactRef(meta)
         case Err(error) => Err(error)
         case Ok(artifact) => Ok(ArtifactPromoted(artifact)))
    case (Some(ReadyForReview), Applying) =>
      (match s.artifact
       case None => Err(MissingTransitionField(KReviewApplyStarted))
       case Some(meta) =>
         match MakeArtifactRef(meta)
         case Err(error) => Err(error)
         case Ok(artifact) => Ok(ReviewApplyStarted(artifact)))
    case (Some(Applying), Completed) =>
      (match s.review
       case None => Err(MissingTransitionField(KReviewDecisionCommitted))
       case Some(r) => Ok(ReviewDecisionCommitted(true, DecisionRef(r), DocumentStateOf(r))))
    case (Some(ReadyForReview), Rejected) => DeriveRejection(s)
    case (Some(Applying), Rejected) => DeriveRejection(s)
    case (Some(ReadyForReview), StaleTask) => Ok(TaskTerminated(Stale))
    case (Some(Created), InterruptedTask) => Ok(TaskTerminated(Interrupted))
    case (Some(Running), InterruptedTask) => Ok(TaskTerminated(Interrupted))
    case (Some(Applying), InterruptedTask) => Ok(TaskTerminated(Interrupted))
    case (Some(Running), Failed(terminal)) => Ok(TaskTerminated(terminal))
    case (Some(Running), WaitingForUser) => Ok(TaskTerminated(NeedsUserInput))
    case (Some(Running), CancelledTask) => Ok(TaskTerminated(Cancelled))
    case (_, _) => Err(TransitionMismatch)
  }

  function DeriveRejection(s: Snapshot): Result<Event> {
    match s.review
    case None => Err(MissingTransitionField(KReviewDecisionCommitted))
    case Some(r) => Ok(ReviewDecisionCommitted(false, DecisionRef(r), None))
  }

  /** The correlation record of an event: what it names, bound to the active attempt. */
  function Correlate(e: Event, s: Snapshot): Result<Correlation> {
    var c := ForTask(s.taskId);
    var bound := if s.HasAttempt()
      then Ok(c.(attemptId := Some(s.LastAttempt().attemptId), runId := Some(s.LastAttempt().runId)))
      else Err(MissingTransitionField(e.Kind()));
    match e
    case TaskCreated => Ok(c)
    case AttemptStarted(attemptId, runId) => Ok(c.(attemptId := Some(attemptId), runId := Some(runId)))
    case TaskTerminated(_) => Ok(if bound.Ok? then bound.value else c)
    case AuthorityDenied(_, _, _) => Err(TransitionMismatch)
    case RunContractBound(authority, skillUse) =>
      if bound.Err? then bound else Ok(bound.value.(authority := Some(authority), skillUse := Some(skillUse)))
    case ArtifactPromoted(artifact) =>
      if bound.Err? then bound else Ok(bound.value.(artifact := Some(artifact), proposalId := Some(artifact.proposalId)))
    case ReviewApplyStarted(artifact) =>
      if bound.Err? then bound else Ok(bound.value.(artifact := Some(artifact), proposalId := Some(artifact.proposalId)))
    case ReviewDecisionCommitted(_, decision, documentState) =>
      if bound.Err? then bound else Ok(bound.value.(decision := Some(decision), documentState := documentState))
  }

  function DeriveTransition(prior: Option<Snapshot>, s: Snapshot, eventId: int, occurredAt: int): Result<Envelope> {
    if prior.Some? && prior.value.taskId != s.taskId then Err(TaskIdMismatch)
    else
      match DeriveEvent(if prior.Some? then Some(prior.value.status) else None, s)
      case Err(error) => Err(error)
      case Ok(e) =>
        if prior.Some? && s.revision != prior.value.revision + 1 then Err(RevisionMismatch)
        else if prior.Some? && occurredAt < prior.value.updatedAt then Err(TimestampRegression)
        else
          match Correlate(e, s)
          case Err(error) => Err(error)
          case Ok(c) => NewEnvelope(eventId, occurredAt, e, c)
  }
}
