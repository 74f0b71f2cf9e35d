/** What accepted audit records say about a task: correlation, chains of
    snapshots and the words of events they spell. */
module AuditTheorems {
  import opened Prelude
  import opened AuditModel

  // ------------------------------------------------------------ correlation

  predicate Names(c: Correlation, a: AuthorityRef) {
    c.taskId == a.taskId && c.attemptId == Some(a.attemptId) && c.runId == Some(a.runId)
  }

  /** What each event demands of its correlation record. */
  predicate CorrelationOk(e: Event, c: Correlation) {
    match e
    case TaskCreated => c == ForTask(c.taskId).(proposalId := c.proposalId)
    case AttemptStarted(attemptId, runId) =>
      c.attemptId == Some(attemptId) && c.runId == Some(runId) && NoReview(c) && c.artifact.None?
    case RunContractBound(authority, skillUse) =>
      c.authority == Some(authority) && Names(c, authority) && c.skillUse == Some(skillUse) && NoReview(c) && c.artifact.None?
    case AuthorityDenied(authority, _, _) => c.authority == Some(authority) && Names(c, authority)
    case ArtifactPromoted(artifact) => BoundToAttempt(c) && OfArtifact(c, artifact)
    case ReviewApplyStarted(artifact) => BoundToAttempt(c) && OfArtifact(c, artifact)
    case ReviewDecisionCommitted(applied, decision, documentState) =>
      && BoundToAttempt(c) && c.decision == Some(decision)
      && c.documentState == documentState && (applied || documentState == None)
    case TaskTerminated(_) => c.authority.None? && c.skillUse.None? && NoReview(c)
  }

  predicate NoReview(c: Correlation) { c.decision.None? && c.documentState.None? }

  predicate BoundToAttempt(c: Correlation) { c.attemptId.Some? && c.runId.Some? }

  predicate OfArtifact(c: Correlation, a: ArtifactRef) {
    c.artifact == Some(a) && (c.proposalId.None? || c.proposalId == Some(a.proposalId))
  }

  /** The ordered checks accept exactly the records that meet the demand. */
  lemma ValidIff(e: Event, c: Correlation)
    ensures ValidateCorrelation(e, c).None? <==> CorrelationOk(e, c)
    ensures ValidateCorrelation(e, c).Some? ==>
              exists field :: ValidateCorrelation(e, c) == Some(CorrelationMismatch(e.Kind(), field))
  {
  }

  /** The rule the code's own comment gives: a record carries only what its event uses. */
  predicate OnlyOwn(e: Event, c: Correlation) {
    var scoped := ForTask(c.taskId).(attemptId := c.attemptId, runId := c.runId);
    match e
    case TaskCreated => c == ForTask(c.taskId)
    case AttemptStarted(_, _) => c == scoped
    case RunContractBound(_, _) => c == scoped.(authority := c.authority, skillUse := c.skillUse)
    case AuthorityDenied(_, _, _) => c == scoped.(authority := c.authority)
    case ArtifactPromoted(_) => c == scoped.(artifact := c.artifact, proposalId := c.proposalId)
    case ReviewApplyStarted(_) => c == scoped.(artifact := c.artifact, proposalId := c.proposalId)
    case ReviewDecisionCommitted(_, _, _) => c == scoped.(decision := c.decision, documentState := c.documentState)
    case TaskTerminated(_) => c == scoped
  }

  /** A field is set that the event does not use and the checks do not look at. */
  predicate UncheckedSet(e: Event, c: Correlation) {
    match e
    case TaskCreated => c.proposalId.Some?
    case AttemptStarted(_, _) => c.authority.Some? || c.skillUse.Some? || c.proposalId.Some?
    case RunContractBound(_, _) => c.proposalId.Some?
    case AuthorityDenied(_, _, _) => c.skillUse.Some? || c.artifact.Some? || c.proposalId.Some? || !NoReview(c)
    case ArtifactPromoted(_) => c.authority.Some? || c.skillUse.Some? || !NoReview(c)
    case ReviewApplyStarted(_) => c.authority.Some? || c.skillUse.Some? || !NoReview(c)
    case ReviewDecisionCommitted(_, _, _) =>
      c.authority.Some? || c.skillUse.Some? || c.artifact.Some? || c.proposalId.Some?
    case TaskTerminated(_) => c.artifact.Some? || c.proposalId.Some?
  }

  /** An accepted record breaks the rule exactly if one of the unchecked fields is set. */
  lemma BeyondOwnIff(e: Event, c: Correlation)
    requires ValidateCorrelation(e, c).None?
    ensures !OnlyOwn(e, c) <==> UncheckedSet(e, c)
  {
    ValidIff(e, c);
  }

  /** No record the code derives itself breaks it. */
  lemma DerivedOnlyOwn(prior: Option<Snapshot>, s: Snapshot, eventId: int, occurredAt: int)
    ensures var r := DeriveTransition(prior, s, eventId, occurredAt);
            r.Ok? ==> OnlyOwn(r.value.event, r.value.correlation)
  {
  }

  lemma DeniedOnlyOwn(a: AuthorityRef, toolName: Str, operation: Str, eventId: int, occurredAt: int)
    ensures var r := AuthorityDeniedEnvelope(a, toolName, operation, eventId, occurredAt);
            r.Ok? ==> OnlyOwn(r.value.event, r.value.correlation)
  {
  }

  const OWN_TASK := Str(0, 1)
  const OTHER_TASK := Str(1, 1)
  const BORROWED := AuthorityRef(OTHER_TASK, 1, OWN_TASK, OWN_TASK, OWN_TASK, 0)
  const BORROWING := ForTask(OWN_TASK).(attemptId := Some(1), runId := Some(OWN_TASK), authority := Some(BORROWED))

  /** A record that breaks it and is accepted: the start of an attempt that
      carries the authority of another task. */
  lemma UnusedFieldAccepted(eventId: int, occurredAt: int)
    ensures NewEnvelope(eventId, occurredAt, AttemptStarted(1, OWN_TASK), BORROWING).Ok?
    ensures !OnlyOwn(AttemptStarted(1, OWN_TASK), BORROWING)
    ensures BORROWING.authority == Some(BORROWED) && BORROWED.taskId != BORROWING.taskId
  {
    EnvelopeSound(eventId, occurredAt, AttemptStarted(1, OWN_TASK), BORROWING);
  }

  /** The contract names the snapshot's own task and active attempt. */
  predicate ContractNames(contract: Contract, s: Snapshot)
    requires s.HasAttempt()
  {
    && contract.authority.taskId == s.taskId
    && contract.authority.attemptId == s.LastAttempt().attemptId
    && contract.authority.runId == s.LastAttempt().runId
  }

  /** A record derived for an event is right for it, but for a contract that names another run. */
  lemma DerivedRecordOk(prior: Option<TaskStatus>, s: Snapshot, e: Event, c: Correlation)
    requires DeriveEvent(prior, s) == Ok(e) && Correlate(e, s) == Ok(c)
    ensures CorrelationOk(e, c) <==> (e.RunContractBound? ==> ContractNames(s.ActiveContract().value, s))
    ensures e.RunContractBound? ==> s.ActiveContract().Some? && s.HasAttempt()
  {
  }

  /** The binding of a contract, otherwise in order, is refused exactly when the
      contract names another task, attempt or run; and no other derivation is
      ever refused for its correlation. */
  lemma CorrelationRefusedIff(prior: Option<Snapshot>, s: Snapshot, eventId: int, occurredAt: int)
    ensures var r := DeriveTransition(prior, s, eventId, occurredAt);
            r.Err? && r.error.CorrelationMismatch? <==>
              && prior.Some? && prior.value.status.Running? && s.status.Running?
              && prior.value.taskId == s.taskId
              && s.revision == prior.value.revision + 1 && prior.value.updatedAt <= occurredAt
              && s.ActiveContract().Some? && !ContractNames(s.ActiveContract().value, s)
              && BindingStringsFit(s)
    ensures var r := DeriveTransition(prior, s, eventId, occurredAt);
            r.Err? && r.error.CorrelationMismatch? ==> r.error.kind == KRunContractBound
  {
    var status := if prior.Some? then Some(prior.value.status) else None;
    match DeriveEvent(status, s)
    case Err(_) =>
    case Ok(e) =>
      match Correlate(e, s)
      case Err(_) =>
      case Ok(c) =>
        DerivedRecordOk(status, s, e, c);
        ValidIff(e, c);
  }

  /** Strings a contract's evidence carries, within bounds. */
  predicate BindingStringsFit(s: Snapshot)
    requires s.ActiveContract().Some?
  {
    var contract := s.ActiveContract().value;
    && Bounded(s.taskId) && Bounded(s.LastAttempt().runId)
    && Bounded(contract.authority.policyRevision) && Bounded(contract.authority.snapshotDigest)
    && Bounded(contract.skillUse.packageId) && Bounded(contract.skillUse.packageDigest)
  }

  /** A denial's evidence is always right for the authority it was denied under;
      only an oversized string is refused. */
  lemma DenialCorrelates(a: AuthorityRef, toolName: Str, operation: Str, eventId: int, occurredAt: int)
    ensures var r := AuthorityDeniedEnvelope(a, toolName, operation, eventId, occurredAt);
            && (r.Err? ==> r.error == StringTooLong)
            && (r.Ok? <==> && Bounded(a.taskId) && Bounded(a.runId) && Bounded(a.policyRevision) && Bounded(a.snapshotDigest)
                           && Bounded(toolName) && Bounded(operation))
            && (r.Ok? ==> r.value.correlation.authority == Some(a) && Names(r.value.correlation, a))
  {
    var e := AuthorityDenied(a, toolName, operation);
    var c := ForTask(a.taskId).(attemptId := Some(a.attemptId), runId := Some(a.runId), authority := Some(a));
    ValidIff(e, c);
  }

  /** No envelope, however built, exists with a record its event does not allow. */
  lemma EnvelopeSound(eventId: int, occurredAt: int, e: Event, c: Correlation)
    ensures NewEnvelope(eventId, occurredAt, e, c).Ok? <==> StringsFit(e, c) && CorrelationOk(e, c)
  {
    ValidIff(e, c);
  }

  /** The texts of an envelope whose length is limited. */
  function LimitedTexts(e: Event, c: Correlation): set<Str> {
    {c.taskId}
    + (if c.runId.Some? then {c.runId.value} else {})
    + (if c.proposalId.Some? then {c.proposalId.value} else {})
    + (if c.authority.Some? then {c.authority.value.policyRevision, c.authority.value.snapshotDigest} else {})
    + (if c.skillUse.Some? then {c.skillUse.value.packageId, c.skillUse.value.packageDigest} else {})
    + (if c.artifact.Some? then {c.artifact.value.artifactId, c.artifact.value.proposalId, c.artifact.value.runConfigDigest} else {})
    + (if c.decision.Some? then {c.decision.value.artifactId, c.decision.value.proposalId} else {})
    + (if e.AuthorityDenied? then {e.toolName, e.requiredOperation} else {})
  }

  /** An envelope is refused for size exactly if one of those texts is over 512 bytes
      or a list of candidates is over 256 long; and for size before anything else. */
  lemma TooLongIff(eventId: int, occurredAt: int, e: Event, c: Correlation)
    ensures NewEnvelope(eventId, occurredAt, e, c) == Err(StringTooLong) <==>
              || (exists t | t in LimitedTexts(e, c) :: t.bytes > 512)
              || (c.decision.Some? && (|c.decision.value.applied| > 256 || |c.decision.value.rejected| > 256))
  {
    ValidIff(e, c);
    FitIff(e, c);
  }

  lemma FitIff(e: Event, c: Correlation)
    ensures StringsFit(e, c) <==>
              && (forall t | t in LimitedTexts(e, c) :: t.bytes <= 512)
              && (c.decision.Some? ==> |c.decision.value.applied| <= 256 && |c.decision.value.rejected| <= 256)
  {
  }

  // ---------------------------------------------------- what an event tells

  /** The artifact is the snapshot's, by every field the evidence carries. */
  predicate TellsArtifact(a: ArtifactRef, s: Snapshot) {
    && s.artifact.Some? && s.artifact.value.sourceDigest == Some(a.sourceDigest)
    && a.artifactId == s.artifact.value.artifactId && a.artifactRevision == s.artifact.value.artifactRevision
    && a.proposalId == s.artifact.value.proposalId && a.runConfigDigest == s.artifact.value.runConfigDigest
    && a.rest == s.artifact.value.rest
  }

  /** A review decision is the receipt's own, and applied exactly if the task is completed. */
  predicate TellsReview(applied: bool, d: Decision, doc: Option<DocumentState>, s: Snapshot) {
    && s.review.Some?
    && (if applied then s.status == Completed else s.status == Rejected)
    && d.artifactId == s.review.value.artifactId && d.artifactRevision == s.review.value.artifactRevision
    && d.proposalId == s.review.value.proposalId && d.decidedAt == s.review.value.decidedAt
    && d.applied == s.review.value.applied && d.rejected == s.review.value.rejected
    && (doc.Some? <==> applied && s.review.value.documentStateId.Some?)
    && (doc.Some? ==> doc.value.stateId == s.review.value.documentStateId.value
                      && doc.value.digest == s.review.value.documentDigest)
  }

  /** The terminal the status stands for. */
  predicate TellsTerminal(t: Terminal, status: TaskStatus) {
    match status
    case Failed(terminal) => t == terminal
    case WaitingForUser => t == NeedsUserInput
    case CancelledTask => t == Cancelled
    case InterruptedTask => t == Interrupted
    case StaleTask => t == Stale
    case _ => false
  }

  /** The event says of the snapshot what is in it. */
  predicate TellsSnapshot(e: Event, s: Snapshot) {
    match e
    case TaskCreated => s.status == Created
    case AttemptStarted(attemptId, runId) =>
      && s.status == Running && s.HasAttempt()
      && attemptId == s.LastAttempt().attemptId && runId == s.LastAttempt().runId
    case RunContractBound(authority, skillUse) =>
      && s.status == Running && s.ActiveContract().Some?
      && authority == s.ActiveContract().value.authority && skillUse == s.ActiveContract().value.skillUse
    case AuthorityDenied(_, _, _) => false
    case ArtifactPromoted(artifact) => s.status == ReadyForReview && TellsArtifact(artifact, s)
    case ReviewApplyStarted(artifact) => s.status == Applying && TellsArtifact(artifact, s)
    case ReviewDecisionCommitted(applied, decision, documentState) => TellsReview(applied, decision, documentState, s)
    case TaskTerminated(terminal) => TellsTerminal(terminal, s.status)
  }

  lemma EventTells(prior: Option<TaskStatus>, s: Snapshot)
    ensures DeriveEvent(prior, s).Ok? ==> TellsSnapshot(DeriveEvent(prior, s).value, s)
  {
  }

  /** A derived envelope tells its snapshot: the event's own fields, the task, the
      active attempt and its run unless the task has only been created, the proposal
      of the artifact it names, and nothing but the caller's id and time besides. */
  predicate EnvelopeTells(v: Envelope, s: Snapshot, eventId: int, occurredAt: int) {
    && TellsSnapshot(v.event, s) && CorrelationOk(v.event, v.correlation) && OnlyOwn(v.event, v.correlation)
    && v.eventId == eventId && v.occurredAt == occurredAt && v.correlation.taskId == s.taskId
    && v.correlation.attemptId
       == (if v.event.TaskCreated? || !s.HasAttempt() then None else Some(s.LastAttempt().attemptId))
    && v.correlation.runId == (if v.event.TaskCreated? || !s.HasAttempt() then None else Some(s.LastAttempt().runId))
    && v.correlation.proposalId
       == (if v.event.ArtifactPromoted? || v.event.ReviewApplyStarted? then Some(v.event.artifact.proposalId) else None)
  }

  lemma DerivedTells(prior: Option<Snapshot>, s: Snapshot, eventId: int, occurredAt: int)
    ensures var r := DeriveTransition(prior, s, eventId, occurredAt); r.Ok? ==> EnvelopeTells(r.value, s, eventId, occurredAt)
  {
    var status := if prior.Some? then Some(prior.value.status) else None;
    EventTells(status, s);
    DerivedOnlyOwn(prior, s, eventId, occurredAt);
    match DeriveEvent(status, s)
    case Err(_) =>
    case Ok(e) =>
      match Correlate(e, s)
      case Err(_) =>
      case Ok(c) => ValidIff(e, c);
  }

  // ------------------------------------------------------- what is refused

  /** The pairs of statuses a task may go through. */
  predicate LegalPair(prior: Option<TaskStatus>, status: TaskStatus) {
    match prior
    case None => status == Created
    case Some(Created) => status == Running || status == InterruptedTask
    case Some(Running) =>
      status.Running? || status.ReadyForReview? || status.Failed? || status.WaitingForUser? || status.CancelledTask?
      || status.InterruptedTask?
    case Some(ReadyForReview) => status.Applying? || status.Rejected? || status.StaleTask?
    case Some(Applying) => status.Completed? || status.Rejected? || status.InterruptedTask?
    case Some(_) => false
  }

  /** What the snapshot lacks for its event, if anything. */
  function Lacking(prior: Option<TaskStatus>, s: Snapshot): Option<ContractError> {
    match s.status
    case Running =>
      if prior == Some(Created) then (if s.HasAttempt() then None else Some(MissingTransitionField(KAttemptStarted)))
      else if s.ActiveContract().None? then Some(TransitionMismatch) else None
    case ReadyForReview => LackingArtifact(s, KArtifactPromoted)
    case Applying => LackingArtifact(s, KReviewApplyStarted)
    case Completed => if s.review.None? then Some(MissingTransitionField(KReviewDecisionCommitted)) else None
    case Rejected => if s.review.None? then Some(MissingTransitionField(KReviewDecisionCommitted)) else None
    case _ => None
  }

  function LackingArtifact(s: Snapshot, kind: EventKind): Option<ContractError> {
    if s.artifact.None? then Some(MissingTransitionField(kind))
    else if s.artifact.value.sourceDigest.None? then Some(DigestUnavailable) else None
  }

  lemma EventRefused(prior: Option<TaskStatus>, s: Snapshot)
    ensures var r := DeriveEvent(prior, s);
            if !LegalPair(prior, s.status) then r == Err(TransitionMismatch)
            else if Lacking(prior, s).Some? then r == Err(Lacking(prior, s).value)
            else r.Ok?
  {
  }

  /** Why a derivation is refused, in this order: another task, an illegal pair, a
      snapshot that lacks what its event tells, a revision that is not the next, a
      time before the last update, an attempt-scoped event without an attempt; then
      the size and the correlation of the envelope. */
  lemma DeriveRefusals(prior: Option<Snapshot>, s: Snapshot, eventId: int, occurredAt: int)
    ensures var r := DeriveTransition(prior, s, eventId, occurredAt);
            var status := if prior.Some? then Some(prior.value.status) else None;
            if prior.Some? && prior.value.taskId != s.taskId then r == Err(TaskIdMismatch)
            else if !LegalPair(status, s.status) then r == Err(TransitionMismatch)
            else if Lacking(status, s).Some? then r == Err(Lacking(status, s).value)
            else if prior.Some? && s.revision != prior.value.revision + 1 then r == Err(RevisionMismatch)
            else if prior.Some? && occurredAt < prior.value.updatedAt then r == Err(TimestampRegression)
            else if (s.status.ReadyForReview? || s.status.Applying? || s.status.Completed? || s.status.Rejected?) && !s.HasAttempt()
            then r.Err? && r.error.MissingTransitionField?
            else r.Ok? || r.error == StringTooLong || r.error.CorrelationMismatch?
  {
    var status := if prior.Some? then Some(prior.value.status) else None;
    EventRefused(status, s);
    match DeriveEvent(status, s)
    case Err(_) =>
    case Ok(e) =>
      EventTells(status, s);
      match Correlate(e, s)
      case Err(_) =>
      case Ok(c) => ValidIff(e, c);
  }

  // ----------------------------------------------------------------- chains

  datatype Link = Link(snapshot: Snapshot, eventId: int, occurredAt: int)

  function StatusOf(prior: Option<Snapshot>): Option<TaskStatus> { if prior.Some? then Some(prior.value.status) else None }

  predicate LinkOk(prior: Option<Snapshot>, link: Link) {
    DeriveTransition(prior, link.snapshot, link.eventId, link.occurredAt).Ok?
  }

  /** Every snapshot of the chain is accepted after the one before it. */
  predicate Accepted(prior: Option<Snapshot>, chain: seq<Link>)
    decreases |chain|
  {
    chain == [] || (LinkOk(prior, chain[0]) && Accepted(Some(chain[0].snapshot), chain[1..]))
  }

  /** The events the chain spells. */
  function Word(prior: Option<Snapshot>, chain: seq<Link>): (w: seq<EventKind>)
    requires Accepted(prior, chain)
    ensures |w| == |chain|
    decreases |chain|
  {
    if chain == [] then []
    else
      [DeriveTransition(prior, chain[0].snapshot, chain[0].eventId, chain[0].occurredAt).value.event.Kind()]
      + Word(Some(chain[0].snapshot), chain[1..])
  }

  // The language: created ( ended | started bound* ( ended | promoted ( decided | ended | applying ( decided | ended ) ) ) ),
  // or any beginning of such a word.

  predicate AuditWord(w: seq<EventKind>) { w == [] || (w[0] == KTaskCreated && FromCreated(w[1..])) }

  predicate FromCreated(w: seq<EventKind>) {
    w == [] || w == [KTaskTerminated] || (w[0] == KAttemptStarted && FromRunning(w[1..]))
  }

  predicate FromRunning(w: seq<EventKind>) {
    || w == [] || w == [KTaskTerminated]
    || (w[0] == KRunContractBound && FromRunning(w[1..]))
    || (w[0] == KArtifactPromoted && FromReview(w[1..]))
  }

  predicate FromReview(w: seq<EventKind>) {
    || FromApplying(w)
    || (w[0] == KReviewApplyStarted && FromApplying(w[1..]))
  }

  predicate FromApplying(w: seq<EventKind>) { w == [] || w == [KReviewDecisionCommitted] || w == [KTaskTerminated] }

  predicate After(status: Option<TaskStatus>, w: seq<EventKind>) {
    match status
    case None => AuditWord(w)
    case Some(Created) => FromCreated(w)
    case Some(Running) => FromRunning(w)
    case Some(ReadyForReview) => FromReview(w)
    case Some(Applying) => FromApplying(w)
    case Some(_) => w == []
  }

  /** One accepted step moves from one part of the language to the next. */
  lemma StepInLanguage(prior: Option<Snapshot>, link: Link, w: seq<EventKind>)
    requires LinkOk(prior, link) && After(Some(link.snapshot.status), w)
    ensures var r := DeriveTransition(prior, link.snapshot, link.eventId, link.occurredAt);
            After(StatusOf(prior), [r.value.event.Kind()] + w)
  {
    var kind := DeriveTransition(prior, link.snapshot, link.eventId, link.occurredAt).value.event.Kind();
    assert ([kind] + w)[1..] == w;
  }

  /** The snapshot before link `i`. */
  function PriorOf(prior: Option<Snapshot>, chain: seq<Link>, i: nat): Option<Snapshot>
    requires i < |chain|
  {
    if i == 0 then prior else Some(chain[i - 1].snapshot)
  }

  /** The link is accepted after `prior`, and its evidence tells its snapshot. */
  predicate LinkTells(prior: Option<Snapshot>, link: Link) {
    var r := DeriveTransition(prior, link.snapshot, link.eventId, link.occurredAt);
    r.Ok? && EnvelopeTells(r.value, link.snapshot, link.eventId, link.occurredAt)
  }

  lemma {:induction false} ChainTells(prior: Option<Snapshot>, chain: seq<Link>)
    requires Accepted(prior, chain)
    ensures forall i | 0 <= i < |chain| :: LinkTells(PriorOf(prior, chain, i), chain[i])
    decreases |chain|
  {
    if chain != [] {
      ChainTells(Some(chain[0].snapshot), chain[1..]);
      DerivedTells(prior, chain[0].snapshot, chain[0].eventId, chain[0].occurredAt);
      forall i | 0 < i < |chain|
        ensures LinkTells(PriorOf(prior, chain, i), chain[i])
      {
        assert LinkTells(PriorOf(Some(chain[0].snapshot), chain[1..], i - 1), chain[1..][i - 1]);
      }
    }
  }

  /** One link after another of the same task, times never before the last update. */
  predicate Follows(before: Link, link: Link) {
    && link.snapshot.taskId == before.snapshot.taskId
    && link.snapshot.revision == before.snapshot.revision + 1
    && before.snapshot.updatedAt <= link.occurredAt
  }

  lemma {:induction false} ChainFollows(prior: Option<Snapshot>, chain: seq<Link>)
    requires Accepted(prior, chain)
    ensures forall i | 0 < i < |chain| :: Follows(chain[i - 1], chain[i])
    decreases |chain|
  {
    if |chain| > 1 {
      ChainFollows(Some(chain[0].snapshot), chain[1..]);
      assert LinkOk(Some(chain[0].snapshot), chain[1..][0]);
      forall i | 1 < i < |chain|
        ensures Follows(chain[i - 1], chain[i])
      {
        assert Follows(chain[1..][i - 2], chain[1..][i - 1]);
      }
    }
  }

  lemma {:induction false} ChainSpells(prior: Option<Snapshot>, chain: seq<Link>)
    requires Accepted(prior, chain)
    ensures After(StatusOf(prior), Word(prior, chain))
    decreases |chain|
  {
    if chain != [] {
      ChainSpells(Some(chain[0].snapshot), chain[1..]);
      StepInLanguage(prior, chain[0], Word(Some(chain[0].snapshot), chain[1..]));
    }
  }

  /** An accepted chain is one task's: consecutive revisions, times never going
      back, its events spell a word of the language, and each of them tells the
      snapshot it stands for. */
  lemma ChainSound(prior: Option<Snapshot>, chain: seq<Link>)
    requires Accepted(prior, chain)
    ensures After(StatusOf(prior), Word(prior, chain))
    ensures forall i | 0 < i < |chain| :: Follows(chain[i - 1], chain[i])
    ensures forall i | 0 <= i < |chain| :: LinkTells(PriorOf(prior, chain, i), chain[i])
    ensures prior.Some? && chain != [] ==> chain[0].snapshot.revision == prior.value.revision + 1
  {
    ChainSpells(prior, chain);
    ChainFollows(prior, chain);
    ChainTells(prior, chain);
  }

  /** A word of the language starts with the creation and has no other; it ends
      at a termination or a review decision; and no denial is in it. */
  lemma WordShape(w: seq<EventKind>, i: nat)
    requires AuditWord(w) && i < |w|
    ensures w[i] == KTaskCreated <==> i == 0
    ensures w[i] == KAttemptStarted ==> i == 1
    ensures w[i] == KTaskTerminated || w[i] == KReviewDecisionCommitted ==> i == |w| - 1
    ensures w[i] != KAuthorityDenied
    ensures w[i] == KReviewApplyStarted ==> w[i - 1] == KArtifactPromoted
  {
    if i >= 1 && w[1] == KAttemptStarted {
      RunningShape(w[2..]);
      if i >= 2 {
        assert w[i] == w[2..][i - 2];
        if i > 2 {
          assert w[i - 1] == w[2..][i - 3];
        }
      }
    }
  }

  lemma {:induction false} RunningShape(w: seq<EventKind>)
    requires FromRunning(w)
    ensures forall i | 0 <= i < |w| ::
              && w[i] != KTaskCreated && w[i] != KAttemptStarted && w[i] != KAuthorityDenied
              && (w[i] == KTaskTerminated || w[i] == KReviewDecisionCommitted ==> i == |w| - 1)
              && (w[i] == KReviewApplyStarted ==> i > 0 && w[i - 1] == KArtifactPromoted)
  {
    if w != [] && w[0] == KRunContractBound {
      RunningShape(w[1..]);
    }
  }
}
