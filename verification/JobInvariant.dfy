/** Every step of every client and reporter keeps the registry invariant. */
module JobInvariant {
  import opened Prelude
  import opened JobModel
  import opened JobRuns

  // --------------------------------------------------- one record changes

  /** `x` looks the same before and after, up to the clock. */
  predicate SameView(w: World, w': World, x: JobId) {
    && (x in w.reg.jobs <==> x in w'.reg.jobs)
    && (x in w.reg.jobs ==> w.reg.jobs[x] == w'.reg.jobs[x])
    && (x in w.reg.tombstones <==> x in w'.reg.tombstones)
    && (x in w.reporters <==> x in w'.reporters)
    && (x in w.reporters ==> w.reporters[x] == w'.reporters[x])
    && (x in w.hist.accepted <==> x in w'.hist.accepted)
    && (x in w.hist.accepted ==> w.hist.accepted[x] == w'.hist.accepted[x])
    && (x in CollectedIds(w.hist.collected) <==> x in CollectedIds(w'.hist.collected))
    && (x in w.hist.entered <==> x in w'.hist.entered)
    && (x in w.hist.terminated <==> x in w'.hist.terminated)
    && (w'.hist.monotone ==> w.hist.monotone && w.hist.clock <= w'.hist.clock)
  }

  lemma ViewKeeps(w: World, w': World, x: JobId)
    requires JobOk(w, x) && SameView(w, w', x)
    ensures JobOk(w', x)
  {
  }

  lemma UpdateCapacity(r: Registry, id: JobId, rec': JobRecord, r': Registry)
    requires CapacityOk(r) && id in r.jobs
    requires r'.jobs == r.jobs[id := rec'] && r'.tombstones == r.tombstones && r'.shuttingDown == r.shuttingDown
    requires rec'.state.IsActive() || rec'.result.Some? ==> id in ReservedIds(r.jobs)
    requires rec'.state == Starting || rec'.state == Running ==> id in OpenIds(r.jobs)
    ensures CapacityOk(r')
  {
    assert ReservedIds(r'.jobs) <= ReservedIds(r.jobs);
    SubsetSize(ReservedIds(r'.jobs), ReservedIds(r.jobs));
    assert r'.jobs.Keys == r.jobs.Keys;
    assert OpenIds(r'.jobs) <= OpenIds(r.jobs);
  }

  /** The history sets that grow by observation grow only by the changed id. */
  lemma ObserveOne(w: World, id: JobId, reg': Registry, h: History, x: JobId)
    requires JobOk(w, x) && x != id
    requires x in reg'.jobs <==> x in w.reg.jobs
    requires x in reg'.jobs ==> reg'.jobs[x] == w.reg.jobs[x]
    requires h.entered == w.hist.entered && h.terminated == w.hist.terminated
    ensures x in Observe(h, reg').entered <==> x in w.hist.entered
    ensures x in Observe(h, reg').terminated <==> x in w.hist.terminated
  {
  }

  /** A step that changes the record of one known job, and nothing about others. */
  lemma UpdateKeeps(w: World, id: JobId, rec': JobRecord, w': World)
    requires Inv(w) && id in w.reg.jobs
    requires w'.reg.jobs == w.reg.jobs[id := rec'] && w'.reg.tombstones == w.reg.tombstones
    requires w'.reg.shuttingDown == w.reg.shuttingDown
    requires rec'.state.IsActive() || rec'.result.Some? ==> id in ReservedIds(w.reg.jobs)
    requires rec'.state == Starting || rec'.state == Running ==> id in OpenIds(w.reg.jobs)
    requires w'.hist.ids == w.hist.ids && IdsOk(w') && LogOk(w'.hist)
    requires JobOk(w', id)
    requires forall x | x in w.hist.ids && x != id :: JobOk(w, x) ==> SameView(w, w', x)
    ensures Inv(w')
  {
    UpdateCapacity(w.reg, id, rec', w'.reg);
    forall x | x in w'.hist.ids
      ensures JobOk(w', x)
    {
      if x != id {
        assert JobOk(w, x);
        ViewKeeps(w, w', x);
      }
    }
  }

  // ------------------------------------------------------------- reporters

  const DEFAULT := JobAdmission(ActionGuideVideoImport, DirectProductAction(0), DirectUserAction)

  /** How a reporter call may change its own job's record. */
  predicate ReporterEdit(rec: JobRecord, rec': JobRecord, now: nat) {
    && rec.state.IsActive()
    && RecordOk(rec')
    && rec'.updatedAt == now
    && (rec'.terminalAt.Some? ==> rec'.terminalAt.value == now)
    && !rec'.resultExpired && !rec'.resultCollected
    && (rec'.state == Starting || rec'.state == Running ==> rec.state != Cancelling)
    && (rec.state == Cancelling ==> rec'.state in {Cancelling, Cancelled, Failed})
    && (rec.state != Cancelling ==> rec'.state !in {Cancelling, Cancelled})
  }

  lemma RefusedKeeps(w: World, id: JobId, reported: bool, now: nat)
    requires Inv(w) && id in w.reporters
    requires reported ==> id in w.hist.terminated
    ensures Inv(AfterReport(w, id, ReporterOutcome(w.reg, reported, Reported), Tick(w.hist, now)))
  {
    var w' := AfterReport(w, id, ReporterOutcome(w.reg, reported, Reported), Tick(w.hist, now));
    forall x | x in w'.hist.ids
      ensures JobOk(w', x)
      ensures x in w'.hist.entered <==> x in w.hist.entered
      ensures x in w'.hist.terminated <==> x in w.hist.terminated
    {
      assert JobOk(w, x);
    }
    assert forall x | x in w.reg.jobs :: JobOk(w, x);
    assert w'.hist.entered == w.hist.entered;
  }

  /** What `ReportKeeps` assumes of a reported edit and the history it leaves. */
  ghost predicate EditRecorded(w: World, id: JobId, rec': JobRecord, reported: bool, h: History, now: nat) {
    && id in w.reporters && id in w.reg.jobs
    && ReporterEdit(w.reg.jobs[id], rec', now)
    && (reported ==> rec'.state.IsTerminal())
    && h == Tick(w.hist, now).(accepted := h.accepted)
    && (h.accepted == w.hist.accepted || exists v :: h.accepted == w.hist.accepted[id := Acceptance(v, now)])
    && (rec'.state == Succeeded ==>
          id in h.accepted && rec'.result == Some(h.accepted[id].value) && h.accepted[id].at == now)
    && (id in h.accepted ==> rec'.state in {Succeeded, Cancelled})
  }

  function Edited(w: World, id: JobId, rec': JobRecord, reported: bool, h: History): World {
    AfterReport(w, id, ReporterOutcome(WithRecord(w.reg, id, rec'), reported, Reported), h)
  }

  lemma EditedJobOk(w: World, id: JobId, rec': JobRecord, reported: bool, h: History, now: nat)
    requires Inv(w) && EditRecorded(w, id, rec', reported, h, now)
    ensures JobOk(Edited(w, id, rec', reported, h), id)
  {
    assert JobOk(w, id);
  }

  lemma EditedOthers(w: World, id: JobId, rec': JobRecord, reported: bool, h: History, now: nat, x: JobId)
    requires Inv(w) && EditRecorded(w, id, rec', reported, h, now)
    requires x in w.hist.ids && x != id
    ensures SameView(w, Edited(w, id, rec', reported, h), x)
  {
    assert JobOk(w, x);
    ObserveOne(w, id, WithRecord(w.reg, id, rec'), h, x);
  }

  /** A reporter's edit never moves its job into Cancelling. */
  lemma EditedEntered(w: World, id: JobId, rec': JobRecord, reported: bool, h: History, now: nat)
    requires Inv(w) && EditRecorded(w, id, rec', reported, h, now)
    ensures Edited(w, id, rec', reported, h).hist.entered == w.hist.entered
  {
    var jobs' := w.reg.jobs[id := rec'];
    forall x | x in CancellingIds(jobs')
      ensures x in w.hist.entered
    {
      assert JobOk(w, x);
    }
  }

  lemma ReportKeeps(w: World, id: JobId, rec': JobRecord, reported: bool, h: History, now: nat)
    requires Inv(w) && EditRecorded(w, id, rec', reported, h, now)
    ensures Inv(Edited(w, id, rec', reported, h))
  {
    var w' := Edited(w, id, rec', reported, h);
    EditedJobOk(w, id, rec', reported, h, now);
    EditedEntered(w, id, rec', reported, h, now);
    assert JobOk(w, id);
    forall x | x in w.hist.ids && x != id
      ensures JobOk(w, x) ==> SameView(w, w', x)
    {
      EditedOthers(w, id, rec', reported, h, now, x);
    }
    assert TerminalIds(w'.reg.jobs) <= w.hist.ids;
    EditedLog(w, id, h);
    UpdateKeeps(w, id, rec', w');
  }

  lemma EditedLog(w: World, id: JobId, h: History)
    requires Inv(w) && id in w.reg.jobs && w.reg.jobs[id].state.IsActive()
    requires h.accepted.Keys >= w.hist.accepted.Keys
    requires forall x | x in w.hist.accepted && x != id :: h.accepted[x] == w.hist.accepted[x]
    requires h.collected == w.hist.collected
    ensures forall i | 0 <= i < |h.collected| ::
              h.collected[i].id in h.accepted && h.collected[i].value == h.accepted[h.collected[i].id].value
  {
    assert JobOk(w, id);
    forall i | 0 <= i < |h.collected|
      ensures h.collected[i].id in h.accepted && h.collected[i].value == h.accepted[h.collected[i].id].value
    {
      assert h.collected[i].id in CollectedIds(h.collected);
      assert h.collected[i].id != id;
    }
  }

  lemma OutcomeKeeps(w: World, id: JobId, out: ReporterOutcome, rec': JobRecord, h: History, now: nat)
    requires Inv(w) && id in w.reporters
    requires out.reg == w.reg ==> h == Tick(w.hist, now) && (out.terminalReported ==> id in w.hist.terminated)
    requires out.reg != w.reg ==>
               && EditRecorded(w, id, rec', out.terminalReported, h, now)
               && out.reg == WithRecord(w.reg, id, rec')
    ensures Inv(AfterReport(w, id, out, h))
  {
    var other := ReporterOutcome(out.reg, out.terminalReported, Reported);
    assert AfterReport(w, id, out, h) == AfterReport(w, id, other, h);
    if out.reg == w.reg {
      RefusedKeeps(w, id, out.terminalReported, now);
    } else {
      ReportKeeps(w, id, rec', out.terminalReported, h, now);
    }
  }

  lemma MarkRunningKeeps(w: World, id: JobId, now: nat)
    requires Inv(w) && id in w.reporters
    ensures Inv(Step(w, OpMarkRunning(id, now)))
  {
    assert JobOk(w, id);
    var out := MarkRunning(w.reg, id, w.reporters[id], now);
    var rec' := if id in w.reg.jobs then Touch(w.reg.jobs[id], now).(state := Running) else NewRecord(DEFAULT, now);
    OutcomeKeeps(w, id, out, rec', Tick(w.hist, now), now);
  }

  lemma ProgressKeeps(w: World, id: JobId, p: Progress, now: nat)
    requires Inv(w) && id in w.reporters
    ensures Inv(Step(w, OpProgress(id, p, now)))
  {
    assert JobOk(w, id);
    var out := ReportProgress(w.reg, id, w.reporters[id], p, now);
    var rec' := if id in w.reg.jobs then Touch(w.reg.jobs[id], now).(progress := Some(p)) else NewRecord(DEFAULT, now);
    OutcomeKeeps(w, id, out, rec', Tick(w.hist, now), now);
  }

  lemma DiagnosticKeeps(w: World, id: JobId, d: Diagnostic, now: nat)
    requires Inv(w) && id in w.reporters
    ensures Inv(Step(w, OpDiagnostic(id, d, now)))
  {
    assert JobOk(w, id);
    var out := AppendDiagnostic(w.reg, id, w.reporters[id], d, now);
    var rec' := if id in w.reg.jobs then Touch(PushDiagnostic(w.reg.jobs[id], d), now) else NewRecord(DEFAULT, now);
    OutcomeKeeps(w, id, out, rec', Tick(w.hist, now), now);
  }

  lemma SucceedKeeps(w: World, id: JobId, v: Payload, now: nat)
    requires Inv(w) && id in w.reporters
    ensures Inv(Step(w, OpSucceed(id, v, now)))
  {
    assert JobOk(w, id);
    var out := Succeed(w.reg, id, v, now);
    var rec' := if id !in w.reg.jobs then NewRecord(DEFAULT, now)
                else if w.reg.jobs[id].state == Cancelling then Terminate(w.reg.jobs[id], Cancelled, now)
                else Terminate(w.reg.jobs[id], Succeeded, now).(result := Some(v));
    var h := if out.answer.Reported? then Tick(w.hist, now).(accepted := w.hist.accepted[id := Acceptance(v, now)])
             else Tick(w.hist, now);
    OutcomeKeeps(w, id, out, rec', h, now);
  }

  lemma FailKeeps(w: World, id: JobId, c: JobFailureCategory, now: nat)
    requires Inv(w) && id in w.reporters
    ensures Inv(Step(w, OpFail(id, c, now)))
  {
    assert JobOk(w, id);
    var out := Fail(w.reg, id, c, now);
    var rec' := if id in w.reg.jobs then Terminate(w.reg.jobs[id], Failed, now).(failureCategory := Some(c))
                else NewRecord(DEFAULT, now);
    OutcomeKeeps(w, id, out, rec', Tick(w.hist, now), now);
  }

  lemma CancelledKeeps(w: World, id: JobId, now: nat)
    requires Inv(w) && id in w.reporters
    ensures Inv(Step(w, OpCancelled(id, now)))
  {
    assert JobOk(w, id);
    var out := ReportCancelled(w.reg, id, now);
    var rec' := if id in w.reg.jobs then Terminate(w.reg.jobs[id], Cancelled, now) else NewRecord(DEFAULT, now);
    OutcomeKeeps(w, id, out, rec', Tick(w.hist, now), now);
  }

  // ------------------------------------------------- cancel, drop, shutdown

  /** Dropping a reporter or cancelling one job leaves every other job alone. */
  lemma OthersUnseen(w: World, id: JobId, reg': Registry, h: History, x: JobId, w': World)
    requires Inv(w) && x in w.hist.ids && x != id
    requires reg'.jobs.Keys == w.reg.jobs.Keys && reg'.tombstones == w.reg.tombstones
    requires x in w.reg.jobs ==> reg'.jobs[x] == w.reg.jobs[x]
    requires h == w.hist.(pending := h.pending)
    requires w'.reg == reg' && w'.hist == Observe(h, reg')
    requires w'.reporters == w.reporters || w'.reporters == w.reporters - {id}
    ensures SameView(w, w', x)
  {
    assert JobOk(w, x);
  }

  /** A drop that leaves the registry as it is removes the reporter and nothing else. */
  lemma DropUnchanged(w: World, id: JobId)
    requires Inv(w) && id in w.reporters && DropReporter(w.reg, id, w.reporters[id]) == w.reg
    requires id in w.reg.jobs ==> !w.reg.jobs[id].state.IsActive()
    ensures Inv(Step(w, OpDropReporter(id)))
  {
    var w' := Step(w, OpDropReporter(id));
    SeenStates(w);
    assert w'.hist == w.hist;
    assert JobOk(w, id);
    forall x | x in w.hist.ids && x != id
      ensures JobOk(w, x) ==> SameView(w, w', x)
    {
    }
    AbsentKeeps(w, id, w');
  }

  /** What dropping the reporter of an active job leaves. */
  function Abandoned(w: World, id: JobId): World
    requires id in w.reg.jobs
  {
    World(WithRecord(w.reg, id, Abandon(w.reg.jobs[id])), w.reporters - {id},
          w.hist.(terminated := w.hist.terminated + {id}))
  }

  lemma AbandonStep(w: World, id: JobId)
    requires Inv(w) && id in ActiveIds(w.reg.jobs) && id in w.reporters && !w.reporters[id]
    ensures Step(w, OpDropReporter(id)) == Abandoned(w, id)
  {
    SeenStates(w);
    var jobs' := w.reg.jobs[id := Abandon(w.reg.jobs[id])];
    assert CancellingIds(jobs') <= CancellingIds(w.reg.jobs);
    assert TerminalIds(jobs') == TerminalIds(w.reg.jobs) + {id};
  }

  lemma AbandonedJobOk(w: World, id: JobId)
    requires Inv(w) && id in ActiveIds(w.reg.jobs)
    ensures JobOk(Abandoned(w, id), id)
  {
    SeenStates(w);
    assert JobOk(w, id);
  }

  lemma DropKeeps(w: World, id: JobId)
    requires Inv(w) && id in w.reporters
    ensures Inv(Step(w, OpDropReporter(id)))
  {
    assert JobOk(w, id);
    if id !in ActiveIds(w.reg.jobs) {
      DropUnchanged(w, id);
    } else {
      var w' := Abandoned(w, id);
      AbandonStep(w, id);
      AbandonedJobOk(w, id);
      forall x | x in w.hist.ids && x != id
        ensures JobOk(w, x) ==> SameView(w, w', x)
      {
        OthersUnseen(w, id, w'.reg, w.hist, x, w');
      }
      UpdateKeeps(w, id, w'.reg.jobs[id], w');
    }
  }

  lemma AbsentKeeps(w: World, id: JobId, w': World)
    requires Inv(w) && w'.reg == w.reg && w'.hist.ids == w.hist.ids
    requires IdsOk(w') && LogOk(w'.hist)
    requires JobOk(w', id)
    requires forall x | x in w.hist.ids && x != id :: JobOk(w, x) ==> SameView(w, w', x)
    ensures Inv(w')
  {
    forall x | x in w'.hist.ids
      ensures JobOk(w', x)
    {
      if x != id {
        assert JobOk(w, x);
        ViewKeeps(w, w', x);
      }
    }
  }

  lemma UpdatedStates(jobs: map<JobId, JobRecord>, id: JobId, rec': JobRecord)
    requires rec'.state == Cancelling && id in jobs && jobs[id].state.IsActive()
    ensures CancellingIds(jobs[id := rec']) == CancellingIds(jobs) + {id}
    ensures TerminalIds(jobs[id := rec']) == TerminalIds(jobs)
  {
  }

  lemma CancelRefused(w: World, id: JobId, now: nat)
    requires Inv(w) && id !in OpenIds(w.reg.jobs)
    ensures Step(w, OpCancel(id, now)) == w
  {
    SeenStates(w);
    assert Observe(w.hist, w.reg) == w.hist;
  }

  lemma CancelRequested(w: World, id: JobId, now: nat)
    requires Inv(w) && id in OpenIds(w.reg.jobs)
    ensures Step(w, OpCancel(id, now)).hist
         == w.hist.(pending := w.hist.pending + multiset{id}, entered := w.hist.entered + {id})
    ensures JobOk(Step(w, OpCancel(id, now)), id)
  {
    SeenStates(w);
    UpdatedStates(w.reg.jobs, id, RequestCancel(w.reg.jobs[id], now));
    assert JobOk(w, id);
  }

  lemma CancelKeeps(w: World, id: JobId, now: nat)
    requires Inv(w)
    ensures Inv(Step(w, OpCancel(id, now)))
  {
    if id !in OpenIds(w.reg.jobs) {
      CancelRefused(w, id, now);
    } else {
      var w' := Step(w, OpCancel(id, now));
      CancelRequested(w, id, now);
      SeenStates(w);
      assert multiset(w'.hist.entered) == multiset(w.hist.entered) + multiset{id};
      forall x | x in w.hist.ids && x != id
        ensures JobOk(w, x) ==> SameView(w, w', x)
      {
        OthersUnseen(w, id, w'.reg, w.hist.(pending := w'.hist.pending), x, w');
      }
      UpdateKeeps(w, id, w'.reg.jobs[id], w');
    }
  }

  lemma CallbackKeeps(w: World, id: JobId)
    requires Inv(w) && id in w.hist.pending
    ensures Inv(Step(w, OpCallback(id)))
  {
    var w' := Step(w, OpCallback(id));
    SeenStates(w);
    assert w'.hist.entered == w.hist.entered && w'.hist.terminated == w.hist.terminated;
    assert w'.hist.pending + w'.hist.ran == w.hist.pending + w.hist.ran;
    forall x | x in w'.hist.ids
      ensures JobOk(w', x)
    {
      assert JobOk(w, x);
      ViewKeeps(w, w', x);
    }
  }
}
