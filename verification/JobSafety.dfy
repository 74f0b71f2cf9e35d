/** The remaining steps, and the invariant over every run. */
module JobSafety {
  import opened Prelude
  import opened JobModel
  import opened JobRuns
  import opened JobPruning
  import opened JobInvariant

  // --------------------------------------------------------------- collect

  /** Any answer but Ok leaves what the pruning left. */
  lemma CollectRefused(w: World, id: JobId)
    requires Inv(w) && !Collect(w.reg, id).1.Collected?
    ensures Collect(w.reg, id).0 == w.reg
  {
    if id in w.reg.jobs {
      assert JobOk(w, id);
      assert w.reg.jobs[id := w.reg.jobs[id]] == w.reg.jobs;
    }
  }

  function TakeResult(rec: JobRecord): JobRecord {
    rec.(result := None, resultCollected := true)
  }

  function WithCollection(w: World, id: JobId): World
    requires id in w.reg.jobs && w.reg.jobs[id].result.Some?
  {
    var rec := w.reg.jobs[id];
    w.(reg := w.reg.(jobs := w.reg.jobs[id := TakeResult(rec)]),
       hist := w.hist.(collected := w.hist.collected + [Collection(id, rec.result.value)]))
  }

  lemma AppendedIds(log: seq<Collection>, c: Collection)
    ensures CollectedIds(log + [c]) == CollectedIds(log) + {c.id}
  {
    assert forall d :: d in log + [c] <==> d in log || d == c;
    assert c in log + [c];
    forall x | x in CollectedIds(log)
      ensures x in CollectedIds(log + [c])
    {
      var d :| d in log && d.id == x;
      assert d in log + [c];
    }
  }

  lemma CollectionLogged(w: World, id: JobId)
    requires Inv(w) && id in w.reg.jobs && w.reg.jobs[id].result.Some?
    ensures LogOk(WithCollection(w, id).hist)
  {
    assert JobOk(w, id);
    assert forall i | 0 <= i < |w.hist.collected| :: w.hist.collected[i].id in CollectedIds(w.hist.collected);
  }

  lemma CollectionKeeps(w: World, id: JobId)
    requires Inv(w) && id in w.reg.jobs && w.reg.jobs[id].result.Some?
    ensures Inv(WithCollection(w, id))
  {
    var w' := WithCollection(w, id);
    var rec := w.reg.jobs[id];
    assert JobOk(w, id);
    AppendedIds(w.hist.collected, Collection(id, rec.result.value));
    CollectionLogged(w, id);
    forall x | x in w.hist.ids && x != id
      ensures JobOk(w, x) ==> SameView(w, w', x)
    {
    }
    UpdateKeeps(w, id, TakeResult(rec), w');
  }

  /** Changing or adding a record that is neither Cancelling nor newly terminal. */
  lemma UpdatedSeen(jobs: map<JobId, JobRecord>, id: JobId, rec': JobRecord)
    requires rec'.state != Cancelling && (id in jobs ==> jobs[id].state != Cancelling)
    requires if id in jobs then rec'.state.IsTerminal() == jobs[id].state.IsTerminal() else !rec'.state.IsTerminal()
    ensures CancellingIds(jobs[id := rec']) == CancellingIds(jobs)
    ensures TerminalIds(jobs[id := rec']) == TerminalIds(jobs)
  {
  }

  lemma CollectSucceeded(w: World, id: JobId, now: nat, pruned: Registry)
    requires Enabled(w, OpCollect(id, now, pruned))
    requires id in pruned.jobs && pruned.jobs[id].result.Some?
    requires pruned.jobs[id].state == Succeeded && !pruned.jobs[id].resultCollected
    requires Observe(Tick(w.hist, now), pruned) == Tick(w.hist, now)
    ensures Step(w, OpCollect(id, now, pruned)) == WithCollection(AfterPrune(w, now, pruned), id)
  {
    UpdatedSeen(pruned.jobs, id, TakeResult(pruned.jobs[id]));
  }

  lemma CollectKeeps(w: World, id: JobId, now: nat, pruned: Registry)
    requires Inv(w) && Enabled(w, OpCollect(id, now, pruned))
    ensures Inv(Step(w, OpCollect(id, now, pruned)))
  {
    var wp := AfterPrune(w, now, pruned);
    PruneKeeps(w, now, false, pruned);
    if Collect(pruned, id).1.Collected? {
      CollectSucceeded(w, id, now, pruned);
      CollectionKeeps(wp, id);
    } else {
      CollectRefused(wp, id);
    }
  }

  // ----------------------------------------------------------------- admit

  function WithAdmitted(w: World, id: JobId, rec: JobRecord): World {
    w.(reg := WithRecord(w.reg, id, rec),
       reporters := w.reporters[id := false],
       hist := w.hist.(ids := w.hist.ids + {id}))
  }

  lemma AdmittedCapacity(r: Registry, id: JobId, rec: JobRecord)
    requires CapacityOk(r) && !r.shuttingDown && id !in r.jobs && rec.state == Starting
    requires |TerminalIds(r.jobs)| < MAX_TERMINAL_JOBS && |ActiveIds(r.jobs)| < MAX_ACTIVE_JOBS
    requires |ReservedIds(r.jobs)| < MAX_UNCOLLECTED_RESULT_SLOTS
    ensures CapacityOk(WithRecord(r, id, rec))
  {
    AdmittedReserves(r.jobs, id, rec);
    JobsCounted(r.jobs);
  }

  lemma AdmittedReserves(jobs: map<JobId, JobRecord>, id: JobId, rec: JobRecord)
    requires id !in jobs && rec.state == Starting
    ensures |ReservedIds(jobs[id := rec])| == |ReservedIds(jobs)| + 1 && |jobs[id := rec]| == |jobs| + 1
  {
    var jobs' := jobs[id := rec];
    assert ReservedIds(jobs') == ReservedIds(jobs) + {id};
    assert jobs'.Keys == jobs.Keys + {id};
  }

  lemma JobsCounted(jobs: map<JobId, JobRecord>)
    ensures |jobs| == |ActiveIds(jobs)| + |TerminalIds(jobs)|
  {
    assert jobs.Keys == ActiveIds(jobs) + TerminalIds(jobs);
  }

  lemma AdmittedKeeps(w: World, id: JobId, a: JobAdmission)
    requires Inv(w) && id !in w.hist.ids && !w.reg.shuttingDown
    requires |TerminalIds(w.reg.jobs)| < MAX_TERMINAL_JOBS && |ActiveIds(w.reg.jobs)| < MAX_ACTIVE_JOBS
    requires |ReservedIds(w.reg.jobs)| < MAX_UNCOLLECTED_RESULT_SLOTS
    ensures Inv(WithAdmitted(w, id, NewRecord(a, w.hist.clock)))
  {
    var rec := NewRecord(a, w.hist.clock);
    var w' := WithAdmitted(w, id, rec);
    AdmittedCapacity(w.reg, id, rec);
    forall c | c in w.hist.collected
      ensures c.id in w.hist.ids
    {
      var i :| 0 <= i < |w.hist.collected| && w.hist.collected[i] == c;
    }
    forall x | x in w'.hist.ids
      ensures JobOk(w', x)
    {
      if x != id {
        assert JobOk(w, x);
        ViewKeeps(w, w', x);
      }
    }
  }

  /** The step of `admit`, spelled out. */
  lemma StepAdmit(w: World, a: JobAdmission, now: nat, id: JobId, pruned: Registry)
    ensures var (reg', res) := Admit(w.reg, a, now, id, pruned);
            Step(w, OpAdmit(a, now, id, pruned))
            == if res.Admitted?
               then World(reg', w.reporters[id := false], Observe(Tick(w.hist, now).(ids := w.hist.ids + {id}), reg'))
               else World(reg', w.reporters, Observe(Tick(w.hist, now), reg'))
  {
  }

  lemma AdmitCases(r: Registry, a: JobAdmission, now: nat, id: JobId, pruned: Registry)
    ensures var (reg', res) := Admit(r, a, now, id, pruned);
            if res.Admitted? then
              && reg' == WithRecord(pruned, id, NewRecord(a, now)) && !r.shuttingDown
              && |TerminalIds(pruned.jobs)| < MAX_TERMINAL_JOBS && |ActiveIds(pruned.jobs)| < MAX_ACTIVE_JOBS
              && |ReservedIds(pruned.jobs)| < MAX_UNCOLLECTED_RESULT_SLOTS
            else reg' == r || reg' == pruned
  {
  }

  /** The history sees a freshly admitted job only as a new id. */
  lemma AdmittedSeen(h: History, pruned: Registry, id: JobId, a: JobAdmission, now: nat)
    requires Observe(h, pruned) == h && id !in pruned.jobs
    ensures Observe(h.(ids := h.ids + {id}), WithRecord(pruned, id, NewRecord(a, now))) == h.(ids := h.ids + {id})
  {
    UpdatedSeen(pruned.jobs, id, NewRecord(a, now));
  }

  lemma TickKeeps(w: World, now: nat)
    requires Inv(w)
    ensures Inv(w.(hist := Tick(w.hist, now)))
  {
    var w' := w.(hist := Tick(w.hist, now));
    forall x | x in w'.hist.ids
      ensures JobOk(w', x)
    {
      assert JobOk(w, x);
      ViewKeeps(w, w', x);
    }
  }

  lemma SeenAgain(w: World, now: nat)
    requires Inv(w)
    ensures Observe(Tick(w.hist, now), w.reg) == Tick(w.hist, now)
  {
    SeenStates(w);
  }

  lemma AdmitKeeps(w: World, a: JobAdmission, now: nat, id: JobId, pruned: Registry)
    requires Inv(w) && id !in w.hist.ids && Pruned(w.reg, now, true, pruned)
    ensures Inv(Step(w, OpAdmit(a, now, id, pruned)))
  {
    StepAdmit(w, a, now, id, pruned);
    AdmitCases(w.reg, a, now, id, pruned);
    PruneKeeps(w, now, true, pruned);
    if Admit(w.reg, a, now, id, pruned).1.Admitted? {
      AdmittedSeen(Tick(w.hist, now), pruned, id, a, now);
      AdmittedKeeps(AfterPrune(w, now, pruned), id, a);
    } else {
      SeenAgain(w, now);
      TickKeeps(w, now);
    }
  }

  // -------------------------------------------------------------- shutdown

  lemma ShutdownStates(r: Registry, now: nat)
    ensures var jobs' := Shutdown(r, now).0.jobs;
            && CancellingIds(jobs') == CancellingIds(r.jobs) + OpenIds(r.jobs)
            && TerminalIds(jobs') == TerminalIds(r.jobs)
            && ReservedIds(jobs') == ReservedIds(r.jobs)
            && OpenIds(jobs') == {}
            && jobs'.Keys == r.jobs.Keys
  {
  }

  /** The world a shutdown leaves: every open job has entered Cancelling, its callback pending. */
  function AfterShutdownCall(w: World, now: nat): World {
    var open := OpenIds(w.reg.jobs);
    World(Shutdown(w.reg, now).0, w.reporters,
          w.hist.(pending := w.hist.pending + multiset(open), entered := w.hist.entered + open))
  }

  lemma ShutdownSeen(h: History, r: Registry, now: nat)
    requires CancellingIds(r.jobs) <= h.entered && TerminalIds(r.jobs) <= h.terminated
    ensures Observe(h, Shutdown(r, now).0) == h.(entered := h.entered + OpenIds(r.jobs))
  {
    ShutdownStates(r, now);
    assert h.entered + (CancellingIds(r.jobs) + OpenIds(r.jobs)) == h.entered + OpenIds(r.jobs);
    assert h.terminated + TerminalIds(r.jobs) == h.terminated;
  }

  lemma StepShutdown(w: World, now: nat)
    requires CancellingIds(w.reg.jobs) <= w.hist.entered && TerminalIds(w.reg.jobs) <= w.hist.terminated
    ensures Step(w, OpShutdown(now)) == AfterShutdownCall(w, now)
  {
    ShutdownSeen(w.hist.(pending := w.hist.pending + multiset(OpenIds(w.reg.jobs))), w.reg, now);
  }

  lemma ShutdownJobOk(w: World, now: nat, id: JobId)
    requires JobOk(w, id)
    ensures JobOk(AfterShutdownCall(w, now), id)
  {
  }

  lemma ShutdownLog(w: World, now: nat)
    requires Inv(w)
    ensures LogOk(AfterShutdownCall(w, now).hist)
  {
    var open := OpenIds(w.reg.jobs);
    SeenStates(w);
    assert multiset(w.hist.entered + open) == multiset(w.hist.entered) + multiset(open);
    assert (w.hist.pending + multiset(open)) + w.hist.ran == (w.hist.pending + w.hist.ran) + multiset(open);
  }

  lemma ShutdownKeeps(w: World, now: nat)
    requires Inv(w)
    ensures Inv(Step(w, OpShutdown(now)))
  {
    var w' := AfterShutdownCall(w, now);
    SeenStates(w);
    StepShutdown(w, now);
    ShutdownStates(w.reg, now);
    ShutdownLog(w, now);
    forall id | id in w'.hist.ids
      ensures JobOk(w', id)
    {
      assert JobOk(w, id);
      ShutdownJobOk(w, now, id);
    }
  }

  // ------------------------------------------------------------- all steps

  lemma StepKeeps(w: World, op: Op)
    requires Inv(w) && Enabled(w, op)
    ensures Inv(Step(w, op))
  {
    match op
    case OpAdmit(a, now, id, pruned) => AdmitKeeps(w, a, now, id, pruned);
    case OpMarkRunning(id, now) => MarkRunningKeeps(w, id, now);
    case OpProgress(id, p, now) => ProgressKeeps(w, id, p, now);
    case OpDiagnostic(id, d, now) => DiagnosticKeeps(w, id, d, now);
    case OpSucceed(id, v, now) => SucceedKeeps(w, id, v, now);
    case OpFail(id, c, now) => FailKeeps(w, id, c, now);
    case OpCancelled(id, now) => CancelledKeeps(w, id, now);
    case OpDropReporter(id) => DropKeeps(w, id);
    case OpCancel(id, now) => CancelKeeps(w, id, now);
    case OpCallback(id) => CallbackKeeps(w, id);
    case OpCollect(id, now, pruned) => CollectKeeps(w, id, now, pruned);
    case OpPrune(now, pruned) => PruneKeeps(w, now, false, pruned);
    case OpShutdown(now) => ShutdownKeeps(w, now);
  }

  /** `ws` are the worlds of a run that `ops` drive, one step each. */
  ghost predicate Run(ws: seq<World>, ops: seq<Op>) {
    && |ws| == |ops| + 1
    && ws[0] == START
    && forall i {:trigger ops[i]} | 0 <= i < |ops| :: Enabled(ws[i], ops[i]) && ws[i + 1] == Step(ws[i], ops[i])
  }

  /** Every state of every run satisfies the invariant. */
  lemma {:induction false} RunKeeps(ws: seq<World>, ops: seq<Op>, k: nat)
    requires Run(ws, ops) && k < |ws|
    ensures Inv(ws[k])
  {
    if k > 0 {
      RunKeeps(ws, ops, k - 1);
      StepKeeps(ws[k - 1], ops[k - 1]);
    }
  }
}
