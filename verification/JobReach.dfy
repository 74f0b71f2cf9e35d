/** Runs that do happen: pruning is always possible, every transition of the code
    is taken, and results are forgotten once 128 tombstones are there. */
module JobReach {
  import opened Prelude
  import opened JobModel
  import opened JobRuns
  import opened JobPruning
  import opened JobSafety
  import opened JobTheorems
  import opened JobLosses

  // ----------------------------------------------------- pruning is possible

  /** Among terminal records there is one that goes no later than any other. */
  lemma {:induction false} FirstToGo(jobs: map<JobId, JobRecord>, ids: set<JobId>) returns (first: JobId)
    requires ids != {} && ids <= jobs.Keys
    ensures first in ids && forall b | b in ids :: EvictedNoLater(jobs[first], jobs[b])
    decreases ids
  {
    var one :| one in ids;
    var rest := ids - {one};
    first := one;
    if rest != {} {
      var next := FirstToGo(jobs, rest);
      if !EvictedNoLater(jobs[one], jobs[next]) {
        first := next;
      }
    }
    forall b | b in ids
      ensures EvictedNoLater(jobs[first], jobs[b])
    {
      assert b in rest || b == one;
    }
  }

  /** The eviction order always has a choice. */
  lemma {:induction false} EvictionExists(jobs: map<JobId, JobRecord>, excess: nat) returns (evicted: set<JobId>)
    requires excess <= |TerminalIds(jobs)|
    ensures EvictedSet(jobs, excess, evicted)
    decreases excess
  {
    if excess == 0 {
      evicted := {};
    } else {
      var before := EvictionExists(jobs, excess - 1);
      var left := TerminalIds(jobs) - before;
      if left == {} {
        assert forall id | id in TerminalIds(jobs) :: id in left || id in before;
        SubsetSize(TerminalIds(jobs), before);
        assert false;
      }
      var first := FirstToGo(jobs, left);
      evicted := before + {first};
    }
  }

  /** ... and so have the tombstones. */
  lemma {:induction false} TombstonesExist(before: set<JobId>, wanted: set<JobId>) returns (after: set<JobId>)
    requires |before| <= MAX_TERMINAL_JOBS
    ensures Tombstoned(before, wanted, after)
    decreases wanted
  {
    if wanted == {} {
      after := before;
    } else {
      var id :| id in wanted;
      var some := TombstonesExist(before, wanted - {id});
      after := if |some| < MAX_TERMINAL_JOBS then some + {id} else some;
      assert before + wanted == before + (wanted - {id}) + {id};
    }
  }

  /** Whatever the registry, the time and the purpose, pruning leaves something. */
  lemma PruneExists(r: Registry, now: nat, makeRoom: bool) returns (r': Registry)
    requires |r.tombstones| <= MAX_TERMINAL_JOBS
    ensures Pruned(r, now, makeRoom, r')
  {
    var mid := ExpireJobs(r.jobs, now);
    var evicted := EvictionExists(mid, Excess(mid, makeRoom));
    var tombstones := TombstonesExist(r.tombstones, ExpiringIds(r.jobs, now) + UncollectedAmong(mid, evicted));
    r' := r.(jobs := mid - evicted, tombstones := tombstones);
    ExpiryKeepsStates(r.jobs, now);
    LeftByEviction(r.jobs, mid, evicted);
  }

  lemma LeftByEviction(jobs: map<JobId, JobRecord>, mid: map<JobId, JobRecord>, evicted: set<JobId>)
    requires mid.Keys == jobs.Keys && evicted <= jobs.Keys
    ensures jobs.Keys - (mid - evicted).Keys == evicted
  {
  }

  // ------------------------------------------------------------ longer runs

  function Last(ws: seq<World>): World
    requires |ws| > 0
  {
    ws[|ws| - 1]
  }

  /** One link of a run. */
  ghost predicate Follows(w: World, op: Op, w': World) { Enabled(w, op) && w' == Step(w, op) }

  lemma OneStepMore(ws: seq<World>, ops: seq<Op>, op: Op)
    requires Run(ws, ops) && Enabled(Last(ws), op)
    ensures Run(ws + [Step(Last(ws), op)], ops + [op])
  {
    RunLinks(ws, ops);
    LinksAppend(ws, ops, op, Step(Last(ws), op));
    LinksRun(ws + [Step(Last(ws), op)], ops + [op]);
  }

  ghost predicate Linked(ws: seq<World>, ops: seq<Op>) {
    && |ws| == |ops| + 1
    && ws[0] == START
    && forall i {:trigger ops[i]} | 0 <= i < |ops| :: Follows(ws[i], ops[i], ws[i + 1])
  }

  lemma RunLinks(ws: seq<World>, ops: seq<Op>)
    requires Run(ws, ops)
    ensures Linked(ws, ops)
  {
  }

  lemma LinksRun(ws: seq<World>, ops: seq<Op>)
    requires Linked(ws, ops)
    ensures Run(ws, ops)
  {
    forall i | 0 <= i < |ops|
      ensures Enabled(ws[i], ops[i]) && ws[i + 1] == Step(ws[i], ops[i])
    {
      assert Follows(ws[i], ops[i], ws[i + 1]);
    }
  }

  lemma LinksAppend(ws: seq<World>, ops: seq<Op>, op: Op, w': World)
    requires Linked(ws, ops) && Follows(Last(ws), op, w')
    ensures Linked(ws + [w'], ops + [op])
  {
  }

  lemma {:induction false} FreshId(ids: set<JobId>) returns (id: JobId)
    ensures id !in ids && forall x | x in ids :: x.uuid < id.uuid
    decreases ids
  {
    if ids == {} {
      id := JobId(0);
    } else {
      var one :| one in ids;
      var above := FreshId(ids - {one});
      id := JobId(Max(above.uuid, one.uuid) + 1);
    }
  }

  const ADMISSION := JobAdmission(ActionGuideVideoImport, DirectProductAction(0), DirectUserAction)

  /** An open registry with all four slots free can be given a job. */
  predicate Idle(w: World) {
    !w.reg.shuttingDown && w.hist.monotone && ReservedIds(w.reg.jobs) == {}
  }

  /** One job admitted to an idle registry. */
  lemma AdmitOne(ws: seq<World>, ops: seq<Op>) returns (ws': seq<World>, ops': seq<Op>, id: JobId)
    requires Run(ws, ops) && Idle(Last(ws))
    ensures Run(ws', ops') && |ws'| == |ws| + 1 && ws == ws'[..|ws|]
    ensures var w := Last(ws');
            && id !in Last(ws).hist.ids && id in w.reg.jobs && id in w.reporters && id !in w.hist.accepted
            && w.reg.jobs[id] == NewRecord(ADMISSION, w.hist.clock) && !w.reg.shuttingDown && w.hist.monotone
            && ReservedIds(w.reg.jobs) == {id}
  {
    var w, k := Last(ws), |ws| - 1;
    RunKeeps(ws, ops, k);
    var now := w.hist.clock;
    id := FreshId(w.hist.ids);
    var pruned := PruneExists(w.reg, now, true);
    var op := OpAdmit(ADMISSION, now, id, pruned);
    assert Enabled(w, op);
    PrunedSlots(w, now, true, pruned);
    assert SlotIds(w.reg.jobs, now) <= ReservedIds(w.reg.jobs);
    AdmitAnswer(ws, ops, k, ADMISSION, now, id, pruned);
    AdmitWorld(w, ADMISSION, now, id, pruned);
    OneStepMore(ws, ops, op);
    ws', ops' := ws + [Step(w, op)], ops + [op];
    Reserves(pruned.jobs, id, NewRecord(ADMISSION, now));
  }

  lemma Reserves(jobs: map<JobId, JobRecord>, id: JobId, rec: JobRecord)
    requires rec.state.IsActive() || rec.result.Some?
    ensures ReservedIds(jobs[id := rec]) == ReservedIds(jobs) + {id}
  {
  }

  // ---------------------------------------------------- forgotten results

  /** A job that succeeds at the time it was admitted. */
  lemma SucceededNow(w: World, id: JobId)
    requires Inv(w) && id in w.reg.jobs && id in w.reporters && w.hist.monotone
    requires w.reg.jobs[id] == NewRecord(ADMISSION, w.hist.clock) && ReservedIds(w.reg.jobs) == {id}
    ensures var w' := Step(w, OpSucceed(id, 0, w.hist.clock));
            && w'.hist.monotone && w'.hist.clock == w.hist.clock && w'.reg.shuttingDown == w.reg.shuttingDown
            && ReservedIds(w'.reg.jobs) == {id} && id in w'.reg.jobs
            && Expires(w'.reg.jobs[id], w.hist.clock + TERMINAL_TTL_MS)
  {
    var rec := Terminate(w.reg.jobs[id], Succeeded, w.hist.clock).(result := Some(0));
    Reserves(w.reg.jobs, id, rec);
  }

  /** A held result that will expire a time to live later, and nothing else reserved. */
  predicate Expiring(w: World, id: JobId) {
    && w.hist.monotone && !w.reg.shuttingDown && ReservedIds(w.reg.jobs) == {id}
    && id in w.reg.jobs && Expires(w.reg.jobs[id], w.hist.clock + TERMINAL_TTL_MS)
  }

  /** A new job is admitted and succeeds. */
  lemma SucceedOne(ws: seq<World>, ops: seq<Op>) returns (ws': seq<World>, ops': seq<Op>, id: JobId)
    requires Run(ws, ops) && Idle(Last(ws))
    ensures Run(ws', ops') && |ws| < |ws'| && ws == ws'[..|ws|]
    ensures id !in Last(ws).hist.ids && Expiring(Last(ws'), id)
  {
    ws', ops', id := AdmitOne(ws, ops);
    RunKeeps(ws', ops', |ws'| - 1);
    var w := Last(ws');
    SucceededNow(w, id);
    var op := OpSucceed(id, 0, w.hist.clock);
    OneStepMore(ws', ops', op);
    ws', ops' := ws' + [Step(w, op)], ops' + [op];
  }

  /** It expires, and the registry is idle again. */
  lemma ExpireOne(ws: seq<World>, ops: seq<Op>, id: JobId) returns (ws': seq<World>, ops': seq<Op>)
    requires Run(ws, ops) && Expiring(Last(ws), id)
    ensures Run(ws', ops') && Idle(Last(ws'))
    ensures LostIds(Last(ws)) <= LostIds(Last(ws')) && id in LostIds(Last(ws'))
  {
    var w := Last(ws);
    RunKeeps(ws, ops, |ws| - 1);
    var now := w.hist.clock + TERMINAL_TTL_MS;
    var pruned := PruneExists(w.reg, now, false);
    var op := OpPrune(now, pruned);
    PruneStep(w, now, pruned);
    NothingHeld(w, id, now, pruned);
    OneStepMore(ws, ops, op);
    ws', ops' := ws + [Step(w, op)], ops + [op];
  }

  /** One more lost result. */
  lemma LoseOne(ws: seq<World>, ops: seq<Op>) returns (ws': seq<World>, ops': seq<Op>)
    requires Run(ws, ops) && Idle(Last(ws))
    ensures Run(ws', ops') && Idle(Last(ws')) && |LostIds(Last(ws'))| > |LostIds(Last(ws))|
  {
    var ws1, ops1, id := SucceedOne(ws, ops);
    ws', ops' := ExpireOne(ws1, ops1, id);
    assert ws1[|ws| - 1] == Last(ws);
    LostForGood(ws1, ops1, |ws| - 1, |ws1| - 1);
    LostWereIssued(ws, ops);
    MoreLost(LostIds(Last(ws)), LostIds(Last(ws')), id);
  }

  lemma LostWereIssued(ws: seq<World>, ops: seq<Op>)
    requires Run(ws, ops)
    ensures LostIds(Last(ws)) <= Last(ws).hist.ids
  {
    RunKeeps(ws, ops, |ws| - 1);
  }

  lemma PruneStep(w: World, now: nat, pruned: Registry)
    requires Inv(w) && Pruned(w.reg, now, false, pruned)
    ensures Step(w, OpPrune(now, pruned)) == AfterPrune(w, now, pruned) && Enabled(w, OpPrune(now, pruned))
  {
    PruneKeeps(w, now, false, pruned);
  }

  lemma MoreLost(a: set<JobId>, b: set<JobId>, id: JobId)
    requires a <= b && id in b && id !in a
    ensures |b| > |a|
  {
    SubsetSize(a + {id}, b);
  }

  lemma NothingHeld(w: World, id: JobId, now: nat, pruned: Registry)
    requires Inv(w) && Expiring(w, id) && now == w.hist.clock + TERMINAL_TTL_MS && Pruned(w.reg, now, false, pruned)
    ensures Idle(AfterPrune(w, now, pruned))
    ensures LostIds(w) <= LostIds(AfterPrune(w, now, pruned)) && id in LostIds(AfterPrune(w, now, pruned))
  {
    PrunedSlots(w, now, false, pruned);
    NoSlots(w.reg.jobs, id, now);
    PruneOpen(w.reg, now, pruned);
    PruneLoses(w, now, false, pruned);
    LosingExpired(w.reg, now, pruned, id);
  }

  lemma NoSlots(jobs: map<JobId, JobRecord>, id: JobId, now: nat)
    requires ReservedIds(jobs) == {id} && id in jobs && Expires(jobs[id], now)
    ensures SlotIds(jobs, now) == {}
  {
    forall x | x in jobs
      ensures x !in SlotIds(jobs, now)
    {
      assert x in ReservedIds(jobs) <==> x == id;
    }
  }

  lemma LosingExpired(r: Registry, now: nat, pruned: Registry, id: JobId)
    requires id in r.jobs && Expires(r.jobs[id], now)
    ensures id in Losing(r, now, pruned)
  {
  }

  lemma PruneOpen(r: Registry, now: nat, pruned: Registry)
    requires Pruned(r, now, false, pruned)
    ensures pruned.shuttingDown == r.shuttingDown
  {
  }

  lemma {:induction false} LoseMany(n: nat) returns (ws: seq<World>, ops: seq<Op>)
    ensures Run(ws, ops) && Idle(Last(ws)) && |LostIds(Last(ws))| >= n
  {
    if n == 0 {
      ws, ops := [START], [];
    } else {
      ws, ops := LoseMany(n - 1);
      ws, ops := LoseOne(ws, ops);
    }
  }

  /** Some run, under a clock that does not go back, forgets a result: it was
      accepted and lost, and `collect` answers JobNotFound for it. */
  lemma ForgottenResult()
    returns (ws: seq<World>, ops: seq<Op>, id: JobId, now: nat, pruned: Registry)
    ensures Run(ws, ops) && Last(ws).hist.monotone && Last(ws).hist.clock <= now
    ensures id in Last(ws).hist.accepted && WasLost(Last(ws), id)
    ensures Pruned(Last(ws).reg, now, false, pruned) && Collect(pruned, id).1 == JobNotFound
  {
    ws, ops := LoseMany(260);
    var w, k := Last(ws), |ws| - 1;
    CapacityBounds(ws, ops, k);
    TombstonesCountLosses(ws, ops, k);
    id := Outside(LostIds(w), w.reg.jobs.Keys, w.reg.tombstones);
    now := w.hist.clock;
    RunKeeps(ws, ops, k);
    pruned := PruneExists(w.reg, now, false);
    LostAnswer(ws, ops, k, id, now, pruned);
  }

  /** A set larger than two others together has a member outside both. */
  lemma Outside(s: set<JobId>, a: set<JobId>, b: set<JobId>) returns (id: JobId)
    requires |s| > |a| + |b|
    ensures id in s && id !in a && id !in b
  {
    if s <= a + b {
      SubsetSize(s, a + b);
      UnionSize(a, b);
      assert false;
    }
    id :| id in s && id !in a + b;
  }

  lemma UnionSize(a: set<JobId>, b: set<JobId>)
    ensures |a + b| <= |a| + |b|
  {
    assert a + b == a + (b - a);
    SubsetSize(b - a, b);
  }

  // ------------------------------------------------------ the transitions

  predicate InState(w: World, id: JobId, state: JobState) {
    id in w.reg.jobs && w.reg.jobs[id].state == state && id in w.reporters && !w.reporters[id]
  }

  /** A run to an active state. */
  lemma ActiveRun(state: JobState) returns (ws: seq<World>, ops: seq<Op>, id: JobId)
    requires state.IsActive()
    ensures Run(ws, ops) && InState(Last(ws), id, state)
  {
    ws, ops := [START], [];
    ws, ops, id := AdmitOne(ws, ops);
    RunKeeps(ws, ops, |ws| - 1);
    assert JobOk(Last(ws), id);
    if state != Starting {
      var op := if state == Running then OpMarkRunning(id, 0) else OpCancel(id, 0);
      OneStepMore(ws, ops, op);
      ws, ops := ws + [Step(Last(ws), op)], ops + [op];
    }
  }

  /** The call that moves a job into a state. */
  function CallInto(id: JobId, state: JobState): Op {
    match state
    case Starting => OpMarkRunning(id, 0)
    case Running => OpMarkRunning(id, 0)
    case Cancelling => OpCancel(id, 0)
    case Succeeded => OpSucceed(id, 0, 0)
    case Failed => OpFail(id, DecodeFailed, 0)
    case Cancelled => OpCancelled(id, 0)
  }

  lemma CallMoves(w: World, id: JobId, from: JobState, to: JobState)
    requires InState(w, id, from) && Allowed(from, to)
    ensures Enabled(w, CallInto(id, to))
    ensures var w' := Step(w, CallInto(id, to)); id in w'.reg.jobs && w'.reg.jobs[id].state == to
  {
  }

  /** Every transition of the code is taken in some run, by one call. */
  lemma TransitionHappens(from: JobState, to: JobState) returns (ws: seq<World>, ops: seq<Op>, k: nat, id: JobId)
    requires Allowed(from, to)
    ensures Run(ws, ops) && k < |ops|
    ensures id in ws[k].reg.jobs && ws[k].reg.jobs[id].state == from
    ensures id in ws[k + 1].reg.jobs && ws[k + 1].reg.jobs[id].state == to
  {
    ws, ops, id := ActiveRun(from);
    k := |ops|;
    CallMoves(ws[k], id, from, to);
    OneStepMore(ws, ops, CallInto(id, to));
    ws, ops := ws + [Step(ws[k], CallInto(id, to))], ops + [CallInto(id, to)];
  }
}
