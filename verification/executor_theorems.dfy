/** The executor's guarantees over whole runs. */
module ExecutorTheorems {
  import opened Wrappers
  import opened ExecutorModel
  import opened ExecutorInvariant

  // ---- public calls keep the invariant ---------------------------------------------

  /** Scheduling reaches a fixpoint: whatever is still queued could not start. */
  lemma {:induction false} ScheduleSettles(st: State, spawn: SpawnOracle)
    ensures Settled(ScheduleQueuedJobs(st, spawn))
    decreases |st.queuedJobs|
  {
    var index := FirstStartable(st);
    if st.policy.maxActiveGlobal.Permits(SaturatingIncrement(st.activeTotal)) && index < |st.queuedJobs| {
      if StartError(Dequeue(st, index), st.queuedJobs[index], spawn).None? {
        ScheduleSettles(Promote(st, index), spawn);
      }
    }
  }

  lemma CollectKeepsInv(st: State, spawn: SpawnOracle)
    requires Core(st)
    ensures Inv(Collect(st, spawn))
  {
    hide Core;
    DrainKeepsCore(st);
    ScheduleKeepsCore(DrainChannel(st), spawn);
    ScheduleSettles(DrainChannel(st), spawn);
  }

  lemma AcceptStartedCounts(st: State, job: TriggerJob)
    requires CountersAgree(st) && WithinLimits(st) && HasActiveCapacity(st, job.event.scriptId)
    requires st.nextJobId < U64_MAX && st.pendingJobs < USIZE_MAX
    ensures CountersAgree(AcceptJob(StartJob(st, job), job)) && WithinLimits(AcceptJob(StartJob(st, job), job))
  {
    StartTallies(st, job);
    StartWithinLimits(st, job);
  }

  lemma AcceptConserves(st: State, after: State, job: TriggerJob)
    requires Conserved(st) && job.jobId == st.nextJobId
    requires after.nextJobId == st.nextJobId + 1
    requires after.ledger.accepted == st.ledger.accepted + [job]
    requires Holdings(after) == Holdings(st) + multiset{job}
    requires forall started | started in after.ledger.started :: started in st.ledger.started || started == job
    ensures Conserved(after)
  {
  }

  /** A direct start overtakes nobody: with capacity and a settled queue, no older job of that script waits. */
  lemma AcceptStartedOrder(st: State, job: TriggerJob)
    requires StartOrder(st) && Settled(st) && HasActiveCapacity(st, job.event.scriptId)
    requires job.jobId == st.nextJobId
    ensures StartOrder(AcceptJob(StartJob(st, job), job))
  {
    var after := AcceptJob(StartJob(st, job), job);
    StartedIdsGrow(st, after, job);
    forall i | 0 <= i < |st.ledger.started| ensures st.ledger.started[i].jobId < job.jobId {
      assert st.ledger.started[i].jobId in StartedIds(st);
    }
  }

  lemma AcceptStartedResults(st: State, job: TriggerJob)
    requires Conserved(st) && StartOrder(st) && TruthfulResults(st) && job.jobId == st.nextJobId
    ensures TruthfulResults(AcceptJob(StartJob(st, job), job))
  {
    var after := AcceptJob(StartJob(st, job), job);
    StartedIdsGrow(st, after, job);
    IdsBelowNext(st);
    assert Completions(after) == Completions(st);
  }

  lemma AcceptStartedKeepsInv(st: State, job: TriggerJob)
    requires Inv(st) && st.accepting && HasActiveCapacity(st, job.event.scriptId)
    requires st.nextJobId < U64_MAX && st.pendingJobs < USIZE_MAX && job.jobId == st.nextJobId
    ensures Inv(AcceptJob(StartJob(st, job), job))
  {
    hide CountersAgree, WithinLimits, Conserved, StartOrder, TruthfulResults, HandlesHeld;
    var after := AcceptJob(StartJob(st, job), job);
    StartKeepsHandles(st, after, job);
    AcceptStartedCounts(st, job);
    assert Holdings(after) == Holdings(st) + multiset{job};
    AcceptConserves(st, after, job);
    AcceptStartedOrder(st, job);
    AcceptStartedResults(st, job);
    StartKeepsSettled(st, job);
  }

  lemma StartKeepsSettled(st: State, job: TriggerJob)
    requires Settled(st)
    ensures Settled(AcceptJob(StartJob(st, job), job))
  {
  }

  /** Under `DropOldest` the superseded job is its script's oldest queued one; it fails and the rest stay. */
  lemma DropKeepsCore(st: State, script: ScriptId)
    requires Core(st) && OldestOf(st, script) < |st.queuedJobs|
    ensures Core(DropOldestQueued(st, script, OldestOf(st, script)))
  {
    hide CountersAgree, WithinLimits, Conserved, StartOrder, TruthfulResults;
    var index := OldestOf(st, script);
    var after := DropOldestQueued(st, script, index);
    DropCounts(st, index);
    DropConserves(st, index);
    DropOrder(st, after, index);
    AbandonResults(st, after, [JobFailure(st.queuedJobs[index], SUPERSEDED)]);
  }

  lemma DropCounts(st: State, index: nat)
    requires CountersAgree(st) && WithinLimits(st) && index < |st.queuedJobs|
    ensures CountersAgree(DropOldestQueued(st, st.queuedJobs[index].event.scriptId, index))
    ensures WithinLimits(DropOldestQueued(st, st.queuedJobs[index].event.scriptId, index))
  {
    DequeueCounts(st, index);
    assert Active(DropOldestQueued(st, st.queuedJobs[index].event.scriptId, index)) == Active(st);
  }

  lemma DropConserves(st: State, index: nat)
    requires Conserved(st) && index < |st.queuedJobs|
    ensures Conserved(DropOldestQueued(st, st.queuedJobs[index].event.scriptId, index))
  {
    hide JobsOf;
    OneMoreCompletion(st.localCompletions, JobFailure(st.queuedJobs[index], SUPERSEDED));
    WithoutMultiset(st.queuedJobs, index);
  }

  lemma DropOrder(st: State, after: State, index: nat)
    requires StartOrder(st) && index < |st.queuedJobs|
    requires after.queuedJobs == Without(st.queuedJobs, index)
    requires after.ledger == st.ledger && after.nextJobId == st.nextJobId
    ensures StartOrder(after)
  {
    assert StartedIds(after) == StartedIds(st);
  }

  lemma PushCounts(st: State, job: TriggerJob)
    requires CountersAgree(st) && WithinLimits(st)
    requires st.policy.maxQueuedPerScript.Permits(CountOf(st.queuedByScript, job.event.scriptId) + 1)
    requires st.nextJobId < U64_MAX && st.pendingJobs < USIZE_MAX
    ensures CountersAgree(AcceptJob(PushQueued(st, job), job)) && WithinLimits(AcceptJob(PushQueued(st, job), job))
  {
    var after := AcceptJob(PushQueued(st, job), job);
    TallyAdd(st.queuedByScript, st.queuedJobs, job);
    assert Active(after) == Active(st);
    forall script: ScriptId
      ensures CountOf(after.queuedByScript, script) == 0
              || st.policy.maxQueuedPerScript.Permits(CountOf(after.queuedByScript, script))
    {
      assert CountOf(st.queuedByScript, script) == 0
             || st.policy.maxQueuedPerScript.Permits(CountOf(st.queuedByScript, script));
    }
    assert after.activeByScript == st.activeByScript;
  }

  lemma PushOrder(st: State, job: TriggerJob)
    requires Conserved(st) && StartOrder(st) && job.jobId == st.nextJobId
    ensures StartOrder(AcceptJob(PushQueued(st, job), job))
  {
    var after := AcceptJob(PushQueued(st, job), job);
    assert StartedIds(after) == StartedIds(st);
    IdsBelowNext(st);
    forall i | 0 <= i < |st.ledger.started| ensures st.ledger.started[i].jobId < job.jobId {
      assert st.ledger.started[i].jobId in StartedIds(st);
    }
  }

  lemma SameResults(st: State, after: State)
    requires TruthfulResults(st) && after.running == st.running
    requires after.ledger.started == st.ledger.started && after.ledger.reported == st.ledger.reported
    requires Completions(after) == Completions(st)
    ensures TruthfulResults(after)
  {
    assert StartedIds(after) == StartedIds(st);
  }

  lemma PushKeepsCore(st: State, job: TriggerJob)
    requires Core(st) && st.accepting && job.jobId == st.nextJobId
    requires st.policy.maxQueuedPerScript.Permits(CountOf(st.queuedByScript, job.event.scriptId) + 1)
    requires st.nextJobId < U64_MAX && st.pendingJobs < USIZE_MAX
    ensures Core(AcceptJob(PushQueued(st, job), job))
  {
    hide CountersAgree, WithinLimits, Conserved, StartOrder, TruthfulResults;
    var after := AcceptJob(PushQueued(st, job), job);
    PushCounts(st, job);
    assert Holdings(after) == Holdings(st) + multiset{job};
    AcceptConserves(st, after, job);
    PushOrder(st, job);
    SameResults(st, after);
  }

  /** A full per-script queue that gives up its oldest job has room for exactly one more. */
  lemma RoomAfterDrop(st: State, script: ScriptId)
    requires CountersAgree(st) && WithinLimits(st) && OldestOf(st, script) < |st.queuedJobs|
    ensures st.policy.maxQueuedPerScript.Permits(
              CountOf(DropOldestQueued(st, script, OldestOf(st, script)).queuedByScript, script) + 1)
  {
    ScriptCountWithout(st.queuedJobs, OldestOf(st, script), script);
    assert CountOf(st.queuedByScript, script) > 0;
  }

  lemma EnqueueKeepsInv(st: State, job: TriggerJob)
    requires Inv(st) && st.accepting && !HasActiveCapacity(st, job.event.scriptId)
    requires st.nextJobId < U64_MAX && st.pendingJobs < USIZE_MAX && job.jobId == st.nextJobId
    ensures EnqueueJob(st, job).Some? ==> Inv(AcceptJob(EnqueueJob(st, job).value, job))
  {
    hide CountersAgree, WithinLimits, Conserved, StartOrder, TruthfulResults;
    var script := job.event.scriptId;
    var index := OldestOf(st, script);
    if LimitPermitsNext(st.policy.maxQueuedPerScript, CountOf(st.queuedByScript, script)) {
      PushKeepsCore(st, job);
    } else if st.policy.overflow == DropOldest && index < |st.queuedJobs| {
      DropKeepsCore(st, script);
      RoomAfterDrop(st, script);
      PushKeepsCore(DropOldestQueued(st, script, index), job);
    }
  }

  lemma SubmitKeepsInv(st: State, event: TriggerEvent, source: string, spawn: SpawnOracle)
    requires Inv(st)
    ensures Inv(Submit(st, event, source, spawn).0)
  {
    hide Core, Settled;
    CollectKeepsInv(st, spawn);
    var collected := Collect(st, spawn);
    var job := TriggerJob(event, collected.nextJobId, source);
    if collected.accepting && collected.nextJobId < U64_MAX && collected.pendingJobs < USIZE_MAX {
      if HasActiveCapacity(collected, event.scriptId) {
        AcceptStartedKeepsInv(collected, job);
      } else {
        EnqueueKeepsInv(collected, job);
      }
    }
  }

  lemma PopKeepsInv(st: State)
    requires Inv(st)
    ensures Inv(PopCompletion(st).0)
  {
    hide CountersAgree, WithinLimits, Accounted, StartOrder, TruthfulResults, Settled, Holdings, Completions;
    if st.localCompletions != [] {
      var after := PopCompletion(st).0;
      PopCounts(st, after);
      PopConserves(st, after);
      SameAccounts(st, after);
      SameStarts(st, after);
      PopKeepsCompletions(st, after);
      SameResults(st, after);
      PopKeepsSettled(st, after);
    }
  }

  lemma PopKeepsCompletions(st: State, after: State)
    requires st.localCompletions != [] && after == PopCompletion(st).0
    ensures Completions(after) == Completions(st)
  {
    assert st.localCompletions == [st.localCompletions[0]] + st.localCompletions[1..];
    assert st.ledger.delivered + st.localCompletions == after.ledger.delivered + after.localCompletions;
  }

  lemma PopKeepsSettled(st: State, after: State)
    requires Settled(st) && after == PopCompletion(st).0
    ensures Settled(after)
  {
  }

  lemma SameStarts(st: State, after: State)
    requires StartOrder(st) && after.queuedJobs == st.queuedJobs && after.nextJobId == st.nextJobId
    requires after.ledger.started == st.ledger.started
    ensures StartOrder(after)
  {
    assert StartedIds(after) == StartedIds(st);
  }

  lemma PopCounts(st: State, after: State)
    requires CountersAgree(st) && WithinLimits(st) && st.localCompletions != [] && after == PopCompletion(st).0
    ensures CountersAgree(after) && WithinLimits(after)
  {
    assert Active(after) == Active(st);
    assert after.activeByScript == st.activeByScript && after.queuedByScript == st.queuedByScript;
  }

  lemma PopConserves(st: State, after: State)
    requires st.localCompletions != [] && after == PopCompletion(st).0
    ensures Holdings(after) == Holdings(st)
  {
    JobsOfTail(st.localCompletions);
    JobsOfAppend(st.ledger.delivered, [st.localCompletions[0]]);
    assert JobsOf([st.localCompletions[0]]) == [JobOf(st.localCompletions[0])];
  }

  lemma TryCompletionKeepsInv(st: State, spawn: SpawnOracle)
    requires Inv(st)
    ensures Inv(TryCompletion(st, spawn).0)
  {
    hide Core, Settled;
    CollectKeepsInv(st, spawn);
    PopKeepsInv(Collect(st, spawn));
  }

  // ---- worker reports --------------------------------------------------------------

  lemma ReportCounts(st: State, index: nat, outcome: WorkerOutcome)
    requires CountersAgree(st) && WithinLimits(st) && index < |st.running|
    ensures CountersAgree(Report(st, index, outcome)) && WithinLimits(Report(st, index, outcome))
  {
    var after := Report(st, index, outcome);
    var job := st.running[index];
    ReportMoves(st, index, outcome);
    forall script: ScriptId ensures ScriptCount(Active(after), script) == ScriptCount(Active(st), script) {
      ScriptCountWithout(st.running, index, script);
      ScriptCountAppend(st.running, JobsOf(st.channel), script);
      ScriptCountAppend(Without(st.running, index), JobsOf(st.channel) + [job], script);
      ScriptCountAppend(JobsOf(st.channel), [job], script);
      ScriptCountSingle(job, script);
    }
    assert after.queuedByScript == st.queuedByScript;
  }

  lemma ReportMoves(st: State, index: nat, outcome: WorkerOutcome)
    requires index < |st.running|
    ensures JobsOf(Report(st, index, outcome).channel) == JobsOf(st.channel) + [st.running[index]]
    ensures Holdings(Report(st, index, outcome)) == Holdings(st)
    ensures StartedIds(Report(st, index, outcome)) == StartedIds(st)
  {
    WithoutMultiset(st.running, index);
  }

  lemma ReportResults(st: State, index: nat, outcome: WorkerOutcome)
    requires Accounted(st) && TruthfulResults(st) && index < |st.running|
    ensures TruthfulResults(Report(st, index, outcome))
  {
    var after := Report(st, index, outcome);
    var job := st.running[index];
    var completion := Completion(job.event, job.jobId, ResultOf(outcome), job.source);
    ReportMoves(st, index, outcome);
    assert job in st.running;
    assert Completions(after) == Completions(st) + [completion];
    forall c | c in Completions(st) ensures c.jobId != job.jobId {
    }
    forall other | other in after.running
      ensures other.jobId in StartedIds(after) && other.jobId !in after.ledger.reported
    {
      var k :| 0 <= k < |after.running| && after.running[k] == other;
      var j := if k < index then k else k + 1;
      assert st.running[j] == other;
      ActiveDistinct(st, index, j);
    }
  }

  /** A report moves its worker's job behind all the others. */
  lemma ReportMovesActive(st: State, index: nat, outcome: WorkerOutcome)
    requires index < |st.running|
    ensures Active(Report(st, index, outcome)) == Without(Active(st), index) + [st.running[index]]
  {
    var job := st.running[index];
    JobsOfAppend(st.channel, [Completion(job.event, job.jobId, ResultOf(outcome), job.source)]);
  }

  lemma ReportKeepsHandles(st: State, index: nat, outcome: WorkerOutcome)
    requires HandlesHeld(st) && index < |st.running|
    ensures HandlesHeld(Report(st, index, outcome))
  {
    ReportMovesActive(st, index, outcome);
    var before, job := Active(st), st.running[index];
    assert before == before[..index] + [job] + before[index + 1..];
    IdsOneMore(before[..index], job, before[index + 1..]);
    assert Without(before, index) + [job] + [] == Without(before, index) + [job];
    assert Without(before, index) + [] == Without(before, index);
    IdsOneMore(Without(before, index), job, []);
    hide IdsOf, Active;
  }

  lemma ReportOrder(st: State, index: nat, outcome: WorkerOutcome)
    requires StartOrder(st) && index < |st.running|
    ensures StartOrder(Report(st, index, outcome))
  {
    ReportMoves(st, index, outcome);
  }

  lemma ReportConserves(st: State, index: nat, outcome: WorkerOutcome)
    requires Conserved(st) && index < |st.running|
    ensures Conserved(Report(st, index, outcome))
  {
    ReportMoves(st, index, outcome);
    hide Holdings, StartedIds, JobsOf;
  }

  lemma ReportSettles(st: State, index: nat, outcome: WorkerOutcome)
    requires Settled(st) && index < |st.running|
    ensures Settled(Report(st, index, outcome))
  {
    var after := Report(st, index, outcome);
    assert after.queuedJobs == st.queuedJobs && after.cancelled == st.cancelled && after.accepting == st.accepting;
    forall i | 0 <= i < |st.queuedJobs| ensures !HasActiveCapacity(after, st.queuedJobs[i].event.scriptId) {
      assert !HasActiveCapacity(st, st.queuedJobs[i].event.scriptId);
    }
  }

  lemma ReportKeepsInv(st: State, index: nat, outcome: WorkerOutcome)
    requires Inv(st) && index < |st.running|
    ensures Inv(Report(st, index, outcome))
  {
    var after := Report(st, index, outcome);
    assert after.queuedJobs == st.queuedJobs && after.cancelled == st.cancelled && after.accepting == st.accepting;
    hide CountersAgree, WithinLimits, Conserved, StartOrder, TruthfulResults, HandlesHeld, Settled, Report;
    ReportCounts(st, index, outcome);
    ReportConserves(st, index, outcome);
    ReportSettles(st, index, outcome);
    ReportOrder(st, index, outcome);
    ReportResults(st, index, outcome);
    ReportKeepsHandles(st, index, outcome);
  }

  // ---- shutdown --------------------------------------------------------------------

  /** What is left of the invariant once shutdown has begun. */
  ghost predicate Halting(st: State) {
    && st.cancelled && !st.accepting && st.queuedJobs == []
    && Accounted(st) && StartOrder(st) && TruthfulResults(st)
  }

  /** A shut-down executor; in a debug build no worker is left running. */
  ghost predicate Halted(st: State) {
    Halting(st) && (st.debugAssertions ==> st.running == [])
  }

  ghost predicate Sound(st: State) {
    if st.cancelled then Halted(st) else Inv(st)
  }

  /** Only queued jobs and counters are forgotten. */
  ghost predicate Forgets(st: State, after: State) {
    after == st.(accepting := false, cancelled := true, queuedJobs := [], queuedByScript := after.queuedByScript,
                          workers := after.workers, activeByScript := after.activeByScript,
                          activeTotal := after.activeTotal, pendingJobs := after.pendingJobs)
  }

  lemma ForgettingKeepsAccounts(st: State, after: State)
    requires Accounted(st) && Forgets(st, after)
    ensures Accounted(after)
  {
    assert Holdings(after) <= Holdings(st);
  }

  lemma ForgettingKeepsOrder(st: State, after: State)
    requires StartOrder(st) && Forgets(st, after)
    ensures StartOrder(after)
  {
    assert StartedIds(after) == StartedIds(st);
  }

  lemma ForgettingKeepsResults(st: State, after: State)
    requires TruthfulResults(st) && Forgets(st, after)
    ensures TruthfulResults(after)
  {
    assert StartedIds(after) == StartedIds(st);
    assert Completions(after) == Completions(st);
  }

  /** Forgetting queued jobs and counters keeps what shutdown promises. */
  lemma ForgettingHalts(st: State, after: State)
    requires Accounted(st) && StartOrder(st) && TruthfulResults(st) && Forgets(st, after)
    ensures Halting(after)
  {
    hide Accounted, StartOrder, TruthfulResults;
    ForgettingKeepsAccounts(st, after);
    ForgettingKeepsOrder(st, after);
    ForgettingKeepsResults(st, after);
  }

  lemma ReportKeepsHalting(st: State, index: nat, outcome: WorkerOutcome)
    requires Halting(st) && index < |st.running|
    ensures Halting(Report(st, index, outcome))
  {
    hide StartOrder, TruthfulResults;
    ReportMoves(st, index, outcome);
    ReportOrder(st, index, outcome);
    ReportResults(st, index, outcome);
  }

  lemma {:induction false} JoiningKeepsHalting(before: State, after: State)
    requires Halting(before) && ReportsLeadTo(before, after)
    ensures Halting(after)
    decreases |before.running|
  {
    hide Halting;
    if before != after {
      var index: nat, outcome :| index < |before.running| && ReportsLeadTo(Report(before, index, outcome), after);
      ReportKeepsHalting(before, index, outcome);
      JoiningKeepsHalting(Report(before, index, outcome), after);
    }
  }

  lemma {:induction false} JoiningStartsNothing(before: State, after: State)
    requires ReportsLeadTo(before, after)
    ensures after.debugAssertions == before.debugAssertions
    ensures forall job | job in after.running :: job in before.running
    decreases |before.running|
  {
    if before != after {
      var index: nat, outcome :| index < |before.running| && ReportsLeadTo(Report(before, index, outcome), after);
      JoiningStartsNothing(Report(before, index, outcome), after);
    }
  }

  lemma ShutdownHalts(before: State, after: State)
    requires Sound(before) && ShutdownTo(before, after)
    ensures Halting(after)
  {
    hide Halting, Accounted, StartOrder, TruthfulResults, ReportsLeadTo;
    var joined: State :|
      && ReportsLeadTo(BeginShutdown(before), joined)
      && (forall i :: 0 <= i < |joined.running| ==> joined.running[i].jobId !in before.workers)
      && after == EndShutdown(joined);
    SoundParts(before);
    ForgettingHalts(before, BeginShutdown(before));
    JoiningKeepsHalting(BeginShutdown(before), joined);
    HaltingParts(joined);
    ForgettingHalts(joined, after);
  }

  lemma SoundParts(st: State)
    requires Sound(st)
    ensures Accounted(st) && StartOrder(st) && TruthfulResults(st)
  {
  }

  lemma HaltingParts(st: State)
    requires Halting(st)
    ensures Accounted(st) && StartOrder(st) && TruthfulResults(st)
    ensures st.cancelled && !st.accepting && st.queuedJobs == []
  {
  }

  /** In a debug build shutdown returns only when every worker has ended. */
  lemma ShutdownWaits(before: State, after: State)
    requires before.running == [] || HandlesHeld(before)
    requires ShutdownTo(before, after)
    ensures before.debugAssertions || before.running == [] ==> after.running == []
    ensures after.debugAssertions == before.debugAssertions
  {
    var joined: State :|
      && ReportsLeadTo(BeginShutdown(before), joined)
      && (forall i :: 0 <= i < |joined.running| ==> joined.running[i].jobId !in before.workers)
      && after == EndShutdown(joined);
    JoiningStartsNothing(BeginShutdown(before), joined);
    if before.debugAssertions && before.running != [] {
      RunningIsHeld(before);
    }
    if joined.running != [] && (before.debugAssertions || before.running == []) {
      var job := joined.running[0];
      assert job in joined.running;
      assert job in BeginShutdown(before).running;
      assert job.jobId !in before.workers;
    }
  }

  /** Shutdown is sure to wait for the workers exactly when the build keeps their join handles, or
      there are none to wait for. */
  lemma ShutdownWaitsIff(before: State)
    requires Inv(before)
    ensures (forall after: State | ShutdownTo(before, after) :: after.running == [])
            <==> before.debugAssertions || before.running == []
  {
    if before.debugAssertions || before.running == [] {
      forall after: State | ShutdownTo(before, after) ensures after.running == [] {
        ShutdownWaits(before, after);
      }
    } else {
      var early := EndShutdown(BeginShutdown(before));
      assert ReportsLeadTo(BeginShutdown(before), BeginShutdown(before));
      assert ShutdownTo(before, early);
    }
  }

  // ---- whole runs ------------------------------------------------------------------

  lemma InitSound(policy: Policy, debugAssertions: bool)
    ensures Sound(Init(policy, debugAssertions))
  {
    var st := Init(policy, debugAssertions);
    assert Active(st) == [];
    assert Holdings(st) == multiset{};
    assert Completions(st) == [];
  }

  /** With nothing queued, collecting only moves completions behind the local ones. */
  lemma {:induction false} DrainKeepsHalted(st: State)
    requires Halted(st)
    ensures Halted(DrainChannel(st))
    decreases |st.channel|
  {
    hide Accounted, StartOrder, TruthfulResults;
    if st.channel != [] {
      var next := ReceiveOne(st);
      JobsOfTail(st.channel);
      JobsOfAppend(st.localCompletions, [st.channel[0]]);
      assert JobsOf([st.channel[0]]) == [JobOf(st.channel[0])];
      assert Holdings(next) == Holdings(st);
      SameAccounts(st, next);
      ReceiveOneOutputs(st);
      DrainKeepsHalted(next);
    }
  }

  lemma SameAccounts(st: State, after: State)
    requires Accounted(st) && Holdings(after) == Holdings(st) && after.nextJobId == st.nextJobId
    requires after.ledger.accepted == st.ledger.accepted && after.ledger.started == st.ledger.started
    ensures Accounted(after)
  {
  }

  lemma CollectKeepsHalted(st: State, spawn: SpawnOracle)
    requires Halted(st)
    ensures Halted(Collect(st, spawn))
  {
    hide Accounted, StartOrder, TruthfulResults;
    DrainKeepsHalted(st);
  }

  lemma PopKeepsHalted(st: State)
    requires Halted(st)
    ensures Halted(PopCompletion(st).0)
  {
    hide Accounted, StartOrder, TruthfulResults;
    if st.localCompletions != [] {
      var after := PopCompletion(st).0;
      PopConserves(st, after);
      SameAccounts(st, after);
      SameStarts(st, after);
      PopKeepsCompletions(st, after);
      SameResults(st, after);
    }
  }

  lemma NextKeepsSound(before: State, step: Step, after: State)
    requires Sound(before) && Next(before, step, after)
    ensures Sound(after)
  {
    hide Core, Settled, Halting, ShutdownTo;
    match step
    case SubmitStep(event, source, spawn, result) =>
      if before.cancelled {
        CollectKeepsHalted(before, spawn);
        HaltingParts(Collect(before, spawn));
      } else {
        SubmitKeepsInv(before, event, source, spawn);
        CoreNotCancelled(after);
      }
    case CompletionStep(spawn, completion) =>
      if before.cancelled {
        CollectKeepsHalted(before, spawn);
        PopKeepsHalted(Collect(before, spawn));
        HaltingParts(after);
      } else {
        TryCompletionKeepsInv(before, spawn);
        CoreNotCancelled(after);
      }
    case ReportStep(index, outcome) =>
      if before.cancelled {
        ReportKeepsHalting(before, index, outcome);
      } else {
        ReportKeepsInv(before, index, outcome);
        CoreNotCancelled(after);
      }
    case ShutdownStep =>
      ShutdownHalts(before, after);
      HaltingParts(after);
      ShutdownStops(before, after);
  }

  lemma ShutdownStops(before: State, after: State)
    requires Sound(before) && ShutdownTo(before, after)
    ensures after.debugAssertions ==> after.running == []
  {
    hide ShutdownTo, ReportsLeadTo;
    if before.cancelled {
      if before.running == [] {
        ShutdownWaits(before, after);
      } else {
        ShutdownKeepsBuild(before, after);
      }
    } else {
      CoreHandles(before);
      ShutdownWaits(before, after);
    }
  }

  lemma ShutdownKeepsBuild(before: State, after: State)
    requires ShutdownTo(before, after)
    ensures after.debugAssertions == before.debugAssertions
  {
    var joined: State :| ReportsLeadTo(BeginShutdown(before), joined) && after == EndShutdown(joined);
    JoiningStartsNothing(BeginShutdown(before), joined);
    assert joined.debugAssertions == BeginShutdown(before).debugAssertions;
    assert EndShutdown(joined).debugAssertions == joined.debugAssertions;
    assert BeginShutdown(before).debugAssertions == before.debugAssertions;
  }

  lemma CoreNotCancelled(st: State)
    requires Core(st)
    ensures !st.cancelled
  {
  }

  lemma CoreHandles(st: State)
    requires Core(st)
    ensures HandlesHeld(st)
  {
  }

  /** Every state of every run satisfies the invariant, weakened to `Halted` after shutdown. */
  lemma {:induction false} RunIsSound(states: seq<State>, steps: seq<Step>)
    requires IsRun(states, steps)
    ensures forall st | st in states :: Sound(st)
    decreases |steps|
  {
    hide Sound, Next;
    if steps == [] {
      var policy, debug :| states[0] == Init(policy, debug);
      InitSound(policy, debug);
    } else {
      var n := |steps| - 1;
      var earlier, done := states[..|states| - 1], steps[..n];
      forall i | 0 <= i < |done| ensures Next(earlier[i], done[i], earlier[i + 1]) {
        assert Next(states[i], steps[i], states[i + 1]);
      }
      RunIsSound(earlier, done);
      assert states[n] == earlier[n];
      NextKeepsSound(states[n], steps[n], states[n + 1]);
    }
  }
}
