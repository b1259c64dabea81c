/** What the executor promises its callers, read off the invariant. */
module ExecutorGuarantees {
  import opened Wrappers
  import opened ExecutorModel
  import opened ExecutorInvariant
  import opened ExecutorTheorems

  /** In every run the jobs of one script start in increasing job id order, and whatever of that
      script still waits is younger than everything of it that started. */
  lemma StartsAreFifo(states: seq<State>, steps: seq<Step>, st: State)
    requires IsRun(states, steps) && st in states
    ensures forall i, j | 0 <= i < j < |st.ledger.started|
                          && st.ledger.started[i].event.scriptId == st.ledger.started[j].event.scriptId ::
              st.ledger.started[i].jobId < st.ledger.started[j].jobId
    ensures forall i, j | 0 <= i < |st.ledger.started| && 0 <= j < |st.queuedJobs|
                          && st.ledger.started[i].event.scriptId == st.queuedJobs[j].event.scriptId ::
              st.ledger.started[i].jobId < st.queuedJobs[j].jobId
  {
    hide IsRun;
    RunIsSound(states, steps);
  }

  /** In every run, shut down or not, no job id is delivered twice, every delivered completion
      belongs to an accepted submission with the same event and source, and it carries the result
      its worker reported, or a failure when no worker was started for it. */
  lemma AtMostOneCompletion(states: seq<State>, steps: seq<Step>, st: State)
    requires IsRun(states, steps) && st in states
    ensures forall i, j | 0 <= i < j < |st.ledger.delivered| ::
              st.ledger.delivered[i].jobId != st.ledger.delivered[j].jobId
    ensures forall c | c in st.ledger.delivered ::
              && JobOf(c) in st.ledger.accepted
              && (if c.jobId in st.ledger.reported then c.result == st.ledger.reported[c.jobId]
                  else c.result.Failed? && c.jobId !in StartedIds(st))
  {
    RunIsSound(states, steps);
    assert Sound(st);
    DeliveredOnce(st);
    forall c | c in st.ledger.delivered ensures JobOf(c) in st.ledger.accepted {
      assert c in Completions(st);
      CompletionsAreHeld(st, c);
      assert JobOf(c) in Holdings(st);
    }
  }

  lemma DeliveredOnce(st: State)
    requires Accounted(st)
    ensures forall i, j | 0 <= i < j < |st.ledger.delivered| ::
              st.ledger.delivered[i].jobId != st.ledger.delivered[j].jobId
  {
    var jobs := JobsOf(st.ledger.delivered);
    forall i, j | 0 <= i < j < |st.ledger.delivered|
      ensures st.ledger.delivered[i].jobId != st.ledger.delivered[j].jobId
    {
      assert jobs[i] in multiset(jobs) && jobs[j] in multiset(jobs);
      if jobs[i].jobId == jobs[j].jobId {
        HoldingsDistinct(st, jobs[i], jobs[j]);
        OccursTwice(jobs, i, j);
      }
    }
  }

  /** A rejected submission consumes no id and yields no completion. */
  lemma RejectionLeavesNoTrace(st: State, event: TriggerEvent, source: string, spawn: SpawnOracle)
    requires Inv(st) && !Submit(st, event, source, spawn).1.Accepted?
    ensures var after := Submit(st, event, source, spawn).0;
            && after.nextJobId == st.nextJobId && after.ledger.accepted == st.ledger.accepted
            && Holdings(after) == Holdings(st)
  {
    var collected := Collect(st, spawn);
    CollectAcceptsNothing(st, spawn);
    CollectKeepsInv(st, spawn);
    RejectedChangesNothing(collected, event, source, spawn);
    assert Conserved(st) && Conserved(collected);
    hide Inv, Collect, TrySubmit, Holdings;
  }

  lemma RejectedChangesNothing(st: State, event: TriggerEvent, source: string, spawn: SpawnOracle)
    requires !TrySubmit(st, event, source, spawn).1.Accepted?
    ensures TrySubmit(st, event, source, spawn).0 == st
  {
  }

  lemma {:induction false} ScheduleAcceptsNothing(st: State, spawn: SpawnOracle)
    ensures var after := ScheduleQueuedJobs(st, spawn);
            && after.nextJobId == st.nextJobId
            && after.ledger.accepted == st.ledger.accepted
            && after.ledger.delivered == st.ledger.delivered
    decreases |st.queuedJobs|
  {
    var index := FirstStartable(st);
    if st.policy.maxActiveGlobal.Permits(SaturatingIncrement(st.activeTotal)) && index < |st.queuedJobs| {
      if StartError(Dequeue(st, index), st.queuedJobs[index], spawn).None? {
        ScheduleAcceptsNothing(Promote(st, index), spawn);
      }
    }
  }

  lemma CollectAcceptsNothing(st: State, spawn: SpawnOracle)
    requires Core(st)
    ensures var after := Collect(st, spawn);
            && after.nextJobId == st.nextJobId
            && after.ledger.accepted == st.ledger.accepted
            && after.ledger.delivered == st.ledger.delivered
  {
    hide Core;
    DrainKeepsCore(st);
    ScheduleAcceptsNothing(DrainChannel(st), spawn);
  }

  /** Under `DropOldest` a full script queue gives up the queued job of that script with the least
      id, as a failed completion; every other queued job keeps its place and the new job goes last. */
  lemma DropsTheOldest(st: State, job: TriggerJob)
    requires Core(st) && st.policy.overflow == DropOldest
    requires !LimitPermitsNext(st.policy.maxQueuedPerScript, CountOf(st.queuedByScript, job.event.scriptId))
    requires EnqueueJob(st, job).Some?
    ensures exists index: nat | index < |st.queuedJobs| ::
              && var after, oldest := EnqueueJob(st, job).value, st.queuedJobs[index];
              && oldest.event.scriptId == job.event.scriptId
              && (forall other | other in st.queuedJobs && other.event.scriptId == job.event.scriptId ::
                    oldest.jobId <= other.jobId)
              && after.queuedJobs == Without(st.queuedJobs, index) + [job]
              && after.localCompletions == st.localCompletions + [JobFailure(oldest, SUPERSEDED)]
              && after.ledger == st.ledger
  {
    var index := OldestOf(st, job.event.scriptId);
    forall other | other in st.queuedJobs && other.event.scriptId == job.event.scriptId
      ensures st.queuedJobs[index].jobId <= other.jobId
    {
      var k :| 0 <= k < |st.queuedJobs| && st.queuedJobs[k] == other;
      assert k >= index;
    }
  }

  // ---- what a submission answers ---------------------------------------------------

  /** One more beside the `present` ones is within the limit and can be counted. */
  predicate Room(limit: ResourceLimit, present: nat) {
    present < USIZE_MAX && (limit == Unlimited || present + 1 <= limit.maximum)
  }

  /** Neither stopped nor out of ids or of counts for what is pending. */
  predicate Open(st: State) {
    && st.accepting && st.nextJobId < U64_MAX
    && |st.running| + |st.channel| + |st.queuedJobs| + |st.localCompletions| < USIZE_MAX
  }

  /** A run of the script may start now, by the workers that have not been collected. */
  predicate MayStart(st: State, script: ScriptId) {
    && Room(st.policy.maxActiveGlobal, |st.running| + |st.channel|)
    && Room(st.policy.maxActivePerScript, ScriptCount(st.running + JobsOf(st.channel), script))
  }

  predicate MayQueue(st: State, script: ScriptId) {
    Room(st.policy.maxQueuedPerScript, ScriptCount(st.queuedJobs, script))
  }

  /** The policy lets a queued run of the script give way. */
  predicate MayReplace(st: State, script: ScriptId) {
    && st.policy.overflow == DropOldest
    && exists i :: 0 <= i < |st.queuedJobs| && st.queuedJobs[i].event.scriptId == script
  }

  /** The answer to a submission that finds this state. */
  function Answer(st: State, script: ScriptId, spawn: SpawnOracle): SubmitResult {
    if !Open(st) then Stopped
    else if MayStart(st, script) then if spawn(st.nextJobId).None? then Accepted(st.nextJobId) else Stopped
    else if MayQueue(st, script) || MayReplace(st, script) then Accepted(st.nextJobId)
    else Full
  }

  /** The queued run at `index` gives way: it is the script's oldest. */
  predicate IsOldest(st: State, script: ScriptId, index: nat) {
    && index < |st.queuedJobs| && st.queuedJobs[index].event.scriptId == script
    && forall i :: 0 <= i < |st.queuedJobs| && st.queuedJobs[i].event.scriptId == script ==>
         st.queuedJobs[index].jobId <= st.queuedJobs[i].jobId
  }

  /** Where an accepted submission goes, and what that costs: nothing, or under `DropOldest` the script's
      oldest queued run, which fails as superseded. */
  ghost predicate Placed(st: State, job: TriggerJob, after: State) {
    var script := job.event.scriptId;
    if MayStart(st, script) then
      && after.running == st.running + [job] && after.queuedJobs == st.queuedJobs
      && after.localCompletions == st.localCompletions
    else if MayQueue(st, script) then
      && after.running == st.running && after.queuedJobs == st.queuedJobs + [job]
      && after.localCompletions == st.localCompletions
    else
      exists index: nat | IsOldest(st, script, index) ::
        && after.running == st.running && after.queuedJobs == Without(st.queuedJobs, index) + [job]
        && after.localCompletions == st.localCompletions + [JobFailure(st.queuedJobs[index], SUPERSEDED)]
  }

  /** The counters say what the jobs say. */
  lemma CapacityMeans(st: State, script: ScriptId)
    requires CountersAgree(st)
    ensures HasActiveCapacity(st, script) <==> MayStart(st, script)
    ensures LimitPermitsNext(st.policy.maxQueuedPerScript, CountOf(st.queuedByScript, script)) <==> MayQueue(st, script)
    ensures st.pendingJobs < USIZE_MAX <==>
              |st.running| + |st.channel| + |st.queuedJobs| + |st.localCompletions| < USIZE_MAX
  {
    assert Tallies(st.activeByScript, Active(st)) && Tallies(st.queuedByScript, st.queuedJobs);
    assert |JobsOf(st.channel)| == |st.channel|;
  }

  lemma StartAnswers(st: State, job: TriggerJob, spawn: SpawnOracle)
    requires CountersAgree(st) && HasActiveCapacity(st, job.event.scriptId)
    ensures StartError(st, job, spawn).None? <==> spawn(job.jobId).None?
  {
  }

  lemma EnqueueIff(st: State, job: TriggerJob)
    requires CountersAgree(st)
    ensures EnqueueJob(st, job).Some? <==> MayQueue(st, job.event.scriptId) || MayReplace(st, job.event.scriptId)
  {
    hide HasActiveCapacity, LimitPermitsNext, MayStart, MayQueue, CountersAgree;
    CapacityMeans(st, job.event.scriptId);
    OldestIff(st, job.event.scriptId);
  }

  lemma OldestIff(st: State, script: ScriptId)
    ensures OldestOf(st, script) < |st.queuedJobs| <==>
              exists i :: 0 <= i < |st.queuedJobs| && st.queuedJobs[i].event.scriptId == script
  {
  }

  lemma PushPlaces(st: State, job: TriggerJob)
    requires !MayStart(st, job.event.scriptId) && MayQueue(st, job.event.scriptId)
    ensures Placed(st, job, AcceptJob(PushQueued(st, job), job))
  {
    hide MayStart, MayQueue;
  }

  lemma DropPlaces(st: State, job: TriggerJob)
    requires StartOrder(st) && MayReplace(st, job.event.scriptId)
    requires !MayStart(st, job.event.scriptId) && !MayQueue(st, job.event.scriptId)
    ensures var index := OldestOf(st, job.event.scriptId);
            && index < |st.queuedJobs|
            && Placed(st, job, AcceptJob(PushQueued(DropOldestQueued(st, job.event.scriptId, index), job), job))
  {
    hide MayStart, MayQueue, StartOrder, OldestOf, Without, IsOldest;
    OldestMeans(st, job.event.scriptId);
    OldestIff(st, job.event.scriptId);
  }

  lemma EnqueueAnswers(st: State, job: TriggerJob)
    requires Core(st) && !MayStart(st, job.event.scriptId)
    ensures EnqueueJob(st, job).Some? <==> MayQueue(st, job.event.scriptId) || MayReplace(st, job.event.scriptId)
    ensures EnqueueJob(st, job).Some? ==> Placed(st, job, AcceptJob(EnqueueJob(st, job).value, job))
  {
    hide MayStart, MayQueue, Placed, LimitPermitsNext, OldestOf, CountersAgree, WithinLimits, Conserved, StartOrder,
         TruthfulResults, PushQueued, DropOldestQueued, AcceptJob;
    CapacityMeans(st, job.event.scriptId);
    EnqueueIff(st, job);
    if MayQueue(st, job.event.scriptId) {
      PushPlaces(st, job);
    } else if MayReplace(st, job.event.scriptId) {
      DropPlaces(st, job);
    }
  }

  lemma OldestMeans(st: State, script: ScriptId)
    requires StartOrder(st) && exists i :: 0 <= i < |st.queuedJobs| && st.queuedJobs[i].event.scriptId == script
    ensures IsOldest(st, script, OldestOf(st, script))
  {
  }

  lemma AttemptMeans(st: State, event: TriggerEvent, source: string, spawn: SpawnOracle)
    requires Core(st)
    ensures var (after, result) := TrySubmit(st, event, source, spawn);
            && result == Answer(st, event.scriptId, spawn)
            && (result.Accepted? ==> Placed(st, TriggerJob(event, st.nextJobId, source), after))
            && (!result.Accepted? ==> after == st)
  {
    hide CountersAgree, WithinLimits, Conserved, StartOrder, TruthfulResults, HandlesHeld, Placed, StartError,
         EnqueueJob,
         HasActiveCapacity, MayStart, MayQueue, MayReplace;
    var job := TriggerJob(event, st.nextJobId, source);
    CapacityMeans(st, event.scriptId);
    if HasActiveCapacity(st, event.scriptId) {
      StartAnswers(st, job, spawn);
      StartPlaces(st, job);
    } else {
      EnqueueAnswers(st, job);
    }
  }

  lemma StartPlaces(st: State, job: TriggerJob)
    requires MayStart(st, job.event.scriptId)
    ensures Placed(st, job, AcceptJob(StartJob(st, job), job))
  {
    hide MayStart, MayQueue;
  }

  /** What a submission answers, and where its run goes, by nothing but the policy, the jobs around after
      collecting, the bounds and whether a thread can be had. Under `RejectNewest` a full script queue
      refuses and keeps what it has. */
  lemma SubmissionMeans(st: State, event: TriggerEvent, source: string, spawn: SpawnOracle)
    requires Inv(st)
    ensures var found := Collect(st, spawn); var (after, result) := Submit(st, event, source, spawn);
            && result == Answer(found, event.scriptId, spawn)
            && (result.Accepted? ==> Placed(found, TriggerJob(event, found.nextJobId, source), after))
            && (!result.Accepted? ==> after == found)
            && (st.policy.overflow == RejectNewest ==>
                  found.queuedJobs <= after.queuedJobs && after.localCompletions == found.localCompletions)
  {
    hide Core, Settled, Placed, MayStart, MayQueue, TrySubmit, Collect;
    CollectKeepsInv(st, spawn);
    CollectKeepsPolicy(st, spawn);
    var found := Collect(st, spawn);
    AttemptMeans(found, event, source, spawn);
    if st.policy.overflow == RejectNewest && Answer(found, event.scriptId, spawn).Accepted? {
      PlacedRejecting(found, TriggerJob(event, found.nextJobId, source), Submit(st, event, source, spawn).0);
    }
  }

  lemma PlacedRejecting(st: State, job: TriggerJob, after: State)
    requires Placed(st, job, after) && (MayStart(st, job.event.scriptId) || MayQueue(st, job.event.scriptId))
    ensures st.queuedJobs <= after.queuedJobs && after.localCompletions == st.localCompletions
  {
    hide MayStart, MayQueue;
  }

  // ---- progress --------------------------------------------------------------------

  /** Neither active limit is zero, which would keep anything from starting. */
  predicate CanStartAnything(policy: Policy) {
    policy.maxActiveGlobal.Permits(1) && policy.maxActivePerScript.Permits(1)
  }

  /** A settled queue is empty once nothing is active. */
  lemma NothingIsStranded(st: State)
    requires Inv(st) && CanStartAnything(st.policy) && st.running == [] && st.channel == []
    ensures st.queuedJobs == []
  {
    hide HasActiveCapacity, CanStartAnything, CountersAgree;
    if st.queuedJobs != [] {
      IdleHasCapacity(st, st.queuedJobs[0].event.scriptId);
    }
  }

  lemma IdleHasCapacity(st: State, script: ScriptId)
    requires CountersAgree(st) && CanStartAnything(st.policy) && st.running == [] && st.channel == []
    ensures HasActiveCapacity(st, script)
  {
    assert Active(st) == [];
    assert CountOf(st.activeByScript, script) == ScriptCount(Active(st), script);
  }

  /** Work still owed to callers: a queued job owes a start, an end and a delivery. */
  function Outstanding(st: State): nat {
    3 * |st.queuedJobs| + 2 * |st.running| + |st.channel| + |st.localCompletions|
  }

  lemma PromoteOwesLess(st: State, index: nat)
    requires index < |st.queuedJobs|
    ensures Outstanding(Promote(st, index)) < Outstanding(st)
    ensures Promote(st, index).channel == st.channel
    ensures Promote(st, index).localCompletions == st.localCompletions
  {
  }

  lemma AbandonOwesLess(st: State, index: nat, message: string)
    requires index < |st.queuedJobs|
    ensures var after := AbandonQueue(Dequeue(st, index), st.queuedJobs[index], message);
            Outstanding(after) < Outstanding(st) && after.channel == st.channel
            && st.localCompletions <= after.localCompletions
  {
    var after := AbandonQueue(Dequeue(st, index), st.queuedJobs[index], message);
    assert after.localCompletions
        == st.localCompletions + ([JobFailure(st.queuedJobs[index], message)]
                                  + JobFailures(Without(st.queuedJobs, index), message));
  }

  lemma {:induction false} ScheduleOwesNoMore(st: State, spawn: SpawnOracle)
    ensures Outstanding(ScheduleQueuedJobs(st, spawn)) <= Outstanding(st)
    ensures ScheduleQueuedJobs(st, spawn).channel == st.channel
    ensures st.localCompletions <= ScheduleQueuedJobs(st, spawn).localCompletions
    decreases |st.queuedJobs|
  {
    hide Outstanding;
    var index := FirstStartable(st);
    if st.policy.maxActiveGlobal.Permits(SaturatingIncrement(st.activeTotal)) && index < |st.queuedJobs| {
      match StartError(Dequeue(st, index), st.queuedJobs[index], spawn)
      case None =>
        PromoteOwesLess(st, index);
        ScheduleOwesNoMore(Promote(st, index), spawn);
      case Some(message) =>
        AbandonOwesLess(st, index, message);
    }
  }

  lemma CollectOwesNoMore(st: State, spawn: SpawnOracle)
    requires Core(st)
    ensures Outstanding(Collect(st, spawn)) <= Outstanding(st)
    ensures Collect(st, spawn).channel == []
    ensures st.localCompletions + st.channel <= Collect(st, spawn).localCompletions
  {
    hide Core;
    DrainKeepsCore(st);
    ScheduleOwesNoMore(DrainChannel(st), spawn);
  }

  /** Every worker report and every delivered completion reduces what is owed; when a caller is told
      there is no completion and no worker runs, every accepted job has been delivered exactly once. */
  lemma DrainingDeliversEverythingOnce(st: State, spawn: SpawnOracle)
    requires Inv(st) && CanStartAnything(st.policy)
    ensures forall index: nat, outcome | index < |st.running| ::
              Outstanding(Report(st, index, outcome)) < Outstanding(st)
    ensures var (after, completion) := TryCompletion(st, spawn);
            if completion.Some? then Outstanding(after) < Outstanding(st)
            else after.running == [] ==>
              && multiset(JobsOf(after.ledger.delivered)) == multiset(st.ledger.accepted)
              && !HasPending(after)
  {
    hide Core, Settled, JobsOf, Collect;
    CollectKeepsInv(st, spawn);
    CollectOwesNoMore(st, spawn);
    CollectAcceptsNothing(st, spawn);
    CollectDrainsAll(st, spawn);
  }

  /** With no worker left and nothing to deliver, a collection has left nothing anywhere. */
  lemma CollectDrainsAll(st: State, spawn: SpawnOracle)
    requires Inv(st) && CanStartAnything(st.policy)
    ensures var collected := Collect(st, spawn);
            collected.localCompletions == [] && collected.running == [] ==>
              && multiset(JobsOf(collected.ledger.delivered)) == multiset(collected.ledger.accepted)
              && collected.pendingJobs == 0
  {
    hide Core, Settled, JobsOf;
    CollectKeepsInv(st, spawn);
    CollectOwesNoMore(st, spawn);
    var collected := Collect(st, spawn);
    if collected.localCompletions == [] && collected.running == [] {
      CollectKeepsPolicy(st, spawn);
      NothingIsStranded(collected);
      EmptyExecutor(collected);
    }
  }

  lemma EmptyExecutor(st: State)
    requires Core(st)
    requires st.queuedJobs == [] && st.running == [] && st.channel == [] && st.localCompletions == []
    ensures multiset(JobsOf(st.ledger.delivered)) == multiset(st.ledger.accepted)
    ensures st.pendingJobs == 0
  {
    assert Active(st) == [];
    assert JobsOf(st.channel) == [] && JobsOf(st.localCompletions) == [];
  }

  lemma {:induction false} ScheduleKeepsPolicy(st: State, spawn: SpawnOracle)
    ensures ScheduleQueuedJobs(st, spawn).policy == st.policy
    decreases |st.queuedJobs|
  {
    var index := FirstStartable(st);
    if st.policy.maxActiveGlobal.Permits(SaturatingIncrement(st.activeTotal)) && index < |st.queuedJobs| {
      if StartError(Dequeue(st, index), st.queuedJobs[index], spawn).None? {
        ScheduleKeepsPolicy(Promote(st, index), spawn);
      }
    }
  }

  lemma CollectKeepsPolicy(st: State, spawn: SpawnOracle)
    requires Core(st)
    ensures Collect(st, spawn).policy == st.policy
  {
    hide Core;
    DrainKeepsCore(st);
    ScheduleKeepsPolicy(DrainChannel(st), spawn);
  }

  /** Before shutdown, the pending count is zero exactly when every accepted job was delivered. */
  lemma PendingIffUndelivered(st: State)
    requires Inv(st)
    ensures HasPending(st) <==> multiset(JobsOf(st.ledger.delivered)) != multiset(st.ledger.accepted)
  {
    if !HasPending(st) {
      EmptyExecutor(st);
    } else {
      HoldingsSize(st);
    }
  }

  lemma HoldingsSize(st: State)
    requires CountersAgree(st)
    ensures |Holdings(st)| == |st.ledger.delivered| + st.pendingJobs
    ensures |multiset(JobsOf(st.ledger.delivered))| == |st.ledger.delivered|
  {
    assert |Active(st)| == |st.running| + |st.channel|;
  }

  // ---- the redundant counters ------------------------------------------------------

  ghost function SumOf(counts: map<ScriptId, nat>): nat {
    if counts == map[] then 0
    else
      var key :| key in counts;
      counts[key] + SumOf(counts - {key})
  }

  lemma {:induction false} SumSplit(counts: map<ScriptId, nat>, key: ScriptId)
    requires key in counts
    ensures SumOf(counts) == counts[key] + SumOf(counts - {key})
    decreases |counts|
  {
    var chosen: ScriptId :| chosen in counts && SumOf(counts) == counts[chosen] + SumOf(counts - {chosen});
    if chosen != key {
      SumSplit(counts - {chosen}, key);
      SumSplit(counts - {key}, chosen);
      assert counts - {chosen} - {key} == counts - {key} - {chosen};
    }
  }

  lemma {:induction false} TalliesSum(counts: map<ScriptId, nat>, jobs: seq<TriggerJob>)
    requires Tallies(counts, jobs)
    ensures SumOf(counts) == |jobs|
    decreases |jobs|
  {
    if jobs == [] {
      assert forall key | key in counts :: CountOf(counts, key) == 0;
      assert counts == map[];
    } else {
      var last := |jobs| - 1;
      var key := jobs[last].event.scriptId;
      TallyRemove(counts, jobs, last);
      assert Without(jobs, last) == jobs[..last];
      TalliesSum(DecrementCount(counts, key), jobs[..last]);
      assert CountOf(counts, key) == ScriptCount(jobs, key) > 0;
      SumSplit(counts, key);
      var less := DecrementCount(counts, key);
      if key in less {
        SumSplit(less, key);
        assert less - {key} == counts - {key};
      }
    }
  }

  /** In every run before shutdown: the totals are the sums of the per-script counters, no counter
      is zero, and neither active limit nor the queue limit is exceeded. */
  lemma CountersAreExact(st: State)
    requires Inv(st)
    ensures SumOf(st.activeByScript) == st.activeTotal == |st.running| + |st.channel|
    ensures SumOf(st.queuedByScript) == |st.queuedJobs|
    ensures st.pendingJobs == st.activeTotal + |st.queuedJobs| + |st.localCompletions|
    ensures forall script | script in st.activeByScript ::
              0 < st.activeByScript[script] && st.policy.maxActivePerScript.Permits(st.activeByScript[script])
    ensures forall script | script in st.queuedByScript ::
              0 < st.queuedByScript[script] && st.policy.maxQueuedPerScript.Permits(st.queuedByScript[script])
    ensures st.activeTotal == 0 || st.policy.maxActiveGlobal.Permits(st.activeTotal)
  {
    TalliesSum(st.activeByScript, Active(st));
    TalliesSum(st.queuedByScript, st.queuedJobs);
    forall script | script in st.activeByScript
      ensures st.policy.maxActivePerScript.Permits(st.activeByScript[script])
    {
      assert CountOf(st.activeByScript, script) == st.activeByScript[script];
    }
    forall script | script in st.queuedByScript
      ensures st.policy.maxQueuedPerScript.Permits(st.queuedByScript[script])
    {
      assert CountOf(st.queuedByScript, script) == st.queuedByScript[script];
    }
  }

  // ---- a shutdown that does not wait -----------------------------------------------

  lemma CollectNothing(st: State, spawn: SpawnOracle)
    requires st.channel == [] && st.queuedJobs == []
    ensures Collect(st, spawn) == st
  {
  }

  lemma ShutdownAtOnce(st: State)
    requires st.workers == {}
    ensures ShutdownTo(st, EndShutdown(BeginShutdown(st))) && EndShutdown(BeginShutdown(st)).running == st.running
  {
    var joined := BeginShutdown(st);
    assert ReportsLeadTo(joined, joined);
  }

  lemma FirstSubmissionRuns(policy: Policy, event: TriggerEvent, source: string)
    requires CanStartAnything(policy)
    ensures var spawn := (id: nat) => None; var st := Init(policy, false);
            var (after, result) := Submit(st, event, source, spawn);
            && Next(st, SubmitStep(event, source, spawn, result), after)
            && after.running == [TriggerJob(event, 1, source)] && after.workers == {}
  {
    CollectNothing(Init(policy, false), (id: nat) => None);
  }

  /** "Shutdown waits for its workers" fails in a release build, under any policy that lets anything
      start: one submission, then the shutdown, and the submission's worker is still running. */
  lemma ReleaseShutdownLeavesWorker(policy: Policy, event: TriggerEvent, source: string)
      returns (states: seq<State>, steps: seq<Step>)
    requires CanStartAnything(policy)
    ensures IsRun(states, steps) && |states| == 3 && states[0] == Init(policy, false)
    ensures steps[0].SubmitStep? && steps[0].event == event && steps[1] == ShutdownStep
    ensures states[2].running == [TriggerJob(event, 1, source)]
  {
    hide Init, Submit, ShutdownTo, BeginShutdown, EndShutdown, CanStartAnything;
    var spawn := (id: nat) => None;
    var begun := Init(policy, false);
    var (submitted, result) := Submit(begun, event, source, spawn);
    FirstSubmissionRuns(policy, event, source);
    ShutdownAtOnce(submitted);
    states := [begun, submitted, EndShutdown(BeginShutdown(submitted))];
    steps := [SubmitStep(event, source, spawn, result), ShutdownStep];
  }
}
