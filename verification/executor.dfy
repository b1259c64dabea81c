/** The executor as the object the service holds: every method is proved against the state machine. */
module Executor {
  import opened Wrappers
  import opened ExecutorModel
  import opened ExecutorTheorems

  class TriggerExecutor {
    var accepting: bool
    var activeByScript: map<ScriptId, nat>
    var activeTotal: nat
    var channel: seq<Completion>
    var localCompletions: seq<Completion>
    var nextJobId: nat
    var pendingJobs: nat
    const policy: Policy
    var queuedByScript: map<ScriptId, nat>
    var queuedJobs: seq<TriggerJob>
    var cancelled: bool
    var workers: set<nat>
    const debugAssertions: bool
    var running: seq<TriggerJob>  // the live worker threads, each with the job it was given
    ghost var ledger: Ledger

    ghost function View(): State
      reads this
    {
      State(accepting, activeByScript, activeTotal, channel, localCompletions, nextJobId, pendingJobs, policy,
            queuedByScript, queuedJobs, cancelled, workers, debugAssertions, running, ledger)
    }

    constructor (policy: Policy, debugAssertions: bool)
      ensures View() == Init(policy, debugAssertions)
    {
      this.policy, this.debugAssertions := policy, debugAssertions;
      accepting, cancelled := true, false;
      activeByScript, activeTotal := map[], 0;
      channel, localCompletions := [], [];
      nextJobId, pendingJobs := 1, 0;
      queuedByScript, queuedJobs := map[], [];
      workers := {};
      running, ledger := [], Ledger([], [], map[], []);
    }

    /** Capacity as the object's own counters tell it. */
    predicate HasCapacity(script: ScriptId)
      reads this
      ensures HasCapacity(script) == HasActiveCapacity(View(), script)
    {
      && LimitPermitsNext(policy.maxActiveGlobal, activeTotal)
      && LimitPermitsNext(policy.maxActivePerScript, CountOf(activeByScript, script))
    }

    /** The spawned worker is counted and its handle kept where debug assertions are on. */
    method Register(job: TriggerJob)
      modifies this
      ensures View() == ExecutorModel.StartJob(old(View()), job)
    {
      hide IncrementCount;
      var script := job.event.scriptId;
      running := running + [job];
      ledger := ledger.(started := ledger.started + [job]);
      activeTotal := activeTotal + 1;
      activeByScript := IncrementCount(activeByScript, script);
      if debugAssertions {
        workers := workers + {job.jobId};
      }
    }

    method StartJob(job: TriggerJob, spawn: SpawnOracle) returns (error: Option<string>)
      modifies this
      ensures error == StartError(old(View()), job, spawn)
      ensures View() == if error.None? then ExecutorModel.StartJob(old(View()), job) else old(View())
    {
      hide ExecutorModel.StartJob;
      var script := job.event.scriptId;
      if activeTotal >= USIZE_MAX {
        return Some("active trigger execution count was exhausted");
      }
      var activeForScript := CountOf(activeByScript, script);
      if activeForScript >= USIZE_MAX {
        return Some("active trigger execution count for script was exhausted");
      }
      match spawn(job.jobId) {
        case Some(refusal) =>
          return Some("failed to spawn trigger execution worker: " + refusal);
        case None =>
      }
      Register(job);
      error := None;
    }

    method EnqueueJob(job: TriggerJob) returns (queued: bool)
      modifies this
      ensures queued == ExecutorModel.EnqueueJob(old(View()), job).Some?
      ensures View() == if queued then ExecutorModel.EnqueueJob(old(View()), job).value else old(View())
    {
      var script := job.event.scriptId;
      if !LimitPermitsNext(policy.maxQueuedPerScript, CountOf(queuedByScript, script)) {
        match policy.overflow {
          case RejectNewest =>
            return false;
          case DropOldest =>
            var index := Position(queuedJobs, (candidate: TriggerJob) => candidate.event.scriptId == script);
            if index == |queuedJobs| {
              return false;
            }
            var superseded := queuedJobs[index];
            queuedJobs := Without(queuedJobs, index);
            queuedByScript := DecrementCount(queuedByScript, script);
            localCompletions := localCompletions + [JobFailure(superseded, SUPERSEDED)];
        }
      }
      queuedJobs := queuedJobs + [job];
      queuedByScript := IncrementCount(queuedByScript, script);
      queued := true;
    }

    method FinishWorker(completion: Completion)
      modifies this
      ensures View() == ExecutorModel.FinishWorker(old(View()), completion)
    {
      workers := workers - {completion.jobId};
      activeTotal := SaturatingDecrement(activeTotal);
      activeByScript := DecrementCount(activeByScript, completion.event.scriptId);
    }

    method FailAllQueuedJobs(message: string)
      modifies this
      ensures View() == ExecutorModel.FailAllQueuedJobs(old(View()), message)
    {
      var drained := queuedJobs;
      queuedJobs := [];
      for i := 0 to |drained|
        invariant View() == old(View()).(
                              queuedJobs := [],
                              localCompletions := old(localCompletions) + JobFailures(drained[..i], message))
      {
        localCompletions := localCompletions + [JobFailure(drained[i], message)];
        assert JobFailures(drained[..i + 1], message)
            == JobFailures(drained[..i], message) + [JobFailure(drained[i], message)];
      }
      assert drained[..|drained|] == drained;
      queuedByScript := map[];
    }

    method TakeQueued(index: nat) returns (job: TriggerJob)
      requires index < |queuedJobs|
      modifies this
      ensures job == old(queuedJobs[index])
      ensures View() == Dequeue(old(View()), index)
    {
      job := queuedJobs[index];
      queuedJobs := Without(queuedJobs, index);
      queuedByScript := DecrementCount(queuedByScript, job.event.scriptId);
    }

    method Abandon(job: TriggerJob, message: string)
      modifies this
      ensures View() == AbandonQueue(old(View()), job, message)
    {
      accepting := false;
      localCompletions := localCompletions + [JobFailure(job, message)];
      FailAllQueuedJobs(message);
    }

    method ScheduleQueuedJobs(spawn: SpawnOracle)
      modifies this
      ensures View() == ExecutorModel.ScheduleQueuedJobs(old(View()), spawn)
    {
      hide Dequeue, ExecutorModel.StartJob, StartError, AbandonQueue, FirstStartable;
      while true
        invariant ExecutorModel.ScheduleQueuedJobs(View(), spawn)
               == ExecutorModel.ScheduleQueuedJobs(old(View()), spawn)
        decreases |queuedJobs|
      {
        if !policy.maxActiveGlobal.Permits(SaturatingIncrement(activeTotal)) {
          return;
        }
        ghost var before := View();
        var index := FirstWithCapacity();
        if index == |queuedJobs| {
          return;
        }
        var job := TakeQueued(index);
        var error := StartJob(job, spawn);
        if error.Some? {
          Abandon(job, error.value);
          return;
        }
        DequeueShortens(before, index, job);
      }
    }

    /** The scan over the queue for the first job that may start. */
    method FirstWithCapacity() returns (index: nat)
      ensures index == FirstStartable(View()) && index <= |queuedJobs|
    {
      index := 0;
      while index < |queuedJobs| && !HasCapacity(queuedJobs[index].event.scriptId)
        invariant index <= |queuedJobs|
        invariant forall j :: 0 <= j < index ==> !HasActiveCapacity(View(), queuedJobs[j].event.scriptId)
      {
        index := index + 1;
      }
    }

    method CollectAvailableCompletions(spawn: SpawnOracle)
      modifies this
      ensures View() == Collect(old(View()), spawn)
    {
      while channel != []
        invariant DrainChannel(View()) == DrainChannel(old(View()))
        decreases |channel|
      {
        var completion := channel[0];
        channel := channel[1..];
        FinishWorker(completion);
        localCompletions := localCompletions + [completion];
      }
      ScheduleQueuedJobs(spawn);
    }

    method TrySubmitFrom(event: TriggerEvent, source: string, spawn: SpawnOracle) returns (result: SubmitResult)
      modifies this
      ensures (View(), result) == TrySubmit(old(View()), event, source, spawn)
    {
      hide ExecutorModel.StartJob, ExecutorModel.EnqueueJob, StartError;
      if !accepting || nextJobId >= U64_MAX || pendingJobs >= USIZE_MAX {
        return Stopped;
      }
      var job := TriggerJob(event, nextJobId, source);
      if HasCapacity(event.scriptId) {
        var error := StartJob(job, spawn);
        if error.Some? {
          return Stopped;
        }
      } else {
        var queued := EnqueueJob(job);
        if !queued {
          return Full;
        }
      }
      nextJobId := nextJobId + 1;
      pendingJobs := pendingJobs + 1;
      ledger := ledger.(accepted := ledger.accepted + [job]);
      result := Accepted(job.jobId);
    }

    /** A submission keeps the invariant and is one step of the state machine. */
    method SubmitFrom(event: TriggerEvent, source: string, spawn: SpawnOracle) returns (result: SubmitResult)
      requires Sound(View())
      modifies this
      ensures (View(), result) == Submit(old(View()), event, source, spawn)
      ensures Sound(View())
    {
      ghost var before := View();
      CollectAvailableCompletions(spawn);
      result := TrySubmitFrom(event, source, spawn);
      NextKeepsSound(before, SubmitStep(event, source, spawn, result), View());
    }

    method NextCompletion(spawn: SpawnOracle) returns (completion: Option<Completion>)
      requires Sound(View())
      modifies this
      ensures (View(), completion) == TryCompletion(old(View()), spawn)
      ensures Sound(View())
    {
      ghost var before := View();
      CollectAvailableCompletions(spawn);
      if localCompletions == [] {
        completion := None;
      } else {
        completion := Some(localCompletions[0]);
        localCompletions := localCompletions[1..];
        pendingJobs := SaturatingDecrement(pendingJobs);
        ledger := ledger.(delivered := ledger.delivered + [completion.value]);
      }
      NextKeepsSound(before, CompletionStep(spawn, completion), View());
    }

    /** A worker thread ends: its outcome reaches the channel. */
    method WorkerReports(index: nat, outcome: WorkerOutcome)
      requires index < |running|
      modifies this
      ensures View() == Report(old(View()), index, outcome)
    {
      var job := running[index];
      channel := channel + [Completion(job.event, job.jobId, ResultOf(outcome), job.source)];
      running := Without(running, index);
      ledger := ledger.(reported := ledger.reported[job.jobId := ResultOf(outcome)]);
    }

    /** Waits for one worker: on return its thread has ended. */
    method Join(jobId: nat, outcome: WorkerOutcome)
      modifies this
      ensures ReportsLeadTo(old(View()), View())
      ensures forall job | job in running :: job in old(running) && job.jobId != jobId
    {
      var index := 0;
      while index < |running|
        invariant index <= |running|
        invariant ReportsLeadTo(old(View()), View())
        invariant forall i :: 0 <= i < index ==> running[i].jobId != jobId
        invariant forall job | job in running :: job in old(running)
        decreases |running| - index
      {
        if running[index].jobId == jobId {
          ghost var before := View();
          WorkerReports(index, outcome);
          OneMoreReport(old(View()), before, index, outcome);
        } else {
          index := index + 1;
        }
      }
    }

    /** Joins every worker whose handle is held, in any order, and counts the joins that fail. */
    method JoinWorkers(outcomes: nat -> WorkerOutcome, unwinds: nat -> bool) returns (panicked: nat)
      modifies this
      ensures ReportsLeadTo(old(View()), View())
      ensures forall i :: 0 <= i < |running| ==> running[i].jobId !in old(workers)
      ensures panicked == Capped(|Unwinding(old(workers), unwinds)|)
    {
      hide ReportsLeadTo, Unwinding, Capped;
      ghost var begun, held := View(), workers;
      NoReports(begun);
      var handles := workers;
      panicked := 0;
      NoneUnwinding(held, unwinds);
      while handles != {}
        invariant handles <= held
        invariant ReportsLeadTo(begun, View())
        invariant forall job | job in running :: job.jobId in held ==> job.jobId in handles
        invariant panicked == Capped(|Unwinding(held - handles, unwinds)|)
        decreases handles
      {
        var jobId :| jobId in handles;
        ghost var middle := View();
        Join(jobId, outcomes(jobId));
        ReportsCompose(begun, middle, View());
        UnwindingOneMore(held, handles, jobId, unwinds);
        if unwinds(jobId) {
          panicked := SaturatingIncrement(panicked);
        }
        handles := handles - {jobId};
      }
      assert held - handles == held;
      assert forall i :: 0 <= i < |running| ==> running[i] in running;
    }

    method StopAccepting()
      modifies this
      ensures View() == BeginShutdown(old(View()))
    {
      accepting, cancelled := false, true;
      queuedJobs, queuedByScript := [], map[];
    }

    method ForgetWorkers()
      modifies this
      ensures View() == EndShutdown(old(View()))
    {
      workers := {};
      activeByScript, activeTotal, pendingJobs := map[], 0, 0;
    }

    /** `unwinds` tells which workers' threads end in a panic after they have sent their completion: the
        error says how many of those joined did. */
    method Shutdown(outcomes: nat -> WorkerOutcome, unwinds: nat -> bool) returns (result: Result<(), nat>)
      requires Sound(View())
      modifies this
      ensures ShutdownTo(old(View()), View())
      ensures Sound(View())
      ensures var panicked := Unwinding(old(workers), unwinds);
              result == if panicked == {} then Ok(()) else Err(Capped(|panicked|))
    {
      hide Sound, ReportsLeadTo, ShutdownTo, BeginShutdown, EndShutdown, Unwinding;
      ghost var before := View();
      StopAccepting();
      BeginKeepsWorkers(before);
      var panicked := JoinWorkers(outcomes, unwinds);
      ghost var joined := View();
      ForgetWorkers();
      JoinedAll(before, joined);
      result := if panicked > 0 then Err(panicked) else Ok(());
    }
  }

  lemma BeginKeepsWorkers(st: State)
    ensures BeginShutdown(st).workers == st.workers
  {
  }

  /** The held workers whose join fails. */
  function Unwinding(held: set<nat>, unwinds: nat -> bool): set<nat> {
    set jobId | jobId in held && unwinds(jobId)
  }

  function Capped(n: nat): nat {
    if n < USIZE_MAX then n else USIZE_MAX
  }

  lemma NoneUnwinding(held: set<nat>, unwinds: nat -> bool)
    ensures Capped(|Unwinding(held - held, unwinds)|) == 0
  {
    assert Unwinding(held - held, unwinds) == {};
  }

  lemma UnwindingOneMore(held: set<nat>, handles: set<nat>, jobId: nat, unwinds: nat -> bool)
    requires handles <= held && jobId in handles
    ensures var fewer, more := Unwinding(held - handles, unwinds), Unwinding(held - (handles - {jobId}), unwinds);
            Capped(|more|) == if unwinds(jobId) then SaturatingIncrement(Capped(|fewer|)) else Capped(|fewer|)
  {
    var fewer, more := Unwinding(held - handles, unwinds), Unwinding(held - (handles - {jobId}), unwinds);
    assert more == if unwinds(jobId) then fewer + {jobId} else fewer;
  }

  lemma DequeueShortens(st: State, index: nat, job: TriggerJob)
    requires index < |st.queuedJobs|
    ensures |ExecutorModel.StartJob(Dequeue(st, index), job).queuedJobs| < |st.queuedJobs|
  {
  }

  lemma NoReports(st: State)
    ensures ReportsLeadTo(st, st)
  {
  }

  lemma JoinedAll(before: State, joined: State)
    requires Sound(before)
    requires ReportsLeadTo(BeginShutdown(before), joined)
    requires forall i :: 0 <= i < |joined.running| ==> joined.running[i].jobId !in before.workers
    ensures ShutdownTo(before, EndShutdown(joined)) && Sound(EndShutdown(joined))
  {
    hide Sound, ShutdownTo, ReportsLeadTo, BeginShutdown, EndShutdown;
    JoinedIsShutdown(before, joined);
    NextKeepsSound(before, ShutdownStep, EndShutdown(joined));
  }

  lemma JoinedIsShutdown(before: State, joined: State)
    requires ReportsLeadTo(BeginShutdown(before), joined)
    requires forall i :: 0 <= i < |joined.running| ==> joined.running[i].jobId !in before.workers
    ensures ShutdownTo(before, EndShutdown(joined))
  {
    hide ReportsLeadTo, BeginShutdown, EndShutdown;
  }

  lemma OneMoreReport(first: State, middle: State, index: nat, outcome: WorkerOutcome)
    requires ReportsLeadTo(first, middle) && index < |middle.running|
    ensures ReportsLeadTo(first, Report(middle, index, outcome))
  {
    assert ReportsLeadTo(Report(middle, index, outcome), Report(middle, index, outcome));
    assert ReportsLeadTo(middle, Report(middle, index, outcome));
    ReportsCompose(first, middle, Report(middle, index, outcome));
  }

  lemma {:induction false} ReportsCompose(first: State, middle: State, last: State)
    requires ReportsLeadTo(first, middle) && ReportsLeadTo(middle, last)
    ensures ReportsLeadTo(first, last)
    decreases |first.running|
  {
    if first != middle {
      var index: nat, outcome :| index < |first.running| && ReportsLeadTo(Report(first, index, outcome), middle);
      ReportsCompose(Report(first, index, outcome), middle, last);
    }
  }
}
