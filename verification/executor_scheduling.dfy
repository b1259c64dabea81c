/** What a collection does to the queue, whose results callers get, and what a shutdown leaves. */
module ExecutorScheduling {
  import opened Wrappers
  import opened ExecutorModel
  import opened ExecutorInvariant
  import opened ExecutorTheorems
  import opened ExecutorGuarantees

  // ---- one pass over the queue -----------------------------------------------------

  ghost predicate Ascending(jobs: seq<TriggerJob>) {
    forall i, j :: 0 <= i < j < |jobs| ==> jobs[i].jobId < jobs[j].jobId
  }

  ghost predicate ScriptFull(st: State, script: ScriptId) {
    !LimitPermitsNext(st.policy.maxActivePerScript, CountOf(st.activeByScript, script))
  }

  /** These of the queued runs have got their threads, in the order in which they were accepted. */
  ghost predicate Started(before: State, spawn: SpawnOracle, started: seq<TriggerJob>, after: State) {
    && Ascending(started) && (forall job | job in started :: job in before.queuedJobs && spawn(job.jobId).None?)
    && after.running == before.running + started && after.channel == before.channel
    && after.ledger == before.ledger.(started := before.ledger.started + started)
  }

  /** No thread was refused: nothing fails, the others wait on in order, and a run was passed over only
      because its script is full. */
  ghost predicate WentWell(before: State, started: seq<TriggerJob>, after: State) {
    && after.accepting == before.accepting && after.localCompletions == before.localCompletions
    && multiset(started) + multiset(after.queuedJobs) == multiset(before.queuedJobs) && Ascending(after.queuedJobs)
    && forall waiting, job | waiting in after.queuedJobs && job in started && waiting.jobId < job.jobId ::
         ScriptFull(after, waiting.event.scriptId)
  }

  ghost predicate FailsWith(c: Completion, job: TriggerJob, message: string) {
    c == Completion(job.event, job.jobId, Failed(message), job.source)
  }

  /** The next run was refused its thread: it fails with the system's error and so does every other queued
      run, in order, and nothing is accepted any more. */
  ghost predicate GaveUp(before: State, spawn: SpawnOracle, started: seq<TriggerJob>, after: State) {
    && !after.accepting && after.queuedJobs == []
    && exists failed: seq<TriggerJob> ::
         && failed != [] && spawn(failed[0].jobId).Some? && Ascending(failed[1..])
         && multiset(started) + multiset(failed) == multiset(before.queuedJobs)
         && AllFail(before, failed, "failed to spawn trigger execution worker: " + spawn(failed[0].jobId).value, after)
  }

  ghost predicate AllFail(before: State, failed: seq<TriggerJob>, message: string, after: State) {
    var n := |before.localCompletions|;
    && |after.localCompletions| == n + |failed| && before.localCompletions <= after.localCompletions
    && forall i :: 0 <= i < |failed| ==> FailsWith(after.localCompletions[n + i], failed[i], message)
  }

  ghost predicate Scheduled(before: State, spawn: SpawnOracle, started: seq<TriggerJob>, after: State) {
    && Started(before, spawn, started, after)
    && (WentWell(before, started, after) || GaveUp(before, spawn, started, after))
  }

  /** Capacity only shrinks while runs are started. */
  ghost predicate Shrinks(before: State, after: State) {
    && after.policy == before.policy && before.activeTotal <= after.activeTotal
    && forall script: ScriptId :: CountOf(before.activeByScript, script) <= CountOf(after.activeByScript, script)
  }

  lemma ShrinksMeans(before: State, after: State, script: ScriptId)
    requires Shrinks(before, after)
    ensures HasActiveCapacity(after, script) ==> HasActiveCapacity(before, script)
    ensures ScriptFull(before, script) ==> ScriptFull(after, script)
  {
  }

  lemma SpawnDecides(st: State, index: nat, spawn: SpawnOracle)
    requires index < |st.queuedJobs| && HasActiveCapacity(st, st.queuedJobs[index].event.scriptId)
    ensures var id := st.queuedJobs[index].jobId;
            StartError(Dequeue(st, index), st.queuedJobs[index], spawn)
            == if spawn(id).None? then None else Some("failed to spawn trigger execution worker: " + spawn(id).value)
  {
  }

  lemma {:induction false} ScheduleMeans(st: State, spawn: SpawnOracle) returns (started: seq<TriggerJob>)
    requires Ascending(st.queuedJobs)
    ensures Scheduled(st, spawn, started, ScheduleQueuedJobs(st, spawn))
    ensures forall job | job in started :: HasActiveCapacity(st, job.event.scriptId)
    ensures Shrinks(st, ScheduleQueuedJobs(st, spawn)) || GaveUp(st, spawn, started, ScheduleQueuedJobs(st, spawn))
    decreases |st.queuedJobs|
  {
    hide GaveUp, WentWell, Started, HasActiveCapacity, StartError, AbandonQueue, Ascending, Shrinks;
    var index := FirstStartable(st);
    started := [];
    if st.policy.maxActiveGlobal.Permits(SaturatingIncrement(st.activeTotal)) && index < |st.queuedJobs| {
      SpawnDecides(st, index, spawn);
      if spawn(st.queuedJobs[index].jobId).None? {
        PromotedQueue(st, index);
        var rest := ScheduleMeans(Promote(st, index), spawn);
        started := [st.queuedJobs[index]] + rest;
        PromoteFirst(st, index, spawn, rest, ScheduleQueuedJobs(st, spawn));
      } else {
        AbandonMeans(st, index, spawn);
      }
    } else {
      NothingStarted(st, spawn);
    }
  }

  lemma NothingStarted(st: State, spawn: SpawnOracle)
    requires Ascending(st.queuedJobs)
    ensures Scheduled(st, spawn, [], st) && Shrinks(st, st)
  {
  }

  lemma AbandonMeans(st: State, index: nat, spawn: SpawnOracle)
    requires Ascending(st.queuedJobs) && index < |st.queuedJobs| && spawn(st.queuedJobs[index].jobId).Some?
    ensures var job := st.queuedJobs[index];
            var message := "failed to spawn trigger execution worker: " + spawn(job.jobId).value;
            var after := AbandonQueue(Dequeue(st, index), job, message);
            Started(st, spawn, [], after) && GaveUp(st, spawn, [], after)
  {
    hide AllFail, Dequeue, AbandonQueue, Started, GaveUp, Without, Ascending;
    var job, rest := st.queuedJobs[index], Without(st.queuedJobs, index);
    var message := "failed to spawn trigger execution worker: " + spawn(job.jobId).value;
    var failed := [job] + rest;
    AbandonStops(st, index, message);
    var after := AbandonQueue(Dequeue(st, index), job, message);
    NoneStarted(st, spawn, after);
    WithoutMultiset(st.queuedJobs, index);
    WithoutAscends(st.queuedJobs, index);
    assert failed[1..] == rest;
    AbandonFails(st, index, message);
    assert multiset(failed) == multiset(st.queuedJobs);
    GivesUp(st, spawn, failed, after);
  }

  lemma NoneStarted(before: State, spawn: SpawnOracle, after: State)
    requires after.running == before.running && after.channel == before.channel && after.ledger == before.ledger
    ensures Started(before, spawn, [], after)
  {
    assert before.running + [] == before.running && before.ledger.started + [] == before.ledger.started;
  }

  lemma GivesUp(st: State, spawn: SpawnOracle, failed: seq<TriggerJob>, after: State)
    requires !after.accepting && after.queuedJobs == []
    requires failed != [] && spawn(failed[0].jobId).Some? && Ascending(failed[1..])
    requires multiset(failed) == multiset(st.queuedJobs)
    requires AllFail(st, failed, "failed to spawn trigger execution worker: " + spawn(failed[0].jobId).value, after)
    ensures GaveUp(st, spawn, [], after)
  {
    hide Ascending, AllFail;
    assert multiset([]) + multiset(failed) == multiset(st.queuedJobs);
  }

  lemma WithoutAscends(jobs: seq<TriggerJob>, index: nat)
    requires Ascending(jobs) && index < |jobs|
    ensures Ascending(Without(jobs, index))
    ensures Ascending([])
  {
  }

  lemma AbandonStops(st: State, index: nat, message: string)
    requires index < |st.queuedJobs|
    ensures var after := AbandonQueue(Dequeue(st, index), st.queuedJobs[index], message);
            && !after.accepting && after.queuedJobs == [] && after.running == st.running
            && after.channel == st.channel && after.ledger == st.ledger
  {
  }

  lemma AbandonFails(st: State, index: nat, message: string)
    requires index < |st.queuedJobs|
    ensures var job := st.queuedJobs[index];
            AllFail(st, [job] + Without(st.queuedJobs, index), message, AbandonQueue(Dequeue(st, index), job, message))
  {
    hide Without;
  }

  lemma PromotedQueue(st: State, index: nat)
    requires Ascending(st.queuedJobs) && index < |st.queuedJobs|
    ensures Ascending(Promote(st, index).queuedJobs) && Shrinks(st, Promote(st, index))
  {
  }

  lemma PromoteFirst(st: State, index: nat, spawn: SpawnOracle, rest: seq<TriggerJob>, after: State)
    requires Ascending(st.queuedJobs) && index < |st.queuedJobs| && index == FirstStartable(st)
    requires spawn(st.queuedJobs[index].jobId).None?
    requires Scheduled(Promote(st, index), spawn, rest, after)
    requires forall job | job in rest :: HasActiveCapacity(Promote(st, index), job.event.scriptId)
    requires Shrinks(Promote(st, index), after) || GaveUp(Promote(st, index), spawn, rest, after)
    ensures Scheduled(st, spawn, [st.queuedJobs[index]] + rest, after)
    ensures forall job | job in [st.queuedJobs[index]] + rest :: HasActiveCapacity(st, job.event.scriptId)
    ensures Shrinks(st, after) || GaveUp(st, spawn, [st.queuedJobs[index]] + rest, after)
  {
    hide GaveUp, WentWell, Started, Ascending, Shrinks, HasActiveCapacity;
    var job, started := st.queuedJobs[index], [st.queuedJobs[index]] + rest;
    PromotedQueue(st, index);
    forall other | other in started ensures HasActiveCapacity(st, other.event.scriptId) {
      ShrinksMeans(st, Promote(st, index), other.event.scriptId);
    }
    StartedOneMore(st, index, spawn, rest, after);
    if GaveUp(Promote(st, index), spawn, rest, after) {
      GaveUpOneMore(st, index, spawn, rest, after);
    } else {
      ShrinksOn(st, Promote(st, index), after);
      WentWellOneMore(st, index, rest, after);
    }
  }

  lemma ShrinksOn(a: State, b: State, c: State)
    requires Shrinks(a, b) && Shrinks(b, c)
    ensures Shrinks(a, c)
  {
  }

  lemma StartedOneMore(st: State, index: nat, spawn: SpawnOracle, rest: seq<TriggerJob>, after: State)
    requires Ascending(st.queuedJobs) && index < |st.queuedJobs| && index == FirstStartable(st)
    requires spawn(st.queuedJobs[index].jobId).None? && Started(Promote(st, index), spawn, rest, after)
    requires forall job | job in rest :: HasActiveCapacity(st, job.event.scriptId)
    ensures Started(st, spawn, [st.queuedJobs[index]] + rest, after)
  {
    hide HasActiveCapacity, Without, Position;
    var job := st.queuedJobs[index];
    forall other | other in rest ensures other in st.queuedJobs && job.jobId < other.jobId {
      LaterInQueue(st, index, other);
    }
    FirstAscends(job, rest);
    hide Ascending;
    assert st.running + [job] + rest == st.running + ([job] + rest);
    assert st.ledger.started + [job] + rest == st.ledger.started + ([job] + rest);
  }

  lemma FirstAscends(job: TriggerJob, rest: seq<TriggerJob>)
    requires Ascending(rest) && forall other | other in rest :: job.jobId < other.jobId
    ensures Ascending([job] + rest)
  {
  }

  lemma LaterInQueue(st: State, index: nat, other: TriggerJob)
    requires Ascending(st.queuedJobs) && index < |st.queuedJobs| && index == FirstStartable(st)
    requires other in Without(st.queuedJobs, index) && HasActiveCapacity(st, other.event.scriptId)
    ensures other in st.queuedJobs && st.queuedJobs[index].jobId < other.jobId
  {
    hide HasActiveCapacity;
    var k :| 0 <= k < |st.queuedJobs| && k != index && st.queuedJobs[k] == other;
  }

  lemma GaveUpOneMore(st: State, index: nat, spawn: SpawnOracle, rest: seq<TriggerJob>, after: State)
    requires index < |st.queuedJobs| && GaveUp(Promote(st, index), spawn, rest, after)
    ensures GaveUp(st, spawn, [st.queuedJobs[index]] + rest, after)
  {
    hide Ascending, Without, AllFail;
    var job := st.queuedJobs[index];
    WithoutMultiset(st.queuedJobs, index);
    var failed: seq<TriggerJob> :|
      && failed != [] && spawn(failed[0].jobId).Some? && Ascending(failed[1..])
      && multiset(rest) + multiset(failed) == multiset(Promote(st, index).queuedJobs)
      && AllFail(Promote(st, index), failed,
                 "failed to spawn trigger execution worker: " + spawn(failed[0].jobId).value, after);
    assert multiset([job] + rest) + multiset(failed) == multiset(st.queuedJobs);
    SameFail(Promote(st, index), st, failed,
             "failed to spawn trigger execution worker: " + spawn(failed[0].jobId).value, after);
  }

  lemma SameFail(a: State, b: State, failed: seq<TriggerJob>, message: string, after: State)
    requires AllFail(a, failed, message, after) && a.localCompletions == b.localCompletions
    ensures AllFail(b, failed, message, after)
  {
  }

  /** Whoever waits before the run that starts has found its script full: there was room in all. */
  lemma WentWellOneMore(st: State, index: nat, rest: seq<TriggerJob>, after: State)
    requires Ascending(st.queuedJobs) && index < |st.queuedJobs| && index == FirstStartable(st)
    requires WentWell(Promote(st, index), rest, after) && Shrinks(st, after)
    ensures WentWell(st, [st.queuedJobs[index]] + rest, after)
  {
    hide Without, Shrinks, HasActiveCapacity, Position, DecrementCount, IncrementCount, ScriptFull;
    var queue, job := st.queuedJobs, st.queuedJobs[index];
    WithoutMultiset(queue, index);
    assert multiset([job] + rest) + multiset(after.queuedJobs) == multiset(queue);
    forall waiting | waiting in after.queuedJobs && waiting.jobId < job.jobId
      ensures ScriptFull(after, waiting.event.scriptId)
    {
      assert waiting in multiset(queue);
      PassedOver(st, index, waiting);
      ShrinksMeans(st, after, waiting.event.scriptId);
    }
  }

  lemma PassedOver(st: State, index: nat, waiting: TriggerJob)
    requires Ascending(st.queuedJobs) && index < |st.queuedJobs| && index == FirstStartable(st)
    requires waiting in st.queuedJobs && waiting.jobId < st.queuedJobs[index].jobId
    ensures ScriptFull(st, waiting.event.scriptId)
  {
    hide LimitPermitsNext;
    var k :| 0 <= k < |st.queuedJobs| && st.queuedJobs[k] == waiting;
    assert k < index;
    assert HasActiveCapacity(st, st.queuedJobs[index].event.scriptId);
  }

  /** A collection delivers what has arrived, then starts what it can: the queued runs that get threads
      start in the order in which they were accepted, and a run is passed over only when its script is
      full. When a thread is refused, that run and every queued run fail with the system's error and the
      executor accepts nothing more. */
  lemma CollectMeans(st: State, spawn: SpawnOracle) returns (started: seq<TriggerJob>)
    requires Inv(st)
    ensures var found := st.(localCompletions := st.localCompletions + st.channel, channel := []);
            Scheduled(found, spawn, started, Collect(st, spawn))
  {
    hide Core, Scheduled;
    DrainKeepsCore(st);
    var drained := DrainChannel(st);
    QueueAscends(drained);
    started := ScheduleMeans(drained, spawn);
    SameStart(drained, st.(localCompletions := st.localCompletions + st.channel, channel := []), spawn, started,
              Collect(st, spawn));
  }

  lemma QueueAscends(st: State)
    requires Core(st)
    ensures Ascending(st.queuedJobs)
  {
  }

  lemma SameStart(a: State, b: State, spawn: SpawnOracle, started: seq<TriggerJob>, after: State)
    requires Scheduled(a, spawn, started, after)
    requires a.running == b.running && a.queuedJobs == b.queuedJobs && a.channel == b.channel && a.ledger == b.ledger
    requires a.accepting == b.accepting && a.localCompletions == b.localCompletions
    ensures Scheduled(b, spawn, started, after)
  {
    hide Ascending, ScriptFull;
    if GaveUp(a, spawn, started, after) {
      assert GaveUp(b, spawn, started, after);
    }
  }

  // ---- whose results callers get ---------------------------------------------------

  /** At step `k` the run `id` ended with this result: its worker reported it, or a shutdown waited for it. */
  ghost predicate EndedAt(states: seq<State>, steps: seq<Step>, k: nat, id: nat, result: RunResult)
    requires k < |steps| < |states|
  {
    match steps[k]
    case ReportStep(index, outcome) =>
      && index < |states[k].running| && states[k].running[index].jobId == id
      && result == (match outcome
                    case Returned(own) => own
                    case Panicked => Failed("trigger execution worker panicked"))
    case ShutdownStep => exists job | job in states[k].running :: job.jobId == id
    case _ => false
  }

  lemma {:induction false} ScheduleReportsNothing(st: State, spawn: SpawnOracle)
    ensures ScheduleQueuedJobs(st, spawn).ledger.reported == st.ledger.reported
    decreases |st.queuedJobs|
  {
    hide HasActiveCapacity, DecrementCount, IncrementCount, JobFailures;
    var index := FirstStartable(st);
    if st.policy.maxActiveGlobal.Permits(SaturatingIncrement(st.activeTotal)) && index < |st.queuedJobs| {
      if StartError(Dequeue(st, index), st.queuedJobs[index], spawn).None? {
        ScheduleReportsNothing(Promote(st, index), spawn);
      }
    }
  }

  lemma {:induction false} DrainReportsNothing(st: State)
    ensures DrainChannel(st).ledger == st.ledger
    decreases |st.channel|
  {
    if st.channel != [] {
      DrainReportsNothing(ReceiveOne(st));
    }
  }

  lemma CollectReportsNothing(st: State, spawn: SpawnOracle)
    ensures Collect(st, spawn).ledger.reported == st.ledger.reported
  {
    DrainReportsNothing(st);
    ScheduleReportsNothing(DrainChannel(st), spawn);
  }

  lemma {:induction false} JoiningReportsRunning(before: State, after: State, id: nat)
    requires ReportsLeadTo(before, after) && id in after.ledger.reported
    ensures (id in before.ledger.reported && after.ledger.reported[id] == before.ledger.reported[id])
         || exists job | job in before.running :: job.jobId == id
    decreases |before.running|
  {
    if before != after {
      var index: nat, outcome :| index < |before.running| && ReportsLeadTo(Report(before, index, outcome), after);
      var next := Report(before, index, outcome);
      JoiningReportsRunning(next, after, id);
      forall job | job in next.running ensures job in before.running {
      }
      assert before.running[index] in before.running;
    }
  }

  lemma StepReports(states: seq<State>, steps: seq<Step>, k: nat, id: nat)
    requires k < |steps| < |states| && Next(states[k], steps[k], states[k + 1])
    requires id in states[k + 1].ledger.reported
    ensures (id in states[k].ledger.reported
             && states[k + 1].ledger.reported[id] == states[k].ledger.reported[id])
         || EndedAt(states, steps, k, id, states[k + 1].ledger.reported[id])
  {
    hide Collect, ShutdownTo, TrySubmit, PopCompletion;
    var before, after := states[k], states[k + 1];
    match steps[k]
    case SubmitStep(event, source, spawn, result) =>
      CollectReportsNothing(before, spawn);
      SubmitReportsNothing(Collect(before, spawn), event, source, spawn);
    case CompletionStep(spawn, completion) =>
      CollectReportsNothing(before, spawn);
      PopReportsNothing(Collect(before, spawn));
    case ReportStep(index, outcome) =>
    case ShutdownStep =>
      ShutdownReports(before, after, id);
  }

  lemma ShutdownReports(before: State, after: State, id: nat)
    requires ShutdownTo(before, after) && id in after.ledger.reported
    ensures (id in before.ledger.reported && after.ledger.reported[id] == before.ledger.reported[id])
         || exists job | job in before.running :: job.jobId == id
  {
    hide ReportsLeadTo;
    var joined: State :| ReportsLeadTo(BeginShutdown(before), joined) && after == EndShutdown(joined);
    EndsAt(before, joined);
    JoiningReportsRunning(BeginShutdown(before), joined, id);
  }

  lemma EndsAt(before: State, joined: State)
    ensures BeginShutdown(before) == before.(accepting := false, cancelled := true, queuedJobs := [],
                                             queuedByScript := map[])
    ensures EndShutdown(joined) == joined.(workers := {}, activeByScript := map[], activeTotal := 0,
                                           pendingJobs := 0)
  {
  }

  lemma SubmitReportsNothing(st: State, event: TriggerEvent, source: string, spawn: SpawnOracle)
    ensures TrySubmit(st, event, source, spawn).0.ledger.reported == st.ledger.reported
  {
    hide HasActiveCapacity, EnqueueJob, StartError, IncrementCount;
    EnqueueReportsNothing(st, TriggerJob(event, st.nextJobId, source));
  }

  lemma EnqueueReportsNothing(st: State, job: TriggerJob)
    ensures EnqueueJob(st, job).Some? ==> EnqueueJob(st, job).value.ledger == st.ledger
  {
    hide LimitPermitsNext, OldestOf, DecrementCount, IncrementCount, Without;
  }

  lemma PopReportsNothing(st: State)
    ensures PopCompletion(st).0.ledger.reported == st.ledger.reported
  {
  }

  lemma {:induction false} ReportedAtSomeStep(states: seq<State>, steps: seq<Step>, id: nat, n: nat)
    requires IsRun(states, steps) && n <= |steps| && id in states[n].ledger.reported
    ensures exists k: nat | k < n :: EndedAt(states, steps, k, id, states[n].ledger.reported[id])
  {
    hide EndedAt, Next;
    if n > 0 {
      StepReports(states, steps, n - 1, id);
      if !EndedAt(states, steps, n - 1, id, states[n].ledger.reported[id]) {
        ReportedAtSomeStep(states, steps, id, n - 1);
      }
    }
  }

  /** In every run a caller gets what the run's own worker returned, or that it panicked; only of a run
      that never had a worker does it get another failure, and during a shutdown the worker is waited for. */
  lemma DeliveredAsReported(states: seq<State>, steps: seq<Step>, c: Completion)
    requires IsRun(states, steps) && c in states[|steps|].ledger.delivered
    ensures (exists k: nat | k < |steps| :: EndedAt(states, steps, k, c.jobId, c.result))
         || (c.result.Failed? && forall job | job in states[|steps|].ledger.started :: job.jobId != c.jobId)
  {
    hide EndedAt, IsRun;
    LastState(states, steps);
    var last := states[|steps|];
    AtMostOneCompletion(states, steps, last);
    if c.jobId in last.ledger.reported {
      ReportedAtSomeStep(states, steps, c.jobId, |steps|);
    } else {
      NotStarted(last, c.jobId);
    }
  }

  lemma LastState(states: seq<State>, steps: seq<Step>)
    requires IsRun(states, steps)
    ensures |states| == |steps| + 1 && states[|steps|] in states
  {
  }

  lemma NotStarted(st: State, id: nat)
    requires id !in StartedIds(st)
    ensures forall job | job in st.ledger.started :: job.jobId != id
  {
    forall job | job in st.ledger.started ensures job.jobId != id {
      var i :| 0 <= i < |st.ledger.started| && st.ledger.started[i] == job;
      assert st.ledger.started[i].jobId in StartedIds(st);
    }
  }

  // ---- what a shutdown leaves ------------------------------------------------------

  lemma {:induction false} JoiningKeeps(before: State, after: State)
    requires ReportsLeadTo(before, after)
    ensures after == before.(running := after.running, channel := after.channel,
                             ledger := before.ledger.(reported := after.ledger.reported))
    ensures before.channel <= after.channel
    ensures multiset(after.running) + multiset(JobsOf(after.channel))
         == multiset(before.running) + multiset(JobsOf(before.channel))
    decreases |before.running|
  {
    hide JobsOf;
    if before != after {
      var index: nat, outcome :| index < |before.running| && ReportsLeadTo(Report(before, index, outcome), after);
      JoiningKeeps(Report(before, index, outcome), after);
      ReportMoves(before, index, outcome);
      WithoutMultiset(before.running, index);
    }
  }

  /** A shutdown drops the queue without a completion for it, counts and holds nothing any more, keeps the
      completions it has, and every worker it waited for has left one. */
  lemma ShutdownLeaves(before: State, after: State)
    requires ShutdownTo(before, after)
    ensures !after.accepting && after.cancelled && after.queuedJobs == [] && !HasPending(after)
    ensures after.activeTotal == 0 && after.activeByScript == map[] && after.queuedByScript == map[]
    ensures after.workers == {}
    ensures after.localCompletions == before.localCompletions && before.channel <= after.channel
    ensures multiset(after.running) + multiset(JobsOf(after.channel))
         == multiset(before.running) + multiset(JobsOf(before.channel))
    ensures after.nextJobId == before.nextJobId && after.policy == before.policy
    ensures after.ledger == before.ledger.(reported := after.ledger.reported)
  {
    hide JobsOf, ReportsLeadTo;
    var joined: State :| ReportsLeadTo(BeginShutdown(before), joined) && after == EndShutdown(joined);
    EndsAt(before, joined);
    JoiningKeeps(BeginShutdown(before), joined);
  }

  lemma {:induction false} DrainKeepsFlags(st: State)
    ensures DrainChannel(st).accepting == st.accepting && DrainChannel(st).queuedJobs == st.queuedJobs
    ensures DrainChannel(st).cancelled == st.cancelled
    decreases |st.channel|
  {
    if st.channel != [] {
      DrainKeepsFlags(ReceiveOne(st));
    }
  }

  lemma StaysShutDown(before: State, step: Step, after: State)
    requires Sound(before) && before.cancelled && Next(before, step, after)
    ensures after.cancelled
    ensures step.SubmitStep? ==> step.result == Stopped
  {
    hide Accounted, StartOrder, TruthfulResults, ReportsLeadTo;
    DrainKeepsFlags(before);
    if step.ShutdownStep? {
      ShutdownLeaves(before, after);
    }
  }

  /** After a shutdown every submission is answered that the executor has stopped. */
  lemma {:induction false} ShutdownIsFinal(states: seq<State>, steps: seq<Step>, i: nat, j: nat)
    requires IsRun(states, steps) && i < j < |steps| && steps[i] == ShutdownStep
    ensures states[j].cancelled && (steps[j].SubmitStep? ==> steps[j].result == Stopped)
  {
    hide Next, Sound;
    RunIsSound(states, steps);
    assert states[j - 1] in states && states[j] in states;
    assert Next(states[j - 1], steps[j - 1], states[j]) && Next(states[j], steps[j], states[j + 1]);
    if i == j - 1 {
      ShutdownCancels(states[i], states[j]);
    } else {
      ShutdownIsFinal(states, steps, i, j - 1);
      StaysShutDown(states[j - 1], steps[j - 1], states[j]);
    }
    StaysShutDown(states[j], steps[j], states[j + 1]);
  }

  lemma ShutdownCancels(before: State, after: State)
    requires Next(before, ShutdownStep, after)
    ensures after.cancelled
  {
    ShutdownLeaves(before, after);
  }
}
