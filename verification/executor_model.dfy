/** The trigger executor as a state machine on values.

    Every public call of the executor is one function on `State`; worker threads are the
    environment step `Report`. A completion that arrives while a call drains the channel is
    the same run with the arrival just before that call, so calls are atomic here. */
module ExecutorModel {
  import opened Wrappers

  type ScriptId = string

  datatype TriggerEvent = TriggerEvent(actionType: string, nodeId: string, payload: string, scriptId: ScriptId)

  datatype RunResult = Activated(activation: string) | Failed(message: string)

  /** How a worker closure ends: the runner returns, or it panics and the panic is caught. */
  datatype WorkerOutcome = Returned(result: RunResult) | Panicked

  datatype TriggerJob = TriggerJob(event: TriggerEvent, jobId: nat, source: string)

  datatype Completion = Completion(event: TriggerEvent, jobId: nat, result: RunResult, source: string)

  datatype SubmitResult = Accepted(jobId: nat) | Full | Stopped

  datatype ResourceLimit = Limited(maximum: nat) | Unlimited
  {
    predicate Permits(count: nat) {
      Limited? ==> count <= maximum
    }
  }

  datatype QueueOverflowStrategy = RejectNewest | DropOldest

  datatype Policy = Policy(
    maxActiveGlobal: ResourceLimit,
    maxActivePerScript: ResourceLimit,
    maxQueuedPerScript: ResourceLimit,
    overflow: QueueOverflowStrategy)

  /** What the outside has seen so far: accepted submissions in order, thread starts in order,
      what each finished worker reported, and completions handed to the caller. */
  datatype Ledger = Ledger(
    accepted: seq<TriggerJob>,
    started: seq<TriggerJob>,
    reported: map<nat, RunResult>,
    delivered: seq<Completion>)

  datatype State = State(
    accepting: bool,
    activeByScript: map<ScriptId, nat>,
    activeTotal: nat,
    channel: seq<Completion>,
    localCompletions: seq<Completion>,
    nextJobId: nat,
    pendingJobs: nat,
    policy: Policy,
    queuedByScript: map<ScriptId, nat>,
    queuedJobs: seq<TriggerJob>,
    cancelled: bool,
    workers: set<nat>,
    debugAssertions: bool,
    running: seq<TriggerJob>,
    ledger: Ledger)

  /** Why the operating system refused a thread for a job id; `None` when it gave one. */
  type SpawnOracle = nat -> Option<string>

  const SUPERSEDED := "a newer activation replaced this queued run under the configured drop_oldest policy"
  const PANICKED := "trigger execution worker panicked"

  function Init(policy: Policy, debugAssertions: bool): State {
    State(true, map[], 0, [], [], 1, 0, policy, map[], [], false, {}, debugAssertions, [],
          Ledger([], [], map[], []))
  }

  // ---- counters -------------------------------------------------------------------

  function CountOf(counts: map<ScriptId, nat>, key: ScriptId): nat {
    if key in counts then counts[key] else 0
  }

  function IncrementCount(counts: map<ScriptId, nat>, key: ScriptId): map<ScriptId, nat> {
    counts[key := CountOf(counts, key) + 1]
  }

  /** An entry that reaches zero is removed from the map. */
  function DecrementCount(counts: map<ScriptId, nat>, key: ScriptId): map<ScriptId, nat> {
    if key !in counts then counts
    else if SaturatingDecrement(counts[key]) == 0 then counts - {key}
    else counts[key := SaturatingDecrement(counts[key])]
  }

  predicate LimitPermitsNext(limit: ResourceLimit, current: nat) {
    current < USIZE_MAX && limit.Permits(current + 1)
  }

  predicate HasActiveCapacity(st: State, script: ScriptId) {
    && LimitPermitsNext(st.policy.maxActiveGlobal, st.activeTotal)
    && LimitPermitsNext(st.policy.maxActivePerScript, CountOf(st.activeByScript, script))
  }

  /** `Iterator::position`: the first index whose element satisfies `p`, or the length. */
  function Position<T>(s: seq<T>, p: T -> bool): (i: nat)
    ensures i <= |s|
    ensures i < |s| ==> p(s[i])
    ensures forall j :: 0 <= j < i ==> !p(s[j])
  {
    if s == [] then 0
    else if p(s[0]) then 0
    else
      var i := Position(s[1..], p);
      assert forall j :: 1 <= j < i + 1 ==> s[j] == s[1..][j - 1];
      i + 1
  }

  function Without<T>(s: seq<T>, i: nat): seq<T>
    requires i < |s|
  {
    s[..i] + s[i + 1..]
  }

  // ---- starting, queueing and scheduling -------------------------------------------

  function JobFailure(job: TriggerJob, message: string): Completion {
    Completion(job.event, job.jobId, Failed(message), job.source)
  }

  function StartError(st: State, job: TriggerJob, spawn: SpawnOracle): Option<string> {
    if st.activeTotal >= USIZE_MAX then
      Some("active trigger execution count was exhausted")
    else if CountOf(st.activeByScript, job.event.scriptId) >= USIZE_MAX then
      Some("active trigger execution count for script was exhausted")
    else match spawn(job.jobId)
      case None => None
      case Some(error) => Some("failed to spawn trigger execution worker: " + error)
  }

  function StartJob(st: State, job: TriggerJob): State {
    st.(activeTotal := st.activeTotal + 1,
        activeByScript := IncrementCount(st.activeByScript, job.event.scriptId),
        workers := if st.debugAssertions then st.workers + {job.jobId} else st.workers,
        running := st.running + [job],
        ledger := st.ledger.(started := st.ledger.started + [job]))
  }

  function DropOldestQueued(st: State, script: ScriptId, index: nat): State
    requires index < |st.queuedJobs|
  {
    st.(queuedJobs := Without(st.queuedJobs, index),
        queuedByScript := DecrementCount(st.queuedByScript, script),
        localCompletions := st.localCompletions + [JobFailure(st.queuedJobs[index], SUPERSEDED)])
  }

  function PushQueued(st: State, job: TriggerJob): State {
    st.(queuedJobs := st.queuedJobs + [job],
        queuedByScript := IncrementCount(st.queuedByScript, job.event.scriptId))
  }

  function OldestOf(st: State, script: ScriptId): nat {
    Position(st.queuedJobs, (job: TriggerJob) => job.event.scriptId == script)
  }

  /** `None` is a full queue; the state is then unchanged. */
  function EnqueueJob(st: State, job: TriggerJob): Option<State> {
    var script := job.event.scriptId;
    if LimitPermitsNext(st.policy.maxQueuedPerScript, CountOf(st.queuedByScript, script)) then
      Some(PushQueued(st, job))
    else if st.policy.overflow == RejectNewest then None
    else
      var index := OldestOf(st, script);
      if index == |st.queuedJobs| then None
      else Some(PushQueued(DropOldestQueued(st, script, index), job))
  }

  function FirstStartable(st: State): nat {
    Position(st.queuedJobs, (job: TriggerJob) => HasActiveCapacity(st, job.event.scriptId))
  }

  function Dequeue(st: State, index: nat): State
    requires index < |st.queuedJobs|
  {
    st.(queuedJobs := Without(st.queuedJobs, index),
        queuedByScript := DecrementCount(st.queuedByScript, st.queuedJobs[index].event.scriptId))
  }

  function JobFailures(jobs: seq<TriggerJob>, message: string): seq<Completion> {
    seq(|jobs|, i requires 0 <= i < |jobs| => JobFailure(jobs[i], message))
  }

  function FailAllQueuedJobs(st: State, message: string): State {
    st.(localCompletions := st.localCompletions + JobFailures(st.queuedJobs, message),
        queuedJobs := [],
        queuedByScript := map[])
  }

  /** A queued job whose thread could not be created stops the executor. */
  function AbandonQueue(st: State, job: TriggerJob, message: string): State {
    FailAllQueuedJobs(
      st.(accepting := false, localCompletions := st.localCompletions + [JobFailure(job, message)]),
      message)
  }

  function ScheduleQueuedJobs(st: State, spawn: SpawnOracle): State
    decreases |st.queuedJobs|
  {
    if !st.policy.maxActiveGlobal.Permits(SaturatingIncrement(st.activeTotal)) then st
    else
      var index := FirstStartable(st);
      if index == |st.queuedJobs| then st
      else
        var job := st.queuedJobs[index];
        var dequeued := Dequeue(st, index);
        match StartError(dequeued, job, spawn)
        case Some(message) => AbandonQueue(dequeued, job, message)
        case None => ScheduleQueuedJobs(StartJob(dequeued, job), spawn)
  }

  // ---- completions -----------------------------------------------------------------

  function FinishWorker(st: State, completion: Completion): State {
    st.(workers := st.workers - {completion.jobId},
        activeTotal := SaturatingDecrement(st.activeTotal),
        activeByScript := DecrementCount(st.activeByScript, completion.event.scriptId))
  }

  function ReceiveOne(st: State): State
    requires st.channel != []
  {
    FinishWorker(st, st.channel[0]).(
      channel := st.channel[1..],
      localCompletions := st.localCompletions + [st.channel[0]])
  }

  function DrainChannel(st: State): State
    decreases |st.channel|
  {
    if st.channel == [] then st else DrainChannel(ReceiveOne(st))
  }

  function Collect(st: State, spawn: SpawnOracle): State {
    ScheduleQueuedJobs(DrainChannel(st), spawn)
  }

  // ---- public calls ----------------------------------------------------------------

  function AcceptJob(st: State, job: TriggerJob): State {
    st.(nextJobId := st.nextJobId + 1,
        pendingJobs := st.pendingJobs + 1,
        ledger := st.ledger.(accepted := st.ledger.accepted + [job]))
  }

  function TrySubmit(st: State, event: TriggerEvent, source: string, spawn: SpawnOracle): (State, SubmitResult) {
    if !st.accepting || st.nextJobId >= U64_MAX || st.pendingJobs >= USIZE_MAX then (st, Stopped)
    else
      var job := TriggerJob(event, st.nextJobId, source);
      if HasActiveCapacity(st, event.scriptId) then
        if StartError(st, job, spawn).Some? then (st, Stopped)
        else (AcceptJob(StartJob(st, job), job), Accepted(job.jobId))
      else
        match EnqueueJob(st, job)
        case None => (st, Full)
        case Some(queued) => (AcceptJob(queued, job), Accepted(job.jobId))
  }

  function Submit(st: State, event: TriggerEvent, source: string, spawn: SpawnOracle): (State, SubmitResult) {
    TrySubmit(Collect(st, spawn), event, source, spawn)
  }

  function PopCompletion(st: State): (State, Option<Completion>) {
    if st.localCompletions == [] then (st, None)
    else
      var completion := st.localCompletions[0];
      (st.(localCompletions := st.localCompletions[1..],
           pendingJobs := SaturatingDecrement(st.pendingJobs),
           ledger := st.ledger.(delivered := st.ledger.delivered + [completion])),
       Some(completion))
  }

  function TryCompletion(st: State, spawn: SpawnOracle): (State, Option<Completion>) {
    PopCompletion(Collect(st, spawn))
  }

  predicate HasPending(st: State) {
    st.pendingJobs > 0
  }

  // ---- the environment -------------------------------------------------------------

  function ResultOf(outcome: WorkerOutcome): RunResult {
    match outcome
    case Returned(result) => result
    case Panicked => Failed(PANICKED)
  }

  /** The worker of `running[index]` ends and sends its completion. */
  function Report(st: State, index: nat, outcome: WorkerOutcome): State
    requires index < |st.running|
  {
    var job := st.running[index];
    st.(running := Without(st.running, index),
        channel := st.channel + [Completion(job.event, job.jobId, ResultOf(outcome), job.source)],
        ledger := st.ledger.(reported := st.ledger.reported[job.jobId := ResultOf(outcome)]))
  }

  // ---- shutdown --------------------------------------------------------------------

  function BeginShutdown(st: State): State {
    st.(accepting := false, cancelled := true, queuedJobs := [], queuedByScript := map[])
  }

  function EndShutdown(st: State): State {
    st.(workers := {}, activeByScript := map[], activeTotal := 0, pendingJobs := 0)
  }

  /** `after` is reached from `before` by worker reports alone. */
  ghost predicate ReportsLeadTo(before: State, after: State)
    decreases |before.running|
  {
    || before == after
    || exists index: nat, outcome: WorkerOutcome ::
         index < |before.running| && ReportsLeadTo(Report(before, index, outcome), after)
  }

  /** Shutdown joins exactly the workers it holds handles for. */
  ghost predicate ShutdownTo(before: State, after: State) {
    exists joined: State ::
      && ReportsLeadTo(BeginShutdown(before), joined)
      && (forall i :: 0 <= i < |joined.running| ==> joined.running[i].jobId !in before.workers)
      && after == EndShutdown(joined)
  }

  // ---- runs ------------------------------------------------------------------------

  datatype Step =
    | SubmitStep(event: TriggerEvent, source: string, spawn: SpawnOracle, result: SubmitResult)
    | CompletionStep(spawn: SpawnOracle, completion: Option<Completion>)
    | ReportStep(index: nat, outcome: WorkerOutcome)
    | ShutdownStep

  ghost predicate Next(before: State, step: Step, after: State) {
    match step
    case SubmitStep(event, source, spawn, result) => (after, result) == Submit(before, event, source, spawn)
    case CompletionStep(spawn, completion) => (after, completion) == TryCompletion(before, spawn)
    case ReportStep(index, outcome) => index < |before.running| && after == Report(before, index, outcome)
    case ShutdownStep => ShutdownTo(before, after)
  }

  /** A run from a fresh executor: `states[i]` goes to `states[i + 1]` by `steps[i]`. */
  ghost predicate IsRun(states: seq<State>, steps: seq<Step>) {
    && |states| == |steps| + 1
    && (exists policy, debug :: states[0] == Init(policy, debug))
    && forall i :: 0 <= i < |steps| ==> Next(states[i], steps[i], states[i + 1])
  }
}
