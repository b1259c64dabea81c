/** What every executor step keeps before shutdown. */
module ExecutorInvariant {
  import opened Wrappers
  import opened ExecutorModel

  // ---- counting jobs per script ----------------------------------------------------

  function ScriptCount(jobs: seq<TriggerJob>, script: ScriptId): (count: nat)
    ensures count <= |jobs|
  {
    if jobs == [] then 0
    else
      var last := jobs[|jobs| - 1];
      ScriptCount(jobs[..|jobs| - 1], script) + (if last.event.scriptId == script then 1 else 0)
  }

  lemma {:induction false} ScriptCountAppend(left: seq<TriggerJob>, right: seq<TriggerJob>, script: ScriptId)
    ensures ScriptCount(left + right, script) == ScriptCount(left, script) + ScriptCount(right, script)
    decreases |right|
  {
    if right == [] {
      assert left + right == left;
    } else {
      var init := right[..|right| - 1];
      assert (left + right)[..|left + right| - 1] == left + init;
      ScriptCountAppend(left, init, script);
    }
  }

  lemma ScriptCountSingle(job: TriggerJob, script: ScriptId)
    ensures ScriptCount([job], script) == if job.event.scriptId == script then 1 else 0
  {
    assert [job][..0] == [];
  }

  lemma ScriptCountWithout(jobs: seq<TriggerJob>, i: nat, script: ScriptId)
    requires i < |jobs|
    ensures ScriptCount(jobs, script) == ScriptCount(Without(jobs, i), script)
                                         + (if jobs[i].event.scriptId == script then 1 else 0)
  {
    assert jobs == jobs[..i] + ([jobs[i]] + jobs[i + 1..]);
    ScriptCountAppend(jobs[..i], [jobs[i]] + jobs[i + 1..], script);
    ScriptCountAppend([jobs[i]], jobs[i + 1..], script);
    ScriptCountAppend(jobs[..i], jobs[i + 1..], script);
    ScriptCountSingle(jobs[i], script);
  }

  /** The map holds exactly the positive per-script counts of `jobs`. */
  ghost predicate Tallies(counts: map<ScriptId, nat>, jobs: seq<TriggerJob>) {
    && (forall script: ScriptId :: CountOf(counts, script) == ScriptCount(jobs, script))
    && (forall script | script in counts :: counts[script] > 0)
  }

  lemma TallyAdd(counts: map<ScriptId, nat>, jobs: seq<TriggerJob>, job: TriggerJob)
    requires Tallies(counts, jobs)
    ensures Tallies(IncrementCount(counts, job.event.scriptId), jobs + [job])
  {
    forall script: ScriptId
      ensures CountOf(IncrementCount(counts, job.event.scriptId), script) == ScriptCount(jobs + [job], script)
    {
      ScriptCountAppend(jobs, [job], script);
      ScriptCountSingle(job, script);
    }
  }

  lemma TallyRemove(counts: map<ScriptId, nat>, jobs: seq<TriggerJob>, i: nat)
    requires Tallies(counts, jobs) && i < |jobs|
    ensures Tallies(DecrementCount(counts, jobs[i].event.scriptId), Without(jobs, i))
  {
    var key := jobs[i].event.scriptId;
    ScriptCountWithout(jobs, i, key);
    assert CountOf(counts, key) > 0;
    forall script: ScriptId
      ensures CountOf(DecrementCount(counts, key), script) == ScriptCount(Without(jobs, i), script)
    {
      ScriptCountWithout(jobs, i, script);
    }
  }

  /** Tallies look at how many jobs each script has, not at their order. */
  lemma TallyReorder(counts: map<ScriptId, nat>, left: seq<TriggerJob>, job: TriggerJob, right: seq<TriggerJob>)
    requires Tallies(counts, left + right + [job])
    ensures Tallies(counts, left + [job] + right)
  {
    forall script: ScriptId
      ensures ScriptCount(left + [job] + right, script) == ScriptCount(left + right + [job], script)
    {
      ScriptCountAppend(left + [job], right, script);
      ScriptCountAppend(left, [job], script);
      ScriptCountAppend(left + right, [job], script);
      ScriptCountAppend(left, right, script);
    }
  }

  // ---- where the jobs are ----------------------------------------------------------

  function JobOf(c: Completion): TriggerJob {
    TriggerJob(c.event, c.jobId, c.source)
  }

  function JobsOf(completions: seq<Completion>): seq<TriggerJob> {
    seq(|completions|, i requires 0 <= i < |completions| => JobOf(completions[i]))
  }

  lemma JobsOfAppend(left: seq<Completion>, right: seq<Completion>)
    ensures JobsOf(left + right) == JobsOf(left) + JobsOf(right)
  {
  }

  lemma JobsOfTail(completions: seq<Completion>)
    requires completions != []
    ensures JobsOf(completions) == [JobOf(completions[0])] + JobsOf(completions[1..])
  {
  }

  lemma JobsOfFailures(jobs: seq<TriggerJob>, message: string)
    ensures JobsOf(JobFailures(jobs, message)) == jobs
  {
  }

  lemma OneMoreCompletion(completions: seq<Completion>, completion: Completion)
    ensures multiset(JobsOf(completions + [completion])) == multiset(JobsOf(completions)) + multiset{JobOf(completion)}
  {
    JobsOfAppend(completions, [completion]);
    assert JobsOf([completion]) == [JobOf(completion)];
  }

  lemma ManyMoreFailures(completions: seq<Completion>, jobs: seq<TriggerJob>, message: string)
    ensures multiset(JobsOf(completions + JobFailures(jobs, message))) == multiset(JobsOf(completions)) + multiset(jobs)
  {
    JobsOfAppend(completions, JobFailures(jobs, message));
    JobsOfFailures(jobs, message);
  }

  /** Jobs whose thread was started and whose completion has not been collected. */
  function Active(st: State): seq<TriggerJob> {
    st.running + JobsOf(st.channel)
  }

  /** Every completion made so far. */
  function Completions(st: State): seq<Completion> {
    st.ledger.delivered + st.localCompletions + st.channel
  }

  function Holdings(st: State): multiset<TriggerJob> {
    multiset(st.queuedJobs) + multiset(st.running) + multiset(JobsOf(st.channel))
    + multiset(JobsOf(st.localCompletions)) + multiset(JobsOf(st.ledger.delivered))
  }

  lemma WithoutMultiset<T>(s: seq<T>, i: nat)
    requires i < |s|
    ensures multiset(Without(s, i)) + multiset{s[i]} == multiset(s)
  {
    assert s == s[..i] + ([s[i]] + s[i + 1..]);
  }

  function StartedIds(st: State): set<nat> {
    set i | 0 <= i < |st.ledger.started| :: st.ledger.started[i].jobId
  }

  // ---- the invariant ---------------------------------------------------------------

  /** Every redundant counter agrees with the jobs it counts. */
  ghost predicate CountersAgree(st: State) {
    && Tallies(st.activeByScript, Active(st))
    && st.activeTotal == |Active(st)|
    && Tallies(st.queuedByScript, st.queuedJobs)
    && st.pendingJobs == st.activeTotal + |st.queuedJobs| + |st.localCompletions|
    && st.pendingJobs <= USIZE_MAX
    && 1 <= st.nextJobId <= U64_MAX
  }

  ghost predicate WithinLimits(st: State) {
    && (st.activeTotal == 0 || st.policy.maxActiveGlobal.Permits(st.activeTotal))
    && (forall script: ScriptId :: CountOf(st.activeByScript, script) == 0
                                   || st.policy.maxActivePerScript.Permits(CountOf(st.activeByScript, script)))
    && (forall script: ScriptId :: CountOf(st.queuedByScript, script) == 0
                                   || st.policy.maxQueuedPerScript.Permits(CountOf(st.queuedByScript, script)))
  }

  /** Accepted ids are 1, 2, 3, ..., and no accepted job is in two places or in one place twice. */
  ghost predicate Accounted(st: State) {
    && |st.ledger.accepted| == st.nextJobId - 1
    && (forall i :: 0 <= i < |st.ledger.accepted| ==> st.ledger.accepted[i].jobId == i + 1)
    && Holdings(st) <= multiset(st.ledger.accepted)
    && (forall job | job in st.ledger.started :: job in st.ledger.accepted)
  }

  /** Every accepted job is in exactly one place. */
  ghost predicate Conserved(st: State) {
    Accounted(st) && Holdings(st) == multiset(st.ledger.accepted)
  }

  /** Queued jobs stand in id order, and each script's jobs start in id order, the queued ones last. */
  ghost predicate JobOrder(queued: seq<TriggerJob>, started: seq<TriggerJob>) {
    && (forall i, j :: 0 <= i < j < |queued| ==> queued[i].jobId < queued[j].jobId)
    && (forall i, j :: 0 <= i < j < |started| && started[i].event.scriptId == started[j].event.scriptId
                       ==> started[i].jobId < started[j].jobId)
    && (forall i, j :: 0 <= i < |started| && 0 <= j < |queued| && started[i].event.scriptId == queued[j].event.scriptId
                       ==> started[i].jobId < queued[j].jobId)
  }

  ghost predicate StartOrder(st: State) {
    && JobOrder(st.queuedJobs, st.ledger.started)
    && (forall id | id in StartedIds(st) :: id < st.nextJobId)
  }

  /** A started job's completion carries what its worker reported; a job that never started fails. */
  ghost predicate TruthfulResults(st: State) {
    && (forall c | c in Completions(st) ::
          if c.jobId in st.ledger.reported then c.result == st.ledger.reported[c.jobId]
          else c.result.Failed? && c.jobId !in StartedIds(st))
    && (forall job | job in st.running :: job.jobId in StartedIds(st) && job.jobId !in st.ledger.reported)
    && st.ledger.reported.Keys <= StartedIds(st)
  }

  function IdsOf(jobs: seq<TriggerJob>): set<nat> {
    set i | 0 <= i < |jobs| :: jobs[i].jobId
  }

  /** Join handles are stored inside a debug assertion: a debug build holds exactly those of the workers
      whose completions have not been collected, a release build holds none. */
  ghost predicate HandlesHeld(st: State) {
    st.workers == if st.debugAssertions then IdsOf(Active(st)) else {}
  }

  lemma IdsOneMore(left: seq<TriggerJob>, job: TriggerJob, right: seq<TriggerJob>)
    ensures IdsOf(left + [job] + right) == IdsOf(left + right) + {job.jobId}
  {
    var fewer, more := left + right, left + [job] + right;
    forall id ensures id in IdsOf(more) <==> id in IdsOf(fewer) + {job.jobId} {
      if id in IdsOf(fewer) {
        var i :| 0 <= i < |fewer| && fewer[i].jobId == id;
        assert more[if i < |left| then i else i + 1].jobId == id;
      }
      assert more[|left|] == job;
      if id in IdsOf(more) {
        var i :| 0 <= i < |more| && more[i].jobId == id;
        assert i != |left| ==> fewer[if i < |left| then i else i - 1].jobId == id;
      }
    }
  }

  lemma RunningIsHeld(st: State)
    requires HandlesHeld(st) && st.debugAssertions
    ensures forall job | job in st.running :: job.jobId in st.workers
  {
    forall job | job in st.running ensures job.jobId in IdsOf(Active(st)) {
      var i :| 0 <= i < |st.running| && st.running[i] == job;
      assert Active(st)[i] == job;
    }
  }

  ghost predicate Core(st: State) {
    && CountersAgree(st)
    && WithinLimits(st)
    && Conserved(st)
    && StartOrder(st)
    && TruthfulResults(st)
    && !st.cancelled
    && (!st.accepting ==> st.queuedJobs == [])
    && HandlesHeld(st)
  }

  /** No queued job could start. */
  ghost predicate Settled(st: State) {
    forall i :: 0 <= i < |st.queuedJobs| ==> !HasActiveCapacity(st, st.queuedJobs[i].event.scriptId)
  }

  ghost predicate Inv(st: State) {
    Core(st) && Settled(st)
  }

  // ---- distinct jobs ---------------------------------------------------------------

  lemma OccursTwice<T>(s: seq<T>, i: nat, j: nat)
    requires i < |s| && j < |s| && i != j && s[i] == s[j]
    ensures multiset(s)[s[i]] >= 2
  {
    WithoutMultiset(s, i);
    assert Without(s, i)[if j < i then j else j - 1] == s[j];
    assert s[j] in multiset(Without(s, i));
  }

  lemma AtMostOnce<T>(s: seq<T>, i: nat)
    requires i < |s|
    requires forall k :: 0 <= k < |s| && k != i ==> s[k] != s[i]
    ensures multiset(s)[s[i]] == 1
  {
    WithoutMultiset(s, i);
    assert s[i] !in Without(s, i);
  }

  /** The holdings contain no job twice, and no two jobs share an id. */
  lemma HoldingsDistinct(st: State, a: TriggerJob, b: TriggerJob)
    requires Accounted(st) && a in Holdings(st) && b in Holdings(st) && a.jobId == b.jobId
    ensures a == b && Holdings(st)[a] == 1 && 1 <= a.jobId < st.nextJobId
  {
    var accepted := st.ledger.accepted;
    var i :| 0 <= i < |accepted| && accepted[i] == a;
    var j :| 0 <= j < |accepted| && accepted[j] == b;
    AtMostOnce(accepted, i);
  }

  lemma CompletionsAreHeld(st: State, c: Completion)
    requires c in Completions(st)
    ensures JobOf(c) in multiset(JobsOf(st.channel)) + multiset(JobsOf(st.localCompletions))
         + multiset(JobsOf(st.ledger.delivered))
  {
    if c in st.channel {
      var i :| 0 <= i < |st.channel| && st.channel[i] == c;
      assert JobsOf(st.channel)[i] == JobOf(c);
    } else if c in st.localCompletions {
      var i :| 0 <= i < |st.localCompletions| && st.localCompletions[i] == c;
      assert JobsOf(st.localCompletions)[i] == JobOf(c);
    } else {
      var i :| 0 <= i < |st.ledger.delivered| && st.ledger.delivered[i] == c;
      assert JobsOf(st.ledger.delivered)[i] == JobOf(c);
    }
  }

  /** No completion exists for a job that is still queued. */
  lemma QueuedHasNoCompletion(st: State, i: nat, c: Completion)
    requires Conserved(st) && i < |st.queuedJobs| && c in Completions(st)
    ensures c.jobId != st.queuedJobs[i].jobId
  {
    var job := st.queuedJobs[i];
    assert job in multiset(st.queuedJobs);
    CompletionsAreHeld(st, c);
    if c.jobId == job.jobId {
      HoldingsDistinct(st, job, JobOf(c));
    }
  }

  lemma IdsBelowNext(st: State)
    requires Conserved(st)
    ensures forall i :: 0 <= i < |st.queuedJobs| ==> 1 <= st.queuedJobs[i].jobId < st.nextJobId
    ensures forall c | c in Completions(st) :: 1 <= c.jobId < st.nextJobId
  {
    forall i | 0 <= i < |st.queuedJobs| ensures 1 <= st.queuedJobs[i].jobId < st.nextJobId {
      assert st.queuedJobs[i] in multiset(st.queuedJobs);
      HoldingsDistinct(st, st.queuedJobs[i], st.queuedJobs[i]);
    }
    forall c | c in Completions(st) ensures 1 <= c.jobId < st.nextJobId {
      CompletionsAreHeld(st, c);
      HoldingsDistinct(st, JobOf(c), JobOf(c));
    }
  }

  // ---- receiving completions -------------------------------------------------------

  lemma ReceiveOneCounts(st: State)
    requires CountersAgree(st) && WithinLimits(st) && st.channel != []
    ensures CountersAgree(ReceiveOne(st)) && WithinLimits(ReceiveOne(st))
  {
    var after := ReceiveOne(st);
    var index := |st.running|;
    JobsOfTail(st.channel);
    assert Active(st)[index] == JobOf(st.channel[0]);
    assert Active(after) == Without(Active(st), index);
    TallyRemove(st.activeByScript, Active(st), index);
    forall script: ScriptId
      ensures CountOf(after.activeByScript, script) <= CountOf(st.activeByScript, script)
    {
      ScriptCountWithout(Active(st), index, script);
    }
  }

  lemma ReceiveOneConserves(st: State)
    requires Conserved(st) && st.channel != []
    ensures Conserved(ReceiveOne(st))
  {
    JobsOfTail(st.channel);
    JobsOfAppend(st.localCompletions, [st.channel[0]]);
    assert JobsOf([st.channel[0]]) == [JobOf(st.channel[0])];
    assert Holdings(ReceiveOne(st)) == Holdings(st);
  }

  lemma ReceiveOneOutputs(st: State)
    requires StartOrder(st) && TruthfulResults(st) && st.channel != []
    ensures StartOrder(ReceiveOne(st)) && TruthfulResults(ReceiveOne(st))
    ensures Completions(ReceiveOne(st)) == Completions(st)
  {
    assert StartedIds(ReceiveOne(st)) == StartedIds(st);
    assert Completions(ReceiveOne(st)) == Completions(st);
  }

  /** Collecting a completion drops the join handle of its worker, and no other. */
  lemma ReceiveOneWorkers(st: State)
    requires Conserved(st) && HandlesHeld(st) && st.channel != []
    ensures HandlesHeld(ReceiveOne(st))
  {
    hide IdsOf, Accounted, Holdings;
    var job, rest := JobOf(st.channel[0]), JobsOf(st.channel[1..]);
    JobsOfTail(st.channel);
    assert Active(st) == st.running + [job] + rest && Active(ReceiveOne(st)) == st.running + rest;
    hide JobsOf;
    IdsOneMore(st.running, job, rest);
    assert job.jobId !in IdsOf(st.running + rest) by {
      OtherActive(st, |st.running|);
    }
  }

  lemma OtherActive(st: State, place: nat)
    requires Accounted(st) && place < |Active(st)|
    ensures Active(st)[place].jobId !in IdsOf(Active(st)[..place] + Active(st)[place + 1..])
  {
    hide Accounted, Active;
    var all := Active(st);
    var others := all[..place] + all[place + 1..];
    if all[place].jobId in IdsOf(others) {
      var i :| 0 <= i < |others| && others[i].jobId == all[place].jobId;
      ActiveDistinct(st, if i < place then i else i + 1, place);
    }
  }

  /** No two workers whose completions have not been collected carry the same job id. */
  lemma ActiveDistinct(st: State, i: nat, j: nat)
    requires Accounted(st) && i < |Active(st)| && j < |Active(st)| && i != j
    ensures Active(st)[i].jobId != Active(st)[j].jobId
  {
    var a, b := Active(st)[i], Active(st)[j];
    assert a in multiset(Active(st)) && b in multiset(Active(st));
    if a.jobId == b.jobId {
      HoldingsDistinct(st, a, b);
      OccursTwice(Active(st), i, j);
    }
  }

  lemma ReceiveOneKeepsCore(st: State)
    requires Core(st) && st.channel != []
    ensures Core(ReceiveOne(st))
  {
    hide CountersAgree, WithinLimits, Conserved, StartOrder, TruthfulResults, HandlesHeld;
    ReceiveOneCounts(st);
    ReceiveOneConserves(st);
    ReceiveOneOutputs(st);
    ReceiveOneWorkers(st);
  }

  lemma {:induction false} DrainKeepsCore(st: State)
    requires Core(st)
    ensures Core(DrainChannel(st))
    ensures DrainedFrom(st, DrainChannel(st))
    decreases |st.channel|
  {
    hide Core;
    if st.channel != [] {
      ReceiveOneKeepsCore(st);
      DrainKeepsCore(ReceiveOne(st));
      assert st.localCompletions + [st.channel[0]] + st.channel[1..] == st.localCompletions + st.channel;
    }
  }

  /** Draining moves the whole channel behind the local completions and touches only counters besides. */
  ghost predicate DrainedFrom(before: State, after: State) {
    && after == before.(channel := [], localCompletions := before.localCompletions + before.channel,
                        activeTotal := after.activeTotal, activeByScript := after.activeByScript,
                        workers := after.workers)
  }

  // ---- starting and failing queued jobs --------------------------------------------

  function Promote(st: State, index: nat): State
    requires index < |st.queuedJobs|
  {
    StartJob(Dequeue(st, index), st.queuedJobs[index])
  }

  lemma DequeueCounts(st: State, index: nat)
    requires CountersAgree(st) && WithinLimits(st) && index < |st.queuedJobs|
    ensures Tallies(Dequeue(st, index).queuedByScript, Dequeue(st, index).queuedJobs)
    ensures WithinLimits(Dequeue(st, index))
  {
    TallyRemove(st.queuedByScript, st.queuedJobs, index);
    forall script: ScriptId
      ensures CountOf(Dequeue(st, index).queuedByScript, script) <= CountOf(st.queuedByScript, script)
    {
      ScriptCountWithout(st.queuedJobs, index, script);
    }
  }

  lemma StartedIdsGrow(st: State, after: State, job: TriggerJob)
    requires after.ledger.started == st.ledger.started + [job]
    ensures StartedIds(after) == StartedIds(st) + {job.jobId}
  {
    var started := after.ledger.started;
    forall id | id in StartedIds(st) + {job.jobId} ensures id in StartedIds(after) {
      if id == job.jobId {
        assert started[|st.ledger.started|].jobId == id;
      } else {
        var i :| 0 <= i < |st.ledger.started| && st.ledger.started[i].jobId == id;
        assert started[i].jobId == id;
      }
    }
  }

  lemma StartTallies(st: State, job: TriggerJob)
    requires Tallies(st.activeByScript, Active(st)) && st.activeTotal == |Active(st)|
    ensures Tallies(StartJob(st, job).activeByScript, Active(StartJob(st, job)))
    ensures StartJob(st, job).activeTotal == |Active(StartJob(st, job))|
  {
    hide Tallies;
    TallyAdd(st.activeByScript, Active(st), job);
    TallyReorder(IncrementCount(st.activeByScript, job.event.scriptId), st.running, job, JobsOf(st.channel));
  }

  /** A job started with capacity keeps both active limits. */
  lemma StartWithinLimits(st: State, job: TriggerJob)
    requires WithinLimits(st) && HasActiveCapacity(st, job.event.scriptId)
    ensures WithinLimits(StartJob(st, job))
  {
    var after := StartJob(st, job);
    forall script: ScriptId
      ensures CountOf(after.activeByScript, script) == 0
              || st.policy.maxActivePerScript.Permits(CountOf(after.activeByScript, script))
    {
      assert CountOf(st.activeByScript, script) == 0
             || st.policy.maxActivePerScript.Permits(CountOf(st.activeByScript, script));
    }
  }

  /** Starting the oldest queued job of a script keeps the order. */
  lemma PromotedOrder(queued: seq<TriggerJob>, started: seq<TriggerJob>, index: nat)
    requires JobOrder(queued, started) && index < |queued|
    requires forall j | 0 <= j < index :: queued[j].event.scriptId != queued[index].event.scriptId
    ensures JobOrder(Without(queued, index), started + [queued[index]])
  {
    var rest := Without(queued, index);
    forall j | 0 <= j < |rest| ensures rest[j] == queued[if j < index then j else j + 1] {
    }
  }

  lemma PromoteOrder(st: State, index: nat)
    requires Core(st) && index < |st.queuedJobs| && index == FirstStartable(st)
    ensures StartOrder(Promote(st, index))
  {
    var after := Promote(st, index);
    var job := st.queuedJobs[index];
    // An older queued job of the same script would have been found first.
    assert forall j | 0 <= j < index :: st.queuedJobs[j].event.scriptId != job.event.scriptId;
    IdsBelowNext(st);
    hide CountersAgree, WithinLimits, Conserved, TruthfulResults, HandlesHeld, JobOrder, Position;
    PromotedOrder(st.queuedJobs, st.ledger.started, index);
    StartedIdsGrow(st, after, job);
  }

  lemma PromoteResults(st: State, index: nat)
    requires Core(st) && index < |st.queuedJobs|
    ensures TruthfulResults(Promote(st, index))
  {
    var after := Promote(st, index);
    var job := st.queuedJobs[index];
    StartedIdsGrow(st, after, job);
    assert Completions(after) == Completions(st);
    forall c | c in Completions(st) ensures c.jobId != job.jobId {
      QueuedHasNoCompletion(st, index, c);
    }
    if job.jobId in st.ledger.reported {
      QueuedNotStarted(st, index);
      assert false;
    }
  }

  /** A queued job has not been started before. */
  lemma QueuedNotStarted(st: State, index: nat)
    requires Core(st) && index < |st.queuedJobs|
    ensures st.queuedJobs[index].jobId !in StartedIds(st)
  {
    var job := st.queuedJobs[index];
    if job.jobId in StartedIds(st) {
      var i :| 0 <= i < |st.ledger.started| && st.ledger.started[i].jobId == job.jobId;
      assert st.ledger.started[i] in st.ledger.started;
      assert job in multiset(st.queuedJobs);
      assert st.ledger.started[i] in Holdings(st);
      HoldingsDistinct(st, st.ledger.started[i], job);
      assert false;
    }
  }

  lemma PromoteCounts(st: State, index: nat)
    requires CountersAgree(st) && WithinLimits(st) && index < |st.queuedJobs|
    requires HasActiveCapacity(st, st.queuedJobs[index].event.scriptId)
    ensures CountersAgree(Promote(st, index)) && WithinLimits(Promote(st, index))
  {
    DequeueCounts(st, index);
    StartTallies(Dequeue(st, index), st.queuedJobs[index]);
    StartWithinLimits(Dequeue(st, index), st.queuedJobs[index]);
  }

  lemma PromoteConserves(st: State, index: nat)
    requires Conserved(st) && index < |st.queuedJobs|
    ensures Conserved(Promote(st, index))
  {
    var job := st.queuedJobs[index];
    WithoutMultiset(st.queuedJobs, index);
    assert Holdings(Promote(st, index)) == Holdings(st);
    assert job in multiset(st.queuedJobs);
    assert job in Holdings(st);
  }

  lemma StartKeepsHandles(st: State, after: State, job: TriggerJob)
    requires HandlesHeld(st) && after.running == st.running + [job] && after.channel == st.channel
    requires after.debugAssertions == st.debugAssertions
    requires after.workers == if st.debugAssertions then st.workers + {job.jobId} else st.workers
    ensures HandlesHeld(after)
  {
    IdsOneMore(st.running, job, JobsOf(st.channel));
    hide IdsOf;
  }

  lemma PromoteKeepsCore(st: State, index: nat)
    requires Core(st) && index < |st.queuedJobs| && index == FirstStartable(st)
    ensures Core(Promote(st, index))
  {
    hide CountersAgree, WithinLimits, Conserved, StartOrder, TruthfulResults, HandlesHeld;
    StartKeepsHandles(st, Promote(st, index), st.queuedJobs[index]);
    PromoteCounts(st, index);
    PromoteConserves(st, index);
    PromoteOrder(st, index);
    PromoteResults(st, index);
  }

  lemma AbandonHolds(st: State, index: nat, message: string)
    requires index < |st.queuedJobs|
    ensures Holdings(AbandonQueue(Dequeue(st, index), st.queuedJobs[index], message)) == Holdings(st)
  {
    hide JobsOf, JobFailures, Without, DecrementCount;
    var job, rest := st.queuedJobs[index], Without(st.queuedJobs, index);
    OneMoreCompletion(st.localCompletions, JobFailure(job, message));
    ManyMoreFailures(st.localCompletions + [JobFailure(job, message)], rest, message);
    WithoutMultiset(st.queuedJobs, index);
  }

  /** Whatever else changes, jobs that all stay somewhere stay accounted for. */
  lemma StaysConserved(st: State, after: State)
    requires Conserved(st) && Holdings(after) == Holdings(st)
    requires after.ledger.accepted == st.ledger.accepted && after.ledger.started == st.ledger.started
    requires after.nextJobId == st.nextJobId
    ensures Conserved(after)
  {
    hide Holdings;
  }

  lemma AbandonConserves(st: State, index: nat, message: string)
    requires Conserved(st) && index < |st.queuedJobs|
    ensures Conserved(AbandonQueue(Dequeue(st, index), st.queuedJobs[index], message))
    ensures AbandonQueue(Dequeue(st, index), st.queuedJobs[index], message).localCompletions
            == st.localCompletions + [JobFailure(st.queuedJobs[index], message)]
               + JobFailures(Without(st.queuedJobs, index), message)
  {
    hide Conserved, Holdings, JobFailures, Without;
    AbandonHolds(st, index, message);
    StaysConserved(st, AbandonQueue(Dequeue(st, index), st.queuedJobs[index], message));
  }

  lemma AbandonCounts(st: State, index: nat, message: string)
    requires CountersAgree(st) && WithinLimits(st) && index < |st.queuedJobs|
    ensures CountersAgree(AbandonQueue(Dequeue(st, index), st.queuedJobs[index], message))
    ensures WithinLimits(AbandonQueue(Dequeue(st, index), st.queuedJobs[index], message))
  {
    var after := AbandonQueue(Dequeue(st, index), st.queuedJobs[index], message);
    assert Active(after) == Active(st);
    assert after.activeByScript == st.activeByScript;
  }

  lemma AbandonOrder(st: State, after: State)
    requires StartOrder(st) && after.queuedJobs == [] && after.ledger == st.ledger && after.nextJobId == st.nextJobId
    ensures StartOrder(after)
  {
    assert StartedIds(after) == StartedIds(st);
  }

  lemma AbandonKeepsCore(st: State, index: nat, message: string)
    requires Core(st) && index < |st.queuedJobs|
    ensures Core(AbandonQueue(Dequeue(st, index), st.queuedJobs[index], message))
  {
    hide CountersAgree, WithinLimits, Conserved, StartOrder, TruthfulResults;
    var rest := Without(st.queuedJobs, index);
    var failures := [JobFailure(st.queuedJobs[index], message)] + JobFailures(rest, message);
    var after := AbandonQueue(Dequeue(st, index), st.queuedJobs[index], message);
    AbandonConserves(st, index, message);
    assert after.localCompletions == st.localCompletions + failures;
    AbandonCounts(st, index, message);
    AbandonOrder(st, after);
    forall c | c in failures
      ensures c.result.Failed? && exists i :: 0 <= i < |st.queuedJobs| && st.queuedJobs[i] == JobOf(c)
    {
      var k :| 0 <= k < |failures| && failures[k] == c;
      if k == 0 {
        assert st.queuedJobs[index] == JobOf(c);
      } else {
        assert rest[k - 1] == JobOf(c);
        assert st.queuedJobs[if k - 1 < index then k - 1 else k] == JobOf(c);
      }
    }
    AbandonResults(st, after, failures);
  }

  /** Failing queued jobs adds truthful completions: none of those jobs was started. */
  lemma AbandonResults(st: State, after: State, failures: seq<Completion>)
    requires Core(st)
    requires after.ledger == st.ledger && after.running == st.running && after.channel == st.channel
    requires after.localCompletions == st.localCompletions + failures
    requires forall c | c in failures ::
               c.result.Failed? && exists i :: 0 <= i < |st.queuedJobs| && st.queuedJobs[i] == JobOf(c)
    ensures TruthfulResults(after)
  {
    forall c | c in failures ensures c.jobId !in StartedIds(st) {
      var i :| 0 <= i < |st.queuedJobs| && st.queuedJobs[i] == JobOf(c);
      QueuedNotStarted(st, i);
    }
    assert StartedIds(after) == StartedIds(st);
    forall c | c in Completions(after) ensures c in Completions(st) || c in failures {
    }
  }

  lemma {:induction false} ScheduleKeepsCore(st: State, spawn: SpawnOracle)
    requires Core(st)
    ensures Core(ScheduleQueuedJobs(st, spawn))
    decreases |st.queuedJobs|
  {
    hide Core;
    var index := FirstStartable(st);
    if st.policy.maxActiveGlobal.Permits(SaturatingIncrement(st.activeTotal)) && index < |st.queuedJobs| {
      var job := st.queuedJobs[index];
      match StartError(Dequeue(st, index), job, spawn)
      case Some(message) =>
        AbandonKeepsCore(st, index, message);
      case None =>
        PromoteKeepsCore(st, index);
        ScheduleKeepsCore(Promote(st, index), spawn);
    }
  }
}
