/** The registry of active runs, the events it publishes, and the window's copy of it. */
module ActiveRunModel {
  import opened Wrappers
  import StableSort
  import opened TextOrder

  const MAX_LIVE_LOG_ENTRIES := 500

  type RunId = string
  type Log = string
  type Token = nat

  /** A run as snapshots and events carry it; `requested` is the cancellation flag. */
  datatype Run = Run(
    id: RunId, script: string, trigger: string, startedAt: nat,
    logs: seq<Log>, discarded: nat, requested: bool)

  /** A run as the registry holds it; its own `requested` is the explicit flag. */
  datatype Entry = Entry(run: Run, token: Token)

  type Runs = map<RunId, Entry>

  /** `cancelled` holds the tokens that have been cancelled, by the registry or by anyone else. */
  datatype Registry = Registry(revision: nat, runs: Runs, cancelled: set<Token>)

  datatype Event =
    | Started(revision: nat, run: Run)
    | LogEmitted(revision: nat, id: RunId, log: Log, discarded: nat)
    | CancellationRequested(revision: nat, id: RunId)
    | Finished(revision: nat, id: RunId)
    | RunRecorded(revision: nat)

  /** What a snapshot says of an entry. */
  function Shown(entry: Entry, cancelled: set<Token>): Run {
    entry.run.(requested := entry.run.requested || entry.token in cancelled)
  }

  // ---- order -----------------------------------------------------------------------

  /** An order of ids: the registry's is `TextLess`, the window's is its locale's. */
  type IdOrder = (RunId, RunId) -> bool

  /** By start time, then by id. */
  predicate Before(less: IdOrder, a: Run, b: Run) {
    a.startedAt < b.startedAt || (a.startedAt == b.startedAt && less(a.id, b.id))
  }

  function Order(less: IdOrder): (Run, Run) -> bool {
    (a, b) => Before(less, a, b)
  }

  ghost predicate Sorted(less: IdOrder, runs: seq<Run>) {
    forall i, j :: 0 <= i < j < |runs| ==> Before(less, runs[i], runs[j])
  }

  /** A strict total order. */
  ghost predicate Orders(less: IdOrder) {
    && (forall a, b :: less(a, b) ==> !less(b, a))
    && (forall a, b :: a != b ==> less(a, b) || less(b, a))
    && (forall a, b, c :: less(a, b) && less(b, c) ==> less(a, c))
  }

  lemma TextOrders()
    ensures Orders(TextLess)
  {
    forall a, b ensures (TextLess(a, b) ==> !TextLess(b, a)) && (a != b ==> TextLess(a, b) || TextLess(b, a)) {
      TextLessTotal(a, b);
    }
    forall a, b, c | TextLess(a, b) && TextLess(b, c) ensures TextLess(a, c) {
      TextLessTransitive(a, b, c);
    }
  }

  // ---- what each locked section does -----------------------------------------------

  function RunStarted(r: Registry, id: RunId, script: string, trigger: string, now: nat,
                      token: Token): (Registry, Event) {
    var entry := Entry(Run(id, script, trigger, now, [], 0, token in r.cancelled), token);
    var revision := SaturatingIncrement(r.revision);
    (r.(revision := revision, runs := r.runs[id := entry]), Started(revision, Shown(entry, r.cancelled)))
  }

  /** The newest entries, at most the cap: what both sides keep. */
  function Newest(logs: seq<Log>): (kept: seq<Log>)
    ensures |kept| == if |logs| < MAX_LIVE_LOG_ENTRIES then |logs| else MAX_LIVE_LOG_ENTRIES
    ensures kept == logs[|logs| - |kept|..]
  {
    if |logs| <= MAX_LIVE_LOG_ENTRIES then logs else logs[|logs| - MAX_LIVE_LOG_ENTRIES..]
  }

  function WithLog(run: Run, log: Log): Run {
    if |run.logs| == MAX_LIVE_LOG_ENTRIES
    then run.(logs := run.logs[1..] + [log], discarded := SaturatingIncrement(run.discarded))
    else run.(logs := run.logs + [log])
  }

  function LogReceived(r: Registry, id: RunId, log: Log): (Registry, Option<Event>) {
    if id !in r.runs then (r, None) else
    var run := WithLog(r.runs[id].run, log);
    var revision := SaturatingIncrement(r.revision);
    (r.(revision := revision, runs := r.runs[id := r.runs[id].(run := run)]),
     Some(LogEmitted(revision, id, log, run.discarded)))
  }

  /** One cancellation request: nothing for a run already asked, or not active. */
  function RequestCancel(r: Registry, id: RunId): (Registry, Option<Event>) {
    if id !in r.runs || r.runs[id].run.requested then (r, None) else
    var revision := SaturatingIncrement(r.revision);
    (r.(revision := revision, runs := r.runs[id := Flagged(r.runs[id])]), Some(CancellationRequested(revision, id)))
  }

  function Flagged(entry: Entry): Entry {
    entry.(run := entry.run.(requested := true))
  }

  function RunFinished(r: Registry, id: RunId): (Registry, Option<Event>) {
    if id !in r.runs then (r, None) else
    var revision := SaturatingIncrement(r.revision);
    (r.(revision := revision, runs := r.runs - {id}), Some(Finished(revision, id)))
  }

  datatype Step =
    | StartStep(id: RunId, script: string, trigger: string, now: nat, token: Token)
    | LogStep(id: RunId, log: Log)
    | CancelStep(id: RunId)
    | FinishStep(id: RunId)
    | RecordStep
    | TokenStep(token: Token)

  /** `TokenStep` is a token cancelled from outside, or by a stop after it has released the lock. */
  function Apply(r: Registry, step: Step): (Registry, Option<Event>) {
    match step
    case StartStep(id, script, trigger, now, token) =>
      var (after, event) := RunStarted(r, id, script, trigger, now, token);
      (after, Some(event))
    case LogStep(id, log) => LogReceived(r, id, log)
    case CancelStep(id) => RequestCancel(r, id)
    case FinishStep(id) => RunFinished(r, id)
    case RecordStep => (r, Some(RunRecorded(r.revision)))
    case TokenStep(token) => (r.(cancelled := r.cancelled + {token}), None)
  }

  // ---- numbers as the window reads them --------------------------------------------

  /** Up to here a JavaScript number holds every integer. */
  const EXACT := 0x20_0000_0000_0000

  /** How far apart the numbers with 53 significant bits are around `n`. */
  function Gap(n: nat): (gap: nat)
    ensures gap >= 1
  {
    if n < EXACT then 1 else 2 * Gap(n / 2)
  }

  /** The nearest multiple of the gap, the even one of two that are equally near. */
  function Nearest(n: nat, gap: nat): nat
    requires gap >= 1
  {
    var low, rest := n / gap * gap, n % gap;
    if 2 * rest < gap || (2 * rest == gap && n / gap % 2 == 0) then low else low + gap
  }

  /** An integer of the runner as a JavaScript number. */
  function Read(n: nat): nat {
    Nearest(n, Gap(n))
  }

  // ---- the window's copy -----------------------------------------------------------

  /** What the registry answers when it is asked for its runs. */
  datatype Snapshot = Snapshot(revision: nat, runs: seq<Run>)

  /** `resorted` is history: the window has put the list in order since it came in a snapshot. */
  datatype View = View(revision: nat, runs: seq<Run>, resorted: bool)

  function Received(snapshot: Snapshot): View {
    View(Read(snapshot.revision), snapshot.runs, false)
  }

  function SortRuns(less: IdOrder, runs: seq<Run>): seq<Run> {
    StableSort.Sort(runs, Order(less))
  }

  function Without(runs: seq<Run>, id: RunId): seq<Run> {
    if runs == [] then []
    else if runs[0].id == id then Without(runs[1..], id)
    else [runs[0]] + Without(runs[1..], id)
  }

  predicate Lists(runs: seq<Run>, id: RunId) {
    exists i :: 0 <= i < |runs| && runs[i].id == id
  }

  function MapRuns(runs: seq<Run>, id: RunId, change: Run -> Run): seq<Run> {
    seq(|runs|, i requires 0 <= i < |runs| => if runs[i].id == id then change(runs[i]) else runs[i])
  }

  function ApplyEvent(less: IdOrder, view: View, event: Event): View {
    var revision := Read(event.revision);
    if event.RunRecorded? || revision <= view.revision then view
    else
      match event
      case Started(_, run) => View(revision, SortRuns(less, Without(view.runs, run.id) + [run]), true)
      case LogEmitted(_, id, log, discarded) =>
        if Lists(view.runs, id) then
          var change := (run: Run) => run.(discarded := discarded, logs := Newest(run.logs + [log]));
          view.(revision := revision, runs := MapRuns(view.runs, id, change))
        else view
      case CancellationRequested(_, id) =>
        view.(revision := revision, runs := MapRuns(view.runs, id, (run: Run) => run.(requested := true)))
      case Finished(_, id) => view.(revision := revision, runs := Without(view.runs, id))
  }

  /** A snapshot that arrives: the newer of the two, the incoming one when equal. */
  function Merge(current: View, incoming: View): View {
    if current.revision > incoming.revision then current else incoming
  }

  function ApplyEvents(less: IdOrder, view: View, events: seq<Event>): View {
    if events == [] then view
    else ApplyEvent(less, ApplyEvents(less, view, events[..|events| - 1]), events[|events| - 1])
  }
}
