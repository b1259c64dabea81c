/** The window's copy of the active runs never drifts from the registry. */
module ActiveRunFeed {
  import StableSort
  import opened TextOrder
  import opened Wrappers
  import opened ActiveRunModel

  // ---- what a list of runs shows ---------------------------------------------------

  /** The same run; the flag shows at least the explicit request and at most the cancelled token. */
  ghost predicate Agrees(run: Run, entry: Entry, cancelled: set<Token>) {
    && run.(requested := entry.run.requested) == entry.run
    && (entry.run.requested ==> run.requested)
    && (run.requested ==> entry.run.requested || entry.token in cancelled)
  }

  ghost predicate Distinct(runs: seq<Run>) {
    forall i, j :: 0 <= i < j < |runs| ==> runs[i].id != runs[j].id
  }

  /** Every run once, in whatever order. */
  ghost predicate Shows(runs: seq<Run>, entries: Runs, cancelled: set<Token>) {
    && Distinct(runs)
    && (forall run | run in runs :: run.id in entries && Agrees(run, entries[run.id], cancelled))
    && (forall id | id in entries :: Lists(runs, id))
  }

  /** What `snapshot` returns: every run once, in order, with its flag or its cancelled token. */
  ghost predicate IsSnapshot(runs: seq<Run>, entries: Runs, cancelled: set<Token>) {
    && Sorted(TextLess, runs)
    && (forall run | run in runs :: run.id in entries && run == Shown(entries[run.id], cancelled))
    && (forall id | id in entries :: Lists(runs, id))
  }

  ghost predicate WellFormed(entries: Runs) {
    forall id | id in entries :: entries[id].run.id == id && |entries[id].run.logs| <= MAX_LIVE_LOG_ENTRIES
  }

  lemma ListsMember(runs: seq<Run>, id: RunId)
    ensures Lists(runs, id) <==> exists run :: run in runs && run.id == id
  {
    if Lists(runs, id) {
      var i :| 0 <= i < |runs| && runs[i].id == id;
      assert runs[i] in runs;
    }
    if run :| run in runs && run.id == id {
      var i :| 0 <= i < |runs| && runs[i] == run;
    }
  }

  // ---- the list operations ---------------------------------------------------------

  lemma {:induction false} WithoutKeeps(runs: seq<Run>, id: RunId)
    ensures forall run :: run in Without(runs, id) <==> run in runs && run.id != id
    ensures Distinct(runs) ==> Distinct(Without(runs, id))
  {
    if runs != [] {
      WithoutKeeps(runs[1..], id);
      assert runs == [runs[0]] + runs[1..];
    }
  }

  lemma {:induction false} WithoutKeepsOrder(less: IdOrder, runs: seq<Run>, id: RunId)
    requires Sorted(less, runs)
    ensures Sorted(less, Without(runs, id))
  {
    hide Sorted, Before;
    if runs != [] {
      SortedTail(less, runs);
      WithoutKeepsOrder(less, runs[1..], id);
      WithoutKeeps(runs[1..], id);
      SortedCons(less, runs[0], Without(runs[1..], id));
    }
  }

  lemma SortedTail(less: IdOrder, runs: seq<Run>)
    requires runs != [] && Sorted(less, runs)
    ensures Sorted(less, runs[1..]) && forall run | run in runs[1..] :: Before(less, runs[0], run)
  {
    hide Before;
    forall run | run in runs[1..] ensures Before(less, runs[0], run) {
      var i :| 0 <= i < |runs[1..]| && runs[1..][i] == run;
      assert runs[i + 1] == run;
    }
  }

  lemma SortedCons(less: IdOrder, first: Run, rest: seq<Run>)
    requires Sorted(less, rest) && forall run | run in rest :: Before(less, first, run)
    ensures Sorted(less, [first] + rest)
  {
    hide Before;
    var all := [first] + rest;
    forall i, j | 0 <= i < j < |all| ensures Before(less, all[i], all[j]) {
      assert all[j] == rest[j - 1];
      if i == 0 {
        assert rest[j - 1] in rest;
      }
    }
  }

  lemma {:induction false} InsertKeeps(run: Run, runs: seq<Run>, before: (Run, Run) -> bool)
    ensures forall x :: x in StableSort.Insert(run, runs, before) <==> x == run || x in runs
    ensures Distinct(runs) && (forall x | x in runs :: x.id != run.id)
         ==> Distinct(StableSort.Insert(run, runs, before))
  {
    if runs != [] {
      InsertKeeps(run, runs[1..], before);
      assert runs == [runs[0]] + runs[1..];
      var rest := StableSort.Insert(run, runs[1..], before);
      if Distinct(runs) && (forall x | x in runs :: x.id != run.id) && !before(run, runs[0]) {
        forall j | 0 <= j < |rest| ensures runs[0].id != rest[j].id {
          assert rest[j] in rest;
        }
      }
    }
  }

  lemma {:induction false} SortKeeps(runs: seq<Run>, before: (Run, Run) -> bool)
    requires Distinct(runs)
    ensures forall x :: x in StableSort.Sort(runs, before) <==> x in runs
    ensures Distinct(StableSort.Sort(runs, before))
  {
    if runs != [] {
      var init, last := runs[..|runs| - 1], runs[|runs| - 1];
      SortKeeps(init, before);
      InsertKeeps(last, StableSort.Sort(init, before), before);
      assert runs == init + [last];
    }
  }

  lemma BeforeTransitive(less: IdOrder, a: Run, b: Run, c: Run)
    requires Orders(less) && Before(less, a, b) && Before(less, b, c)
    ensures Before(less, a, c)
  {
  }

  lemma BeforeTotal(less: IdOrder, a: Run, b: Run)
    requires Orders(less)
    ensures Before(less, a, b) ==> !Before(less, b, a)
    ensures a.id != b.id ==> Before(less, a, b) || Before(less, b, a)
  {
  }

  lemma {:induction false} InsertSorts(less: IdOrder, run: Run, runs: seq<Run>)
    requires Orders(less) && Sorted(less, runs) && forall x | x in runs :: x.id != run.id
    ensures Sorted(less, StableSort.Insert(run, runs, Order(less)))
  {
    if runs != [] {
      hide Before, Orders;
      InsertSorts(less, run, runs[1..]);
      InsertKeeps(run, runs[1..], Order(less));
      BeforeTotal(less, run, runs[0]);
      if Before(less, run, runs[0]) {
        forall j | 0 < j < |runs| ensures Before(less, run, runs[j]) {
          BeforeTransitive(less, run, runs[0], runs[j]);
        }
      } else {
        var rest := StableSort.Insert(run, runs[1..], Order(less));
        forall j | 0 <= j < |rest| ensures Before(less, runs[0], rest[j]) {
          assert rest[j] in rest;
        }
      }
    }
  }

  lemma {:induction false} SortSorts(less: IdOrder, runs: seq<Run>)
    requires Orders(less) && Distinct(runs)
    ensures Sorted(less, SortRuns(less, runs))
  {
    if runs != [] {
      var init, last := runs[..|runs| - 1], runs[|runs| - 1];
      SortSorts(less, init);
      SortKeeps(init, Order(less));
      forall x | x in SortRuns(less, init) ensures x.id != last.id {
        assert x in init;
      }
      hide Orders, Sorted;
      InsertSorts(less, last, SortRuns(less, init));
    }
  }

  /** Appending one run and sorting lists it with the others. */
  lemma AppendAndSort(less: IdOrder, runs: seq<Run>, run: Run)
    requires Distinct(runs) && forall x | x in runs :: x.id != run.id
    ensures Distinct(SortRuns(less, runs + [run]))
    ensures forall x :: x in SortRuns(less, runs + [run]) <==> x == run || x in runs
    ensures Orders(less) ==> Sorted(less, SortRuns(less, runs + [run]))
  {
    hide Orders, Sorted;
    assert Distinct(runs + [run]);
    SortKeeps(runs + [run], Order(less));
    if Orders(less) {
      SortSorts(less, runs + [run]);
    }
  }

  lemma MapKeeps(runs: seq<Run>, id: RunId, change: Run -> Run)
    requires Distinct(runs) && forall run: Run :: change(run).id == run.id
    ensures var after := MapRuns(runs, id, change);
            && Distinct(after)
            && (forall run | run in after :: exists x :: x in runs && run == if x.id == id then change(x) else x)
            && (forall other | Lists(runs, other) :: Lists(after, other))
  {
    var after := MapRuns(runs, id, change);
    forall run | run in after ensures exists x :: x in runs && run == if x.id == id then change(x) else x {
      var i :| 0 <= i < |after| && after[i] == run;
      assert runs[i] in runs;
    }
    forall other | Lists(runs, other) ensures Lists(after, other) {
      var i :| 0 <= i < |runs| && runs[i].id == other;
      assert after[i].id == other;
    }
  }

  lemma MapKeepsOrder(less: IdOrder, runs: seq<Run>, id: RunId, change: Run -> Run)
    requires forall run: Run :: change(run).id == run.id && change(run).startedAt == run.startedAt
    requires Sorted(less, runs)
    ensures Sorted(less, MapRuns(runs, id, change))
  {
    var after := MapRuns(runs, id, change);
    forall i, j | 0 <= i < j < |after| ensures Before(less, after[i], after[j]) {
      assert Before(less, runs[i], runs[j]);
    }
  }

  // ---- one event -------------------------------------------------------------------

  /** The event says how the registry's runs went from `before` to `after`. */
  ghost predicate Leads(before: Runs, event: Event, after: Runs, cancelled: set<Token>) {
    match event
    case Started(_, run) =>
      run.id in after && after == before[run.id := after[run.id]] && Agrees(run, after[run.id], cancelled)
    case LogEmitted(_, id, log, discarded) =>
      && id in before
      && after == before[id := before[id].(run := WithLog(before[id].run, log))]
      && discarded == after[id].run.discarded
    case CancellationRequested(_, id) => id in before && after == before[id := Flagged(before[id])]
    case Finished(_, id) => id in before && after == before - {id}
    case RunRecorded(_) => false
  }

  lemma ShowsStarted(less: IdOrder, runs: seq<Run>, before: Runs, run: Run, after: Runs, cancelled: set<Token>)
    requires Shows(runs, before, cancelled) && Leads(before, Started(0, run), after, cancelled)
    ensures Shows(SortRuns(less, Without(runs, run.id) + [run]), after, cancelled)
  {
    hide SortRuns, Sorted, Orders;
    var rest := Without(runs, run.id);
    var shown := SortRuns(less, rest + [run]);
    WithoutKeeps(runs, run.id);
    AppendAndSort(less, rest, run);
    forall id | id in after ensures Lists(shown, id) {
      ListsMember(shown, id);
      if id == run.id {
        assert run in shown;
      } else {
        ListsMember(runs, id);
        var x :| x in runs && x.id == id;
        assert x in shown;
      }
    }
  }

  lemma ShowsFinished(runs: seq<Run>, before: Runs, id: RunId, cancelled: set<Token>)
    requires Shows(runs, before, cancelled)
    ensures Shows(Without(runs, id), before - {id}, cancelled)
  {
    var shown := Without(runs, id);
    WithoutKeeps(runs, id);
    forall other | other in before - {id} ensures Lists(shown, other) {
      ListsMember(runs, other);
      ListsMember(shown, other);
      var x :| x in runs && x.id == other;
      assert x in shown;
    }
  }

  /** A change of one run that follows the registry's own change of it. */
  lemma ShowsChanged(runs: seq<Run>, before: Runs, id: RunId, change: Run -> Run, entry: Entry, cancelled: set<Token>)
    requires Shows(runs, before, cancelled) && id in before
    requires forall run: Run :: change(run).id == run.id
    requires forall run: Run | run.id == id && Agrees(run, before[id], cancelled) ::
               Agrees(change(run), entry, cancelled)
    ensures Shows(MapRuns(runs, id, change), before[id := entry], cancelled)
  {
    var after := MapRuns(runs, id, change);
    MapKeeps(runs, id, change);
    MapAgrees(runs, before, id, change, entry, cancelled);
    hide MapRuns, Agrees, Distinct, Lists;
  }

  lemma MapAgrees(runs: seq<Run>, before: Runs, id: RunId, change: Run -> Run, entry: Entry, cancelled: set<Token>)
    requires id in before && forall run: Run :: change(run).id == run.id
    requires forall run | run in runs :: run.id in before && Agrees(run, before[run.id], cancelled)
    requires forall run: Run | run.id == id && Agrees(run, before[id], cancelled) ::
               Agrees(change(run), entry, cancelled)
    ensures forall run | run in MapRuns(runs, id, change) ::
              run.id in before && Agrees(run, before[id := entry][run.id], cancelled)
  {
    hide Agrees;
    var after := MapRuns(runs, id, change);
    forall run | run in after ensures run.id in before && Agrees(run, before[id := entry][run.id], cancelled) {
      var i :| 0 <= i < |after| && after[i] == run;
      assert runs[i] in runs;
    }
  }

  /** The window's log list after an event is the registry's. */
  lemma SameLogs(run: Run, log: Log)
    requires |run.logs| <= MAX_LIVE_LOG_ENTRIES
    ensures Newest(run.logs + [log]) == WithLog(run, log).logs
    ensures |WithLog(run, log).logs| <= MAX_LIVE_LOG_ENTRIES
  {
  }

  lemma ShowsLog(runs: seq<Run>, before: Runs, id: RunId, log: Log, discarded: nat, after: Runs, cancelled: set<Token>)
    requires Shows(runs, before, cancelled) && WellFormed(before)
    requires Leads(before, LogEmitted(0, id, log, discarded), after, cancelled)
    ensures var change := (run: Run) => run.(discarded := discarded, logs := Newest(run.logs + [log]));
            Lists(runs, id) && Shows(MapRuns(runs, id, change), after, cancelled)
  {
    var change := (run: Run) => run.(discarded := discarded, logs := Newest(run.logs + [log]));
    var entry := before[id].(run := WithLog(before[id].run, log));
    SameLogs(before[id].run, log);
    forall run: Run | run.id == id && Agrees(run, before[id], cancelled) ensures Agrees(change(run), entry, cancelled) {
      assert run.logs == before[id].run.logs;
    }
    ShowsChanged(runs, before, id, change, entry, cancelled);
  }

  lemma ShowsCancelled(runs: seq<Run>, before: Runs, id: RunId, cancelled: set<Token>)
    requires Shows(runs, before, cancelled) && id in before
    ensures var change := (run: Run) => run.(requested := true);
            Shows(MapRuns(runs, id, change), before[id := Flagged(before[id])], cancelled)
  {
    ShowsChanged(runs, before, id, (run: Run) => run.(requested := true), Flagged(before[id]), cancelled);
  }

  /** Applying the event of a change to a copy of the state before it gives a copy of the state after,
      whatever order the window sorts in. */
  lemma EventFollowsChange(less: IdOrder, view: View, before: Runs, event: Event, after: Runs, cancelled: set<Token>)
    requires Shows(view.runs, before, cancelled) && WellFormed(before)
    requires Leads(before, event, after, cancelled) && Read(event.revision) > view.revision
    ensures ApplyEvent(less, view, event).revision == Read(event.revision)
    ensures Shows(ApplyEvent(less, view, event).runs, after, cancelled)
  {
    hide Shows, Agrees, WellFormed, SortRuns, Without, WithLog, Read;
    match event
    case Started(_, run) => ShowsStarted(less, view.runs, before, run, after, cancelled);
    case LogEmitted(_, id, log, discarded) => ShowsLog(view.runs, before, id, log, discarded, after, cancelled);
    case CancellationRequested(_, id) => ShowsCancelled(view.runs, before, id, cancelled);
    case Finished(_, id) => ShowsFinished(view.runs, before, id, cancelled);
  }

  /** The list is in the order of the snapshot it came in, or, once the window has sorted it, in the
      window's own. */
  ghost predicate InOrder(less: IdOrder, view: View) {
    Sorted(if view.resorted then less else TextLess, view.runs)
  }

  lemma EventKeepsOrder(less: IdOrder, view: View, event: Event)
    requires Orders(less) && InOrder(less, view) && Distinct(view.runs)
    ensures InOrder(less, ApplyEvent(less, view, event))
  {
    hide Orders, Sorted, SortRuns, Without, MapRuns, Read;
    var present := if view.resorted then less else TextLess;
    match event
    case Started(_, run) =>
      WithoutKeeps(view.runs, run.id);
      AppendAndSort(less, Without(view.runs, run.id), run);
    case LogEmitted(_, id, log, discarded) =>
      MapKeepsOrder(present, view.runs, id,
            (run: Run) => run.(discarded := discarded, logs := Newest(run.logs + [log])));
    case CancellationRequested(_, id) =>
      MapKeepsOrder(present, view.runs, id, (run: Run) => run.(requested := true));
    case Finished(_, id) => WithoutKeepsOrder(present, view.runs, id);
    case RunRecorded(_) =>
  }

  /** Every change the registry makes leads where its event says, at the next revision. */
  lemma ChangeHasEvent(r: Registry, step: Step)
    requires WellFormed(r.runs)
    ensures var (after, event) := Apply(r, step);
            && WellFormed(after.runs) && r.cancelled <= after.cancelled
            && (event.Some? && !event.value.RunRecorded? ==>
                  event.value.revision == after.revision == SaturatingIncrement(r.revision)
                  && Leads(r.runs, event.value, after.runs, after.cancelled))
            && (event.None? || event.value.RunRecorded? ==> after.runs == r.runs && after.revision == r.revision)
  {
  }

  // ---- a list in order is unique ---------------------------------------------------

  lemma SortedOnce(less: IdOrder, runs: seq<Run>, i: nat, j: nat)
    requires Orders(less) && Sorted(less, runs) && i < |runs| && j < |runs| && runs[i] == runs[j]
    ensures i == j
  {
    BeforeTotal(less, runs[i], runs[j]);
    hide Orders, Before;
  }

  /** Two lists in order with the same members are the same list. */
  lemma {:induction false} SortedUnique(less: IdOrder, a: seq<Run>, b: seq<Run>)
    requires Orders(less) && Sorted(less, a) && Sorted(less, b) && forall run :: run in a <==> run in b
    ensures a == b
  {
    hide Orders, Before;
    EmptyTogether(a, b);
    if a != [] {
      SameFirst(less, a, b);
      forall run ensures run in a[1..] <==> run in b[1..] {
        SameRest(less, a, b, run);
        SameRest(less, b, a, run);
      }
      SortedUnique(less, a[1..], b[1..]);
      assert a == [a[0]] + a[1..] && b == [b[0]] + b[1..];
    }
  }

  lemma EmptyTogether(a: seq<Run>, b: seq<Run>)
    requires forall run :: run in a <==> run in b
    ensures a == [] <==> b == []
  {
    if a != [] {
      assert a[0] in b;
    }
    if b != [] {
      assert b[0] in a;
    }
  }

  lemma SameFirst(less: IdOrder, a: seq<Run>, b: seq<Run>)
    requires Orders(less) && Sorted(less, a) && Sorted(less, b)
    requires a != [] && b != [] && forall run :: run in a <==> run in b
    ensures a[0] == b[0]
  {
    hide Orders, Before;
    assert a[0] in b && b[0] in a;
    var i :| 0 <= i < |b| && b[i] == a[0];
    var j :| 0 <= j < |a| && a[j] == b[0];
    BeforeTotal(less, a[0], b[0]);
  }

  lemma SameRest(less: IdOrder, a: seq<Run>, b: seq<Run>, run: Run)
    requires Orders(less) && Sorted(less, a) && Sorted(less, b)
    requires a != [] && b != [] && a[0] == b[0] && forall run :: run in a <==> run in b
    ensures run in a[1..] ==> run in b[1..]
  {
    hide Orders, Before;
    if run in a[1..] {
      var i :| 1 <= i < |a| && a[i] == run;
      assert run in b;
      var j :| 0 <= j < |b| && b[j] == run;
      if j == 0 {
        SortedOnce(less, a, 0, i);
      }
      assert b[1..][j - 1] == run;
    }
  }

  lemma SnapshotUnique(a: seq<Run>, b: seq<Run>, entries: Runs, cancelled: set<Token>)
    requires WellFormed(entries) && IsSnapshot(a, entries, cancelled) && IsSnapshot(b, entries, cancelled)
    ensures a == b
  {
    SameMembers(a, b, entries, cancelled);
    SameMembers(b, a, entries, cancelled);
    TextOrders();
    hide Orders, Sorted, Shown, Lists;
    SortedUnique(TextLess, a, b);
  }

  lemma SameMembers(a: seq<Run>, b: seq<Run>, entries: Runs, cancelled: set<Token>)
    requires forall run | run in a :: run.id in entries && run == Shown(entries[run.id], cancelled)
    requires forall run | run in b :: run.id in entries && run == Shown(entries[run.id], cancelled)
    requires forall id | id in entries :: Lists(b, id)
    ensures forall run | run in a :: run in b
  {
    forall run | run in a ensures run in b {
      ListsMember(b, run.id);
    }
  }

  // ---- two orders of one list ------------------------------------------------------

  /** Runs that started together are ranked alike. */
  ghost predicate SameOrder(less: IdOrder, runs: seq<Run>) {
    forall a, b | a in runs && b in runs && a.startedAt == b.startedAt :: less(a.id, b.id) <==> TextLess(a.id, b.id)
  }

  lemma RankedAlike(less: IdOrder, runs: seq<Run>)
    requires Orders(less) && Sorted(TextLess, runs) && Sorted(less, runs)
    ensures SameOrder(less, runs)
  {
    hide TextLess, Before;
    forall a, b | a in runs && b in runs && a.startedAt == b.startedAt
      ensures less(a.id, b.id) <==> TextLess(a.id, b.id)
    {
      var i :| 0 <= i < |runs| && runs[i] == a;
      var j :| 0 <= j < |runs| && runs[j] == b;
      if i < j {
        BothBefore(less, a, b);
      } else if j < i {
        BothBefore(less, b, a);
      } else {
        TextLessTotal(a.id, a.id);
      }
    }
  }

  lemma BothBefore(less: IdOrder, a: Run, b: Run)
    requires Orders(less) && a.startedAt == b.startedAt && Before(less, a, b) && Before(TextLess, a, b)
    ensures less(a.id, b.id) && TextLess(a.id, b.id) && !less(b.id, a.id) && !TextLess(b.id, a.id)
  {
    hide TextLess;
    TextLessTotal(a.id, b.id);
  }

  /** A snapshot is in the window's order too exactly when runs that started together are ranked alike. */
  lemma SnapshotSortedIff(less: IdOrder, runs: seq<Run>)
    requires Orders(less) && Sorted(TextLess, runs)
    ensures Sorted(less, runs) <==> SameOrder(less, runs)
  {
    if Sorted(less, runs) {
      RankedAlike(less, runs);
    }
    hide Orders;
  }

  lemma SnapshotIsDistinct(runs: seq<Run>, entries: Runs, cancelled: set<Token>)
    requires IsSnapshot(runs, entries, cancelled)
    ensures Distinct(runs) && Shows(runs, entries, cancelled)
  {
    forall i, j | 0 <= i < j < |runs| ensures runs[i].id != runs[j].id {
      assert runs[i] in runs && runs[j] in runs;
      TextLessTotal(runs[i].id, runs[i].id);
    }
  }

  lemma ResortedIff(less: IdOrder, runs: seq<Run>, now: seq<Run>)
    requires Orders(less) && Sorted(less, runs) && Sorted(TextLess, now) && forall run :: run in runs <==> run in now
    ensures runs == now <==> SameOrder(less, now)
  {
    SnapshotSortedIff(less, now);
    hide Orders, Sorted, SameOrder;
    if SameOrder(less, now) {
      SortedUnique(less, runs, now);
    }
  }

  /** Sorting a snapshot's runs in the window's order gives the snapshot back exactly when runs that
      started together are ranked alike. */
  lemma SortGivesSnapshotIff(less: IdOrder, runs: seq<Run>, now: seq<Run>)
    requires Orders(less) && Distinct(runs) && Sorted(TextLess, now) && multiset(runs) == multiset(now)
    ensures SortRuns(less, runs) == now <==> SameOrder(less, now)
  {
    hide Orders, Sorted, SameOrder;
    SortKeeps(runs, Order(less));
    SortSorts(less, runs);
    forall run ensures run in SortRuns(less, runs) <==> run in now {
      assert run in multiset(runs) <==> run in multiset(now);
    }
    ResortedIff(less, SortRuns(less, runs), now);
  }

  // ---- the window and the registry together ----------------------------------------

  /** `less` is the window's order of ids. `history` holds the runs at every revision from `base`, where
      the window began to listen. `queued` are events that came before the first snapshot; `flying` are
      snapshots asked for. */
  datatype Desktop = Desktop(
    less: IdOrder,
    registry: Registry,
    base: nat,
    history: seq<Runs>,
    published: seq<Event>,
    delivered: nat,
    queued: seq<Event>,
    flying: set<View>,
    window: Option<View>)

  datatype Move =
    | Change(step: Step)
    | Ask(snapshot: Snapshot)
    | Arrive(view: View)
    | Deliver

  /** Changes go on as long as the window reads every revision exactly. */
  ghost predicate Enabled(d: Desktop, move: Move) {
    match move
    case Change(step) => d.registry.revision < EXACT
    case Ask(snapshot) => IsNow(d.registry, snapshot)
    case Arrive(view) => view in d.flying
    case Deliver => d.delivered < |d.published|
  }

  ghost predicate IsNow(r: Registry, snapshot: Snapshot) {
    snapshot.revision == r.revision && IsSnapshot(snapshot.runs, r.runs, r.cancelled)
  }

  predicate Counted(event: Event) {
    !event.RunRecorded?
  }

  function Next(d: Desktop, move: Move): Desktop
    requires move.Deliver? ==> d.delivered < |d.published|
  {
    match move
    case Change(step) =>
      var (after, event) := Apply(d.registry, step);
      d.(registry := after,
         history := if event.Some? && Counted(event.value) then d.history + [after.runs] else d.history,
         published := if event.Some? then d.published + [event.value] else d.published)
    case Ask(snapshot) => d.(flying := d.flying + {Received(snapshot)})
    case Arrive(view) =>
      if d.window.None? then d.(window := Some(ApplyEvents(d.less, view, d.queued)), queued := [])
      else d.(window := Some(Merge(d.window.value, view)))
    case Deliver =>
      var event := d.published[d.delivered];
      if d.window.None? then d.(queued := d.queued + [event], delivered := d.delivered + 1)
      else d.(window := Some(ApplyEvent(d.less, d.window.value, event)), delivered := d.delivered + 1)
  }

  /** The window begins to listen at any state of the registry whose revision it reads exactly. */
  ghost predicate Begins(d: Desktop) {
    && WellFormed(d.registry.runs) && d.registry.revision <= EXACT
    && d == Desktop(d.less, d.registry, d.registry.revision, [d.registry.runs], [], 0, [], {}, None)
  }

  ghost predicate IsRun(states: seq<Desktop>, moves: seq<Move>) {
    && |states| == |moves| + 1 && Begins(states[0])
    && forall i :: 0 <= i < |moves| ==> Enabled(states[i], moves[i]) && states[i + 1] == Next(states[i], moves[i])
  }

  // ---- the invariant ---------------------------------------------------------------

  function LastRevision(base: nat, events: seq<Event>): nat {
    if events == [] then base
    else
      var last := events[|events| - 1];
      if Counted(last) then last.revision else LastRevision(base, events[..|events| - 1])
  }

  ghost predicate EventAt(d: Desktop, i: nat)
    requires i < |d.published|
  {
    var event := d.published[i];
    Counted(event) ==>
      && event.revision == LastRevision(d.base, d.published[..i]) + 1
      && d.base < event.revision < d.base + |d.history|
      && Leads(d.history[event.revision - d.base - 1], event, d.history[event.revision - d.base], d.registry.cancelled)
  }

  /** The copy is the registry's state at the copy's own revision, in one of the two orders. */
  ghost predicate Faithful(d: Desktop, view: View) {
    && d.base <= view.revision < d.base + |d.history|
    && Shows(view.runs, d.history[view.revision - d.base], d.registry.cancelled)
    && (Orders(d.less) ==> InOrder(d.less, view))
  }

  ghost predicate Recorded(d: Desktop) {
    && d.registry.revision == d.base + |d.history| - 1 <= EXACT
    && |d.history| > 0 && d.history[|d.history| - 1] == d.registry.runs
    && (forall k | 0 <= k < |d.history| :: WellFormed(d.history[k]))
    && LastRevision(d.base, d.published) == d.registry.revision
    && (forall i | 0 <= i < |d.published| :: EventAt(d, i))
  }

  ghost predicate WindowFollows(d: Desktop) {
    && d.delivered <= |d.published|
    && (d.window.None? ==> d.queued == d.published[..d.delivered])
    && (d.window.Some? ==>
          Faithful(d, d.window.value) && LastRevision(d.base, d.published[..d.delivered]) <= d.window.value.revision)
  }

  ghost predicate Inv(d: Desktop) {
    && Recorded(d)
    && WindowFollows(d)
    && (forall view | view in d.flying :: Faithful(d, view))
  }

  // ---- delivering ------------------------------------------------------------------

  lemma ReadsExactly(n: nat)
    requires n <= EXACT
    ensures Read(n) == n
  {
    assert Gap(EXACT) == 2 && EXACT / 2 * 2 == EXACT;
  }

  /** A faithful copy stays faithful under the next event, and has then seen it. */
  lemma DeliverOne(d: Desktop, view: View, i: nat)
    requires Recorded(d) && i < |d.published| && Faithful(d, view)
    requires LastRevision(d.base, d.published[..i]) <= view.revision
    ensures Faithful(d, ApplyEvent(d.less, view, d.published[i]))
    ensures LastRevision(d.base, d.published[..i + 1]) <= ApplyEvent(d.less, view, d.published[i]).revision
  {
    hide Shows, Leads, WellFormed, LastRevision, ApplyEvent, EventAt, Recorded, Orders, InOrder, Read;
    var event := d.published[i];
    SeenOneMore(d, i);
    EventReadsExactly(d, i);
    if Orders(d.less) {
      ShowsDistinct(view.runs, d.history[view.revision - d.base], d.registry.cancelled);
      EventKeepsOrder(d.less, view, event);
    }
    if Counted(event) && event.revision > view.revision {
      NextEventLeads(d, view, i);
      var k := view.revision - d.base;
      EventFollowsChange(d.less, view, d.history[k], event, d.history[k + 1], d.registry.cancelled);
    } else {
      StaleEventIsIgnored(d.less, view, event);
    }
  }

  lemma ShowsDistinct(runs: seq<Run>, entries: Runs, cancelled: set<Token>)
    requires Shows(runs, entries, cancelled)
    ensures Distinct(runs)
  {
  }

  lemma EventReadsExactly(d: Desktop, i: nat)
    requires Recorded(d) && i < |d.published|
    ensures Counted(d.published[i]) ==> Read(d.published[i].revision) == d.published[i].revision
  {
    hide Read, Leads, WellFormed, LastRevision;
    assert EventAt(d, i);
    if Counted(d.published[i]) {
      ReadsExactly(d.published[i].revision);
    }
  }

  /** An event the copy has not seen, when it has seen all before it, leads one revision on. */
  lemma NextEventLeads(d: Desktop, view: View, i: nat)
    requires Recorded(d) && i < |d.published| && Faithful(d, view)
    requires LastRevision(d.base, d.published[..i]) <= view.revision
    requires Counted(d.published[i]) && d.published[i].revision > view.revision
    ensures var k := view.revision - d.base;
            && k + 1 < |d.history| && d.published[i].revision == view.revision + 1 && WellFormed(d.history[k])
            && Leads(d.history[k], d.published[i], d.history[k + 1], d.registry.cancelled)
  {
    hide Shows, Leads, WellFormed, LastRevision, InOrder, Orders;
    assert EventAt(d, i);
  }

  lemma SeenOneMore(d: Desktop, i: nat)
    requires i < |d.published|
    ensures LastRevision(d.base, d.published[..i + 1])
         == if Counted(d.published[i]) then d.published[i].revision else LastRevision(d.base, d.published[..i])
  {
    assert d.published[..i + 1][..i] == d.published[..i];
  }

  lemma StaleEventIsIgnored(less: IdOrder, view: View, event: Event)
    requires event.RunRecorded? || Read(event.revision) <= view.revision
    ensures ApplyEvent(less, view, event) == view
  {
  }

  /** The events queued before the first snapshot bring it up to date. */
  lemma {:induction false} DeliverQueued(d: Desktop, view: View, i: nat)
    requires Recorded(d) && i <= |d.published| && Faithful(d, view)
    ensures Faithful(d, ApplyEvents(d.less, view, d.published[..i]))
    ensures LastRevision(d.base, d.published[..i]) <= ApplyEvents(d.less, view, d.published[..i]).revision
  {
    assert d.base <= view.revision;
    hide Recorded, Faithful, ApplyEvent;
    if i > 0 {
      assert d.published[..i][..i - 1] == d.published[..i - 1];
      DeliverQueued(d, view, i - 1);
      DeliverOne(d, ApplyEvents(d.less, view, d.published[..i - 1]), i - 1);
    }
  }

  // ---- every move keeps the invariant ----------------------------------------------

  lemma CancellingKeepsShows(runs: seq<Run>, entries: Runs, before: set<Token>, after: set<Token>)
    requires Shows(runs, entries, before) && before <= after
    ensures Shows(runs, entries, after)
  {
  }

  lemma CancellingKeepsLeads(a: Runs, event: Event, b: Runs, before: set<Token>, after: set<Token>)
    requires Leads(a, event, b, before) && before <= after
    ensures Leads(a, event, b, after)
  {
  }

  lemma BeginsInv(d: Desktop)
    requires Begins(d)
    ensures Inv(d)
  {
  }

  /** What a change adds keeps every copy faithful and every event in its place. */
  lemma ChangeKeepsFaithful(d: Desktop, step: Step, view: View)
    requires Recorded(d) && d.registry.revision < EXACT && Faithful(d, view)
    ensures Faithful(Next(d, Change(step)), view)
  {
    hide Shows, Leads, Apply, WellFormed, EventAt, LastRevision, InOrder, Orders;
    var after := Next(d, Change(step));
    assert WellFormed(d.history[|d.history| - 1]);
    ChangeHasEvent(d.registry, step);
    var k := view.revision - d.base;
    assert after.history[k] == d.history[k];
    CancellingKeepsShows(view.runs, d.history[k], d.registry.cancelled, after.registry.cancelled);
  }

  lemma ChangeKeepsEventAt(d: Desktop, step: Step, i: nat)
    requires Recorded(d) && d.registry.revision < EXACT && i < |d.published|
    ensures EventAt(Next(d, Change(step)), i)
  {
    hide Leads, Apply, WellFormed, LastRevision;
    var after := Next(d, Change(step));
    assert WellFormed(d.history[|d.history| - 1]);
    ChangeHasEvent(d.registry, step);
    assert EventAt(d, i);
    assert after.published[..i] == d.published[..i];
    if Counted(d.published[i]) {
      var k := d.published[i].revision - d.base;
      assert after.history[k - 1] == d.history[k - 1] && after.history[k] == d.history[k];
      CancellingKeepsLeads(d.history[k - 1], d.published[i], d.history[k], d.registry.cancelled,
            after.registry.cancelled);
    }
  }

  lemma ChangeKeepsRecorded(d: Desktop, step: Step)
    requires Recorded(d) && d.registry.revision < EXACT
    ensures Recorded(Next(d, Change(step)))
  {
    hide Leads, Apply, WellFormed, EventAt, LastRevision;
    var after := Next(d, Change(step));
    var (registry, event) := Apply(d.registry, step);
    assert WellFormed(d.history[|d.history| - 1]);
    ChangeHasEvent(d.registry, step);
    forall i | 0 <= i < |after.published| ensures EventAt(after, i) {
      if i < |d.published| {
        ChangeKeepsEventAt(d, step, i);
      } else {
        NewEventAt(d, step);
      }
    }
    ChangeMovesLastRevision(d, step);
  }

  lemma ChangeMovesLastRevision(d: Desktop, step: Step)
    requires Recorded(d) && d.registry.revision < EXACT
    ensures LastRevision(d.base, Next(d, Change(step)).published) == Next(d, Change(step)).registry.revision
  {
    hide Leads, Apply, WellFormed, EventAt;
    var after := Next(d, Change(step));
    var (registry, event) := Apply(d.registry, step);
    assert WellFormed(d.history[|d.history| - 1]);
    ChangeHasEvent(d.registry, step);
    if after.published != d.published {
      assert after.published[..|d.published|] == d.published;
    }
  }

  lemma NewEventAt(d: Desktop, step: Step)
    requires Recorded(d) && d.registry.revision < EXACT && Apply(d.registry, step).1.Some?
    ensures EventAt(Next(d, Change(step)), |d.published|)
  {
    hide Leads, Apply, WellFormed, LastRevision;
    var after := Next(d, Change(step));
    var (registry, event) := Apply(d.registry, step);
    assert WellFormed(d.history[|d.history| - 1]);
    ChangeHasEvent(d.registry, step);
    assert after.published[..|d.published|] == d.published;
    assert after.published[|d.published|] == event.value;
  }

  lemma ChangeKeepsInv(d: Desktop, step: Step)
    requires Inv(d) && d.registry.revision < EXACT
    ensures Inv(Next(d, Change(step)))
  {
    hide Recorded, Faithful, Apply;
    var after := Next(d, Change(step));
    ChangeKeepsRecorded(d, step);
    assert after.published[..d.delivered] == d.published[..d.delivered];
    if d.window.Some? {
      ChangeKeepsFaithful(d, step, d.window.value);
    }
    forall view | view in after.flying ensures Faithful(after, view) {
      ChangeKeepsFaithful(d, step, view);
    }
  }

  /** Moves of the window and of copies leave what was recorded alone. */
  lemma RecordedElsewhere(d: Desktop, after: Desktop)
    requires Recorded(d)
    requires after == d.(window := after.window, queued := after.queued, delivered := after.delivered,
                         flying := after.flying)
    ensures Recorded(after)
    ensures forall view :: Faithful(after, view) <==> Faithful(d, view)
  {
    forall i | 0 <= i < |after.published| ensures EventAt(after, i) {
      assert EventAt(d, i);
    }
  }

  lemma AskIsFaithful(d: Desktop, snapshot: Snapshot)
    requires Recorded(d) && IsNow(d.registry, snapshot)
    ensures Faithful(d, Received(snapshot))
  {
    hide Shows, Orders, Read, EventAt;
    ReadsExactly(snapshot.revision);
    SnapshotIsDistinct(snapshot.runs, d.registry.runs, d.registry.cancelled);
  }

  lemma AskKeepsInv(d: Desktop, snapshot: Snapshot)
    requires Inv(d) && Enabled(d, Ask(snapshot))
    ensures Inv(Next(d, Ask(snapshot)))
  {
    hide Recorded, Faithful, LastRevision, Received;
    AskIsFaithful(d, snapshot);
    RecordedElsewhere(d, Next(d, Ask(snapshot)));
  }

  lemma ArriveKeepsInv(d: Desktop, view: View)
    requires Inv(d) && view in d.flying
    ensures Inv(Next(d, Arrive(view)))
  {
    var after := Next(d, Arrive(view));
    hide Recorded, Faithful, ApplyEvents;
    RecordedElsewhere(d, after);
    assert Faithful(d, view);
    if d.window.None? {
      DeliverQueued(d, view, d.delivered);
    }
  }

  lemma DeliverKeepsInv(d: Desktop)
    requires Inv(d) && d.delivered < |d.published|
    ensures Inv(Next(d, Deliver))
  {
    var after := Next(d, Deliver);
    hide Recorded, Faithful, ApplyEvent;
    RecordedElsewhere(d, after);
    if d.window.Some? {
      DeliverOne(d, d.window.value, d.delivered);
    } else {
      assert d.published[..d.delivered + 1] == d.published[..d.delivered] + [d.published[d.delivered]];
    }
  }

  lemma NextKeepsInv(d: Desktop, move: Move)
    requires Inv(d) && Enabled(d, move)
    ensures Inv(Next(d, move))
  {
    hide Inv, Next;
    match move
    case Change(step) => ChangeKeepsInv(d, step);
    case Ask(snapshot) => AskKeepsInv(d, snapshot);
    case Arrive(view) => ArriveKeepsInv(d, view);
    case Deliver => DeliverKeepsInv(d);
  }

  lemma {:induction false} RunKeepsInv(states: seq<Desktop>, moves: seq<Move>, i: nat)
    requires IsRun(states, moves) && i < |states|
    ensures Inv(states[i])
  {
    hide Inv, Next, Begins;
    if i == 0 {
      BeginsInv(states[0]);
    } else {
      RunKeepsInv(states, moves, i - 1);
      assert Enabled(states[i - 1], moves[i - 1]) && states[i] == Next(states[i - 1], moves[i - 1]);
      NextKeepsInv(states[i - 1], moves[i - 1]);
    }
  }

  // ---- what follows ----------------------------------------------------------------

  /** However changes, events and snapshots interleave, and however late a snapshot arrives, the window
      shows exactly the runs the registry had at the window's revision, each once, in the registry's order
      or, once it has sorted them, in its own. */
  lemma WindowShowsItsRevision(states: seq<Desktop>, moves: seq<Move>, i: nat)
    requires IsRun(states, moves) && i < |states| && states[i].window.Some?
    ensures var d := states[i]; var view := d.window.value;
            && |d.history| == d.registry.revision - d.base + 1
            && d.base <= view.revision <= d.registry.revision
            && Shows(view.runs, d.history[view.revision - d.base], d.registry.cancelled)
            && (Orders(d.less) ==> InOrder(d.less, view))
  {
    RunKeepsInv(states, moves, i);
  }

  /** Once every event has been delivered the window shows the registry's current runs. */
  lemma CaughtUpWindowIsCurrent(states: seq<Desktop>, moves: seq<Move>, i: nat)
    requires IsRun(states, moves) && i < |states| && states[i].window.Some?
    requires states[i].delivered == |states[i].published|
    ensures var d := states[i]; var view := d.window.value;
            view.revision == d.registry.revision && Shows(view.runs, d.registry.runs, d.registry.cancelled)
  {
    RunKeepsInv(states, moves, i);
    var d := states[i];
    assert d.published[..d.delivered] == d.published;
  }

  /** No token of an active run was cancelled behind the registry's back. */
  ghost predicate OnlyRequested(r: Registry) {
    forall id | id in r.runs && r.runs[id].token in r.cancelled :: r.runs[id].run.requested
  }

  /** A faithful copy shows the runs as a snapshot does whenever every cancelled token was cancelled
      through the registry. */
  lemma CopyIsExact(runs: seq<Run>, r: Registry)
    requires Shows(runs, r.runs, r.cancelled) && OnlyRequested(r)
    ensures forall run | run in runs :: run.id in r.runs && run == Shown(r.runs[run.id], r.cancelled)
    ensures forall id | id in r.runs :: Lists(runs, id)
  {
  }

  /** Snapshot plus events is the later snapshot: the caught-up window lists the very runs that `snapshot`
      would return now. It lists them in the same order exactly when it has not sorted them since they came
      in a snapshot, or its order and the registry's rank runs that started together alike. */
  lemma SnapshotPlusEventsIsSnapshot(states: seq<Desktop>, moves: seq<Move>, i: nat, now: Snapshot)
    requires IsRun(states, moves) && i < |states| && states[i].window.Some?
    requires states[i].delivered == |states[i].published| && OnlyRequested(states[i].registry)
    requires Enabled(states[i], Ask(now))
    ensures var view := states[i].window.value;
            && view.revision == now.revision && multiset(view.runs) == multiset(now.runs)
            && (Orders(states[i].less) ==>
                  (view.runs == now.runs <==> !view.resorted || SameOrder(states[i].less, now.runs)))
  {
    hide IsRun, Orders, SameOrder, InOrder;
    RunKeepsInv(states, moves, i);
    CaughtUpWindowIsCurrent(states, moves, i);
    var d := states[i];
    CaughtUpIsSnapshot(d, d.window.value, now);
  }

  lemma CaughtUpIsSnapshot(d: Desktop, view: View, now: Snapshot)
    requires Recorded(d) && Faithful(d, view) && view.revision == d.registry.revision
    requires OnlyRequested(d.registry) && IsNow(d.registry, now)
    ensures multiset(view.runs) == multiset(now.runs)
    ensures Orders(d.less) ==> (view.runs == now.runs <==> !view.resorted || SameOrder(d.less, now.runs))
  {
    hide Orders, SameOrder, WellFormed, Shown, EventAt, Agrees, Sorted, Lists, OnlyRequested, LastRevision;
    var r := d.registry;
    CopyIsExact(view.runs, r);
    SameMembers(view.runs, now.runs, r.runs, r.cancelled);
    SameMembers(now.runs, view.runs, r.runs, r.cancelled);
    SnapshotIsDistinct(now.runs, r.runs, r.cancelled);
    SameCounts(view.runs, now.runs);
    if Orders(d.less) {
      if view.resorted {
        ResortedIff(d.less, view.runs, now.runs);
      } else {
        TextOrders();
        SortedUnique(TextLess, view.runs, now.runs);
      }
    }
  }

  lemma SameCounts(a: seq<Run>, b: seq<Run>)
    requires Distinct(a) && Distinct(b) && forall run :: run in a <==> run in b
    ensures multiset(a) == multiset(b)
  {
    forall run ensures multiset(a)[run] == multiset(b)[run] {
      CountOnce(a, run);
      CountOnce(b, run);
    }
  }

  lemma {:induction false} CountOnce(runs: seq<Run>, run: Run)
    requires Distinct(runs)
    ensures multiset(runs)[run] == if run in runs then 1 else 0
  {
    if runs != [] {
      CountOnce(runs[1..], run);
      assert runs == [runs[0]] + runs[1..];
    }
  }

  // ---- rows that swap --------------------------------------------------------------

  const FIRST: RunId := "s:n-1:5:0"
  const TENTH: RunId := "s:n-10:5:1"

  lemma TextLessUnfolds(a: string, b: string)
    ensures a != [] && b != [] && a[0] == b[0] ==> (TextLess(a, b) <==> TextLess(a[1..], b[1..]))
  {
  }

  lemma {:induction false} SamePrefix(prefix: string, a: string, b: string)
    ensures TextLess(prefix + a, prefix + b) <==> TextLess(a, b)
  {
    hide TextLess;
    if prefix == [] {
      assert prefix + a == a && prefix + b == b;
    } else {
      SamePrefix(prefix[1..], a, b);
      TextLessUnfolds(prefix + a, prefix + b);
      assert (prefix + a)[1..] == prefix[1..] + a && (prefix + b)[1..] == prefix[1..] + b;
    }
  }

  /** In bytes a digit comes before a colon. */
  lemma TenthIsFirst()
    ensures TextLess(TENTH, FIRST)
  {
    SamePrefix("s:n-1", "0:5:1", ":5:0");
    assert TENTH == "s:n-1" + "0:5:1" && FIRST == "s:n-1" + ":5:0";
  }

  function RunOf(id: RunId): Run {
    Run(id, "s", "n", 5, [], 0, false)
  }

  function StartOf(id: RunId, token: Token): Step {
    StartStep(id, "s", "n", 5, token)
  }

  /** What a snapshot says after both runs have started. */
  function BothRuns(): Snapshot {
    Snapshot(2, [RunOf(TENTH), RunOf(FIRST)])
  }

  function Listening(less: IdOrder): Desktop {
    Desktop(less, Registry(0, map[], {}), 0, [map[]], [], 0, [], {}, None)
  }

  function SwapMoves(): seq<Move> {
    [Ask(Snapshot(0, [])), Arrive(View(0, [], false)), Change(StartOf(FIRST, 1)), Deliver,
     Change(StartOf(TENTH, 2)), Deliver]
  }

  /** The window has heard of everything and shows this registry. */
  ghost predicate UpToDate(d: Desktop, r: Registry) {
    && d.registry == r && d.window.Some? && d.window.value.revision == r.revision
    && d.delivered == |d.published|
  }

  lemma FirstSnapshot(less: IdOrder)
    ensures var d, snapshot, view := Listening(less), Snapshot(0, []), View(0, [], false);
            && Begins(d) && Enabled(d, Ask(snapshot)) && Enabled(Next(d, Ask(snapshot)), Arrive(view))
            && UpToDate(Next(Next(d, Ask(snapshot)), Arrive(view)), Registry(0, map[], {}))
            && Next(Next(d, Ask(snapshot)), Arrive(view)).less == less
  {
    ReadsExactly(0);
    hide Read;
  }

  lemma StartAndDeliver(d: Desktop, r: Registry, id: RunId, token: Token)
    requires UpToDate(d, r) && r.cancelled == {} && r.revision < EXACT
    ensures var change := Change(StartOf(id, token)); var next := Next(d, change);
            && Enabled(d, change) && next.delivered < |next.published| && Enabled(next, Deliver)
            && Next(next, Deliver).less == d.less
            && UpToDate(Next(next, Deliver), Registry(r.revision + 1, r.runs[id := Entry(RunOf(id), token)], {}))
            && Next(next, Deliver).window.value.resorted
  {
    hide Read, SortRuns, Without;
    ReadsExactly(r.revision + 1);
  }

  lemma BothAreSnapshot(r: Registry)
    requires r == Registry(2, map[FIRST := Entry(RunOf(FIRST), 1), TENTH := Entry(RunOf(TENTH), 2)], {})
    ensures IsNow(r, BothRuns()) && OnlyRequested(r)
  {
    TenthIsFirst();
    hide TextLess;
    var runs := BothRuns().runs;
    assert runs[0].id == TENTH && runs[1].id == FIRST;
  }

  lemma BothRankedApart(less: IdOrder)
    requires Orders(less) && less(FIRST, TENTH)
    ensures !SameOrder(less, BothRuns().runs)
  {
    TenthIsFirst();
    TextLessTotal(FIRST, TENTH);
    hide TextLess;
    var runs := BothRuns().runs;
    assert runs[0] in runs && runs[1] in runs;
  }

  /** "Snapshot plus events is the later snapshot, order included" fails in this run for a window that
      ranks a colon before a digit: both runs start together and their rows swap at the next snapshot. */
  lemma RowsSwap(less: IdOrder) returns (states: seq<Desktop>)
    requires Orders(less) && less(FIRST, TENTH)
    ensures IsRun(states, SwapMoves()) && states[0] == Listening(less)
    ensures var d := states[|states| - 1];
            && d.window.Some? && d.delivered == |d.published| && OnlyRequested(d.registry)
            && Enabled(d, Ask(BothRuns())) && multiset(d.window.value.runs) == multiset(BothRuns().runs)
            && d.window.value.runs != BothRuns().runs
  {
    hide Orders, Next, Enabled, Begins, OnlyRequested, SameOrder, BothRuns, Listening, StartOf, RunOf, IsNow, TextLess;
    FirstSnapshot(less);
    var moves := SwapMoves();
    var d0 := Listening(less);
    var d1 := Next(d0, moves[0]);
    var d2 := Next(d1, moves[1]);
    StartAndDeliver(d2, Registry(0, map[], {}), FIRST, 1);
    var d3 := Next(d2, moves[2]);
    var d4 := Next(d3, moves[3]);
    StartAndDeliver(d4, d4.registry, TENTH, 2);
    var d5 := Next(d4, moves[4]);
    var d6 := Next(d5, moves[5]);
    states := [d0, d1, d2, d3, d4, d5, d6];
    BothAreSnapshot(d6.registry);
    AskNow(d6, BothRuns());
    BothRankedApart(less);
    assert d6.less == less;
    SnapshotPlusEventsIsSnapshot(states, moves, 6, BothRuns());
  }

  lemma AskNow(d: Desktop, snapshot: Snapshot)
    requires IsNow(d.registry, snapshot)
    ensures Enabled(d, Ask(snapshot))
  {
    hide IsNow;
  }

  /** Published revisions of changes are consecutive, and a record notice repeats the latest one. */
  lemma RevisionsAreConsecutive(states: seq<Desktop>, moves: seq<Move>, i: nat, k: nat)
    requires IsRun(states, moves) && i < |states| && k < |states[i].published| && Counted(states[i].published[k])
    ensures states[i].published[k].revision == LastRevision(states[i].base, states[i].published[..k]) + 1
    ensures LastRevision(states[i].base, states[i].published) == states[i].registry.revision
  {
    RunKeepsInv(states, moves, i);
    assert EventAt(states[i], k);
  }

  // ---- revisions the window cannot tell apart --------------------------------------

  /** The step changes something a faithful copy must show. */
  ghost predicate Visible(r: Registry, step: Step) {
    match step
    case StartStep(id, _, _, _, _) => id !in r.runs
    case LogStep(id, _) => id in r.runs && r.runs[id].run.discarded < U64_MAX
    case CancelStep(id) => id in r.runs && !r.runs[id].run.requested && r.runs[id].token !in r.cancelled
    case FinishStep(id) => id in r.runs
    case _ => false
  }

  /** Replaying the event of a visible change gives the state after it exactly when the window reads the
      next revision as a later one; otherwise the event is ignored. */
  lemma ReplaysIffReadLater(less: IdOrder, view: View, r: Registry, step: Step)
    requires WellFormed(r.runs) && Shows(view.runs, r.runs, r.cancelled)
    requires view.revision == Read(r.revision) && Visible(r, step)
    ensures var (after, event) := Apply(r, step);
            && event.Some?
            && (Shows(ApplyEvent(less, view, event.value).runs, after.runs, after.cancelled)
                <==> Read(SaturatingIncrement(r.revision)) > Read(r.revision))
  {
    var (after, event) := Apply(r, step);
    ChangeHasEvent(r, step);
    if Read(SaturatingIncrement(r.revision)) > Read(r.revision) {
      hide Leads, Shows, ApplyEvent, Read;
      CancellingKeepsShows(view.runs, r.runs, r.cancelled, after.cancelled);
      EventFollowsChange(less, view, r.runs, event.value, after.runs, after.cancelled);
    } else {
      OldCopyIsWrong(view, r, step);
    }
  }

  lemma OldCopyIsWrong(view: View, r: Registry, step: Step)
    requires WellFormed(r.runs) && Shows(view.runs, r.runs, r.cancelled) && Visible(r, step)
    ensures var after := Apply(r, step).0; !Shows(view.runs, after.runs, after.cancelled)
  {
    var after := Apply(r, step).0;
    var id := step.id;
    ListsMember(view.runs, id);
    if step.StartStep? {
      assert id in after.runs;
    } else {
      var run :| run in view.runs && run.id == id;
      assert Agrees(run, r.runs[id], r.cancelled);
      assert step.FinishStep? ==> id !in after.runs;
      assert step.LogStep? ==> after.runs[id].run != r.runs[id].run.(requested := after.runs[id].run.requested);
    }
  }

  /** Below 2^53 every next revision is later; at 2^53 it reads as the same, and so at the last one. */
  lemma WhereReadRepeats(n: nat)
    ensures n < EXACT ==> Read(n + 1) > Read(n)
    ensures Read(EXACT + 1) == Read(EXACT) == EXACT
    ensures Read(SaturatingIncrement(U64_MAX)) == Read(U64_MAX)
  {
    ReadsExactly(EXACT);
    assert Gap(EXACT + 1) == 2 && (EXACT + 1) / 2 == EXACT / 2 && (EXACT + 1) % 2 == 1;
    if n < EXACT {
      ReadsExactly(n);
      ReadsExactly(n + 1);
    }
  }

  function AfterSteps(steps: seq<Step>): Registry {
    if steps == [] then Registry(0, map[], {})
    else Apply(AfterSteps(steps[..|steps| - 1]), steps[|steps| - 1]).0
  }

  function Restarts(n: nat, start: Step): seq<Step> {
    seq(n, _ => start)
  }

  /** Starting a run n times reaches revision n, and only that run is active. */
  lemma {:induction false} RestartsReachRevision(n: nat, start: Step)
    requires start.StartStep? && n <= U64_MAX
    ensures var r := AfterSteps(Restarts(n, start)); r.revision == n && r.cancelled == {}
    ensures n > 0 ==>
              var entry := Entry(Run(start.id, start.script, start.trigger, start.now, [], 0, false), start.token);
              AfterSteps(Restarts(n, start)).runs == map[start.id := entry]
  {
    if n > 0 {
      assert Restarts(n, start)[..n - 1] == Restarts(n - 1, start);
      RestartsReachRevision(n - 1, start);
    }
  }

  /** So "replaying every event keeps the copy current" fails in this run: the window never hears that
      the run has finished. */
  lemma FinishIsIgnored(less: IdOrder, id: RunId, script: string, trigger: string, now: nat, token: Token)
    ensures var r := AfterSteps(Restarts(EXACT, StartStep(id, script, trigger, now, token)));
            var (after, event) := Apply(r, FinishStep(id));
            var view := View(EXACT, [Run(id, script, trigger, now, [], 0, false)], false);
            && r.revision == EXACT && Shows(view.runs, r.runs, r.cancelled)
            && after.runs == map[] && event.Some? && ApplyEvent(less, view, event.value) == view
  {
    RestartsReachRevision(EXACT, StartStep(id, script, trigger, now, token));
    WhereReadRepeats(EXACT);
    hide Read, AfterSteps, Restarts;
    var runs := [Run(id, script, trigger, now, [], 0, false)];
    assert runs[0].id == id;
  }

  // ---- live logs -------------------------------------------------------------------

  /** Everything a run has logged since its latest start. */
  function Emitted(steps: seq<Step>, id: RunId): seq<Log> {
    if steps == [] then []
    else
      var before := Emitted(steps[..|steps| - 1], id);
      match steps[|steps| - 1]
      case StartStep(other, _, _, _, _) => if other == id then [] else before
      case LogStep(other, log) => if other == id then before + [log] else before
      case _ => before
  }

  ghost predicate KeepsNewest(run: Run, emitted: seq<Log>) {
    && run.logs == Newest(emitted)
    && (|emitted| <= U64_MAX ==> run.discarded + |run.logs| == |emitted|)
  }

  lemma LogKeepsNewest(run: Run, emitted: seq<Log>, log: Log)
    requires KeepsNewest(run, emitted)
    ensures KeepsNewest(WithLog(run, log), emitted + [log])
  {
    var kept := Newest(emitted + [log]);
    assert kept == (emitted + [log])[|emitted| + 1 - |kept|..];
    assert WithLog(run, log).logs == kept;
  }

  /** An active run keeps the newest of its logs and counts the others. */
  lemma {:induction false} LogsAreTheNewest(steps: seq<Step>, id: RunId)
    requires id in AfterSteps(steps).runs
    ensures KeepsNewest(AfterSteps(steps).runs[id].run, Emitted(steps, id))
  {
    if steps != [] {
      var init := steps[..|steps| - 1];
      if id in AfterSteps(init).runs {
        LogsAreTheNewest(init, id);
        var step := steps[|steps| - 1];
        if step.StartStep? && step.id == id {
          assert KeepsNewest(AfterSteps(steps).runs[id].run, []);
        } else if step.LogStep? && step.id == id {
          hide KeepsNewest, WithLog;
          LogKeepsNewest(AfterSteps(init).runs[id].run, Emitted(init, id), step.log);
        } else {
          hide KeepsNewest, WithLog;
          SameLogging(AfterSteps(init), step, id, Emitted(init, id));
        }
      } else {
        assert steps[|steps| - 1].StartStep? && steps[|steps| - 1].id == id;
      }
    }
  }

  lemma SameLogging(r: Registry, step: Step, id: RunId, emitted: seq<Log>)
    requires id in r.runs && id in Apply(r, step).0.runs && KeepsNewest(r.runs[id].run, emitted)
    requires !((step.StartStep? || step.LogStep?) && step.id == id)
    ensures KeepsNewest(Apply(r, step).0.runs[id].run, emitted)
  {
  }

  /** A requested cancellation is never taken back while the run is active. */
  lemma RequestIsKept(r: Registry, step: Step, id: RunId)
    requires id in r.runs && r.runs[id].run.requested && !(step.StartStep? && step.id == id)
    ensures var after := Apply(r, step).0; id in after.runs ==> after.runs[id].run.requested
  {
  }

  /** A snapshot replaces what the window shows unless it is older. */
  lemma OnlyOlderSnapshotsAreIgnored(d: Desktop, view: View)
    requires d.window.Some?
    ensures var older := view.revision < d.window.value.revision;
            Next(d, Arrive(view)) == d.(window := if older then d.window else Some(view))
  {
  }

  // ---- what a snapshot says of the steps so far -------------------------------------

  /** The run `id` began with step `s` and has gone on since. */
  ghost predicate RunsSince(steps: seq<Step>, id: RunId, s: nat) {
    && s < |steps| && steps[s].StartStep? && steps[s].id == id
    && forall j :: s < j < |steps| ==> !(steps[j].StartStep? && steps[j].id == id) && steps[j] != FinishStep(id)
  }

  /** A stop of the run was asked after step `s`. */
  ghost predicate StopAsked(steps: seq<Step>, id: RunId, s: nat) {
    exists j :: s < j < |steps| && steps[j] == CancelStep(id)
  }

  lemma {:induction false} CancelledTokens(steps: seq<Step>, token: Token)
    ensures token in AfterSteps(steps).cancelled <==> TokenStep(token) in steps
  {
    if steps != [] {
      var init, last := steps[..|steps| - 1], steps[|steps| - 1];
      CancelledTokens(init, token);
      assert steps == init + [last];
      StepCancels(AfterSteps(init), last);
      hide Apply;
    }
  }

  lemma StepCancels(r: Registry, step: Step)
    ensures Apply(r, step).0.cancelled == r.cancelled + if step.TokenStep? then {step.token} else {}
  {
  }

  /** What the registry holds of a run that began with step `s`. */
  ghost predicate HeldSince(r: Registry, steps: seq<Step>, id: RunId, s: nat)
    requires RunsSince(steps, id, s)
  {
    && id in r.runs && r.runs[id].token == steps[s].token
    && r.runs[id].run.(logs := [], discarded := 0, requested := false)
       == Run(id, steps[s].script, steps[s].trigger, steps[s].now, [], 0, false)
    && (StopAsked(steps, id, s) ==> r.runs[id].run.requested)
    && (r.runs[id].run.requested ==> StopAsked(steps, id, s) || steps[s].token in r.cancelled)
  }

  lemma StepKeepsHeld(steps: seq<Step>, last: Step, id: RunId, s: nat)
    requires RunsSince(steps + [last], id, s) && s < |steps|
    requires RunsSince(steps, id, s) && HeldSince(AfterSteps(steps), steps, id, s)
    ensures HeldSince(Apply(AfterSteps(steps), last).0, steps + [last], id, s)
  {
    hide AfterSteps, RunsSince, Newest;
    var more := steps + [last];
    assert StopAsked(more, id, s) <==> StopAsked(steps, id, s) || last == CancelStep(id) by {
      if j :| s < j < |steps| && steps[j] == CancelStep(id) {
        assert more[j] == CancelStep(id);
      }
      if last == CancelStep(id) {
        assert more[|steps|] == last;
      }
    }
    assert more[s] == steps[s];
    LastGoesOn(steps, last, id, s);
    hide StopAsked;
  }

  lemma LastGoesOn(steps: seq<Step>, last: Step, id: RunId, s: nat)
    requires RunsSince(steps + [last], id, s) && s < |steps|
    ensures RunsSince(steps, id, s) && !(last.StartStep? && last.id == id) && last != FinishStep(id)
  {
    var more := steps + [last];
    assert more[|steps|] == last;
    forall j | 0 <= j < |steps| ensures more[j] == steps[j] {
    }
  }

  lemma {:induction false} HeldAsStarted(steps: seq<Step>, id: RunId, s: nat)
    requires RunsSince(steps, id, s)
    ensures HeldSince(AfterSteps(steps), steps, id, s)
  {
    var init, last := steps[..|steps| - 1], steps[|steps| - 1];
    assert steps == init + [last];
    if s < |init| {
      LastGoesOn(init, last, id, s);
      HeldAsStarted(init, id, s);
      StepKeepsHeld(init, last, id, s);
    } else {
      assert !StopAsked(steps, id, s);
    }
  }

  lemma {:induction false} ActiveWasStarted(steps: seq<Step>, id: RunId) returns (s: nat)
    requires id in AfterSteps(steps).runs
    ensures RunsSince(steps, id, s)
  {
    var init, last := steps[..|steps| - 1], steps[|steps| - 1];
    assert steps == init + [last];
    if last.StartStep? && last.id == id {
      s := |init|;
    } else {
      assert id in AfterSteps(init).runs && last != FinishStep(id);
      s := ActiveWasStarted(init, id);
    }
  }

  /** What a snapshot shows of one run, for the step it began with. */
  ghost predicate ShownSince(run: Run, steps: seq<Step>, s: nat)
    requires RunsSince(steps, run.id, s)
  {
    && run.script == steps[s].script && run.trigger == steps[s].trigger && run.startedAt == steps[s].now
    && (run.requested <==> StopAsked(steps, run.id, s) || TokenStep(steps[s].token) in steps)
  }

  /** A snapshot lists exactly the runs that began and have not finished, each as it was started; and it
      shows a run as stopping exactly when a stop was asked for since it began or its token was ever
      cancelled, by whomever. */
  lemma SnapshotShowsCancellation(steps: seq<Step>, runs: seq<Run>)
    requires IsSnapshot(runs, AfterSteps(steps).runs, AfterSteps(steps).cancelled)
    ensures forall id :: Lists(runs, id) <==> exists s :: RunsSince(steps, id, s)
    ensures forall run, s: nat :: run in runs && RunsSince(steps, run.id, s) ==> ShownSince(run, steps, s)
  {
    var r := AfterSteps(steps);
    forall id ensures Lists(runs, id) <==> exists s :: RunsSince(steps, id, s) {
      ListsMember(runs, id);
      if id in r.runs {
        var s := ActiveWasStarted(steps, id);
      }
      if s :| RunsSince(steps, id, s) {
        HeldAsStarted(steps, id, s);
      }
    }
    forall run, s: nat | run in runs && RunsSince(steps, run.id, s) ensures ShownSince(run, steps, s) {
      HeldAsStarted(steps, run.id, s);
      CancelledTokens(steps, steps[s].token);
      hide RunsSince, StopAsked, AfterSteps;
    }
  }
}
