/** The registry object: its locked state, its stop methods and its run observer methods. */
module ActiveRuns {
  import StableSort
  import opened TextOrder
  import opened Wrappers
  import opened ActiveRunModel
  import opened ActiveRunFeed
  import Model = ActiveRunModel

  // ---- many requests under one lock ------------------------------------------------

  /** The ids in increasing order, as the registry's ordered map lists them. */
  ghost predicate Ascending(ids: seq<RunId>) {
    forall i, j :: 0 <= i < j < |ids| ==> TextLess(ids[i], ids[j])
  }

  ghost predicate Enumerates(ids: seq<RunId>, selected: set<RunId>) {
    Ascending(ids) && forall id :: id in ids <==> id in selected
  }

  /** The requests of `ids` in turn, with their events. */
  function RequestAll(r: Registry, ids: seq<RunId>): (Registry, seq<Event>) {
    if ids == [] then (r, [])
    else
      var (before, events) := RequestAll(r, ids[..|ids| - 1]);
      var (after, event) := RequestCancel(before, ids[|ids| - 1]);
      (after, if event.Some? then events + [event.value] else events)
  }

  function RevisionAfter(revision: nat, changes: nat): nat {
    if changes == 0 then revision else SaturatingIncrement(RevisionAfter(revision, changes - 1))
  }

  /** Exactly these runs are flagged and nothing else about the runs has changed. */
  ghost predicate FlagsExactly(before: Runs, ids: seq<RunId>, after: Runs) {
    && after.Keys == before.Keys
    && forall id | id in before :: after[id] == if id in ids then Flagged(before[id]) else before[id]
  }

  /** One event for each of these runs, in order, with consecutive revisions. */
  ghost predicate EventsOf(revision: nat, ids: seq<RunId>, events: seq<Event>) {
    && |events| == |ids|
    && forall k | 0 <= k < |ids| :: events[k] == CancellationRequested(RevisionAfter(revision, k + 1), ids[k])
  }

  /** Requests for runs not yet asked flag exactly those runs and publish one event each. */
  lemma {:induction false} RequestAllMeans(r: Registry, ids: seq<RunId>)
    requires Ascending(ids) && forall id | id in ids :: id in r.runs && !r.runs[id].run.requested
    ensures var (after, events) := RequestAll(r, ids);
            && after == Registry(RevisionAfter(r.revision, |ids|), after.runs, r.cancelled)
            && FlagsExactly(r.runs, ids, after.runs)
            && EventsOf(r.revision, ids, events)
  {
    if ids == [] {
    } else {
      hide RequestAll, RevisionAfter, EventsOf, FlagsExactly, TextLess;
      var init, last := ids[..|ids| - 1], ids[|ids| - 1];
      assert ids == init + [last];
      RequestAllMeans(r, init);
      NotBefore(ids);
      hide Ascending;
      var (before, events) := RequestAll(r, init);
      assert last in before.runs && !before.runs[last].run.requested by {
        FlagsLeave(r.runs, init, before.runs, last);
      }
      RevisionOneMore(r.revision, |init|);
      RequestOneMore(r, init, last);
      FlagsOneMore(r.runs, init, before.runs, last);
      EventsOneMore(r.revision, init, events, last);
    }
  }

  lemma FlagsLeave(before: Runs, ids: seq<RunId>, after: Runs, id: RunId)
    requires FlagsExactly(before, ids, after) && id in before && id !in ids
    ensures id in after && after[id] == before[id]
  {
  }

  lemma FlagsOneMore(before: Runs, ids: seq<RunId>, after: Runs, id: RunId)
    requires FlagsExactly(before, ids, after) && id in before && id !in ids
    ensures FlagsExactly(before, ids + [id], after[id := Flagged(before[id])])
  {
  }

  lemma EventsOneMore(revision: nat, ids: seq<RunId>, events: seq<Event>, id: RunId)
    requires EventsOf(revision, ids, events)
    ensures EventsOf(revision, ids + [id],
                     events + [CancellationRequested(RevisionAfter(revision, |ids| + 1), id)])
  {
    hide RevisionAfter;
  }

  lemma RevisionOneMore(revision: nat, changes: nat)
    ensures RevisionAfter(revision, changes + 1) == SaturatingIncrement(RevisionAfter(revision, changes))
  {
  }

  lemma RequestOneMore(r: Registry, ids: seq<RunId>, id: RunId)
    requires id in RequestAll(r, ids).0.runs && !RequestAll(r, ids).0.runs[id].run.requested
    ensures var (before, events) := RequestAll(r, ids);
            var (after, event) := RequestCancel(before, id);
            event.Some? && RequestAll(r, ids + [id]) == (after, events + [event.value])
  {
    assert (ids + [id])[..|ids|] == ids;
  }

  ghost function TokensOf(runs: Runs, ids: set<RunId>): set<Token> {
    set id | id in ids && id in runs :: runs[id].token
  }

  /** The tokens of exactly these runs are cancelled, and the sink has seen their requests. */
  ghost predicate Stopped(before: Registry, ids: seq<RunId>, selected: set<RunId>, after: Registry,
                          published: seq<Event>, listening: bool, publishedBefore: seq<Event>) {
    var (requested, events) := RequestAll(before, ids);
    && Enumerates(ids, selected)
    && after == requested.(cancelled := before.cancelled + TokensOf(before.runs, selected))
    && published == Sent(listening, publishedBefore, events)
  }

  /** The runs of a script that were not yet asked to stop. */
  function OfScript(runs: Runs, script: string): set<RunId> {
    set id | id in runs && runs[id].run.script == script && !runs[id].run.requested
  }

  function OfTriggers(runs: Runs, script: string, triggers: set<string>): set<RunId> {
    set id | id in OfScript(runs, script) && runs[id].run.trigger in triggers
  }

  /** Exactly these runs have been asked, in this order: they are flagged and their tokens cancelled, nothing
      else is touched, and a listening sink got one event for each, at consecutive revisions. */
  ghost predicate AskedExactly(before: Registry, ids: seq<RunId>, after: Registry, published: seq<Event>,
                               listening: bool, publishedBefore: seq<Event>) {
    && after.runs.Keys == before.runs.Keys
    && (forall id | id in before.runs ::
          after.runs[id].run == before.runs[id].run.(requested := id in ids || before.runs[id].run.requested)
          && after.runs[id].token == before.runs[id].token)
    && (forall token :: token in after.cancelled <==>
          token in before.cancelled || exists id :: id in ids && id in before.runs && before.runs[id].token == token)
    && after.revision == RevisionAfter(before.revision, |ids|)
    && |published| == |publishedBefore| + (if listening then |ids| else 0) && publishedBefore <= published
    && forall k | |publishedBefore| <= k < |published| ::
         var n := k - |publishedBefore|;
         published[k] == CancellationRequested(RevisionAfter(before.revision, n + 1), ids[n])
  }

  lemma {:induction false} AscendingCount(ids: seq<RunId>, selected: set<RunId>)
    requires Enumerates(ids, selected)
    ensures |ids| == |selected|
  {
    hide TextLess;
    if ids == [] {
      assert selected == {};
    } else {
      var init, last := ids[..|ids| - 1], ids[|ids| - 1];
      NotBefore(ids);
      assert ids == init + [last];
      AscendingCount(init, selected - {last});
    }
  }

  lemma StoppedIsAsked(before: Registry, ids: seq<RunId>, selected: set<RunId>, after: Registry,
                       published: seq<Event>, listening: bool, publishedBefore: seq<Event>)
    requires Stopped(before, ids, selected, after, published, listening, publishedBefore)
    requires forall id | id in selected :: id in before.runs && !before.runs[id].run.requested
    ensures AskedExactly(before, ids, after, published, listening, publishedBefore)
    ensures |ids| == |selected|
  {
    hide RequestAll, RevisionAfter, Ascending;
    RequestAllMeans(before, ids);
    AscendingCount(ids, selected);
  }

  lemma NotBefore(ids: seq<RunId>)
    requires Ascending(ids) && ids != []
    ensures ids[|ids| - 1] !in ids[..|ids| - 1]
  {
    forall i | 0 <= i < |ids| - 1 ensures ids[i] != ids[|ids| - 1] {
      TextLessTotal(ids[i], ids[|ids| - 1]);
    }
  }

  lemma SentOneMore(listening: bool, published: seq<Event>, events: seq<Event>, event: Event)
    ensures Sent(listening, published, []) == published
    ensures Sent(listening, Sent(listening, published, events), [event]) == Sent(listening, published, events + [event])
  {
  }

  /** What the sink has seen after more events, if there is a sink. */
  function Sent(listening: bool, published: seq<Event>, events: seq<Event>): seq<Event> {
    if listening then published + events else published
  }

  /** A bulk stop that has still to ask `left`. */
  ghost predicate Stopping(before: Registry, selected: set<RunId>, left: set<RunId>, ids: seq<RunId>, now: Registry,
                           tokens: set<Token>) {
    && left <= selected
    && (forall id | id in selected :: id in before.runs && !before.runs[id].run.requested)
    && Enumerates(ids, selected - left)
    && (forall done, id | done in ids && id in left :: TextLess(done, id))
    && now == RequestAll(before, ids).0
    && tokens == TokensOf(before.runs, selected - left)
  }

  lemma StopOneMore(before: Registry, selected: set<RunId>, left: set<RunId>, ids: seq<RunId>, now: Registry,
                    tokens: set<Token>, id: RunId)
    requires Stopping(before, selected, left, ids, now, tokens) && Smallest(left, id)
    ensures id in now.runs && !now.runs[id].run.requested
    ensures Stopping(before, selected, left - {id}, ids + [id], RequestCancel(now, id).0, tokens + {now.runs[id].token})
    ensures RequestAll(before, ids + [id]).1 == RequestAll(before, ids).1 + [RequestCancel(now, id).1.value]
  {
    hide RequestAll, RequestCancel, TokensOf, EventsOf;
    StoppingSmallest(before, selected, left, ids, now, tokens, id);
    RequestOneMore(before, ids, id);
    assert selected - (left - {id}) == (selected - left) + {id};
    TokensOneMore(before.runs, selected - left, id);
  }

  /** The next run to ask is as it was before, and is none of those asked. */
  lemma StoppingSmallest(before: Registry, selected: set<RunId>, left: set<RunId>, ids: seq<RunId>, now: Registry,
                         tokens: set<Token>, id: RunId)
    requires Stopping(before, selected, left, ids, now, tokens) && Smallest(left, id)
    ensures id in before.runs && id in now.runs && now.runs[id] == before.runs[id] && !now.runs[id].run.requested
    ensures id !in ids && Enumerates(ids + [id], (selected - left) + {id})
    ensures forall done, other | done in ids + [id] && other in left - {id} :: TextLess(done, other)
  {
    hide RequestAll, TokensOf, EventsOf, TextLess;
    TextLessTotal(id, id);
    RequestAllMeans(before, ids);
  }

  lemma TokensOneMore(runs: Runs, ids: set<RunId>, id: RunId)
    requires id in runs
    ensures TokensOf(runs, ids + {id}) == TokensOf(runs, ids) + {runs[id].token}
  {
  }

  lemma NothingStopped(before: Registry, selected: set<RunId>)
    requires forall id | id in selected :: id in before.runs && !before.runs[id].run.requested
    ensures Stopping(before, selected, selected, [], before, {}) && RequestAll(before, []).1 == []
  {
    assert selected - selected == {};
  }

  lemma AllStopped(before: Registry, selected: set<RunId>, ids: seq<RunId>, now: Registry, tokens: set<Token>)
    requires WellFormed(before.runs) && Stopping(before, selected, {}, ids, now, tokens)
    ensures Enumerates(ids, selected) && now == RequestAll(before, ids).0 && now.cancelled == before.cancelled
    ensures tokens == TokensOf(before.runs, selected) && WellFormed(now.runs)
  {
    hide RequestAll, TokensOf, EventsOf;
    assert selected - {} == selected;
    RequestAllMeans(before, ids);
  }

  lemma EmptyIsSnapshot(runs: Runs, cancelled: set<Token>)
    ensures runs == map[] ==> IsSnapshot([], runs, cancelled)
  {
  }

  lemma SnapshotOneMore(shown: seq<Run>, runs: Runs, left: set<RunId>, id: RunId, cancelled: set<Token>)
    requires WellFormed(runs) && IsSnapshot(shown, runs - left, cancelled) && left <= runs.Keys && id in left
    ensures IsSnapshot(StableSort.Insert(Model.Shown(runs[id], cancelled), shown, Order(TextLess)),
           runs - (left - {id}), cancelled)
  {
    hide IsSnapshot, Order;
    InsertIsSnapshot(shown, runs - left, id, runs[id], cancelled);
    assert runs - (left - {id}) == (runs - left)[id := runs[id]];
  }

  class ActiveRunRegistry {
    var revision: nat
    var runs: Runs
    var cancelled: set<Token>
    var listening: bool
    var published: seq<Event>

    ghost function Contents(): Registry
      reads this
    {
      Registry(revision, runs, cancelled)
    }

    constructor ()
      ensures Contents() == AfterSteps([]) && published == [] && !listening && WellFormed(runs)
    {
      revision, runs, cancelled, listening, published := 0, map[], {}, false, [];
    }

    method ConnectEventSink()
      modifies this`listening
      ensures listening
    {
      listening := true;
    }

    method Publish(event: Event)
      modifies this`published
      ensures published == Sent(old(listening), old(published), [event])
    {
      if listening {
        published := published + [event];
      }
    }

    method NextRevision() returns (r: nat)
      modifies this`revision
      ensures r == revision == SaturatingIncrement(old(revision))
    {
      revision := SaturatingIncrement(revision);
      return revision;
    }

    /** Every active run once, by start time and then id. */
    method Snapshot() returns (r: Model.Snapshot)
      requires WellFormed(runs)
      ensures r.revision == revision && IsSnapshot(r.runs, runs, cancelled)
    {
      hide IsSnapshot, Order, TextLess;
      var left := runs.Keys;
      var shown: seq<Run> := [];
      EmptyIsSnapshot(runs - left, cancelled);
      while left != {}
        invariant left <= runs.Keys
        invariant IsSnapshot(shown, runs - left, cancelled)
        decreases left
      {
        SmallestExists(left);
        var id :| Smallest(left, id);
        var run := Shown(runs[id], cancelled);
        SnapshotOneMore(shown, runs, left, id, cancelled);
        shown := StableSort.Insert(run, shown, Order(TextLess));
        left := left - {id};
      }
      assert runs - left == runs;
      return Model.Snapshot(revision, shown);
    }

    method StopRun(id: RunId) returns (active: bool)
      requires WellFormed(runs)
      modifies this`revision, this`runs, this`cancelled, this`published
      ensures WellFormed(runs)
      ensures active <==> id in old(runs)
      ensures var (after, event) := RequestCancel(old(Contents()), id);
              && Contents() == (if event.Some? then after.(cancelled := after.cancelled + {old(runs[id].token)})
                  else after)
              && published == Sent(old(listening), old(published), if event.Some? then [event.value] else [])
    {
      if id !in runs {
        return false;
      }
      if runs[id].run.requested {
        return true;
      }
      var token := runs[id].token;
      runs := runs[id := Flagged(runs[id])];
      var next := NextRevision();
      Publish(CancellationRequested(next, id));
      cancelled := cancelled + {token};
      return true;
    }

    /** The loop both bulk stops run: requests in id order, then the tokens once the lock is free. */
    method StopSelected(selected: set<RunId>) returns (ghost ids: seq<RunId>)
      requires forall id | id in selected :: id in runs && !runs[id].run.requested
      requires WellFormed(runs)
      modifies this`revision, this`runs, this`cancelled, this`published
      ensures WellFormed(runs)
      ensures Stopped(old(Contents()), ids, selected, Contents(), published, old(listening), old(published))
    {
      hide RequestAll, Stopping, Sent, TokensOf;
      ids := [];
      ghost var before := Contents();
      var left := selected;
      var tokens: set<Token> := {};
      NothingStopped(before, selected);
      SentOneMore(listening, published, [], Event.RunRecorded(0));
      while left != {}
        invariant listening == old(listening)
        invariant Stopping(before, selected, left, ids, Contents(), tokens)
        invariant published == Sent(listening, old(published), RequestAll(before, ids).1)
        decreases left
      {
        SmallestExists(left);
        var id :| Smallest(left, id);
        StopOneMore(before, selected, left, ids, Contents(), tokens, id);
        SentOneMore(listening, old(published), RequestAll(before, ids).1, RequestCancel(Contents(), id).1.value);
        tokens := tokens + {runs[id].token};
        runs := runs[id := Flagged(runs[id])];
        var next := NextRevision();
        Publish(CancellationRequested(next, id));
        ids := ids + [id];
        left := left - {id};
      }
      AllStopped(before, selected, ids, Contents(), tokens);
      cancelled := cancelled + tokens;
    }

    /** Stops every run of the script that was not yet asked to stop, and says how many. */
    method StopScriptRuns(script: string) returns (count: nat, ghost ids: seq<RunId>)
      requires WellFormed(runs)
      modifies this`revision, this`runs, this`cancelled, this`published
      ensures WellFormed(runs)
      ensures Ascending(ids) && count == |ids|
      ensures forall id :: id in ids <==>
                id in old(runs) && old(runs)[id].run.script == script && !old(runs)[id].run.requested
      ensures AskedExactly(old(Contents()), ids, Contents(), published, old(listening), old(published))
    {
      var selected := OfScript(runs, script);
      ids := StopSelected(selected);
      StoppedIsAsked(old(Contents()), ids, selected, Contents(), published, old(listening), old(published));
      hide AskedExactly, Stopped;
      count := |selected|;
    }

    /** The same for the runs that one of these triggers started. */
    method StopScriptTriggerRuns(script: string, triggers: set<string>) returns (count: nat, ghost ids: seq<RunId>)
      requires WellFormed(runs)
      modifies this`revision, this`runs, this`cancelled, this`published
      ensures WellFormed(runs)
      ensures Ascending(ids) && count == |ids|
      ensures forall id :: id in ids <==>
                && id in old(runs) && old(runs)[id].run.script == script && old(runs)[id].run.trigger in triggers
                && !old(runs)[id].run.requested
      ensures AskedExactly(old(Contents()), ids, Contents(), published, old(listening), old(published))
    {
      var selected := OfTriggers(runs, script, triggers);
      ids := StopSelected(selected);
      StoppedIsAsked(old(Contents()), ids, selected, Contents(), published, old(listening), old(published));
      hide AskedExactly, Stopped;
      count := |selected|;
    }

    method RunStarted(id: RunId, script: string, trigger: string, now: nat, token: Token)
      requires WellFormed(runs)
      modifies this`revision, this`runs, this`published
      ensures WellFormed(runs)
      ensures var (after, event) := Model.RunStarted(old(Contents()), id, script, trigger, now, token);
              Contents() == after && published == Sent(old(listening), old(published), [event])
    {
      var entry := Entry(Run(id, script, trigger, now, [], 0, token in cancelled), token);
      runs := runs[id := entry];
      var next := NextRevision();
      Publish(Started(next, Shown(runs[id], cancelled)));
    }

    method LogReceived(id: RunId, log: Log)
      requires WellFormed(runs)
      modifies this`revision, this`runs, this`published
      ensures WellFormed(runs)
      ensures var (after, event) := Model.LogReceived(old(Contents()), id, log);
              && Contents() == after
              && published == Sent(old(listening), old(published), if event.Some? then [event.value] else [])
    {
      if id !in runs {
        return;
      }
      var run := runs[id].run;
      if |run.logs| == MAX_LIVE_LOG_ENTRIES {
        run := run.(logs := run.logs[1..], discarded := SaturatingIncrement(run.discarded));
      }
      run := run.(logs := run.logs + [log]);
      runs := runs[id := runs[id].(run := run)];
      var next := NextRevision();
      Publish(LogEmitted(next, id, log, run.discarded));
    }

    method RunFinished(id: RunId)
      requires WellFormed(runs)
      modifies this`revision, this`runs, this`published
      ensures WellFormed(runs)
      ensures var (after, event) := Model.RunFinished(old(Contents()), id);
              && Contents() == after
              && published == Sent(old(listening), old(published), if event.Some? then [event.value] else [])
    {
      if id !in runs {
        return;
      }
      runs := runs - {id};
      var next := NextRevision();
      Publish(Finished(next, id));
    }

    method RunRecorded()
      modifies this`published
      ensures published == Sent(old(listening), old(published), [Event.RunRecorded(revision)])
    {
      Publish(Event.RunRecorded(revision));
    }
  }

  /** One more run put in its place makes the snapshot of one more entry. */
  lemma InsertIsSnapshot(shown: seq<Run>, entries: Runs, id: RunId, entry: Entry, cancelled: set<Token>)
    requires IsSnapshot(shown, entries, cancelled) && id !in entries && entry.run.id == id
    ensures IsSnapshot(StableSort.Insert(Shown(entry, cancelled), shown, Order(TextLess)), entries[id := entry],
           cancelled)
  {
    var run := Shown(entry, cancelled);
    var after := StableSort.Insert(run, shown, Order(TextLess));
    TextOrders();
    hide Orders;
    InsertKeeps(run, shown, Order(TextLess));
    InsertSorts(TextLess, run, shown);
    forall other | other in entries[id := entry] ensures Lists(after, other) {
      ListsMember(shown, other);
      ListsMember(after, other);
      if other == id {
        assert run in after;
      } else {
        var x :| x in shown && x.id == other;
        assert x in after;
      }
    }
  }
}
