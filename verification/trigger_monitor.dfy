/** The trigger monitor: sessions, its bounded channel, and the payload text it shows. */
module TriggerMonitoring {
  import opened Characters
  import opened Wrappers

  const CHANNEL_CAPACITY := 256

  type Observation = string

  datatype Event = Event(session: nat, sequence: nat, omitted: nat, content: Observation)

  /** `accepted` are the observations this session has accepted; `published` is what the sink got. */
  datatype Monitor = Monitor(
    enabled: bool, connected: bool, omitted: nat, sequence: nat, session: nat,
    channel: seq<Event>, published: seq<Event>, accepted: seq<Observation>)

  function Init(): Monitor {
    Monitor(false, false, 0, 0, 0, [], [], [])
  }

  function NewSession(m: Monitor): Monitor {
    m.(session := SaturatingIncrement(m.session), accepted := [])
  }

  function Starting(m: Monitor): Monitor {
    NewSession(m).(sequence := 0, omitted := 0, enabled := true)
  }

  function Stopping(m: Monitor): Monitor {
    NewSession(m).(enabled := false, omitted := 0)
  }

  function Clearing(m: Monitor): Monitor {
    NewSession(m).(sequence := 0, omitted := 0)
  }

  function Observing(m: Monitor, content: Observation): Monitor {
    if !m.enabled then m else
    var sequence := SaturatingIncrement(m.sequence);
    var counted := m.(sequence := sequence, accepted := m.accepted + [content]);
    if m.connected && |m.channel| < CHANNEL_CAPACITY
    then counted.(channel := m.channel + [Event(m.session, sequence, 0, content)])
    else counted.(omitted := SaturatingIncrement(m.omitted))
  }

  /** One turn of the worker. */
  function Working(m: Monitor): Monitor {
    if m.channel == [] then m else
    var event := m.channel[0];
    var rest := m.(channel := m.channel[1..]);
    if !m.enabled || event.session != m.session then rest
    else rest.(published := m.published + [event.(omitted := m.omitted)], omitted := 0)
  }

  datatype Step = Connect | Start | Stop | Clear | Observe(content: Observation) | Work

  function Apply(m: Monitor, step: Step): Monitor {
    match step
    case Connect => m.(connected := true)
    case Start => Starting(m)
    case Stop => Stopping(m)
    case Clear => Clearing(m)
    case Observe(content) => Observing(m, content)
    case Work => Working(m)
  }

  function Run(steps: seq<Step>): Monitor {
    if steps == [] then Init() else Apply(Run(steps[..|steps| - 1]), steps[|steps| - 1])
  }

  // ---- accounting ------------------------------------------------------------------

  function Count(events: seq<Event>, session: nat): nat {
    if events == [] then 0
    else Count(events[..|events| - 1], session) + (if events[|events| - 1].session == session then 1 else 0)
  }

  function Omissions(events: seq<Event>, session: nat): nat {
    if events == [] then 0
    else Omissions(events[..|events| - 1], session)
         + (if events[|events| - 1].session == session then events[|events| - 1].omitted else 0)
  }

  lemma CountAppend(events: seq<Event>, event: Event, session: nat)
    ensures Count(events + [event], session) == Count(events, session) + (if event.session == session then 1 else 0)
    ensures Omissions(events + [event], session)
         == Omissions(events, session) + (if event.session == session then event.omitted else 0)
  {
    assert (events + [event])[..|events|] == events;
  }

  lemma {:induction false} CountFirst(events: seq<Event>, session: nat)
    requires events != []
    ensures Count(events, session) == Count(events[1..], session) + (if events[0].session == session then 1 else 0)
  {
    if |events| > 1 {
      var init := events[..|events| - 1];
      CountFirst(init, session);
      assert events[1..][..|events| - 2] == init[1..];
    }
  }

  lemma {:induction false} CountNone(events: seq<Event>, session: nat)
    requires forall e | e in events :: e.session != session
    ensures Count(events, session) == 0 && Omissions(events, session) == 0
  {
    if events != [] {
      CountNone(events[..|events| - 1], session);
      assert events[|events| - 1] in events;
    }
  }

  /** Everything the sink got and everything that may still reach it, oldest first. */
  function Stream(m: Monitor): seq<Event> {
    m.published + m.channel
  }

  predicate Earlier(a: Event, b: Event) {
    a.session < b.session || (a.session == b.session && a.sequence < b.sequence)
  }

  ghost predicate Ascending(events: seq<Event>) {
    forall i, j :: 0 <= i < j < |events| ==> Earlier(events[i], events[j])
  }

  /** The event is of an earlier session, or of the present one while it is enabled. */
  predicate Possible(m: Monitor, e: Event) {
    e.session < m.session || (e.session == m.session && e.sequence <= m.sequence && m.enabled)
  }

  ghost predicate Ordered(m: Monitor) {
    Ascending(Stream(m)) && forall i :: 0 <= i < |Stream(m)| ==> Possible(m, Stream(m)[i])
  }

  /** Nothing observed in this session is unaccounted for. */
  ghost predicate Conserved(m: Monitor) {
    m.enabled ==>
      |m.accepted| == Count(m.published, m.session) + Count(m.channel, m.session)
                    + Omissions(m.published, m.session) + m.omitted
  }

  ghost predicate Bounded(m: Monitor, steps: nat) {
    m.session <= steps && m.sequence <= steps && m.omitted <= |m.accepted| <= steps && |m.channel| <= CHANNEL_CAPACITY
  }

  ghost predicate Inv(m: Monitor, steps: nat) {
    Ordered(m) && Conserved(m) && Bounded(m, steps)
  }

  lemma NewSessionIsEmpty(m: Monitor)
    requires Ordered(m)
    ensures Count(m.published, m.session + 1) == 0 && Count(m.channel, m.session + 1) == 0
    ensures Omissions(m.published, m.session + 1) == 0
  {
    forall e | e in m.published ensures e.session != m.session + 1 {
      var i :| 0 <= i < |m.published| && m.published[i] == e;
      assert Possible(m, Stream(m)[i]);
    }
    forall e | e in m.channel ensures e.session != m.session + 1 {
      var i :| 0 <= i < |m.channel| && m.channel[i] == e;
      assert Possible(m, Stream(m)[|m.published| + i]);
    }
    CountNone(m.published, m.session + 1);
    CountNone(m.channel, m.session + 1);
  }

  lemma NewSessionKeepsInv(m: Monitor, after: Monitor, steps: nat)
    requires Inv(m, steps) && steps < U64_MAX
    requires after in {Starting(m), Stopping(m), Clearing(m)}
    ensures Inv(after, steps + 1)
  {
    NewSessionIsEmpty(m);
    assert Stream(after) == Stream(m);
  }

  lemma ObserveKeepsOrdered(m: Monitor, content: Observation, steps: nat)
    requires Ordered(m) && Bounded(m, steps) && steps < U64_MAX
    ensures Ordered(Observing(m, content))
  {
    var after := Observing(m, content);
    if m.enabled && m.connected && |m.channel| < CHANNEL_CAPACITY {
      var event := Event(m.session, m.sequence + 1, 0, content);
      assert Stream(after) == Stream(m) + [event];
      forall i | 0 <= i < |Stream(m)| ensures Earlier(Stream(m)[i], event) {
        assert Possible(m, Stream(m)[i]);
      }
    } else {
      assert Stream(after) == Stream(m);
    }
  }

  lemma ObserveKeepsInv(m: Monitor, content: Observation, steps: nat)
    requires Inv(m, steps) && steps < U64_MAX
    ensures Inv(Observing(m, content), steps + 1)
  {
    ObserveKeepsOrdered(m, content, steps);
    CountAppend(m.channel, Event(m.session, m.sequence + 1, 0, content), m.session);
    hide Ordered, Count, Omissions;
  }

  lemma DropKeepsAscending(events: seq<Event>, n: nat)
    requires Ascending(events) && n < |events|
    ensures Ascending(events[..n] + events[n + 1..])
  {
    var less := events[..n] + events[n + 1..];
    forall i | 0 <= i < |less| ensures less[i] == events[if i < n then i else i + 1] {
    }
  }

  lemma RelabelKeepsAscending(events: seq<Event>, n: nat, omitted: nat)
    requires Ascending(events) && n < |events|
    ensures Ascending(events[n := events[n].(omitted := omitted)])
  {
  }

  lemma WorkKeepsOrdered(m: Monitor)
    requires Ordered(m)
    ensures Ordered(Working(m))
  {
    if m.channel != [] {
      if m.enabled && m.channel[0].session == m.session {
        PublishKeepsOrdered(m);
      } else {
        SkipKeepsOrdered(m);
      }
    }
  }

  lemma PublishKeepsOrdered(m: Monitor)
    requires Ordered(m) && m.channel != [] && m.enabled && m.channel[0].session == m.session
    ensures Ordered(Working(m))
  {
    var after, n, stream := Working(m), |m.published|, Stream(m);
    assert Stream(after) == stream[n := stream[n].(omitted := m.omitted)];
    hide Ascending, Stream;
    RelabelKeepsAscending(stream, n, m.omitted);
    assert Possible(m, stream[n]);
  }

  lemma SkipKeepsOrdered(m: Monitor)
    requires Ordered(m) && m.channel != [] && !(m.enabled && m.channel[0].session == m.session)
    ensures Ordered(Working(m))
  {
    var after, n, stream := Working(m), |m.published|, Stream(m);
    assert Stream(after) == stream[..n] + stream[n + 1..];
    hide Ascending, Stream;
    DropKeepsAscending(stream, n);
    forall i | 0 <= i < |Stream(after)| ensures Possible(after, Stream(after)[i]) {
      assert Possible(m, stream[if i < n then i else i + 1]);
    }
  }

  lemma WorkKeepsInv(m: Monitor, steps: nat)
    requires Inv(m, steps)
    ensures Inv(Working(m), steps + 1)
  {
    WorkKeepsOrdered(m);
    if m.channel != [] {
      CountFirst(m.channel, m.session);
      CountAppend(m.published, m.channel[0].(omitted := m.omitted), m.session);
    }
    hide Ordered, Count, Omissions;
  }

  lemma NextKeepsInv(m: Monitor, step: Step, steps: nat)
    requires Inv(m, steps) && steps < U64_MAX
    ensures Inv(Apply(m, step), steps + 1)
  {
    match step
    case Connect =>
      assert Stream(Apply(m, step)) == Stream(m);
    case Observe(content) => ObserveKeepsInv(m, content, steps);
    case Work => WorkKeepsInv(m, steps);
    case _ => NewSessionKeepsInv(m, Apply(m, step), steps);
  }

  lemma {:induction false} RunKeepsInv(steps: seq<Step>)
    requires |steps| <= U64_MAX
    ensures Inv(Run(steps), |steps|)
  {
    if steps != [] {
      RunKeepsInv(steps[..|steps| - 1]);
      NextKeepsInv(Run(steps[..|steps| - 1]), steps[|steps| - 1], |steps| - 1);
    }
  }

  /** In an enabled session, below saturation: the observations accepted are the events published, those
      still in the channel, the omissions reported and the omissions not yet reported. */
  lemma NothingGoesUnaccounted(steps: seq<Step>)
    requires |steps| <= U64_MAX && Run(steps).enabled
    ensures var m := Run(steps);
            |m.accepted| == Count(m.published, m.session) + Count(m.channel, m.session)
                          + Omissions(m.published, m.session) + m.omitted
  {
    RunKeepsInv(steps);
  }

  /** Published events come in session order and, within a session, with increasing sequence numbers. */
  lemma PublishedInOrder(steps: seq<Step>, i: nat, j: nat)
    requires |steps| <= U64_MAX && i < j < |Run(steps).published|
    ensures var a, b := Run(steps).published[i], Run(steps).published[j];
            a.session < b.session || (a.session == b.session && a.sequence < b.sequence)
  {
    RunKeepsInv(steps);
    var m := Run(steps);
    assert Stream(m)[i] == m.published[i] && Stream(m)[j] == m.published[j];
  }

  // ---- what an event's number says -------------------------------------------------

  /** In an enabled session an event's number says which of the session's observations it is. */
  ghost predicate Numbered(m: Monitor) {
    m.enabled ==>
      && m.sequence == |m.accepted|
      && forall e | e in Stream(m) && e.session == m.session ::
           1 <= e.sequence <= |m.accepted| && e.content == m.accepted[e.sequence - 1]
  }

  lemma SessionKeepsNumbered(m: Monitor, after: Monitor)
    requires Ordered(m) && Numbered(m) && m.session < U64_MAX
    requires after in {Starting(m), Stopping(m), Clearing(m)}
    ensures Numbered(after)
  {
    assert Stream(after) == Stream(m);
    forall e | e in Stream(m) ensures e.session < after.session {
      var i :| 0 <= i < |Stream(m)| && Stream(m)[i] == e;
      assert Possible(m, Stream(m)[i]);
    }
  }

  lemma ObserveKeepsNumbered(m: Monitor, content: Observation)
    requires Numbered(m) && m.sequence < U64_MAX
    ensures Numbered(Observing(m, content))
  {
    var after := Observing(m, content);
    forall e | e in Stream(after) ensures e in Stream(m) || e == Event(m.session, m.sequence + 1, 0, content) {
    }
  }

  lemma WorkKeepsNumbered(m: Monitor)
    requires Numbered(m)
    ensures Numbered(Working(m))
  {
    var after := Working(m);
    if m.channel != [] {
      var first := m.channel[0];
      assert first in Stream(m);
      forall e | e in Stream(after) ensures e in Stream(m) || e == first.(omitted := e.omitted) {
      }
    }
  }

  /** In every run below saturation: events of the present session, published or queued, carry the place of
      their observation among all that the session has accepted, from 1 on, omitted ones counted. */
  lemma NumbersNameObservations(steps: seq<Step>)
    requires |steps| <= U64_MAX && Run(steps).enabled
    ensures var m := Run(steps);
            forall e | e in Stream(m) && e.session == m.session ::
              1 <= e.sequence <= |m.accepted| && e.content == m.accepted[e.sequence - 1]
    ensures Run(steps).sequence == |Run(steps).accepted|
  {
    RunIsNumbered(steps);
  }

  lemma {:induction false} RunIsNumbered(steps: seq<Step>)
    requires |steps| <= U64_MAX
    ensures Numbered(Run(steps))
  {
    if steps != [] {
      var before, step := steps[..|steps| - 1], steps[|steps| - 1];
      var m := Run(before);
      RunIsNumbered(before);
      RunKeepsInv(before);
      hide Ordered, Conserved, Run, Numbered;
      assert Run(steps) == Apply(m, step) by {
        RunUnfolds(steps);
      }
      match step
      case Connect => ConnectKeepsNumbered(m);
      case Observe(content) => ObserveKeepsNumbered(m, content);
      case Work => WorkKeepsNumbered(m);
      case _ => SessionKeepsNumbered(m, Apply(m, step));
    }
  }

  lemma RunUnfolds(steps: seq<Step>)
    requires steps != []
    ensures Run(steps) == Apply(Run(steps[..|steps| - 1]), steps[|steps| - 1])
  {
  }

  lemma ConnectKeepsNumbered(m: Monitor)
    requires Numbered(m)
    ensures Numbered(m.(connected := true))
  {
    assert Stream(m.(connected := true)) == Stream(m);
  }

  // ---- what is published was observed in its own session ---------------------------

  /** `a` is `b` with some elements left out. */
  predicate Subsequence(a: seq<Observation>, b: seq<Observation>) {
    if a == [] then true
    else if b == [] then false
    else if a[|a| - 1] == b[|b| - 1] then Subsequence(a[..|a| - 1], b[..|b| - 1])
    else Subsequence(a, b[..|b| - 1])
  }

  lemma {:induction false} FewerStillSubsequence(a: seq<Observation>, b: seq<Observation>)
    requires a != [] && Subsequence(a, b)
    ensures Subsequence(a[..|a| - 1], b)
    decreases |b|
  {
    var fewer, init := a[..|a| - 1], b[..|b| - 1];
    if a[|a| - 1] == b[|b| - 1] {
      if fewer != [] && fewer[|fewer| - 1] == b[|b| - 1] {
        FewerStillSubsequence(fewer, init);
      }
    } else {
      FewerStillSubsequence(a, init);
      if fewer != [] && fewer[|fewer| - 1] == b[|b| - 1] {
        FewerStillSubsequence(fewer, init);
      }
    }
  }

  /** More to choose from, and the same choice or one more. */
  lemma SubsequenceGrows(a: seq<Observation>, b: seq<Observation>, x: Observation)
    requires Subsequence(a, b)
    ensures Subsequence(a + [x], b + [x]) && Subsequence(a, b + [x])
  {
    assert (a + [x])[..|a|] == a && (b + [x])[..|b|] == b;
    if a != [] && a[|a| - 1] == x {
      FewerStillSubsequence(a, b);
    }
  }

  /** The contents of a session's events, in order. */
  function ContentsOf(events: seq<Event>, session: nat): seq<Observation> {
    if events == [] then []
    else
      var init := ContentsOf(events[..|events| - 1], session);
      if events[|events| - 1].session == session then init + [events[|events| - 1].content] else init
  }

  lemma {:induction false} ContentsAppend(a: seq<Event>, b: seq<Event>, session: nat)
    ensures ContentsOf(a + b, session) == ContentsOf(a, session) + ContentsOf(b, session)
  {
    if b == [] {
      assert a + b == a;
    } else {
      ContentsAppend(a, b[..|b| - 1], session);
      assert (a + b)[..|a + b| - 1] == a + b[..|b| - 1];
    }
  }

  lemma ContentsOne(event: Event, session: nat)
    ensures ContentsOf([event], session) == if event.session == session then [event.content] else []
  {
    assert [event][..0] == [];
  }

  lemma {:induction false} ContentsNone(events: seq<Event>, session: nat)
    requires forall e | e in events :: e.session != session
    ensures ContentsOf(events, session) == []
  {
    if events != [] {
      assert events[|events| - 1] in events;
      ContentsNone(events[..|events| - 1], session);
    }
  }

  /** The present session's events, published or queued, are some of its observations, in order. */
  ghost predicate Recorded(m: Monitor) {
    Subsequence(ContentsOf(Stream(m), m.session), m.accepted)
  }

  lemma NewSessionRecorded(m: Monitor, after: Monitor, steps: nat)
    requires Ordered(m) && Bounded(m, steps) && steps < U64_MAX && after in {Starting(m), Stopping(m), Clearing(m)}
    ensures Recorded(after)
  {
    assert Stream(after) == Stream(m) && after.session == m.session + 1;
    forall e | e in Stream(m) ensures e.session != m.session + 1 {
      var i :| 0 <= i < |Stream(m)| && Stream(m)[i] == e;
      assert Possible(m, Stream(m)[i]);
    }
    ContentsNone(Stream(m), m.session + 1);
  }

  lemma ObserveRecorded(m: Monitor, content: Observation)
    requires Recorded(m)
    ensures Recorded(Observing(m, content))
  {
    hide Subsequence, ContentsOf;
    var after := Observing(m, content);
    if m.enabled {
      SubsequenceGrows(ContentsOf(Stream(m), m.session), m.accepted, content);
      var event := Event(m.session, SaturatingIncrement(m.sequence), 0, content);
      ContentsAppend(Stream(m), [event], m.session);
      ContentsOne(event, m.session);
      assert Stream(after) == Stream(m) || Stream(after) == Stream(m) + [event];
    }
  }

  /** Neither publishing nor dropping what is stale changes what the present session's events say. */
  lemma WorkKeepsContents(m: Monitor)
    requires Ordered(m)
    ensures ContentsOf(Stream(Working(m)), m.session) == ContentsOf(Stream(m), m.session)
  {
    if m.channel != [] {
      var after, first, rest := Working(m), m.channel[0], m.channel[1..];
      var shown := first.(omitted := m.omitted);
      assert Stream(m)[|m.published|] == first && Possible(m, Stream(m)[|m.published|]);
      assert Stream(m) == m.published + [first] + rest;
      ContentsAppend(m.published + [first], rest, m.session);
      ContentsAppend(m.published, [first], m.session);
      ContentsOne(first, m.session);
      if m.enabled && first.session == m.session {
        assert Stream(after) == m.published + [shown] + rest;
        ContentsAppend(m.published + [shown], rest, m.session);
        ContentsAppend(m.published, [shown], m.session);
        ContentsOne(shown, m.session);
      } else {
        assert Stream(after) == m.published + rest;
        ContentsAppend(m.published, rest, m.session);
      }
    }
  }

  lemma NextRecorded(m: Monitor, step: Step, steps: nat)
    requires Inv(m, steps) && Recorded(m) && steps < U64_MAX
    ensures Recorded(Apply(m, step))
  {
    hide Subsequence, ContentsOf;
    match step
    case Connect =>
      assert Stream(Apply(m, step)) == Stream(m);
    case Observe(content) => ObserveRecorded(m, content);
    case Work => WorkKeepsContents(m);
    case _ => NewSessionRecorded(m, Apply(m, step), steps);
  }

  predicate ChangesSession(step: Step) {
    step.Start? || step.Stop? || step.Clear?
  }

  /** Whether the latest Start or Stop was a Start. */
  function EnabledAfter(steps: seq<Step>): bool {
    if steps == [] then false
    else
      match steps[|steps| - 1]
      case Start => true
      case Stop => false
      case _ => EnabledAfter(steps[..|steps| - 1])
  }

  /** What was observed, while enabled, since the latest Start, Stop or Clear. */
  function ObservedSince(steps: seq<Step>): seq<Observation> {
    if steps == [] then []
    else
      var init, last := steps[..|steps| - 1], steps[|steps| - 1];
      if ChangesSession(last) then []
      else if last.Observe? && EnabledAfter(init) then ObservedSince(init) + [last.content]
      else ObservedSince(init)
  }

  lemma RunLast(steps: seq<Step>)
    requires steps != []
    ensures Run(steps) == Apply(Run(steps[..|steps| - 1]), steps[|steps| - 1])
  {
  }

  /** The monitor's own account of its session is what happened to it. */
  lemma {:induction false} AcceptedIsObserved(steps: seq<Step>)
    ensures Run(steps).enabled == EnabledAfter(steps) && Run(steps).accepted == ObservedSince(steps)
  {
    if steps == [] {
    } else {
      hide Run;
      AcceptedIsObserved(steps[..|steps| - 1]);
      RunLast(steps);
    }
  }

  lemma {:induction false} RunRecorded(steps: seq<Step>)
    requires |steps| <= U64_MAX
    ensures Recorded(Run(steps))
  {
    if steps != [] {
      var init := steps[..|steps| - 1];
      RunKeepsInv(init);
      RunRecorded(init);
      hide Recorded;
      NextRecorded(Run(init), steps[|steps| - 1], |init|);
    }
  }

  /** In every run below saturation, the present session's events, published or queued, are some of what
      was observed since the latest Start, Stop or Clear, in order. */
  lemma EventsAreObservations(steps: seq<Step>)
    requires |steps| <= U64_MAX
    ensures Subsequence(ContentsOf(Stream(Run(steps)), Run(steps).session), ObservedSince(steps))
  {
    RunRecorded(steps);
    AcceptedIsObserved(steps);
  }

  /** Within a session the worker publishes events of that session only, after what was published. */
  ghost predicate PublishedSince(before: Monitor, now: Monitor) {
    && now.session == before.session && before.published <= now.published
    && forall i :: |before.published| <= i < |now.published| ==> now.published[i].session == now.session
  }

  lemma {:induction false} SessionPublishesItsOwn(steps: seq<Step>, more: seq<Step>)
    requires forall i :: 0 <= i < |more| ==> !ChangesSession(more[i])
    ensures PublishedSince(Run(steps), Run(steps + more))
  {
    if more == [] {
      assert steps + more == steps;
    } else {
      var init := more[..|more| - 1];
      SessionPublishesItsOwn(steps, init);
      assert (steps + more)[..|steps + more| - 1] == steps + init;
      assert (steps + more)[|steps + more| - 1] == more[|more| - 1];
      hide Run;
    }
  }

  lemma {:induction false} ContentsAll(events: seq<Event>, session: nat)
    requires forall i :: 0 <= i < |events| ==> events[i].session == session
    ensures |ContentsOf(events, session)| == |events|
    ensures forall i :: 0 <= i < |events| ==> ContentsOf(events, session)[i] == events[i].content
  {
    if events != [] {
      ContentsAll(events[..|events| - 1], session);
    }
  }

  lemma {:induction false} PrefixIsSubsequence(a: seq<Observation>, b: seq<Observation>, c: seq<Observation>)
    requires Subsequence(a + b, c)
    ensures Subsequence(a, c)
  {
    if b == [] {
      assert a + b == a;
    } else {
      FewerStillSubsequence(a + b, c);
      assert (a + b)[..|a + b| - 1] == a + b[..|b| - 1];
      PrefixIsSubsequence(a, b[..|b| - 1], c);
    }
  }

  /** In every run below saturation: what is published after the latest Start, Stop or Clear was observed
      after it, and nothing is while the monitor is stopped. */
  lemma NothingStaleIsPublished(steps: seq<Step>, change: Step, more: seq<Step>)
    requires |steps| + 1 + |more| <= U64_MAX && ChangesSession(change)
    requires forall i :: 0 <= i < |more| ==> !ChangesSession(more[i])
    ensures var before, now := Run(steps + [change]), Run(steps + [change] + more);
            && before.published <= now.published
            && var extra := now.published[|before.published|..];
               && |ContentsOf(extra, now.session)| == |extra|
               && Subsequence(ContentsOf(extra, now.session), ObservedSince(steps + [change] + more))
               && (!EnabledAfter(steps + [change]) ==> extra == [])
  {
    var start := steps + [change];
    var before, now := Run(start), Run(start + more);
    SessionPublishesItsOwn(start, more);
    var extra := now.published[|before.published|..];
    ContentsAll(extra, now.session);
    NoneOfNewSession(steps, change);
    ContentsAppend(before.published, extra, now.session);
    assert now.published == before.published + extra;
    ContentsAppend(now.published, now.channel, now.session);
    EventsAreObservations(start + more);
    assert [] + ContentsOf(extra, now.session) == ContentsOf(extra, now.session);
    PrefixIsSubsequence(ContentsOf(extra, now.session), ContentsOf(now.channel, now.session),
          ObservedSince(start + more));
    StoppedObservesNothing(start, more);
  }

  /** Nothing published before a session change is of the new session. */
  lemma NoneOfNewSession(steps: seq<Step>, change: Step)
    requires |steps| < U64_MAX && ChangesSession(change)
    ensures var m := Run(steps + [change]); ContentsOf(m.published, m.session) == []
    ensures ObservedSince(steps + [change]) == []
  {
    hide Run, ContentsOf, Bounded, Conserved, Ordered;
    var m := Run(steps);
    RunKeepsInv(steps);
    RunOneMore(steps, change);
    NewNumber(m, change, |steps|);
    NothingOfNextSession(m);
    assert (steps + [change])[..|steps|] == steps;
  }

  lemma NewNumber(m: Monitor, change: Step, steps: nat)
    requires Bounded(m, steps) && steps < U64_MAX && ChangesSession(change)
    ensures Apply(m, change).session == m.session + 1 && Apply(m, change).published == m.published
  {
  }

  lemma NothingOfNextSession(m: Monitor)
    requires Ordered(m)
    ensures ContentsOf(m.published, m.session + 1) == []
  {
    hide ContentsOf, Ascending;
    forall e | e in m.published ensures e.session != m.session + 1 {
      var i :| 0 <= i < |m.published| && m.published[i] == e;
      assert Possible(m, Stream(m)[i]);
    }
    ContentsNone(m.published, m.session + 1);
  }

  lemma {:induction false} StoppedObservesNothing(steps: seq<Step>, more: seq<Step>)
    requires forall i :: 0 <= i < |more| ==> !ChangesSession(more[i])
    ensures EnabledAfter(steps + more) == EnabledAfter(steps)
    ensures !EnabledAfter(steps) && ObservedSince(steps) == [] ==> ObservedSince(steps + more) == []
  {
    if more == [] {
      assert steps + more == steps;
    } else {
      var init := more[..|more| - 1];
      StoppedObservesNothing(steps, init);
      assert (steps + more)[..|steps + more| - 1] == steps + init;
      assert (steps + more)[|steps + more| - 1] == more[|more| - 1];
    }
  }

  // ---- the last session number -----------------------------------------------------

  /** Stopping, starting again and one turn of the worker publish a queued event of the session exactly
      when its number was the last one. */
  lemma StoppedEventIsPublishedIff(m: Monitor)
    requires m.session <= U64_MAX && m.enabled && m.channel != [] && m.channel[0].session == m.session
    ensures var after := Working(Starting(Stopping(m)));
            && (after.published == m.published + [m.channel[0].(omitted := 0)] <==> m.session == U64_MAX)
            && (after.published == m.published <==> m.session < U64_MAX)
  {
    var again := Starting(Stopping(m));
    assert again.channel == m.channel && again.published == m.published && again.enabled && again.omitted == 0;
    assert again.session == m.session <==> m.session == U64_MAX;
    assert |m.published + [m.channel[0]]| == |m.published| + 1;
  }

  function Starts(n: nat): seq<Step> {
    seq(n, _ => Start)
  }

  /** Starting n times reaches session n, up to the last number. */
  lemma {:induction false} StartsReachSession(n: nat)
    ensures Run(Starts(n)).session == if n < U64_MAX then n else U64_MAX
    ensures n > 0 ==> Run(Starts(n)).enabled && Run(Starts(n)).channel == [] == Run(Starts(n)).published
    ensures n == 0 ==> Run(Starts(n)) == Init()
  {
    if n > 0 {
      assert Starts(n)[..n - 1] == Starts(n - 1);
      StartsReachSession(n - 1);
      hide Starts;
    }
  }

  /** So "an event of a stopped session is never published" fails in this run. */
  lemma StoppedEventIsPublished(content: Observation)
    ensures var run := Starts(U64_MAX) + [Connect, Observe(content)];
            && Run(run).published == [] && Run(run).session == U64_MAX
            && var after := Run(run + [Stop, Start, Work]);
               |after.published| == 1 && after.published[0].content == content && after.accepted == []
  {
    var starts := Starts(U64_MAX);
    StartsReachSession(U64_MAX);
    hide Starts;
    RunTwo(starts, Connect, Observe(content));
    var run := starts + [Connect, Observe(content)];
    var m := Run(run);
    assert m.channel == [m.channel[0]] && m.channel[0].content == content && m.channel[0].session == m.session;
    RunTwo(run, Stop, Start);
    RunOneMore(run + [Stop, Start], Work);
    assert run + [Stop, Start] + [Work] == run + [Stop, Start, Work];
    hide Run;
    StoppedEventIsPublishedIff(m);
  }

  lemma RunOneMore(steps: seq<Step>, step: Step)
    ensures Run(steps + [step]) == Apply(Run(steps), step)
  {
    assert (steps + [step])[..|steps|] == steps;
  }

  lemma RunTwo(steps: seq<Step>, first: Step, second: Step)
    ensures Run(steps + [first, second]) == Apply(Apply(Run(steps), first), second)
  {
    assert steps + [first, second] == steps + [first] + [second];
    RunOneMore(steps, first);
    RunOneMore(steps + [first], second);
  }

  // ---- the payload text ------------------------------------------------------------

  type Byte = b: nat | b < 256

  const MAX_PAYLOAD_BYTES := 64 * 1024

  /** A character in UTF-8. */
  function Utf8(c: char): (bytes: seq<Byte>)
    ensures 1 <= |bytes| <= 4 && !Continuation(bytes[0]) && forall i :: 1 <= i < |bytes| ==> Continuation(bytes[i])
  {
    var n := c as int;
    if n < 0x80 then [n]
    else if n < 0x800 then [0xC0 + n / 64, 0x80 + n % 64]
    else if n < 0x10000 then [0xE0 + n / 4096, 0x80 + n / 64 % 64, 0x80 + n % 64]
    else [0xF0 + n / 262144, 0x80 + n / 4096 % 64, 0x80 + n / 64 % 64, 0x80 + n % 64]
  }

  predicate Continuation(b: Byte) {
    0x80 <= b < 0xC0
  }

  /** The code point that bytes stand for, by the table in section 3 of RFC 3629: what the first byte has above
      its mark, then six bits from each other byte. */
  function CodePoint(bytes: seq<int>): int
    requires 1 <= |bytes| <= 4
  {
    if |bytes| == 1 then bytes[0]
    else if |bytes| == 2 then 64 * (bytes[0] - 0xC0) + (bytes[1] - 0x80)
    else if |bytes| == 3 then 4096 * (bytes[0] - 0xE0) + 64 * (bytes[1] - 0x80) + (bytes[2] - 0x80)
    else 262144 * (bytes[0] - 0xF0) + 4096 * (bytes[1] - 0x80) + 64 * (bytes[2] - 0x80) + (bytes[3] - 0x80)
  }

  /** Of what `n` bytes can stand for: the first code point, the one after the last, and the marks between
      which the first byte lies. */
  function FirstOf(n: nat): int {
    if n <= 1 then 0 else if n == 2 then 0x80 else if n == 3 then 0x800 else if n == 4 then 0x1_0000 else 0x11_0000
  }

  function MarkOf(n: nat): int {
    if n <= 1 then 0 else if n == 2 then 0xC0 else if n == 3 then 0xE0 else if n == 4 then 0xF0 else 0xF8
  }

  /** The bytes of a character stand for it, the first tells how many there are, and there are as few as can
      be. */
  lemma Utf8Means(c: char)
    ensures var bytes := Utf8(c);
            && CodePoint(bytes) == c as int
            && FirstOf(|bytes|) <= c as int < FirstOf(|bytes| + 1)
            && MarkOf(|bytes|) <= bytes[0] < (if |bytes| == 1 then 0x80 else MarkOf(|bytes| + 1))
  {
    var n := c as int;
    if 0x800 <= n < 0x1_0000 {
      SixBits(n);
      SixBits(n / 64);
      assert n / 64 / 64 == n / 4096;
    } else if 0x1_0000 <= n {
      SixBits(n);
      SixBits(n / 64);
      SixBits(n / 4096);
      assert n / 64 / 64 == n / 4096 && n / 4096 / 64 == n / 262144;
    }
  }

  lemma SixBits(n: nat)
    ensures n == 64 * (n / 64) + n % 64
  {
  }

  function Encode(text: string): seq<Byte> {
    if text == [] then [] else Encode(text[..|text| - 1]) + Utf8(text[|text| - 1])
  }

  /** `is_char_boundary`. */
  predicate IsBoundary(bytes: seq<Byte>, i: nat)
    requires i <= |bytes|
  {
    i == 0 || i == |bytes| || !Continuation(bytes[i])
  }

  /** Every character boundary of an encoded text is the end of some of its first characters. */
  lemma {:induction false} BoundaryEndsAPrefix(text: string, i: nat) returns (k: nat)
    requires i <= |Encode(text)| && IsBoundary(Encode(text), i)
    ensures k <= |text| && Encode(text)[..i] == Encode(text[..k])
  {
    if i == |Encode(text)| {
      k := |text|;
      assert text[..k] == text && Encode(text)[..i] == Encode(text);
    } else {
      var init := text[..|text| - 1];
      assert i <= |Encode(init)|;
      if i < |Encode(init)| {
        assert Encode(text)[i] == Encode(init)[i];
      }
      k := BoundaryEndsAPrefix(init, i);
      assert text[..k] == init[..k] && Encode(text)[..i] == Encode(init)[..i];
    }
  }

  /** Any first characters of a text end at a character boundary. */
  lemma {:induction false} PrefixEndsAtBoundary(text: string, k: nat)
    requires k <= |text|
    ensures |Encode(text[..k])| <= |Encode(text)| && IsBoundary(Encode(text), |Encode(text[..k])|)
    ensures k < |text| ==> |Encode(text[..k])| < |Encode(text)|
  {
    if k == |text| {
      assert text[..k] == text;
    } else {
      var init := text[..|text| - 1];
      PrefixEndsAtBoundary(init, k);
      assert text[..k] == init[..k];
      var at := |Encode(init[..k])|;
      if at < |Encode(init)| {
        assert Encode(text)[at] == Encode(init)[at];
      }
    }
  }

  /** The text shown for a payload: all of it when it fits, or else the most characters that fit; never
      part of a character. The size is that of the whole text. */
  method PayloadDocument(serialized: string) returns (shown: seq<Byte>, size: nat, truncated: bool, ghost kept: nat)
    ensures size == |Encode(serialized)| && (truncated <==> size > MAX_PAYLOAD_BYTES)
    ensures kept <= |serialized| && shown == Encode(serialized[..kept]) && |shown| <= MAX_PAYLOAD_BYTES
    ensures !truncated ==> kept == |serialized|
    ensures forall k :: kept < k <= |serialized| ==> |Encode(serialized[..k])| > MAX_PAYLOAD_BYTES
  {
    var bytes := Encode(serialized);
    size := |bytes|;
    if size <= MAX_PAYLOAD_BYTES {
      assert serialized[..|serialized|] == serialized;
      return bytes, size, false, |serialized|;
    }
    var boundary := MAX_PAYLOAD_BYTES;
    while !IsBoundary(bytes, boundary)
      invariant 0 <= boundary <= MAX_PAYLOAD_BYTES
      invariant forall i: nat :: boundary < i <= MAX_PAYLOAD_BYTES ==> !IsBoundary(bytes, i)
      decreases boundary
    {
      boundary := boundary - 1;
    }
    kept := BoundaryEndsAPrefix(serialized, boundary);
    forall k | kept < k <= |serialized| ensures |Encode(serialized[..k])| > MAX_PAYLOAD_BYTES {
      PrefixEndsAtBoundary(serialized, k);
      PrefixEndsAtBoundary(serialized[..k], kept);
      assert serialized[..k][..kept] == serialized[..kept];
    }
    return bytes[..boundary], size, true, kept;
  }

  // ---- sensitive headers -----------------------------------------------------------

  datatype Json =
    | Null
    | Bool(b: bool)
    | Number(text: string)
    | String(s: string)
    | Array(items: seq<Json>)
    | Object(members: seq<(string, Json)>)

  const REDACTED := String("[redacted]")

  function Lower(text: string): string {
    seq(|text|, i requires 0 <= i < |text| => LowerChar(text[i]))
  }

  predicate SensitiveHeader(name: string) {
    Lower(name) in {"authorization", "cookie", "proxy-authorization", "set-cookie", "x-api-key", "x-baudbound-token"}
  }

  predicate InHeaders(parent: Option<string>) {
    parent.Some? && Lower(parent.value) == "headers"
  }

  function Sanitize(value: Json, parent: Option<string>): Json
    decreases value
  {
    match value
    case Array(items) => Array(seq(|items|, i requires 0 <= i < |items| => Sanitize(items[i], parent)))
    case Object(members) => Object(seq(|members|, i requires 0 <= i < |members| => SanitizeMember(members[i], parent)))
    case _ => value
  }

  function SanitizeMember(member: (string, Json), parent: Option<string>): (string, Json)
    decreases member, 0
  {
    (member.0, if InHeaders(parent) && SensitiveHeader(member.0) then REDACTED else Sanitize(member.1, Some(member.0)))
  }

  /** No sensitive header anywhere shows its value. */
  ghost predicate Clean(value: Json, parent: Option<string>)
    decreases value
  {
    match value
    case Array(items) => forall i :: 0 <= i < |items| ==> Clean(items[i], parent)
    case Object(members) => forall i :: 0 <= i < |members| ==>
        if InHeaders(parent) && SensitiveHeader(members[i].0) then members[i].1 == REDACTED
        else Clean(members[i].1, Some(members[i].0))
    case _ => true
  }

  /** Sanitizing hides every sensitive header, however deep. */
  lemma {:induction false} SanitizeCleans(value: Json, parent: Option<string>)
    ensures Clean(Sanitize(value, parent), parent)
    decreases value
  {
    match value
    case Array(items) =>
      forall i | 0 <= i < |items| ensures Clean(Sanitize(items[i], parent), parent) {
        SanitizeCleans(items[i], parent);
      }
    case Object(members) =>
      forall i | 0 <= i < |members| ensures Clean(Sanitize(members[i].1, Some(members[i].0)), Some(members[i].0)) {
        SanitizeCleans(members[i].1, Some(members[i].0));
      }
    case _ =>
  }

  /** It changes nothing else: a document that shows no sensitive header stays as it is. */
  lemma {:induction false} CleanStays(value: Json, parent: Option<string>)
    requires Clean(value, parent)
    ensures Sanitize(value, parent) == value
    decreases value
  {
    match value
    case Array(items) =>
      forall i | 0 <= i < |items| ensures Sanitize(items[i], parent) == items[i] {
        CleanStays(items[i], parent);
      }
    case Object(members) =>
      forall i | 0 <= i < |members| ensures SanitizeMember(members[i], parent) == members[i] {
        if !(InHeaders(parent) && SensitiveHeader(members[i].0)) {
          CleanStays(members[i].1, Some(members[i].0));
        }
      }
    case _ =>
  }

  /** `name` is `lower`, which has no capitals, with any letters capital. */
  ghost predicate Spells(name: string, lower: string) {
    && |name| == |lower|
    && forall i :: 0 <= i < |name| ==> SameLetter(name[i], lower[i])
  }

  lemma LowerIff(name: string, lower: string)
    requires forall i :: 0 <= i < |lower| ==> !('A' <= lower[i] <= 'Z')
    ensures Lower(name) == lower <==> Spells(name, lower)
  {
    if |name| == |lower| {
      forall i | 0 <= i < |name| ensures Lower(name)[i] == lower[i] <==> SameLetter(name[i], lower[i]) {
        LowerCharIff(name[i], lower[i]);
      }
      hide LowerChar, SameLetter;
    }
  }

  /** Six headers are sensitive, however they are capitalized, and they count inside anything named headers. */
  lemma SensitiveIff(name: string)
    ensures SensitiveHeader(name) <==>
              || Spells(name, "authorization") || Spells(name, "cookie") || Spells(name, "proxy-authorization")
              || Spells(name, "set-cookie") || Spells(name, "x-api-key") || Spells(name, "x-baudbound-token")
    ensures InHeaders(Some(name)) <==> Spells(name, "headers")
    ensures !InHeaders(None)
  {
    LowerIff(name, "authorization");
    LowerIff(name, "cookie");
    LowerIff(name, "proxy-authorization");
    LowerIff(name, "set-cookie");
    LowerIff(name, "x-api-key");
    LowerIff(name, "x-baudbound-token");
    LowerIff(name, "headers");
    hide Lower, Spells;
  }

  /** What stands at the end of a path of positions, and whether the path comes through a sensitive header. */
  datatype Place = Nowhere | At(value: Json) | Hidden

  function Follow(value: Json, parent: Option<string>, path: seq<nat>): Place
    decreases |path|
  {
    if path == [] then At(value) else
    match value
    case Array(items) => if path[0] < |items| then Follow(items[path[0]], parent, path[1..]) else Nowhere
    case Object(members) =>
      if path[0] >= |members| then Nowhere
      else if InHeaders(parent) && SensitiveHeader(members[path[0]].0) then Hidden
      else Follow(members[path[0]].1, Some(members[path[0]].0), path[1..])
    case _ => Nowhere
  }

  /** The same leaf, a list as long, or an object with the same names. */
  ghost predicate Alike(a: Json, b: Json) {
    match a
    case Array(items) => b.Array? && |b.items| == |items|
    case Object(members) =>
      b.Object? && |b.members| == |members| && forall i :: 0 <= i < |members| ==> b.members[i].0 == members[i].0
    case _ => a == b
  }

  /** Outside sensitive headers a sanitized document is, at every place and at any depth, what it was. */
  lemma {:induction false} SanitizeKeepsTheRest(value: Json, parent: Option<string>, path: seq<nat>)
    ensures var before, after := Follow(value, parent, path), Follow(Sanitize(value, parent), parent, path);
            match before
            case At(part) => after.At? && Alike(part, after.value)
            case _ => after == before
    decreases |path|
  {
    hide SensitiveHeader, InHeaders;
    if path != [] {
      match value
      case Array(items) =>
        if path[0] < |items| {
          SanitizeKeepsTheRest(items[path[0]], parent, path[1..]);
        }
      case Object(members) =>
        if path[0] < |members| {
          SanitizeKeepsTheRest(members[path[0]].1, Some(members[path[0]].0), path[1..]);
        }
      case _ =>
    }
  }

  // ---- the object ------------------------------------------------------------------

  class TriggerMonitor {
    var enabled: bool
    var connected: bool
    var omitted: nat
    var sequence: nat
    var session: nat
    var channel: seq<Event>
    var published: seq<Event>
    ghost var accepted: seq<Observation>

    ghost function Contents(): Monitor
      reads this
    {
      Monitor(enabled, connected, omitted, sequence, session, channel, published, accepted)
    }

    constructor ()
      ensures Contents() == Init()
    {
      enabled, connected, omitted, sequence, session, channel, published, accepted := false, false, 0, 0, 0, [], [], [];
    }

    method ConnectSink()
      modifies this`connected
      ensures Contents() == Apply(old(Contents()), Connect)
    {
      if !connected {
        connected := true;
      }
    }

    method NextSession() returns (r: nat)
      modifies this`session, this`accepted
      ensures Contents() == NewSession(old(Contents())) && r == session
    {
      session := SaturatingIncrement(session);
      accepted := [];
      return session;
    }

    method Start() returns (id: nat)
      modifies this
      ensures Contents() == Starting(old(Contents())) && id == session
    {
      id := NextSession();
      sequence := 0;
      omitted := 0;
      enabled := true;
    }

    method Stop() returns (id: nat, lost: nat)
      modifies this
      ensures Contents() == Stopping(old(Contents())) && id == session && lost == old(omitted)
    {
      enabled := false;
      id := NextSession();
      lost := omitted;
      omitted := 0;
    }

    method Clear() returns (id: nat)
      modifies this
      ensures Contents() == Clearing(old(Contents())) && id == session
    {
      id := NextSession();
      sequence := 0;
      omitted := 0;
    }

    method ObserveSubmission(content: Observation)
      modifies this
      ensures Contents() == Observing(old(Contents()), content)
    {
      if !enabled {
        return;
      }
      accepted := accepted + [content];
      sequence := SaturatingIncrement(sequence);
      if !connected {
        omitted := SaturatingIncrement(omitted);
        return;
      }
      if |channel| < CHANNEL_CAPACITY {
        channel := channel + [Event(session, sequence, 0, content)];
      } else {
        omitted := SaturatingIncrement(omitted);
      }
    }

    /** The worker until its channel is empty. */
    method Drain()
      modifies this
      ensures channel == [] && exists n :: Contents() == Worked(old(Contents()), n)
    {
      ghost var n := 0;
      while channel != []
        invariant Contents() == Worked(old(Contents()), n)
        decreases |channel|
      {
        var event := channel[0];
        channel := channel[1..];
        n := n + 1;
        if !enabled || event.session != session {
          continue;
        }
        published := published + [event.(omitted := omitted)];
        omitted := 0;
      }
    }
  }

  function Worked(m: Monitor, turns: nat): Monitor {
    if turns == 0 then m else Working(Worked(m, turns - 1))
  }
}
