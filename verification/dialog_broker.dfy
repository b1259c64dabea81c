/** The broker object itself: each lock-protected section as a method over the fields it changes. */
module DialogBroker {
  import opened Wrappers
  import opened DialogModel
  import Model = DialogModel

  /** What opening the window of a request comes to: nothing, or an error message. */
  type Windows = DialogId -> Option<string>

  datatype BrokerError = Unavailable | NotActive | OtherWindow | NeedsSelection | AlreadySubmitted

  /** How many of the first pending dialogs cannot be opened. */
  function Failures(pending: seq<Dialog>, windows: Windows): (k: nat)
    ensures k <= |pending|
    ensures forall i :: 0 <= i < k ==> windows(pending[i].id).Some?
    ensures k < |pending| ==> windows(pending[k].id).None?
  {
    if pending == [] || windows(pending[0].id).None? then 0 else Failures(pending[1..], windows) + 1
  }

  /** The channels after the dialogs were told, each in a place that was free. */
  ghost predicate Told(before: map<DialogId, Option<Outcome>>, after: map<DialogId, Option<Outcome>>,
                       dialogs: seq<Dialog>, outcome: DialogId -> Outcome) {
    && before.Keys == after.Keys
    && forall id | id in before ::
         after[id] == if before[id].None? && Named(dialogs, id) then Some(outcome(id)) else before[id]
  }

  predicate Named(dialogs: seq<Dialog>, id: DialogId) {
    exists i :: 0 <= i < |dialogs| && dialogs[i].id == id
  }

  lemma NamedOneMore(dialogs: seq<Dialog>, more: Dialog, id: DialogId)
    ensures Named(dialogs + [more], id) <==> Named(dialogs, id) || more.id == id
  {
    var all := dialogs + [more];
    if Named(dialogs, id) {
      var i :| 0 <= i < |dialogs| && dialogs[i].id == id;
      assert all[i].id == id;
    }
    if more.id == id {
      assert all[|dialogs|].id == id;
    }
  }

  lemma ToldOneMore(before: map<DialogId, Option<Outcome>>, b: Broker, dialogs: seq<Dialog>, more: Dialog,
                    outcome: DialogId -> Outcome)
    requires Told(before, b.slots, dialogs, outcome)
    ensures Told(before, TrySend(b, more.id, outcome(more.id)).0.slots, dialogs + [more], outcome)
  {
    hide Named;
    forall id ensures Named(dialogs + [more], id) <==> Named(dialogs, id) || more.id == id {
      NamedOneMore(dialogs, more, id);
    }
  }

  function MessageOf(windows: Windows): DialogId -> Outcome {
    (id: DialogId) => if windows(id).Some? then Failed(windows(id).value) else Failed("dialog activation failed")
  }

  /** Why a window is refused: nothing is active, something else is, or the reason for its own request. */
  function Refusal(b: Broker, id: DialogId, window: string, own: BrokerError): BrokerError {
    if b.active.None? then NotActive else if Authenticated(b, id, window) then own else OtherWindow
  }

  /** The first `told` of these pending dialogs could not be opened and have been told. */
  ghost predicate Skipping(all: seq<Dialog>, told: nat, windows: Windows, slots: map<DialogId, Option<Outcome>>,
                           b: Broker) {
    && told <= |all| && b.active.None? && b.pending == all[told..]
    && Failures(all, windows) == told + Failures(b.pending, windows)
    && Told(slots, b.slots, all[..told], MessageOf(windows))
  }

  lemma NothingSkipped(b: Broker, windows: Windows)
    ensures b.active.None? ==> Skipping(b.pending, 0, windows, b.slots, b)
  {
  }

  /** With nothing pending all have failed; a dialog that opens is the first that does; one that does
      not is told. */
  lemma SkipOneMore(all: seq<Dialog>, told: nat, windows: Windows, slots: map<DialogId, Option<Outcome>>, b: Broker)
    requires Skipping(all, told, windows, slots, b)
    ensures told <= |all| && b.pending == all[told..]
    ensures b.pending == []
         ==> Failures(all, windows) == |all| && Told(slots, b.slots, all[..|all|], MessageOf(windows))
    ensures b.pending != [] && windows(b.pending[0].id).None? ==>
              && Failures(all, windows) == told < |all| && b.pending[0] == all[told]
                  && b.pending[1..] == all[told + 1..]
              && Told(slots, b.slots, all[..told], MessageOf(windows))
    ensures b.pending != [] && windows(b.pending[0].id).Some? ==>
              var id := b.pending[0].id;
              var promoted := b.(pending := b.pending[1..]);
              Skipping(all, told + 1, windows, slots, TrySend(promoted, id, Failed(windows(id).value)).0)
  {
    hide Failures, Told, MessageOf;
    FailuresUnfold(b.pending, windows);
    if b.pending == [] {
      assert told == |all|;
    } else if windows(b.pending[0].id).None? {
      assert b.pending[0] == all[told] && b.pending[1..] == all[told + 1..];
    } else {
      SkipFailed(all, told, windows, slots, b);
    }
  }

  lemma FailuresUnfold(pending: seq<Dialog>, windows: Windows)
    ensures Failures(pending, windows)
         == if pending == [] || windows(pending[0].id).None? then 0 else Failures(pending[1..], windows) + 1
  {
  }

  lemma SkipFailed(all: seq<Dialog>, told: nat, windows: Windows, slots: map<DialogId, Option<Outcome>>, b: Broker)
    requires Skipping(all, told, windows, slots, b) && b.pending != [] && windows(b.pending[0].id).Some?
    ensures var id := b.pending[0].id;
            var promoted := b.(pending := b.pending[1..]);
            Skipping(all, told + 1, windows, slots, TrySend(promoted, id, Failed(windows(id).value)).0)
  {
    hide Failures, Told;
    var first := b.pending[0];
    var promoted := b.(pending := b.pending[1..]);
    FailuresUnfold(b.pending, windows);
    ToldOneMore(slots, promoted, all[..told], first, MessageOf(windows));
    assert MessageOf(windows)(first.id) == Failed(windows(first.id).value);
    assert all[..told] + [first] == all[..told + 1] && b.pending[1..] == all[told + 1..];
  }

  ghost predicate Queued(pending: seq<Dialog>, id: DialogId, window: string) {
    exists dialog | dialog in pending :: dialog.id == id && dialog.window == window
  }

  /** The first dialog of this request is gone and the others stand as before. */
  ghost predicate TakenOut(before: seq<Dialog>, id: DialogId, window: string, after: seq<Dialog>) {
    exists dialog, first, rest {:trigger first + [dialog] + rest} ::
      && before == first + [dialog] + rest && after == first + rest
      && dialog.id == id && dialog.window == window && !Queued(first, id, window)
  }

  lemma TakesOut(before: seq<Dialog>, i: nat, id: DialogId, window: string)
    requires i < |before| && before[i].id == id && before[i].window == window
    requires forall j :: 0 <= j < i ==> !(before[j].id == id && before[j].window == window)
    ensures TakenOut(before, id, window, before[..i] + before[i + 1..])
  {
    assert before == before[..i] + [before[i]] + before[i + 1..];
  }

  class DesktopDialogBroker {
    var connected: bool
    var consoleEnabled: bool
    var active: Option<Dialog>
    var pending: seq<Dialog>
    var slots: map<DialogId, Option<Outcome>>

    ghost function Contents(): Broker
      reads this
    {
      Broker(connected, active, pending, slots)
    }

    constructor ()
      ensures Contents() == Init().broker
    {
      connected, consoleEnabled, active, pending, slots := false, false, None, [], map[];
    }

    method Connect(console: bool)
      modifies this
      ensures Contents() == old(Contents()).(connected := true) && consoleEnabled == console
    {
      connected, consoleEnabled := true, console;
    }

    /** `id` is the random id of the request. */
    method Enqueue(id: DialogId, closeResponse: Option<string>) returns (r: Result<Dialog, BrokerError>)
      modifies this
      ensures consoleEnabled == old(consoleEnabled)
      ensures r.Ok? <==> old(connected)
      ensures r.Err? ==> r.error == Unavailable && Contents() == old(Contents())
      ensures r.Ok? ==> r.value == Dialog(id, WindowLabel(consoleEnabled, id), closeResponse)
      ensures r.Ok? ==> pending == old(pending) + [r.value] && slots == old(slots)[id := None]
      ensures r.Ok? ==> Contents() == Model.Enqueue(old(Contents()), r.value)
    {
      if !connected {
        return Err(Unavailable);
      }
      var dialog := Dialog(id, WindowLabel(consoleEnabled, id), closeResponse);
      pending := pending + [dialog];
      slots := slots[id := None];
      return Ok(dialog);
    }

    method PromoteNext() returns (r: Option<Dialog>)
      modifies this`active, this`pending
      ensures (Contents(), r) == Model.PromoteNext(old(Contents()))
    {
      if active.Some? {
        return None;
      }
      if pending == [] {
        return None;
      }
      active := Some(pending[0]);
      pending := pending[1..];
      return active;
    }

    /** `try_send` on the channel of a request. */
    method Send(id: DialogId, outcome: Outcome) returns (ok: bool)
      modifies this`slots
      ensures (Contents(), ok) == TrySend(old(Contents()), id, outcome)
    {
      ok := id in slots && slots[id].None?;
      if ok {
        slots := slots[id := Some(outcome)];
      }
    }

    method AuthenticatedActive(id: DialogId, window: string) returns (r: Result<Dialog, BrokerError>)
      ensures r.Ok? <==> Authenticated(Contents(), id, window)
      ensures r.Ok? ==> active == Some(r.value)
      ensures r.Err? ==> r.error == if active.None? then NotActive else OtherWindow
    {
      if active.None? {
        return Err(NotActive);
      }
      if active.value.id != id || active.value.window != window {
        return Err(OtherWindow);
      }
      return Ok(active.value);
    }

    method SubmitFromWindow(id: DialogId, window: string, button: string) returns (r: Result<(), BrokerError>)
      modifies this`slots
      ensures (Contents(), r.Ok?) == Model.SubmitFromWindow(old(Contents()), id, window, button)
      ensures r.Err? ==> r.error == Refusal(old(Contents()), id, window, AlreadySubmitted)
    {
      var dialog := AuthenticatedActive(id, window);
      if dialog.Err? {
        return Err(dialog.error);
      }
      var ok := Send(dialog.value.id, Response(button));
      if !ok {
        return Err(AlreadySubmitted);
      }
      return Ok(());
    }

    method CancelFromWindow(id: DialogId, window: string) returns (r: Result<(), BrokerError>)
      modifies this`slots
      ensures (Contents(), r.Ok?) == Model.CancelFromWindow(old(Contents()), id, window)
      ensures r.Err? ==> r.error == Refusal(old(Contents()), id, window,
                           if active.Some? && active.value.closeResponse.None? then NeedsSelection
                               else AlreadySubmitted)
    {
      var dialog := AuthenticatedActive(id, window);
      if dialog.Err? {
        return Err(dialog.error);
      }
      if dialog.value.closeResponse.None? {
        return Err(NeedsSelection);
      }
      var ok := Send(dialog.value.id, Response(dialog.value.closeResponse.value));
      if !ok {
        return Err(AlreadySubmitted);
      }
      return Ok(());
    }

    /** With no other thread in between: nothing changes while a dialog is active; otherwise the first
        pending dialog whose window opens becomes active, the ones before it are told their errors,
        and the ones after it stay pending in order. */
    method ActivateNext(windows: Windows)
      modifies this`active, this`pending, this`slots
      ensures old(active).Some? ==> Contents() == old(Contents())
      ensures old(active).None? ==>
                var k := Failures(old(pending), windows);
                && active == (if k < |old(pending)| then Some(old(pending)[k]) else None)
                && pending == (if k < |old(pending)| then old(pending)[k + 1..] else [])
                && Told(old(slots), slots, old(pending)[..k], MessageOf(windows))
    {
      hide Skipping, Failures, Told, MessageOf;
      ghost var all, before := pending, Contents();
      ghost var told := 0;
      NothingSkipped(before, windows);
      while true
        invariant 0 <= told
        invariant active.Some? ==> Contents() == before && before.active.Some?
        invariant active.None? ==> Skipping(all, told, windows, before.slots, Contents()) && before.active.None?
        decreases |pending|
      {
        if active.None? {
          SkipOneMore(all, told, windows, before.slots, Contents());
        }
        var next := PromoteNext();
        if next.None? {
          return;
        }
        var dialog := next.value;
        var error := windows(dialog.id);
        if error.None? {
          return;
        }
        active := None;
        var ok := Send(dialog.id, Failed(error.value));
        told := told + 1;
      }
    }

    /** Takes a request out of the queue, or out of the active place. */
    method Remove(id: DialogId, window: string)
      modifies this`active, this`pending
      ensures Contents() == Model.Finish(old(Contents()), id, window)
      ensures old(Queued(pending, id, window)) ==> TakenOut(old(pending), id, window, pending) && active == old(active)
      ensures !old(Queued(pending, id, window)) ==>
                && pending == old(pending)
                && active == if old(Authenticated(Contents(), id, window)) then None else old(active)
    {
      var i := 0;
      while i < |pending| && !(pending[i].id == id && pending[i].window == window)
        invariant 0 <= i <= |pending|
        invariant forall j :: 0 <= j < i ==> !(pending[j].id == id && pending[j].window == window)
      {
        i := i + 1;
      }
      assert i == PendingIndex(pending, id, window);
      if i < |pending| {
        assert pending[i] in pending;
        TakesOut(pending, i, id, window);
        pending := pending[..i] + pending[i + 1..];
      } else if active.Some? && active.value.id == id && active.value.window == window {
        active := None;
      }
    }

    /** A caller leaves: its request goes, and the next one that opens is let in. */
    method Finish(id: DialogId, window: string, windows: Windows)
      modifies this`active, this`pending, this`slots
      ensures var b := Model.Finish(old(Contents()), id, window);
              && (b.active.Some? ==> Contents() == b)
              && (b.active.None? ==>
                    var k := Failures(b.pending, windows);
                    && active == (if k < |b.pending| then Some(b.pending[k]) else None)
                    && pending == (if k < |b.pending| then b.pending[k + 1..] else [])
                    && Told(b.slots, slots, b.pending[..k], MessageOf(windows)))
    {
      Remove(id, window);
      ActivateNext(windows);
    }

    /** Everything the broker held is told that it is cancelled, wherever no answer came first. */
    method Disconnect()
      modifies this
      ensures consoleEnabled == old(consoleEnabled)
      ensures Contents().(slots := old(slots)) == Model.Disconnect(old(Contents()))
      ensures !connected && active == None && pending == []
      ensures Told(old(slots), slots, (if old(active).Some? then [old(active).value] else []) + old(pending),
                   (id: DialogId) => Cancelled)
    {
      var cancelled := (if active.Some? then [active.value] else []) + pending;
      connected, active, pending := false, None, [];
      var i := 0;
      assert Told(slots, slots, cancelled[..0], (id: DialogId) => Cancelled);
      hide Told, TrySend;
      while i < |cancelled|
        invariant 0 <= i <= |cancelled|
        invariant Contents() == Broker(false, None, [], slots) && consoleEnabled == old(consoleEnabled)
        invariant Told(old(slots), slots, cancelled[..i], (id: DialogId) => Cancelled)
      {
        ghost var before := Contents();
        var ok := Send(cancelled[i].id, Cancelled);
        ToldOneMore(old(slots), before, cancelled[..i], cancelled[i], (id: DialogId) => Cancelled);
        assert cancelled[..i] + [cancelled[i]] == cancelled[..i + 1];
        i := i + 1;
      }
      assert cancelled[..i] == cancelled;
    }
  }
}
