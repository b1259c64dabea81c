/** The dialog broker's lock-protected sections, and every interleaving of the threads that use them. */
module DialogModel {
  import opened Wrappers

  type DialogId = string

  const CONSOLE_LABEL := "desktop-dialog-console"

  function WindowLabel(consoleEnabled: bool, id: DialogId): string {
    if consoleEnabled then CONSOLE_LABEL else "desktop-dialog-" + id
  }

  /** `closeResponse` is the answer closing the window stands for; a Yes/No message has none. */
  datatype Dialog = Dialog(id: DialogId, window: string, closeResponse: Option<string>)

  datatype Outcome = Cancelled | Failed(message: string) | Response(button: string)

  /** What a caller of `show_dialog` gets back. */
  datatype DialogResult = Answered(button: string) | GaveUp | Broken(message: string)

  /** The broker's locked state with every caller's one-place outcome channel. */
  datatype Broker = Broker(
    connected: bool,
    active: Option<Dialog>,
    pending: seq<Dialog>,
    slots: map<DialogId, Option<Outcome>>)

  // ---- the atomic sections ---------------------------------------------------------

  function Enqueue(b: Broker, dialog: Dialog): Broker {
    b.(pending := b.pending + [dialog], slots := b.slots[dialog.id := None])
  }

  function PromoteNext(b: Broker): (Broker, Option<Dialog>) {
    if b.active.Some? || b.pending == [] then (b, None)
    else (b.(active := Some(b.pending[0]), pending := b.pending[1..]), Some(b.pending[0]))
  }

  /** The first pending entry of this request, or the length. */
  function PendingIndex(pending: seq<Dialog>, id: DialogId, window: string): (i: nat)
    ensures i <= |pending|
    ensures i < |pending| ==> pending[i].id == id && pending[i].window == window
    ensures forall j :: 0 <= j < i ==> !(pending[j].id == id && pending[j].window == window)
  {
    if pending == [] then 0
    else if pending[0].id == id && pending[0].window == window then 0
    else
      var i := PendingIndex(pending[1..], id, window);
      assert forall j :: 1 <= j < i + 1 ==> pending[j] == pending[1..][j - 1];
      i + 1
  }

  function Finish(b: Broker, id: DialogId, window: string): Broker {
    var i := PendingIndex(b.pending, id, window);
    if i < |b.pending| then b.(pending := b.pending[..i] + b.pending[i + 1..])
    else if b.active.Some? && b.active.value.id == id && b.active.value.window == window then b.(active := None)
    else b
  }

  /** Takes a dialog whose window could not be opened, if it is still the active one. */
  function TakeFailed(b: Broker, id: DialogId): (Broker, bool) {
    if b.active.Some? && b.active.value.id == id then (b.(active := None), true) else (b, false)
  }

  function Disconnect(b: Broker): Broker {
    b.(connected := false, active := None, pending := [])
  }

  /** `try_send` on a one-place channel: it succeeds when the place is free. */
  function TrySend(b: Broker, id: DialogId, outcome: Outcome): (Broker, bool) {
    if id in b.slots && b.slots[id].None? then (b.(slots := b.slots[id := Some(outcome)]), true) else (b, false)
  }

  predicate Authenticated(b: Broker, id: DialogId, window: string) {
    b.active.Some? && b.active.value.id == id && b.active.value.window == window
  }

  function SubmitFromWindow(b: Broker, id: DialogId, window: string, button: string): (Broker, bool) {
    if Authenticated(b, id, window) then TrySend(b, id, Response(button)) else (b, false)
  }

  function CancelFromWindow(b: Broker, id: DialogId, window: string): (Broker, bool) {
    if Authenticated(b, id, window) && b.active.value.closeResponse.Some?
    then TrySend(b, id, Response(b.active.value.closeResponse.value)) else (b, false)
  }

  function ResultOf(outcome: Outcome): DialogResult {
    match outcome
    case Response(button) => Answered(button)
    case Cancelled => GaveUp
    case Failed(message) => Broken(message)
  }

  // ---- threads ---------------------------------------------------------------------

  /** Where a `show_dialog` call is. `Activating`, `Opening` and `Reporting` are inside
      `activate_next`: about to promote, opening the window of `dialog`, about to send its failure.
      `ending` is the result of a caller that has already finished its own request. */
  datatype Position =
    | Activating(ending: Option<DialogResult>)
    | Opening(dialog: DialogId, ending: Option<DialogResult>)
    | Reporting(dialog: DialogId, ending: Option<DialogResult>)
    | Waiting
    | Finishing(result: DialogResult)
    | Returned(result: DialogResult)

  /** `windows` is the label each caller was given and `cancelling` the requests a disconnect has
      removed but not yet told. History: the number of each request, the promotions in order, the
      outcomes that a send got accepted for, and the outcome each caller took. */
  datatype System = System(
    broker: Broker,
    callers: map<DialogId, Position>,
    windows: map<DialogId, string>,
    cancelling: set<DialogId>,
    requests: nat,
    order: map<DialogId, nat>,
    promoted: seq<DialogId>,
    accepted: seq<(DialogId, Outcome)>,
    taken: map<DialogId, Outcome>)

  function Init(): System {
    System(Broker(false, None, [], map[]), map[], map[], {}, 0, map[], [], [], map[])
  }

  datatype Step =
    | Connect
    | RequestStep(dialog: Dialog)
    | PromoteStep(caller: DialogId)
    | Opened(caller: DialogId)
    | OpenFailed(caller: DialogId)
    | ReportFailure(caller: DialogId, message: string)
    | Submit(id: DialogId, window: string, button: string)
    | CloseButton(id: DialogId, window: string)
    | WindowEvent(id: DialogId, outcome: Outcome)
    | TakeOutcome(caller: DialogId)
    | CallerCancelled(caller: DialogId)
    | TimedOut(caller: DialogId)
    | FinishStep(caller: DialogId)
    | DisconnectStep
    | TellCancelled(id: DialogId)

  /** `activate_next` is over: back to waiting for the own dialog, or done. */
  function AfterActivation(ending: Option<DialogResult>): Position {
    match ending
    case None => Waiting
    case Some(result) => Returned(result)
  }

  predicate Enabled(s: System, step: Step) {
    match step
    case Connect => !s.broker.connected
    case RequestStep(dialog) => s.broker.connected && dialog.id !in s.callers
    case PromoteStep(caller) => caller in s.callers && s.callers[caller].Activating?
    case Opened(caller) => caller in s.callers && s.callers[caller].Opening?
    case OpenFailed(caller) => caller in s.callers && s.callers[caller].Opening?
    case ReportFailure(caller, message) => caller in s.callers && s.callers[caller].Reporting?
    case Submit(id, window, button) => true
    case CloseButton(id, window) => true
    case WindowEvent(id, outcome) => id in s.promoted && !outcome.Cancelled?
    case TakeOutcome(caller) =>
      caller in s.callers && s.callers[caller].Waiting? && caller in s.broker.slots && s.broker.slots[caller].Some?
    case CallerCancelled(caller) => caller in s.callers && s.callers[caller].Waiting?
    case TimedOut(caller) => caller in s.callers && s.callers[caller].Waiting?
    case FinishStep(caller) => caller in s.callers && s.callers[caller].Finishing? && caller in s.windows
    case DisconnectStep => true
    case TellCancelled(id) => id in s.cancelling
  }

  function Move(s: System, caller: DialogId, position: Position): System {
    s.(callers := s.callers[caller := position])
  }

  /** Sends an outcome and remembers it when the channel took it. */
  function Sending(s: System, id: DialogId, outcome: Outcome): System {
    var (broker, ok) := TrySend(s.broker, id, outcome);
    s.(broker := broker, accepted := if ok then s.accepted + [(id, outcome)] else s.accepted)
  }

  function Promoting(s: System, caller: DialogId, ending: Option<DialogResult>): System {
    var (broker, promoted) := PromoteNext(s.broker);
    match promoted
    case None => Move(s, caller, AfterActivation(ending))
    case Some(dialog) =>
      Move(s, caller, Opening(dialog.id, ending)).(broker := broker, promoted := s.promoted + [dialog.id])
  }

  function DrainedIds(b: Broker): set<DialogId> {
    (set i | 0 <= i < |b.pending| :: b.pending[i].id) + (if b.active.Some? then {b.active.value.id} else {})
  }

  function Requesting(s: System, dialog: Dialog): System {
    Move(s, dialog.id, Activating(None)).(
      broker := Enqueue(s.broker, dialog),
      windows := s.windows[dialog.id := dialog.window],
      requests := s.requests + 1,
      order := s.order[dialog.id := s.requests])
  }

  function FailingToOpen(s: System, caller: DialogId, dialog: DialogId, ending: Option<DialogResult>): System {
    var (broker, took) := TakeFailed(s.broker, dialog);
    if took then Move(s, caller, Reporting(dialog, ending)).(broker := broker)
    else Move(s, caller, Activating(ending))
  }

  function Taking(s: System, caller: DialogId, outcome: Outcome): System {
    Move(s, caller, Finishing(ResultOf(outcome))).(
      broker := s.broker.(slots := s.broker.slots[caller := None]),
      taken := s.taken[caller := outcome])
  }

  function Leaving(s: System, caller: DialogId, result: DialogResult, window: string): System {
    Move(s, caller, Activating(Some(result))).(broker := Finish(s.broker, caller, window))
  }

  function Disconnecting(s: System): System {
    s.(broker := Disconnect(s.broker), cancelling := s.cancelling + DrainedIds(s.broker))
  }

  function Apply(s: System, step: Step): System
    requires Enabled(s, step)
  {
    match step
    case Connect => s.(broker := s.broker.(connected := true))
    case RequestStep(dialog) => Requesting(s, dialog)
    case PromoteStep(caller) => Promoting(s, caller, s.callers[caller].ending)
    case Opened(caller) => Move(s, caller, AfterActivation(s.callers[caller].ending))
    case OpenFailed(caller) => FailingToOpen(s, caller, s.callers[caller].dialog, s.callers[caller].ending)
    case ReportFailure(caller, message) =>
      Move(Sending(s, s.callers[caller].dialog, Failed(message)), caller, Activating(s.callers[caller].ending))
    case Submit(id, window, button) =>
      if Authenticated(s.broker, id, window) then Sending(s, id, Response(button)) else s
    case CloseButton(id, window) =>
      if Authenticated(s.broker, id, window) && s.broker.active.value.closeResponse.Some?
      then Sending(s, id, Response(s.broker.active.value.closeResponse.value)) else s
    case WindowEvent(id, outcome) => Sending(s, id, outcome)
    case TakeOutcome(caller) => Taking(s, caller, s.broker.slots[caller].value)
    case CallerCancelled(caller) => Move(s, caller, Finishing(GaveUp))
    case TimedOut(caller) => Move(s, caller, Finishing(Answered("timeout")))
    case FinishStep(caller) => Leaving(s, caller, s.callers[caller].result, s.windows[caller])
    case DisconnectStep => Disconnecting(s)
    case TellCancelled(id) => Sending(s, id, Cancelled).(cancelling := s.cancelling - {id})
  }

  function Run(steps: seq<Step>): Option<System> {
    if steps == [] then Some(Init())
    else
      match Run(steps[..|steps| - 1])
      case None => None
      case Some(s) => if Enabled(s, steps[|steps| - 1]) then Some(Apply(s, steps[|steps| - 1])) else None
  }
}
