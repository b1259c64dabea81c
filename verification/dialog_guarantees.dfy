/** What the dialog broker guarantees over every run. */
module DialogGuarantees {
  import opened Wrappers
  import opened DialogModel
  import opened DialogInvariant

  // ---- every step keeps the invariant ----------------------------------------------

  lemma ReportingKeepsInv(s: System, caller: DialogId, message: string)
    requires Inv(s) && caller in s.callers && s.callers[caller].Reporting?
    ensures var from := s.callers[caller];
            Inv(Move(Sending(s, from.dialog, Failed(message)), caller, Activating(from.ending)))
  {
    var dialog := s.callers[caller].dialog;
    assert OpensPromoted(s, caller);
    var sent := Sending(s, dialog, Failed(message));
    SendingKeepsInv(s, dialog, Failed(message));
    assert sent.callers == s.callers && sent.broker.slots[dialog].Some?;
    hide Inv;
    MovingKeepsInv(sent, caller, Activating(s.callers[caller].ending));
  }

  lemma AnsweringKeepsInv(s: System, id: DialogId, window: string, button: string)
    requires Inv(s) && Authenticated(s.broker, id, window)
    ensures Inv(Sending(s, id, Response(button)))
  {
    SendingKeepsInv(s, id, Response(button));
  }

  lemma WakingKeepsInv(s: System, caller: DialogId, result: DialogResult)
    requires Inv(s) && caller in s.callers && s.callers[caller].Waiting?
    requires result == GaveUp || result == Answered("timeout")
    ensures Inv(Move(s, caller, Finishing(result)))
  {
    hide Inv;
    MovingKeepsInv(s, caller, Finishing(result));
  }

  lemma OpeningKeepsInv(s: System, caller: DialogId)
    requires Inv(s) && caller in s.callers && s.callers[caller].Opening?
    ensures Inv(Move(s, caller, AfterActivation(s.callers[caller].ending)))
  {
    hide Inv;
    MovingKeepsInv(s, caller, AfterActivation(s.callers[caller].ending));
  }

  lemma NextKeepsInv(s: System, step: Step)
    requires Inv(s) && Enabled(s, step)
    ensures Inv(Apply(s, step))
  {
    hide Inv, Sending, Move, Promoting, Requesting, FailingToOpen, Taking, Leaving, Disconnecting, AfterActivation;
    match step
    case Connect => ConnectingKeepsInv(s);
    case RequestStep(dialog) => RequestingKeepsInv(s, dialog);
    case PromoteStep(caller) => PromotingKeepsInv(s, caller, s.callers[caller].ending);
    case Opened(caller) => OpeningKeepsInv(s, caller);
    case OpenFailed(caller) => FailingKeepsInv(s, caller, s.callers[caller].dialog, s.callers[caller].ending);
    case ReportFailure(caller, message) => ReportingKeepsInv(s, caller, message);
    case Submit(id, window, button) =>
      if Authenticated(s.broker, id, window) { AnsweringKeepsInv(s, id, window, button); }
    case CloseButton(id, window) =>
      if Authenticated(s.broker, id, window) && s.broker.active.value.closeResponse.Some? {
        AnsweringKeepsInv(s, id, window, s.broker.active.value.closeResponse.value);
      }
    case WindowEvent(id, outcome) => SendingKeepsInv(s, id, outcome);
    case TakeOutcome(caller) => TakingKeepsInv(s, caller, s.broker.slots[caller].value);
    case CallerCancelled(caller) => WakingKeepsInv(s, caller, GaveUp);
    case TimedOut(caller) => WakingKeepsInv(s, caller, Answered("timeout"));
    case FinishStep(caller) => LeavingKeepsInv(s, caller, s.callers[caller].result, s.windows[caller]);
    case DisconnectStep => DisconnectingKeepsInv(s);
    case TellCancelled(id) => TellingKeepsInv(s, id);
  }

  /** Whatever the interleaving, the invariant holds. */
  lemma {:induction false} RunKeepsInv(steps: seq<Step>)
    ensures Run(steps).Some? ==> Inv(Run(steps).value)
  {
    if steps != [] {
      var before := Run(steps[..|steps| - 1]);
      RunKeepsInv(steps[..|steps| - 1]);
      if before.Some? && Enabled(before.value, steps[|steps| - 1]) {
        NextKeepsInv(before.value, steps[|steps| - 1]);
      }
    }
  }

  // ---- safety ----------------------------------------------------------------------

  /** What is strictly increasing in two lists one after the other. */
  ghost predicate Ascending(order: map<DialogId, nat>, shown: seq<DialogId>, pending: seq<Dialog>) {
    && (forall id | id in shown :: id in order)
    && (forall d | d in pending :: d.id in order)
    && (forall i, j :: 0 <= i < j < |shown| ==> order[shown[i]] < order[shown[j]])
    && (forall i, j :: 0 <= i < |shown| && 0 <= j < |pending| ==> order[shown[i]] < order[pending[j].id])
    && (forall i, j :: 0 <= i < j < |pending| ==> order[pending[i].id] < order[pending[j].id])
  }

  lemma InOrderAscends(order: map<DialogId, nat>, shown: seq<DialogId>, pending: seq<Dialog>)
    requires InOrder(order, shown + Ids(pending))
    ensures Ascending(order, shown, pending)
  {
    var ids := shown + Ids(pending);
    forall i | 0 <= i < |shown| ensures ids[i] == shown[i] && shown[i] in ids {
    }
    forall j | 0 <= j < |pending| ensures ids[|shown| + j] == pending[j].id && pending[j].id in ids {
    }
  }

  /** Dialogs are shown in the order they were asked for, each at most once, and whatever is still
      pending was asked for after everything shown. */
  lemma ShownInRequestOrder(steps: seq<Step>)
    requires Run(steps).Some?
    ensures var s := Run(steps).value; Ascending(s.order, s.promoted, s.broker.pending)
  {
    hide Ascending;
    RunKeepsInv(steps);
    var s := Run(steps).value;
    InOrderAscends(s.order, s.promoted, s.broker.pending);
  }

  /** A caller that left the broker, or returned, has its request neither active nor pending. */
  lemma ReturnedRequestIsGone(steps: seq<Step>, caller: DialogId)
    requires Run(steps).Some? && caller in Run(steps).value.callers
    requires !Unfinished(Run(steps).value.callers[caller])
    ensures var b := Run(steps).value.broker;
            (b.active.Some? ==> b.active.value.id != caller) && forall d | d in b.pending :: d.id != caller
  {
    RunKeepsInv(steps);
    var s := Run(steps).value;
    if s.broker.active.Some? {
      assert OwnedBy(s, s.broker.active.value);
    }
    forall d | d in s.broker.pending ensures d.id != caller {
      assert OwnedBy(s, d);
    }
  }

  /** The result that says this outcome. */
  ghost predicate Says(result: DialogResult, outcome: Outcome) {
    && (forall button :: outcome == Response(button) ==> result == Answered(button))
    && (outcome == Cancelled ==> result == GaveUp)
    && (forall message :: outcome == Failed(message) ==> result == Broken(message))
  }

  lemma MatchingSays(s: System, caller: DialogId)
    requires Inv(s) && caller in s.callers && Ended(s.callers[caller]).Some? && caller in s.taken
    ensures Says(Ended(s.callers[caller]).value, s.taken[caller])
  {
    assert ResultMatches(s, caller);
  }

  /** The result handed back says the one outcome taken from the caller's own channel, which a send for
      that request put there: its button, a cancellation or its failure. Without one it is a cancellation or
      a timeout. */
  lemma ResultIsOwn(steps: seq<Step>, caller: DialogId)
    requires Run(steps).Some? && caller in Run(steps).value.callers
    requires Run(steps).value.callers[caller].Returned?
    ensures var s := Run(steps).value;
            if caller in s.taken
            then Says(s.callers[caller].result, s.taken[caller]) && (caller, s.taken[caller]) in s.accepted
            else s.callers[caller].result in {GaveUp, Answered("timeout")}
  {
    RunKeepsInv(steps);
    if caller in Run(steps).value.taken {
      MatchingSays(Run(steps).value, caller);
    }
    assert ResultMatches(Run(steps).value, caller);
  }

  /** A caller takes at most one outcome: it can take only while it has taken nothing. */
  lemma TakenAtMostOnce(steps: seq<Step>, caller: DialogId)
    requires Run(steps).Some? && Enabled(Run(steps).value, TakeOutcome(caller))
    ensures caller !in Run(steps).value.taken
  {
    RunKeepsInv(steps);
    assert ResultMatches(Run(steps).value, caller);
  }

  /** Only cancellations reach a dialog that was never shown. */
  lemma AnswersReachShownDialogs(steps: seq<Step>, caller: DialogId)
    requires Run(steps).Some? && caller in Run(steps).value.taken && !Run(steps).value.taken[caller].Cancelled?
    ensures caller in Run(steps).value.promoted
  {
    RunKeepsInv(steps);
    var s := Run(steps).value;
    assert (caller, s.taken[caller]) in s.accepted;
  }

  /** A submission goes through exactly when it names the active dialog under the window that dialog's
      caller was given and its channel is free; then it fills that channel and changes nothing else. */
  lemma SubmissionsAreAuthenticated(steps: seq<Step>, id: DialogId, window: string, button: string)
    requires Run(steps).Some?
    ensures var s := Run(steps).value;
            var (broker, ok) := SubmitFromWindow(s.broker, id, window, button);
            && (ok <==> s.broker.active.Some? && s.broker.active.value.id == id && id in s.windows
                        && s.windows[id] == window && id in s.broker.slots && s.broker.slots[id].None?)
            && broker == (if ok then s.broker.(slots := s.broker.slots[id := Some(Response(button))]) else s.broker)
            && Apply(s, Submit(id, window, button)).broker == broker
  {
    RunKeepsInv(steps);
    var s := Run(steps).value;
    if s.broker.active.Some? {
      assert OwnedBy(s, s.broker.active.value);
    }
  }

  /** Closing a window counts as the answer its dialog names for that, on the same terms; a dialog that names
      none cannot be closed away. */
  lemma ClosingIsAnswering(steps: seq<Step>, id: DialogId, window: string)
    requires Run(steps).Some?
    ensures var s := Run(steps).value;
            var (broker, ok) := CancelFromWindow(s.broker, id, window);
            && (ok <==> s.broker.active.Some? && s.broker.active.value.id == id && id in s.windows
                        && s.windows[id] == window && id in s.broker.slots && s.broker.slots[id].None?
                        && s.broker.active.value.closeResponse.Some?)
            && broker == (if ok then
                            var button := s.broker.active.value.closeResponse.value;
                            s.broker.(slots := s.broker.slots[id := Some(Response(button))])
                          else s.broker)
            && Apply(s, CloseButton(id, window)).broker == broker
  {
    RunKeepsInv(steps);
    var s := Run(steps).value;
    if s.broker.active.Some? {
      assert OwnedBy(s, s.broker.active.value);
    }
  }

  /** A window that cannot be opened takes its dialog away from the front, if it is still there, and the
      error is what the dialog's own caller will find unless something came first. */
  lemma FailedWindowIsReported(steps: seq<Step>, caller: DialogId, message: string)
    requires Run(steps).Some? && caller in Run(steps).value.callers && Run(steps).value.callers[caller].Opening?
    ensures var s := Run(steps).value; var id := s.callers[caller].dialog;
            var failed := Apply(s, OpenFailed(caller));
            if s.broker.active.Some? && s.broker.active.value.id == id then
              && failed.broker == s.broker.(active := None) && failed.callers[caller].Reporting?
              && var told := Apply(failed, ReportFailure(caller, message));
              && told.callers[caller] == Activating(s.callers[caller].ending)
              && told.broker == failed.broker.(slots := told.broker.slots)
              && told.broker.slots == if id in s.broker.slots && s.broker.slots[id].None?
                                      then s.broker.slots[id := Some(Failed(message))] else s.broker.slots
            else failed.broker == s.broker && failed.callers[caller] == Activating(s.callers[caller].ending)
  {
  }

  /** Windows and disconnects may come at any time, whoever else is in the middle of what; a waiting caller may
      always be cancelled or time out; and it can take an outcome as soon as there is one. */
  lemma StepsArePossible(s: System, caller: DialogId, window: string, button: string)
    ensures Enabled(s, Submit(caller, window, button)) && Enabled(s, CloseButton(caller, window))
    ensures Enabled(s, DisconnectStep) && (s.broker.connected || Enabled(s, Connect))
    ensures caller in s.callers && s.callers[caller].Waiting? ==>
              && Enabled(s, CallerCancelled(caller)) && Enabled(s, TimedOut(caller))
              && (Enabled(s, TakeOutcome(caller)) <==> caller in s.broker.slots && s.broker.slots[caller].Some?)
  {
  }

  /** A console shows every dialog in its one window; without it each dialog has a window of its own. */
  lemma WindowsAreTheirOwn(a: DialogId, b: DialogId)
    ensures WindowLabel(true, a) == WindowLabel(true, b) == "desktop-dialog-console"
    ensures WindowLabel(false, a) == WindowLabel(false, b) ==> a == b
  {
    var prefix := "desktop-dialog-";
    if WindowLabel(false, a) == WindowLabel(false, b) {
      assert a == (prefix + a)[|prefix|..] && b == (prefix + b)[|prefix|..];
    }
  }

  // ---- progress --------------------------------------------------------------------

  /** With nobody inside `activate_next` before a promotion, a non-empty queue has an active dialog. */
  lemma NonEmptyQueueIsActive(steps: seq<Step>)
    requires Run(steps).Some? && Run(steps).value.broker.pending != []
    requires forall caller | caller in Run(steps).value.callers ::
               !Run(steps).value.callers[caller].Activating? && !Run(steps).value.callers[caller].Reporting?
    ensures Run(steps).value.broker.active.Some?
  {
    RunKeepsInv(steps);
  }

  /** A waiting caller is pending, active, about to be told, or has its outcome already: it never waits
      on a channel whose last sender is gone. */
  lemma WaitingIsNotForgotten(steps: seq<Step>, caller: DialogId)
    requires Run(steps).Some? && caller in Run(steps).value.callers
    requires Run(steps).value.callers[caller].Waiting?
    ensures Expected(Run(steps).value, caller)
  {
    RunKeepsInv(steps);
  }

  /** Once a disconnect has told everyone, every caller still waiting has its outcome, unless its
      failure is being reported. */
  lemma DisconnectReleasesEveryone(steps: seq<Step>, caller: DialogId)
    requires Run(steps).Some? && caller in Run(steps).value.callers
    requires Run(steps).value.callers[caller].Waiting?
    requires var b := Run(steps).value.broker; b.active.None? && b.pending == []
    requires Run(steps).value.cancelling == {}
    requires forall other | other in Run(steps).value.callers :: !Run(steps).value.callers[other].Reporting?
    ensures Enabled(Run(steps).value, TakeOutcome(caller))
  {
    WaitingIsNotForgotten(steps, caller);
  }

  // ---- a result is final -----------------------------------------------------------

  /** The caller whose thread takes the step, if one does. */
  function Actor(step: Step): Option<DialogId> {
    match step
    case RequestStep(dialog) => Some(dialog.id)
    case PromoteStep(caller) => Some(caller)
    case Opened(caller) => Some(caller)
    case OpenFailed(caller) => Some(caller)
    case ReportFailure(caller, _) => Some(caller)
    case TakeOutcome(caller) => Some(caller)
    case CallerCancelled(caller) => Some(caller)
    case TimedOut(caller) => Some(caller)
    case FinishStep(caller) => Some(caller)
    case _ => None
  }

  /** The same position and the same taken outcome. */
  predicate SameCaller(s: System, after: System, caller: DialogId)
    requires caller in s.callers
  {
    && caller in after.callers && after.callers[caller] == s.callers[caller]
    && (caller in after.taken <==> caller in s.taken) && (caller in s.taken ==> after.taken[caller] == s.taken[caller])
  }

  /** What sending leaves alone: everything but free channels and the account of what was accepted. */
  lemma SendingLeaves(s: System, id: DialogId, outcome: Outcome)
    ensures var after := Sending(s, id, outcome);
            && after.callers == s.callers && after.taken == s.taken
            && forall other | other in s.broker.slots && s.broker.slots[other].Some? ::
                 other in after.broker.slots && after.broker.slots[other] == s.broker.slots[other]
  {
  }

  /** What a failed opening leaves alone. */
  lemma FailingLeaves(s: System, caller: DialogId, dialog: DialogId, ending: Option<DialogResult>)
    ensures var after := FailingToOpen(s, caller, dialog, ending);
            && after.taken == s.taken && after.broker.slots == s.broker.slots
            && caller in after.callers && Ended(after.callers[caller]) == ending
            && after.callers == s.callers[caller := after.callers[caller]]
  {
    var after := FailingToOpen(s, caller, dialog, ending);
    var position := if TakeFailed(s.broker, dialog).1 then Reporting(dialog, ending) else Activating(ending);
    assert after.callers == s.callers[caller := position];
  }

  /** A step that is no caller's own moves no caller. */
  lemma NobodyMoves(s: System, step: Step)
    requires Enabled(s, step) && Actor(step).None?
    ensures Apply(s, step).callers == s.callers && Apply(s, step).taken == s.taken
  {
    hide Sending, Disconnect, DrainedIds;
    match step
    case Submit(id, window, button) => SendingLeaves(s, id, Response(button));
    case CloseButton(id, window) =>
      if Authenticated(s.broker, id, window) && s.broker.active.value.closeResponse.Some? {
        SendingLeaves(s, id, Response(s.broker.active.value.closeResponse.value));
      }
    case WindowEvent(id, outcome) => SendingLeaves(s, id, outcome);
    case TellCancelled(id) => SendingLeaves(s, id, Cancelled);
    case _ =>
  }

  /** A step that is a caller's own moves no other caller. */
  lemma OnlyActorMoves(s: System, step: Step, caller: DialogId)
    requires Enabled(s, step) && Actor(step).Some? && Actor(step) != Some(caller) && caller in s.callers
    ensures SameCaller(s, Apply(s, step), caller)
  {
    hide Sending, Promoting, FailingToOpen, Finish, Enqueue;
    match step
    case PromoteStep(actor) => PromotingLeaves(s, actor, s.callers[actor].ending);
    case OpenFailed(actor) => FailingLeaves(s, actor, s.callers[actor].dialog, s.callers[actor].ending);
    case ReportFailure(actor, message) => SendingLeaves(s, s.callers[actor].dialog, Failed(message));
    case _ =>
  }

  /** A step of another thread leaves a caller where it is. */
  lemma OthersLeaveAlone(s: System, step: Step, caller: DialogId)
    requires Enabled(s, step) && caller in s.callers && Actor(step) != Some(caller)
    ensures SameCaller(s, Apply(s, step), caller)
  {
    hide Apply, Enabled;
    if Actor(step).None? {
      NobodyMoves(s, step);
    } else {
      OnlyActorMoves(s, step, caller);
    }
  }

  /** The caller stops waiting for another reason than an outcome. */
  predicate Wakes(step: Step, caller: DialogId) {
    step == CallerCancelled(caller) || step == TimedOut(caller)
  }

  /** Only taking and waking give a caller a result in its own steps, and neither happens once it has one. */
  lemma OwnStepKeepsEnded(s: System, step: Step, caller: DialogId)
    requires Enabled(s, step) && caller in s.callers && Actor(step) == Some(caller)
    requires step != TakeOutcome(caller) && !Wakes(step, caller)
    ensures var after := Apply(s, step);
            && caller in after.callers && Ended(after.callers[caller]) == Ended(s.callers[caller])
                && after.taken == s.taken
  {
    hide Sending, Promoting, FailingToOpen, Finish, Enqueue;
    match step
    case PromoteStep(_) => PromotingLeaves(s, caller, s.callers[caller].ending);
    case OpenFailed(_) => FailingLeaves(s, caller, s.callers[caller].dialog, s.callers[caller].ending);
    case ReportFailure(_, message) => SendingLeaves(s, s.callers[caller].dialog, Failed(message));
    case _ =>
  }

  lemma EndedNeitherTakesNorWakes(s: System, step: Step, caller: DialogId)
    requires Enabled(s, step) && caller in s.callers && Ended(s.callers[caller]).Some?
    ensures step != TakeOutcome(caller) && !Wakes(step, caller)
  {
  }

  /** No step changes the result or the taken outcome of a caller that has a result. */
  lemma ResultIsFinal(s: System, step: Step, caller: DialogId)
    requires Enabled(s, step) && caller in s.callers && Ended(s.callers[caller]).Some?
    ensures var after := Apply(s, step);
            && caller in after.callers && Ended(after.callers[caller]) == Ended(s.callers[caller])
            && (caller in after.taken <==> caller in s.taken)
            && (caller in s.taken ==> after.taken[caller] == s.taken[caller])
  {
    hide Apply, Enabled;
    if Actor(step) == Some(caller) {
      EndedNeitherTakesNorWakes(s, step, caller);
      OwnStepKeepsEnded(s, step, caller);
    } else {
      OthersLeaveAlone(s, step, caller);
    }
  }

  function Continue(s: System, steps: seq<Step>): Option<System>
    decreases |steps|
  {
    if steps == [] then Some(s)
    else if Enabled(s, steps[0]) then Continue(Apply(s, steps[0]), steps[1..])
    else None
  }

  /** An answer accepted after its caller already has a result is lost: whatever follows, the caller
      keeps its result and never takes another outcome. */
  lemma {:induction false} LateAnswerNeverCounts(s: System, steps: seq<Step>, caller: DialogId)
    requires caller in s.callers && Ended(s.callers[caller]).Some?
    ensures Continue(s, steps).Some? ==>
              var after := Continue(s, steps).value;
              && caller in after.callers && Ended(after.callers[caller]) == Ended(s.callers[caller])
              && (caller in after.taken <==> caller in s.taken)
              && (caller in s.taken ==> after.taken[caller] == s.taken[caller])
    decreases |steps|
  {
    hide Apply, Enabled;
    if steps != [] && Enabled(s, steps[0]) {
      ResultIsFinal(s, steps[0], caller);
      LateAnswerNeverCounts(Apply(s, steps[0]), steps[1..], caller);
    }
  }

  ghost predicate NeverWakes(steps: seq<Step>, caller: DialogId) {
    forall i :: 0 <= i < |steps| ==> !Wakes(steps[i], caller)
  }

  lemma NeverWakesFirst(steps: seq<Step>, caller: DialogId)
    requires steps != []
    ensures NeverWakes(steps, caller) <==> !Wakes(steps[0], caller) && NeverWakes(steps[1..], caller)
  {
    if NeverWakes(steps[1..], caller) {
      forall i | 1 <= i < |steps| ensures !Wakes(steps[i], caller) {
        assert !Wakes(steps[1..][i - 1], caller);
      }
    }
  }

  /** A caller that has a result is not waiting and does not wait again. */
  lemma {:induction false} EndedNeverWakes(s: System, steps: seq<Step>, caller: DialogId)
    requires caller in s.callers && Ended(s.callers[caller]).Some? && Continue(s, steps).Some?
    ensures NeverWakes(steps, caller)
    decreases |steps|
  {
    if steps != [] {
      EndedNeitherTakesNorWakes(s, steps[0], caller);
      ResultIsFinal(s, steps[0], caller);
      hide Apply, Enabled;
      EndedNeverWakes(Apply(s, steps[0]), steps[1..], caller);
      NeverWakesFirst(steps, caller);
    }
  }

  /** The caller has no result yet and this outcome lies in its channel. */
  predicate HasAnswer(s: System, caller: DialogId, outcome: Outcome) {
    && caller in s.callers && Ended(s.callers[caller]).None?
    && caller in s.broker.slots && s.broker.slots[caller] == Some(outcome)
  }

  /** What lies in a channel stays there, but for the taking of its own caller. */
  lemma ChannelKeeps(s: System, step: Step, caller: DialogId, outcome: Outcome)
    requires Enabled(s, step) && caller in s.callers && step != TakeOutcome(caller)
    requires caller in s.broker.slots && s.broker.slots[caller] == Some(outcome)
    ensures var b := Apply(s, step).broker; caller in b.slots && b.slots[caller] == Some(outcome)
  {
    hide Apply, Enabled;
    if Actor(step).None? {
      OutsideKeepsChannel(s, step, caller, outcome);
    } else {
      CallersKeepChannel(s, step, caller, outcome);
    }
  }

  lemma OutsideKeepsChannel(s: System, step: Step, caller: DialogId, outcome: Outcome)
    requires Enabled(s, step) && Actor(step).None?
    requires caller in s.broker.slots && s.broker.slots[caller] == Some(outcome)
    ensures var b := Apply(s, step).broker; caller in b.slots && b.slots[caller] == Some(outcome)
  {
    hide Sending, DrainedIds;
    match step
    case Submit(id, window, button) => SendingLeaves(s, id, Response(button));
    case CloseButton(id, window) =>
      if Authenticated(s.broker, id, window) && s.broker.active.value.closeResponse.Some? {
        SendingLeaves(s, id, Response(s.broker.active.value.closeResponse.value));
      }
    case WindowEvent(id, outcome) => SendingLeaves(s, id, outcome);
    case TellCancelled(id) => SendingLeaves(s, id, Cancelled);
    case _ =>
  }

  lemma CallersKeepChannel(s: System, step: Step, caller: DialogId, outcome: Outcome)
    requires Enabled(s, step) && Actor(step).Some? && step != TakeOutcome(caller) && caller in s.callers
    requires caller in s.broker.slots && s.broker.slots[caller] == Some(outcome)
    ensures var b := Apply(s, step).broker; caller in b.slots && b.slots[caller] == Some(outcome)
  {
    hide Sending, Promoting, FailingToOpen, Leaving;
    match step
    case PromoteStep(actor) => PromotingLeaves(s, actor, s.callers[actor].ending);
    case OpenFailed(actor) => FailingLeaves(s, actor, s.callers[actor].dialog, s.callers[actor].ending);
    case ReportFailure(actor, message) => SendingLeaves(s, s.callers[actor].dialog, Failed(message));
    case FinishStep(actor) => LeavingLeaves(s, actor, s.callers[actor].result, s.windows[actor]);
    case _ =>
  }

  /** An outcome stays in the channel until its own caller takes it or wakes. */
  lemma AnswerStays(s: System, step: Step, caller: DialogId, outcome: Outcome)
    requires Enabled(s, step) && HasAnswer(s, caller, outcome)
    requires step != TakeOutcome(caller) && !Wakes(step, caller)
    ensures HasAnswer(Apply(s, step), caller, outcome)
  {
    hide Apply, Enabled;
    ChannelKeeps(s, step, caller, outcome);
    if Actor(step) == Some(caller) {
      OwnStepKeepsEnded(s, step, caller);
    } else {
      OthersLeaveAlone(s, step, caller);
    }
  }

  /** The caller's taking gives it this outcome. */
  lemma TakingEnds(s: System, caller: DialogId, outcome: Outcome)
    requires Enabled(s, TakeOutcome(caller)) && HasAnswer(s, caller, outcome)
    ensures var after := Apply(s, TakeOutcome(caller));
            caller in after.callers && Ended(after.callers[caller]).Some? && Took(after, caller, outcome)
  {
  }

  /** Its waking gives it a result and no outcome. */
  lemma WakingEnds(s: System, step: Step, caller: DialogId)
    requires Enabled(s, step) && caller in s.callers && Wakes(step, caller)
    ensures var after := Apply(s, step);
            caller in after.callers && Ended(after.callers[caller]).Some? && after.taken == s.taken
  {
  }

  lemma UnendedTookNothing(s: System, caller: DialogId)
    requires Inv(s) && caller in s.callers && Ended(s.callers[caller]).None?
    ensures caller !in s.taken
  {
    assert ResultMatches(s, caller);
  }

  ghost predicate Took(s: System, caller: DialogId, outcome: Outcome) {
    caller in s.taken && s.taken[caller] == outcome
  }

  lemma EndedKeepsTook(s: System, steps: seq<Step>, caller: DialogId, outcome: Outcome)
    requires caller in s.callers && Ended(s.callers[caller]).Some? && Continue(s, steps).Some?
    ensures Took(Continue(s, steps).value, caller, outcome) <==> Took(s, caller, outcome)
    ensures NeverWakes(steps, caller)
  {
    hide Apply, Enabled, Continue, Ended;
    LateAnswerNeverCounts(s, steps, caller);
    EndedNeverWakes(s, steps, caller);
  }

  /** Taking or waking decides, whatever follows. */
  lemma EndingDecides(s: System, step: Step, rest: seq<Step>, caller: DialogId, outcome: Outcome)
    requires Inv(s) && HasAnswer(s, caller, outcome) && Enabled(s, step) && Continue(Apply(s, step), rest).Some?
    requires step == TakeOutcome(caller) || Wakes(step, caller)
    ensures Took(Continue(Apply(s, step), rest).value, caller, outcome) <==> !Wakes(step, caller)
    ensures NeverWakes(rest, caller)
  {
    hide Inv, Apply, Enabled, NeverWakes, Ended;
    UnendedTookNothing(s, caller);
    if step == TakeOutcome(caller) {
      TakingEnds(s, caller, outcome);
    } else {
      WakingEnds(s, step, caller);
    }
    EndedKeepsTook(Apply(s, step), rest, caller, outcome);
  }

  /** Whatever follows: once a caller has a result, the outcome that lay in its channel is what it took
      exactly when the caller was neither cancelled nor timed out before taking it. */
  lemma {:induction false} AnswerCountsIff(s: System, steps: seq<Step>, caller: DialogId, outcome: Outcome)
    requires Inv(s) && HasAnswer(s, caller, outcome) && Continue(s, steps).Some?
    requires var after := Continue(s, steps).value; caller in after.callers && Ended(after.callers[caller]).Some?
    ensures Took(Continue(s, steps).value, caller, outcome) <==> NeverWakes(steps, caller)
    decreases |steps|
  {
    hide Inv, Apply, Enabled, NeverWakes, Ended, Took;
    if steps == [] {
    } else {
      var step, rest := steps[0], steps[1..];
      NeverWakesFirst(steps, caller);
      if step == TakeOutcome(caller) || Wakes(step, caller) {
        EndingDecides(s, step, rest, caller, outcome);
      } else {
        AnswerStays(s, step, caller, outcome);
        NextKeepsInv(s, step);
        AnswerCountsIff(Apply(s, step), rest, caller, outcome);
      }
    }
  }

  lemma TookAnswers(s: System, caller: DialogId, button: string)
    requires Inv(s) && caller in s.callers && Ended(s.callers[caller]).Some?
    ensures Took(s, caller, Response(button)) ==> Ended(s.callers[caller]) == Some(Answered(button))
  {
    if Took(s, caller, Response(button)) {
      MatchingSays(s, caller);
    }
  }

  lemma SubmissionIsThere(s: System, id: DialogId, window: string, button: string)
    requires Inv(s) && SubmitFromWindow(s.broker, id, window, button).1
    ensures id in s.callers && Enabled(s, Submit(id, window, button))
    ensures Ended(s.callers[id]).None? ==> HasAnswer(Apply(s, Submit(id, window, button)), id, Response(button))
  {
    assert OwnedBy(s, s.broker.active.value);
    hide Inv, Promoting, Requesting, FailingToOpen, Leaving, Disconnecting, Taking;
  }

  lemma {:induction false} ContinueKeepsInv(s: System, steps: seq<Step>)
    requires Inv(s)
    ensures Continue(s, steps).Some? ==> Inv(Continue(s, steps).value)
    decreases |steps|
  {
    hide Inv, Apply, Enabled;
    if steps != [] && Enabled(s, steps[0]) {
      NextKeepsInv(s, steps[0]);
      ContinueKeepsInv(Apply(s, steps[0]), steps[1..]);
    }
  }

  /** An accepted submission, in every continuation in which its caller gets a result: it is what the
      caller takes exactly when the caller had no result yet and then neither a cancellation nor the
      timeout came first, and then its button is the caller's result; a caller that had a result keeps it
      and what it took. */
  lemma AcceptedSubmissionCountsIff(s: System, id: DialogId, window: string, button: string, steps: seq<Step>)
    requires Inv(s) && SubmitFromWindow(s.broker, id, window, button).1
    requires Continue(Apply(s, Submit(id, window, button)), steps).Some?
    requires var after := Continue(Apply(s, Submit(id, window, button)), steps).value;
             id in after.callers && Ended(after.callers[id]).Some?
    ensures id in s.callers
    ensures var after := Continue(Apply(s, Submit(id, window, button)), steps).value;
            if Ended(s.callers[id]).None? then
              && (Took(after, id, Response(button)) <==> NeverWakes(steps, id))
              && (NeverWakes(steps, id) ==> Ended(after.callers[id]) == Some(Answered(button)))
            else Ended(after.callers[id]) == Ended(s.callers[id]) && (id in after.taken <==> id in s.taken)
                 && (id in s.taken ==> after.taken[id] == s.taken[id])
  {
    var step := Submit(id, window, button);
    SubmissionIsThere(s, id, window, button);
    hide Inv, Apply, Continue, SubmitFromWindow, NeverWakes, Took;
    NextKeepsInv(s, step);
    if Ended(s.callers[id]).None? {
      AnswerCountsIff(Apply(s, step), steps, id, Response(button));
      ContinueKeepsInv(Apply(s, step), steps);
      TookAnswers(Continue(Apply(s, step), steps).value, id, button);
    } else {
      ResultIsFinal(s, step, id);
      LateAnswerNeverCounts(Apply(s, step), steps, id);
    }
  }

  // ---- a submission the broker accepts and then loses ------------------------------

  const LATE := Dialog("a", "desktop-dialog-a", None)

  /** The caller times out; before it takes its request out, its window submits; the submission is
      accepted although the caller returns the timeout. */
  function LateSubmitRun(): seq<Step> {
    [Connect, RequestStep(LATE), PromoteStep("a"), Opened("a"), TimedOut("a"), Submit("a", "desktop-dialog-a", "ok")]
  }

  lemma RunOneMore(steps: seq<Step>, step: Step)
    requires Run(steps).Some? && Enabled(Run(steps).value, step)
    ensures Run(steps + [step]) == Some(Apply(Run(steps).value, step))
  {
    assert (steps + [step])[..|steps|] == steps;
  }

  /** The caller waits for its dialog, the first four steps of the run done. */
  function LateWaiting(): System {
    System(Broker(true, Some(LATE), [], map["a" := None]), map["a" := Waiting], map["a" := "desktop-dialog-a"], {}, 1,
           map["a" := 0], ["a"], [], map[])
  }

  lemma LateCallerWaits()
    ensures Run(LateSubmitRun()[..4]) == Some(LateWaiting())
  {
    var steps := LateSubmitRun();
    assert steps[..0] == [] && Run(steps[..0]) == Some(Init());
    forall k: nat | k < 4 ensures steps[..k] + [steps[k]] == steps[..k + 1] {
    }
    hide Run, PendingIndex, DrainedIds;
    RunOneMore(steps[..0], steps[0]);
    RunOneMore(steps[..1], steps[1]);
    RunOneMore(steps[..2], steps[2]);
    RunOneMore(steps[..3], steps[3]);
    var s := Run(steps[..4]).value;
    assert s.broker == LateWaiting().broker && s.callers == LateWaiting().callers;
    assert s.windows == LateWaiting().windows && s.order == LateWaiting().order;
    assert s.cancelling == LateWaiting().cancelling;
    assert s.requests == LateWaiting().requests;
    assert s.promoted == LateWaiting().promoted;
    assert s.accepted == LateWaiting().accepted;
    assert s.taken == LateWaiting().taken;
  }

  /** "An accepted submission is the caller's answer" fails on this run. */
  lemma LateSubmitIsLost()
    ensures Run(LateSubmitRun()).Some?
    ensures var s := Run(LateSubmitRun()).value;
            && ("a", Response("ok")) in s.accepted
            && "a" in s.callers && Ended(s.callers["a"]) == Some(Answered("timeout")) && "a" !in s.taken
  {
    var steps := LateSubmitRun();
    LateCallerWaits();
    assert steps[..4] + [steps[4]] == steps[..5] && steps[..5] + [steps[5]] == steps;
    hide Run, PendingIndex, DrainedIds;
    RunOneMore(steps[..4], steps[4]);
    RunOneMore(steps[..5], steps[5]);
  }

  /** What is lost is at most one answer per dialog. */
  lemma AtMostOneAnswerLost(steps: seq<Step>, caller: DialogId)
    requires Run(steps).Some?
    ensures var s := Run(steps).value;
            WasTaken(s, caller) <= AcceptedFor(s.accepted, caller) <= WasTaken(s, caller) + 1
  {
    RunKeepsInv(steps);
  }
}
