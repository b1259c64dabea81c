/** What every interleaving of dialog threads keeps. */
module DialogInvariant {
  import opened Wrappers
  import opened DialogModel

  // ---- order -----------------------------------------------------------------------

  /** The ids appear in request order, each at most once. */
  ghost predicate InOrder(order: map<DialogId, nat>, ids: seq<DialogId>) {
    && (forall id | id in ids :: id in order)
    && forall i, j :: 0 <= i < j < |ids| ==> order[ids[i]] < order[ids[j]]
  }

  lemma InOrderAppend(order: map<DialogId, nat>, ids: seq<DialogId>, next: DialogId, rank: nat)
    requires InOrder(order, ids) && next !in order
    requires forall id | id in order :: order[id] < rank
    ensures InOrder(order[next := rank], ids + [next])
  {
  }

  lemma InOrderWithout(order: map<DialogId, nat>, ids: seq<DialogId>, i: nat)
    requires InOrder(order, ids) && i < |ids|
    ensures InOrder(order, ids[..i] + ids[i + 1..])
    ensures ids[i] !in ids[..i] + ids[i + 1..]
  {
    var less := ids[..i] + ids[i + 1..];
    forall j | 0 <= j < |less| ensures less[j] == ids[if j < i then j else j + 1] && less[j] != ids[i] {
    }
  }

  function Ids(dialogs: seq<Dialog>): seq<DialogId> {
    seq(|dialogs|, i requires 0 <= i < |dialogs| => dialogs[i].id)
  }

  // ---- the invariant ---------------------------------------------------------------

  /** The result a caller already has, once it has stopped waiting. */
  function Ended(p: Position): Option<DialogResult> {
    match p
    case Activating(ending) => ending
    case Opening(_, ending) => ending
    case Reporting(_, ending) => ending
    case Waiting => None
    case Finishing(result) => Some(result)
    case Returned(result) => Some(result)
  }

  /** The caller has not yet taken its own request out of the broker. */
  predicate Unfinished(p: Position) {
    Ended(p).None? || p.Finishing?
  }

  ghost predicate Known(s: System) {
    && (forall id: DialogId :: id in s.callers <==> id in s.windows)
    && (forall id: DialogId :: id in s.callers <==> id in s.broker.slots)
    && (forall id: DialogId :: id in s.callers <==> id in s.order)
    && (forall id | id in s.order :: s.order[id] < s.requests)
    && (forall id | id in s.cancelling :: id in s.callers)
    && (forall id | id in s.taken :: id in s.callers)
    && (forall caller | caller in s.callers :: OpensPromoted(s, caller))
  }

  ghost predicate OpensPromoted(s: System, caller: DialogId)
    requires caller in s.callers
  {
    match s.callers[caller]
    case Opening(dialog, _) => dialog in s.promoted && dialog in s.callers
    case Reporting(dialog, _) => dialog in s.promoted && dialog in s.callers
    case _ => true
  }

  /** Promoted and then pending requests stand in request order; the active one was promoted. */
  ghost predicate Fifo(s: System) {
    && InOrder(s.order, s.promoted + Ids(s.broker.pending))
    && (s.broker.active.Some? ==> s.broker.active.value.id in s.promoted)
  }

  /** What the broker holds belongs to callers that have not finished it, under the right window. */
  ghost predicate Owned(s: System) {
    && (forall d | d in s.broker.pending :: OwnedBy(s, d))
    && (s.broker.active.Some? ==> OwnedBy(s, s.broker.active.value))
  }

  ghost predicate OwnedBy(s: System, d: Dialog) {
    d.id in s.callers && Unfinished(s.callers[d.id]) && d.id in s.windows && s.windows[d.id] == d.window
  }

  /** A caller without a result is known to someone who will give it one. */
  ghost predicate Expected(s: System, id: DialogId) {
    || id in Ids(s.broker.pending)
    || (s.broker.active.Some? && s.broker.active.value.id == id)
    || id in s.cancelling
    || (id in s.broker.slots && s.broker.slots[id].Some?)
    || exists reporter :: reporter in s.callers && s.callers[reporter].Reporting? && s.callers[reporter].dialog == id
  }

  ghost predicate NobodyForgotten(s: System) {
    forall id | id in s.callers && Ended(s.callers[id]).None? :: Expected(s, id)
  }

  /** Someone is about to promote whenever nothing is active and something is pending. */
  ghost predicate SomeoneWillActivate(s: System) {
    s.broker.active.None? && s.broker.pending != [] ==>
      exists caller :: caller in s.callers && (s.callers[caller].Activating? || s.callers[caller].Reporting?)
  }

  function AcceptedFor(accepted: seq<(DialogId, Outcome)>, id: DialogId): nat {
    if accepted == [] then 0
    else AcceptedFor(accepted[..|accepted| - 1], id) + (if accepted[|accepted| - 1].0 == id then 1 else 0)
  }

  function InSlot(s: System, id: DialogId): nat {
    if id in s.broker.slots && s.broker.slots[id].Some? then 1 else 0
  }

  function WasTaken(s: System, id: DialogId): nat {
    if id in s.taken then 1 else 0
  }

  /** Every accepted outcome is either taken by its own caller or still in its channel. */
  ghost predicate OutcomesAccounted(s: System) {
    && (forall id: DialogId :: AcceptedFor(s.accepted, id) == WasTaken(s, id) + InSlot(s, id))
    && (forall id | id in s.taken :: (id, s.taken[id]) in s.accepted)
    && (forall id | id in s.broker.slots && s.broker.slots[id].Some? :: (id, s.broker.slots[id].value) in s.accepted)
    && (forall send | send in s.accepted :: send.1.Cancelled? || send.0 in s.promoted)
  }

  /** A caller's result is what it took, or a cancellation or timeout when it took nothing. */
  ghost predicate ResultsMatch(s: System) {
    forall id | id in s.callers :: ResultMatches(s, id)
  }

  ghost predicate ResultMatches(s: System, id: DialogId)
    requires id in s.callers
  {
    match Ended(s.callers[id])
    case None => id !in s.taken
    case Some(result) =>
      if id in s.taken then result == ResultOf(s.taken[id]) else result == GaveUp || result == Answered("timeout")
  }

  /** Who and what exists, and in which order. */
  ghost predicate Structure(s: System) {
    Known(s) && Fifo(s) && Owned(s)
  }

  ghost predicate Progress(s: System) {
    NobodyForgotten(s) && SomeoneWillActivate(s)
  }

  ghost predicate Outcomes(s: System) {
    OutcomesAccounted(s) && ResultsMatch(s)
  }

  ghost predicate Inv(s: System) {
    Structure(s) && Progress(s) && Outcomes(s)
  }

  // ---- sending an outcome ----------------------------------------------------------

  lemma SendingKeepsStructure(s: System, id: DialogId, outcome: Outcome)
    requires Structure(s)
    ensures Structure(Sending(s, id, outcome))
  {
  }

  lemma SendingKeepsProgress(s: System, id: DialogId, outcome: Outcome)
    requires Progress(s)
    ensures Progress(Sending(s, id, outcome))
  {
    var after := Sending(s, id, outcome);
    forall other | other in after.callers && Ended(after.callers[other]).None? ensures Expected(after, other) {
      assert Expected(s, other);
    }
  }

  lemma AcceptedOneMore(accepted: seq<(DialogId, Outcome)>, send: (DialogId, Outcome), id: DialogId)
    ensures AcceptedFor(accepted + [send], id) == AcceptedFor(accepted, id) + (if send.0 == id then 1 else 0)
  {
    assert (accepted + [send])[..|accepted|] == accepted;
  }

  lemma SendingKeepsOutcomes(s: System, id: DialogId, outcome: Outcome)
    requires Outcomes(s) && (outcome.Cancelled? || id in s.promoted)
    ensures Outcomes(Sending(s, id, outcome))
  {
    hide AcceptedFor;
    var after := Sending(s, id, outcome);
    forall other: DialogId
      ensures AcceptedFor(after.accepted, other) == WasTaken(after, other) + InSlot(after, other)
    {
      AcceptedOneMore(s.accepted, (id, outcome), other);
    }
    forall other | other in after.callers ensures ResultMatches(after, other) {
      assert ResultMatches(s, other);
    }
  }

  lemma SendingKeepsInv(s: System, id: DialogId, outcome: Outcome)
    requires Inv(s) && (outcome.Cancelled? || id in s.promoted)
    ensures Inv(Sending(s, id, outcome))
  {
    hide Structure, Progress, Outcomes;
    SendingKeepsStructure(s, id, outcome);
    SendingKeepsProgress(s, id, outcome);
    SendingKeepsOutcomes(s, id, outcome);
  }

  /** A disconnect's `Cancelled` reaches its channel, so its caller need not be remembered any longer. */
  lemma TellingKeepsInv(s: System, id: DialogId)
    requires Inv(s) && id in s.cancelling
    ensures Inv(Sending(s, id, Cancelled).(cancelling := s.cancelling - {id}))
  {
    var sent := Sending(s, id, Cancelled);
    var after := sent.(cancelling := s.cancelling - {id});
    SendingKeepsInv(s, id, Cancelled);
    ForgettingKeepsStructure(sent, id);
    ForgettingKeepsProgress(sent, id);
    ForgettingKeepsOutcomes(sent, id);
  }

  lemma ForgettingKeepsStructure(s: System, id: DialogId)
    requires Structure(s)
    ensures Structure(s.(cancelling := s.cancelling - {id}))
  {
  }

  lemma ForgettingKeepsProgress(s: System, id: DialogId)
    requires Progress(s) && id in s.broker.slots && s.broker.slots[id].Some?
    ensures Progress(s.(cancelling := s.cancelling - {id}))
  {
    var after := s.(cancelling := s.cancelling - {id});
    forall other | other in after.callers && Ended(after.callers[other]).None? ensures Expected(after, other) {
      assert Expected(s, other);
    }
  }

  lemma ForgettingKeepsOutcomes(s: System, id: DialogId)
    requires Outcomes(s)
    ensures Outcomes(s.(cancelling := s.cancelling - {id}))
  {
    var after := s.(cancelling := s.cancelling - {id});
    forall other | other in after.callers ensures ResultMatches(after, other) {
      assert ResultMatches(s, other);
    }
  }

  // ---- moving one thread -----------------------------------------------------------

  /** A thread may move on when its result stays the same, or is a fresh cancellation or timeout,
      and the dialog it now opens or reports was promoted. */
  ghost predicate MayMove(s: System, caller: DialogId, position: Position) {
    && caller in s.callers
    && OpensPromoted(Move(s, caller, position), caller)
    && (if Ended(s.callers[caller]) == Ended(position) then Unfinished(s.callers[caller]) ==> Unfinished(position)
        else
          && Ended(s.callers[caller]) == None && position.Finishing?
          && position.result in {GaveUp, Answered("timeout")})
  }

  lemma MovingKeepsOwned(s: System, caller: DialogId, position: Position)
    requires Owned(s) && MayMove(s, caller, position)
    ensures Owned(Move(s, caller, position))
  {
    var after := Move(s, caller, position);
    forall d: Dialog | OwnedBy(s, d) ensures OwnedBy(after, d) {
    }
    hide OwnedBy;
  }

  lemma MovingKeepsKnown(s: System, caller: DialogId, position: Position)
    requires Known(s) && MayMove(s, caller, position)
    ensures Known(Move(s, caller, position))
  {
    var after := Move(s, caller, position);
    forall other | other in after.callers ensures OpensPromoted(after, other) {
      assert other in s.callers && OpensPromoted(s, other);
    }
  }

  lemma MovingKeepsStructure(s: System, caller: DialogId, position: Position)
    requires Structure(s) && MayMove(s, caller, position)
    ensures Structure(Move(s, caller, position))
  {
    hide Known, Owned, MayMove, InOrder;
    MovingKeepsKnown(s, caller, position);
    MovingKeepsOwned(s, caller, position);
  }

  /** A thread that stops reporting or activating must leave nobody forgotten and nothing stuck. */
  lemma MovingKeepsProgress(s: System, caller: DialogId, position: Position)
    requires Progress(s) && MayMove(s, caller, position)
    requires s.callers[caller].Reporting? ==>
               var dialog := s.callers[caller].dialog; dialog in s.broker.slots && s.broker.slots[dialog].Some?
    requires position.Activating? || position.Reporting? || s.broker.active.Some? || s.broker.pending == []
             || !(s.callers[caller].Activating? || s.callers[caller].Reporting?)
    ensures Progress(Move(s, caller, position))
  {
    var after := Move(s, caller, position);
    forall other | other in after.callers && Ended(after.callers[other]).None? ensures Expected(after, other) {
      assert other in s.callers && Ended(s.callers[other]).None?;
      assert Expected(s, other);
      if reporter :| reporter in s.callers && s.callers[reporter].Reporting? && s.callers[reporter].dialog == other {
        assert reporter != caller ==> reporter in after.callers && after.callers[reporter].Reporting?;
      }
    }
    if s.broker.active.None? && s.broker.pending != [] {
      var some :| some in s.callers && (s.callers[some].Activating? || s.callers[some].Reporting?);
      assert some in after.callers;
    }
  }

  lemma MovingKeepsOutcomes(s: System, caller: DialogId, position: Position)
    requires Outcomes(s) && MayMove(s, caller, position)
    ensures Outcomes(Move(s, caller, position))
  {
    var after := Move(s, caller, position);
    forall other | other in after.callers ensures ResultMatches(after, other) {
      assert other in s.callers && ResultMatches(s, other);
    }
  }

  lemma MovingKeepsInv(s: System, caller: DialogId, position: Position)
    requires Inv(s) && MayMove(s, caller, position)
    requires s.callers[caller].Reporting? ==>
               var dialog := s.callers[caller].dialog; dialog in s.broker.slots && s.broker.slots[dialog].Some?
    requires position.Activating? || position.Reporting? || s.broker.active.Some? || s.broker.pending == []
             || !(s.callers[caller].Activating? || s.callers[caller].Reporting?)
    ensures Inv(Move(s, caller, position))
  {
    hide Structure, Progress, Outcomes, MayMove;
    MovingKeepsStructure(s, caller, position);
    MovingKeepsProgress(s, caller, position);
    MovingKeepsOutcomes(s, caller, position);
  }

  // ---- promoting -------------------------------------------------------------------

  /** What promoting leaves alone, whether or not it promotes. */
  lemma PromotingLeaves(s: System, caller: DialogId, ending: Option<DialogResult>)
    ensures var after := Promoting(s, caller, ending);
            && after.accepted == s.accepted && after.taken == s.taken && after.broker.slots == s.broker.slots
            && s.promoted <= after.promoted && caller in after.callers && Ended(after.callers[caller]) == ending
            && after.callers == s.callers[caller := after.callers[caller]]
  {
    var after := Promoting(s, caller, ending);
    var position := if PromoteNext(s.broker).1.None? then AfterActivation(ending)
                    else Opening(PromoteNext(s.broker).1.value.id, ending);
    assert after.callers == s.callers[caller := position];
  }

  lemma PromotingKeepsKnown(s: System, caller: DialogId, ending: Option<DialogResult>)
    requires Known(s) && caller in s.callers && s.callers[caller] == Activating(ending)
    requires s.broker.active.None? && s.broker.pending != [] && s.broker.pending[0].id in s.callers
    ensures Known(Promoting(s, caller, ending))
  {
    var after := Promoting(s, caller, ending);
    forall other | other in after.callers ensures OpensPromoted(after, other) {
      assert other in s.callers && OpensPromoted(s, other);
    }
  }

  lemma PromotingKeepsFifo(s: System, caller: DialogId, ending: Option<DialogResult>)
    requires Fifo(s) && s.broker.active.None? && s.broker.pending != []
    ensures Fifo(Promoting(s, caller, ending))
  {
    var after := Promoting(s, caller, ending);
    var first := s.broker.pending[0];
    assert Ids(s.broker.pending) == [first.id] + Ids(after.broker.pending);
    assert after.promoted + Ids(after.broker.pending) == s.promoted + Ids(s.broker.pending);
    hide InOrder;
  }

  lemma PromotingKeepsOwned(s: System, caller: DialogId, ending: Option<DialogResult>)
    requires Owned(s) && caller in s.callers && s.callers[caller] == Activating(ending)
    requires s.broker.active.None? && s.broker.pending != []
    ensures s.broker.pending[0].id in s.callers
    ensures Owned(Promoting(s, caller, ending))
  {
    var after := Promoting(s, caller, ending);
    assert OwnedBy(s, s.broker.pending[0]);
    forall d | d in s.broker.pending ensures OwnedBy(after, d) {
      assert OwnedBy(s, d);
    }
  }

  lemma PromotingKeepsStructure(s: System, caller: DialogId, ending: Option<DialogResult>)
    requires Structure(s) && caller in s.callers && s.callers[caller] == Activating(ending)
    requires s.broker.active.None? && s.broker.pending != []
    ensures Structure(Promoting(s, caller, ending))
  {
    hide Known, Fifo, Owned, Promoting;
    PromotingKeepsOwned(s, caller, ending);
    PromotingKeepsKnown(s, caller, ending);
    PromotingKeepsFifo(s, caller, ending);
  }

  lemma PromotingKeepsProgress(s: System, caller: DialogId, ending: Option<DialogResult>)
    requires Progress(s) && caller in s.callers && s.callers[caller] == Activating(ending)
    requires s.broker.active.None? && s.broker.pending != []
    ensures Progress(Promoting(s, caller, ending))
  {
    var after := Promoting(s, caller, ending);
    assert Ids(s.broker.pending) == [s.broker.pending[0].id] + Ids(after.broker.pending);
    forall other | other in after.callers && Ended(after.callers[other]).None? ensures Expected(after, other) {
      assert other in s.callers && Ended(s.callers[other]).None?;
      assert Expected(s, other);
      if reporter :| reporter in s.callers && s.callers[reporter].Reporting? && s.callers[reporter].dialog == other {
        assert reporter in after.callers && after.callers[reporter].Reporting?;
      }
    }
  }

  lemma PromotingKeepsAccounts(s: System, caller: DialogId, ending: Option<DialogResult>)
    requires OutcomesAccounted(s)
    ensures OutcomesAccounted(Promoting(s, caller, ending))
  {
    hide AcceptedFor, Promoting;
    PromotingLeaves(s, caller, ending);
    SameAccounts(s, Promoting(s, caller, ending));
  }

  lemma SameAccounts(s: System, after: System)
    requires OutcomesAccounted(s) && s.promoted <= after.promoted
    requires after.accepted == s.accepted && after.taken == s.taken && after.broker.slots == s.broker.slots
    ensures OutcomesAccounted(after)
  {
    hide AcceptedFor;
    forall id: DialogId ensures AcceptedFor(after.accepted, id) == WasTaken(after, id) + InSlot(after, id) {
      assert AcceptedFor(s.accepted, id) == WasTaken(s, id) + InSlot(s, id);
    }
  }

  lemma PromotingKeepsResults(s: System, caller: DialogId, ending: Option<DialogResult>)
    requires ResultsMatch(s) && caller in s.callers && s.callers[caller] == Activating(ending)
    ensures ResultsMatch(Promoting(s, caller, ending))
  {
    hide Promoting;
    PromotingLeaves(s, caller, ending);
    var after := Promoting(s, caller, ending);
    forall other | other in after.callers ensures ResultMatches(after, other) {
      assert other in s.callers && ResultMatches(s, other);
    }
  }

  lemma PromotingKeepsOutcomes(s: System, caller: DialogId, ending: Option<DialogResult>)
    requires Outcomes(s) && caller in s.callers && s.callers[caller] == Activating(ending)
    ensures Outcomes(Promoting(s, caller, ending))
  {
    hide OutcomesAccounted, ResultsMatch, Promoting;
    PromotingKeepsAccounts(s, caller, ending);
    PromotingKeepsResults(s, caller, ending);
  }

  lemma PromotingKeepsInv(s: System, caller: DialogId, ending: Option<DialogResult>)
    requires Inv(s) && caller in s.callers && s.callers[caller] == Activating(ending)
    ensures Inv(Promoting(s, caller, ending))
  {
    hide Structure, Progress, Outcomes;
    if s.broker.active.None? && s.broker.pending != [] {
      PromotingKeepsStructure(s, caller, ending);
      PromotingKeepsProgress(s, caller, ending);
      PromotingKeepsOutcomes(s, caller, ending);
    } else {
      MovingKeepsInv(s, caller, AfterActivation(ending));
    }
  }

  // ---- requesting ------------------------------------------------------------------

  lemma RequestingKeepsKnown(s: System, dialog: Dialog)
    requires Known(s) && dialog.id !in s.callers
    ensures Known(Requesting(s, dialog))
  {
    var after := Requesting(s, dialog);
    forall other | other in after.callers ensures OpensPromoted(after, other) {
      assert other != dialog.id ==> other in s.callers && OpensPromoted(s, other);
    }
  }

  lemma RequestingKeepsFifo(s: System, dialog: Dialog)
    requires Fifo(s) && dialog.id !in s.order && forall id | id in s.order :: s.order[id] < s.requests
    ensures Fifo(Requesting(s, dialog))
  {
    hide InOrder;
    var after := Requesting(s, dialog);
    assert Ids(after.broker.pending) == Ids(s.broker.pending) + [dialog.id];
    InOrderAppend(s.order, s.promoted + Ids(s.broker.pending), dialog.id, s.requests);
    assert after.promoted + Ids(after.broker.pending) == s.promoted + Ids(s.broker.pending) + [dialog.id];
  }

  lemma RequestingKeepsOwned(s: System, dialog: Dialog)
    requires Owned(s) && dialog.id !in s.callers
    ensures Owned(Requesting(s, dialog))
  {
    var after := Requesting(s, dialog);
    forall d | d in after.broker.pending ensures OwnedBy(after, d) {
      assert d == dialog || (d in s.broker.pending && OwnedBy(s, d));
    }
    if s.broker.active.Some? {
      assert OwnedBy(s, s.broker.active.value);
      assert OwnedBy(after, s.broker.active.value);
    }
  }

  lemma RequestingKeepsStructure(s: System, dialog: Dialog)
    requires Structure(s) && dialog.id !in s.callers
    ensures Structure(Requesting(s, dialog))
  {
    assert dialog.id !in s.order && forall id | id in s.order :: s.order[id] < s.requests;
    RequestingKeepsKnown(s, dialog);
    RequestingKeepsFifo(s, dialog);
    RequestingKeepsOwned(s, dialog);
  }

  lemma RequestingKeepsProgress(s: System, dialog: Dialog)
    requires Progress(s) && dialog.id !in s.callers
    ensures Progress(Requesting(s, dialog))
  {
    var after := Requesting(s, dialog);
    assert Ids(after.broker.pending) == Ids(s.broker.pending) + [dialog.id];
    assert after.callers[dialog.id].Activating?;
    forall other | other in after.callers && Ended(after.callers[other]).None? ensures Expected(after, other) {
      if other != dialog.id {
        assert other in s.callers && Ended(s.callers[other]).None?;
        assert Expected(s, other);
        if reporter :| reporter in s.callers && s.callers[reporter].Reporting? && s.callers[reporter].dialog == other {
          assert reporter in after.callers && after.callers[reporter].Reporting?;
        }
      }
    }
  }

  lemma RequestingKeepsOutcomes(s: System, dialog: Dialog)
    requires Outcomes(s) && dialog.id !in s.callers && dialog.id !in s.broker.slots && dialog.id !in s.taken
    ensures Outcomes(Requesting(s, dialog))
  {
    var after := Requesting(s, dialog);
    forall other: DialogId
      ensures AcceptedFor(after.accepted, other) == WasTaken(after, other) + InSlot(after, other)
    {
      assert AcceptedFor(s.accepted, other) == WasTaken(s, other) + InSlot(s, other);
    }
    forall other | other in after.callers ensures ResultMatches(after, other) {
      assert other != dialog.id ==> other in s.callers && ResultMatches(s, other);
    }
  }

  lemma RequestingKeepsInv(s: System, dialog: Dialog)
    requires Inv(s) && dialog.id !in s.callers
    ensures Inv(Requesting(s, dialog))
  {
    RequestingIsNew(s, dialog);
    hide Structure, Progress, Outcomes;
    RequestingKeepsStructure(s, dialog);
    RequestingKeepsProgress(s, dialog);
    RequestingKeepsOutcomes(s, dialog);
  }

  lemma RequestingIsNew(s: System, dialog: Dialog)
    requires Structure(s) && dialog.id !in s.callers
    ensures dialog.id !in s.broker.slots && dialog.id !in s.taken
  {
  }

  // ---- failing to open -------------------------------------------------------------

  function Deactivated(s: System): System {
    s.(broker := s.broker.(active := None))
  }

  lemma DeactivatedKeepsStructure(s: System)
    requires Structure(s)
    ensures Structure(Deactivated(s))
  {
    var after := Deactivated(s);
    forall other | other in after.callers ensures OpensPromoted(after, other) {
      assert OpensPromoted(s, other);
    }
    forall d | d in after.broker.pending ensures OwnedBy(after, d) {
      assert OwnedBy(s, d);
    }
  }

  lemma DeactivatedKeepsOutcomes(s: System)
    requires Outcomes(s)
    ensures Outcomes(Deactivated(s))
  {
    var after := Deactivated(s);
    forall other | other in after.callers ensures ResultMatches(after, other) {
      assert ResultMatches(s, other);
    }
  }

  /** The two ways a failed opening goes: the dialog was still active, or it was not. */
  lemma FailingIsMoving(s: System, caller: DialogId, dialog: DialogId, ending: Option<DialogResult>)
    requires Structure(s) && caller in s.callers && s.callers[caller] == Opening(dialog, ending)
    ensures MayMove(Deactivated(s), caller, Reporting(dialog, ending))
    ensures MayMove(s, caller, Activating(ending))
    ensures FailingToOpen(s, caller, dialog, ending)
         == if TakeFailed(s.broker, dialog).1 then Move(Deactivated(s), caller, Reporting(dialog, ending))
            else Move(s, caller, Activating(ending))
  {
    assert OpensPromoted(s, caller);
  }

  lemma FailingKeepsProgress(s: System, caller: DialogId, dialog: DialogId, ending: Option<DialogResult>)
    requires Progress(s) && caller in s.callers && s.callers[caller] == Opening(dialog, ending)
    ensures Progress(FailingToOpen(s, caller, dialog, ending))
  {
    var after := FailingToOpen(s, caller, dialog, ending);
    assert after.callers[caller].Activating? || after.callers[caller] == Reporting(dialog, ending);
    forall other | other in after.callers && Ended(after.callers[other]).None? ensures Expected(after, other) {
      assert other in s.callers && Ended(s.callers[other]).None?;
      assert Expected(s, other);
      if reporter :| reporter in s.callers && s.callers[reporter].Reporting? && s.callers[reporter].dialog == other {
        assert reporter in after.callers && after.callers[reporter].Reporting?;
      }
    }
  }

  lemma FailingKeepsInv(s: System, caller: DialogId, dialog: DialogId, ending: Option<DialogResult>)
    requires Inv(s) && caller in s.callers && s.callers[caller] == Opening(dialog, ending)
    ensures Inv(FailingToOpen(s, caller, dialog, ending))
  {
    hide Structure, Progress, Outcomes, MayMove, FailingToOpen;
    FailingIsMoving(s, caller, dialog, ending);
    FailingKeepsProgress(s, caller, dialog, ending);
    if TakeFailed(s.broker, dialog).1 {
      DeactivatedKeepsStructure(s);
      DeactivatedKeepsOutcomes(s);
      MovingKeepsStructure(Deactivated(s), caller, Reporting(dialog, ending));
      MovingKeepsOutcomes(Deactivated(s), caller, Reporting(dialog, ending));
    } else {
      MovingKeepsStructure(s, caller, Activating(ending));
      MovingKeepsOutcomes(s, caller, Activating(ending));
    }
  }

  // ---- taking an outcome -----------------------------------------------------------

  ghost predicate CanTake(s: System, caller: DialogId, outcome: Outcome) {
    && caller in s.callers && s.callers[caller].Waiting?
    && caller in s.broker.slots && s.broker.slots[caller] == Some(outcome)
  }

  lemma TakingKeepsKnown(s: System, caller: DialogId, outcome: Outcome)
    requires Known(s) && CanTake(s, caller, outcome)
    ensures Known(Taking(s, caller, outcome))
  {
    var after := Taking(s, caller, outcome);
    forall other | other in after.callers ensures OpensPromoted(after, other) {
      assert other in s.callers && OpensPromoted(s, other);
    }
  }

  lemma TakingKeepsOwned(s: System, caller: DialogId, outcome: Outcome)
    requires Owned(s) && CanTake(s, caller, outcome)
    ensures Owned(Taking(s, caller, outcome))
  {
    var after := Taking(s, caller, outcome);
    forall d: Dialog | OwnedBy(s, d) ensures OwnedBy(after, d) {
    }
    hide OwnedBy;
  }

  lemma TakingKeepsStructure(s: System, caller: DialogId, outcome: Outcome)
    requires Structure(s) && CanTake(s, caller, outcome)
    ensures Structure(Taking(s, caller, outcome))
  {
    hide Known, Owned, CanTake, InOrder;
    TakingKeepsKnown(s, caller, outcome);
    TakingKeepsOwned(s, caller, outcome);
  }

  lemma TakingKeepsProgress(s: System, caller: DialogId, outcome: Outcome)
    requires Progress(s) && CanTake(s, caller, outcome)
    ensures Progress(Taking(s, caller, outcome))
  {
    var after := Taking(s, caller, outcome);
    forall other | other in after.callers && Ended(after.callers[other]).None? ensures Expected(after, other) {
      assert other in s.callers && other != caller && Expected(s, other);
      if reporter :| reporter in s.callers && s.callers[reporter].Reporting? && s.callers[reporter].dialog == other {
        assert reporter in after.callers && after.callers[reporter].Reporting?;
      }
    }
    if s.broker.active.None? && s.broker.pending != [] {
      var some :| some in s.callers && (s.callers[some].Activating? || s.callers[some].Reporting?);
      assert some in after.callers && after.callers[some] == s.callers[some];
    }
  }

  lemma TakingKeepsOutcomes(s: System, caller: DialogId, outcome: Outcome)
    requires Outcomes(s) && CanTake(s, caller, outcome)
    ensures Outcomes(Taking(s, caller, outcome))
  {
    var after := Taking(s, caller, outcome);
    assert ResultMatches(s, caller);
    forall other: DialogId
      ensures AcceptedFor(after.accepted, other) == WasTaken(after, other) + InSlot(after, other)
    {
      assert AcceptedFor(s.accepted, other) == WasTaken(s, other) + InSlot(s, other);
    }
    forall other | other in after.callers ensures ResultMatches(after, other) {
      assert other in s.callers && ResultMatches(s, other);
    }
  }

  lemma TakingKeepsInv(s: System, caller: DialogId, outcome: Outcome)
    requires Inv(s) && CanTake(s, caller, outcome)
    ensures Inv(Taking(s, caller, outcome))
  {
    hide Structure, Progress, Outcomes, CanTake;
    TakingKeepsStructure(s, caller, outcome);
    TakingKeepsProgress(s, caller, outcome);
    TakingKeepsOutcomes(s, caller, outcome);
  }

  // ---- leaving ---------------------------------------------------------------------

  ghost predicate CanLeave(s: System, caller: DialogId, result: DialogResult, window: string) {
    && caller in s.callers && s.callers[caller] == Finishing(result)
    && caller in s.windows && s.windows[caller] == window
  }

  /** What is pending after a caller leaves is what was pending, without its request, in order. */
  lemma LeavingPending(s: System, caller: DialogId, window: string)
    requires Fifo(s)
    ensures var after := Finish(s.broker, caller, window);
            && InOrder(s.order, s.promoted + Ids(after.pending))
            && (forall d | d in after.pending :: d in s.broker.pending)
            && (forall d | d in s.broker.pending && d.id != caller :: d in after.pending)
            && (PendingIndex(s.broker.pending, caller, window) < |s.broker.pending| ==> caller !in Ids(after.pending))
  {
    var i := PendingIndex(s.broker.pending, caller, window);
    if i < |s.broker.pending| {
      var ids := s.promoted + Ids(s.broker.pending);
      var k := |s.promoted| + i;
      var after := Finish(s.broker, caller, window);
      InOrderWithout(s.order, ids, k);
      assert s.promoted + Ids(after.pending) == ids[..k] + ids[k + 1..];
      assert ids[k] == caller;
      forall id | id in Ids(after.pending) ensures id in ids[..k] + ids[k + 1..] {
      }
    }
  }

  /** What leaving leaves alone. */
  lemma LeavingLeaves(s: System, caller: DialogId, result: DialogResult, window: string)
    ensures var after := Leaving(s, caller, result, window);
            && after == Move(s, caller, Activating(Some(result))).(broker := after.broker)
            && after.broker == Finish(s.broker, caller, window)
            && after.broker.slots == s.broker.slots
            && (after.broker.active == s.broker.active || after.broker.active.None?)
  {
    hide PendingIndex;
  }

  lemma LeavingKeepsKnown(s: System, caller: DialogId, result: DialogResult, window: string)
    requires Known(s) && CanLeave(s, caller, result, window)
    ensures Known(Leaving(s, caller, result, window))
  {
    hide Leaving, Finish;
    LeavingLeaves(s, caller, result, window);
    var after := Leaving(s, caller, result, window);
    forall other | other in after.callers ensures OpensPromoted(after, other) {
      assert other in s.callers && OpensPromoted(s, other);
    }
  }

  lemma LeavingKeepsFifo(s: System, caller: DialogId, result: DialogResult, window: string)
    requires Fifo(s)
    ensures Fifo(Leaving(s, caller, result, window))
  {
    hide Leaving, Finish, InOrder;
    LeavingLeaves(s, caller, result, window);
    LeavingPending(s, caller, window);
  }

  lemma LeavingKeepsOwned(s: System, caller: DialogId, result: DialogResult, window: string)
    requires Owned(s) && CanLeave(s, caller, result, window)
    requires var after := Finish(s.broker, caller, window);
             && (forall d | d in after.pending :: d in s.broker.pending && d.id != caller)
             && (after.active.Some? ==> after.active.value.id != caller)
    ensures Owned(Leaving(s, caller, result, window))
  {
    hide Leaving, Finish;
    LeavingLeaves(s, caller, result, window);
    var after := Leaving(s, caller, result, window);
    forall d: Dialog | OwnedBy(s, d) && d.id != caller ensures OwnedBy(after, d) {
    }
  }

  lemma LeavingKeepsStructure(s: System, caller: DialogId, result: DialogResult, window: string)
    requires Structure(s) && CanLeave(s, caller, result, window)
    ensures Structure(Leaving(s, caller, result, window))
    ensures var after := Leaving(s, caller, result, window).broker;
            caller !in Ids(after.pending) && (after.active.Some? ==> after.active.value.id != caller)
  {
    hide Leaving, Finish, CanLeave, Known, Fifo, Owned;
    LeavingLeaves(s, caller, result, window);
    LeavingPending(s, caller, window);
    LeavingRemoves(s, caller, result, window);
    var after := Finish(s.broker, caller, window);
    forall d | d in after.pending ensures d.id != caller {
      IsAmongIds(after.pending, d);
    }
    LeavingKeepsKnown(s, caller, result, window);
    LeavingKeepsFifo(s, caller, result, window);
    LeavingKeepsOwned(s, caller, result, window);
  }

  lemma IsAmongIds(dialogs: seq<Dialog>, d: Dialog)
    requires d in dialogs
    ensures d.id in Ids(dialogs)
  {
    var k :| 0 <= k < |dialogs| && dialogs[k] == d;
    assert Ids(dialogs)[k] == d.id;
  }

  /** The request of a leaving caller is in neither place afterwards. */
  lemma LeavingRemoves(s: System, caller: DialogId, result: DialogResult, window: string)
    requires Structure(s) && CanLeave(s, caller, result, window)
    ensures var after := Finish(s.broker, caller, window);
            caller !in Ids(after.pending) && (after.active.Some? ==> after.active.value.id != caller)
  {
    var i := PendingIndex(s.broker.pending, caller, window);
    LeavingPending(s, caller, window);
    if i == |s.broker.pending| {
      forall k | 0 <= k < |s.broker.pending| ensures Ids(s.broker.pending)[k] != caller {
        assert s.broker.pending[k] in s.broker.pending && OwnedBy(s, s.broker.pending[k]);
      }
      if s.broker.active.Some? {
        assert OwnedBy(s, s.broker.active.value);
      }
    } else if s.broker.active.Some? && s.broker.active.value.id == caller {
      PromotedIsNotPending(s, caller, i);
    }
  }

  lemma PromotedIsNotPending(s: System, id: DialogId, i: nat)
    requires Fifo(s) && id in s.promoted && i < |s.broker.pending|
    ensures s.broker.pending[i].id != id
  {
    var ids := s.promoted + Ids(s.broker.pending);
    var j :| 0 <= j < |s.promoted| && s.promoted[j] == id;
    assert s.order[ids[j]] < s.order[ids[|s.promoted| + i]];
    assert ids[|s.promoted| + i] == s.broker.pending[i].id;
  }

  lemma LeavingKeepsExpected(s: System, caller: DialogId, result: DialogResult, window: string, other: DialogId)
    requires Fifo(s) && CanLeave(s, caller, result, window) && other != caller && Expected(s, other)
    ensures Expected(Leaving(s, caller, result, window), other)
  {
    if other in Ids(s.broker.pending) {
      LeavingPending(s, caller, window);
      hide Leaving, Finish, Fifo;
      LeavingLeaves(s, caller, result, window);
      var k :| 0 <= k < |s.broker.pending| && Ids(s.broker.pending)[k] == other;
      assert s.broker.pending[k] in s.broker.pending;
      IsAmongIds(Leaving(s, caller, result, window).broker.pending, s.broker.pending[k]);
    } else {
      ElsewhereStaysExpected(s, caller, result, window, other);
    }
  }

  lemma ElsewhereStaysExpected(s: System, caller: DialogId, result: DialogResult, window: string, other: DialogId)
    requires CanLeave(s, caller, result, window) && other != caller && Expected(s, other)
         && other !in Ids(s.broker.pending)
    ensures Expected(Leaving(s, caller, result, window), other)
  {
    hide PendingIndex, Ids;
    var after := Leaving(s, caller, result, window);
    if reporter :| reporter in s.callers && s.callers[reporter].Reporting? && s.callers[reporter].dialog == other {
      assert reporter in after.callers && after.callers[reporter].Reporting?;
    }
  }

  lemma LeavingKeepsProgress(s: System, caller: DialogId, result: DialogResult, window: string)
    requires Structure(s) && Progress(s) && CanLeave(s, caller, result, window)
    ensures Progress(Leaving(s, caller, result, window))
  {
    hide Leaving, Finish, Expected, Fifo, Known, Owned;
    LeavingLeaves(s, caller, result, window);
    var after := Leaving(s, caller, result, window);
    assert after.callers[caller].Activating?;
    forall other | other in after.callers && Ended(after.callers[other]).None? ensures Expected(after, other) {
      assert other in s.callers && other != caller && Expected(s, other);
      LeavingKeepsExpected(s, caller, result, window, other);
    }
  }

  lemma LeavingKeepsOutcomes(s: System, caller: DialogId, result: DialogResult, window: string)
    requires Outcomes(s) && CanLeave(s, caller, result, window)
    ensures Outcomes(Leaving(s, caller, result, window))
  {
    hide PendingIndex;
    var after := Leaving(s, caller, result, window);
    assert after.broker.slots == s.broker.slots;
    forall other | other in after.callers ensures ResultMatches(after, other) {
      assert other in s.callers && ResultMatches(s, other);
    }
  }

  lemma LeavingKeepsInv(s: System, caller: DialogId, result: DialogResult, window: string)
    requires Inv(s) && CanLeave(s, caller, result, window)
    ensures Inv(Leaving(s, caller, result, window))
  {
    hide Structure, Progress, Outcomes, CanLeave;
    LeavingKeepsStructure(s, caller, result, window);
    LeavingKeepsProgress(s, caller, result, window);
    LeavingKeepsOutcomes(s, caller, result, window);
  }

  // ---- disconnecting and connecting ------------------------------------------------

  lemma DrainedAreKnown(s: System)
    requires Structure(s)
    ensures forall id | id in DrainedIds(s.broker) :: id in s.callers
  {
    forall id | id in DrainedIds(s.broker) ensures id in s.callers {
      if s.broker.active.Some? && s.broker.active.value.id == id {
        assert OwnedBy(s, s.broker.active.value);
      } else {
        var i :| 0 <= i < |s.broker.pending| && s.broker.pending[i].id == id;
        assert OwnedBy(s, s.broker.pending[i]);
      }
    }
  }

  lemma DisconnectingKeepsStructure(s: System)
    requires Structure(s)
    ensures Structure(Disconnecting(s))
  {
    var after := Disconnecting(s);
    DrainedAreKnown(s);
    assert after.promoted + Ids(after.broker.pending) == s.promoted;
    forall id | id in s.promoted ensures id in s.order {
      assert id in s.promoted + Ids(s.broker.pending);
    }
    forall i, j | 0 <= i < j < |s.promoted| ensures s.order[s.promoted[i]] < s.order[s.promoted[j]] {
      var ids := s.promoted + Ids(s.broker.pending);
      assert s.order[ids[i]] < s.order[ids[j]];
    }
    forall other | other in after.callers ensures OpensPromoted(after, other) {
      assert OpensPromoted(s, other);
    }
  }

  lemma DisconnectingKeepsProgress(s: System)
    requires Progress(s)
    ensures Progress(Disconnecting(s))
  {
    var after := Disconnecting(s);
    forall other | other in after.callers && Ended(after.callers[other]).None? ensures Expected(after, other) {
      assert Expected(s, other);
      if other in Ids(s.broker.pending) {
        var k :| 0 <= k < |s.broker.pending| && Ids(s.broker.pending)[k] == other;
        assert s.broker.pending[k].id in DrainedIds(s.broker);
      } else if reporter :|
        reporter in s.callers && s.callers[reporter].Reporting? && s.callers[reporter].dialog == other
      {
        assert reporter in after.callers && after.callers[reporter].Reporting?;
      }
    }
  }

  lemma DisconnectingKeepsOutcomes(s: System)
    requires Outcomes(s)
    ensures Outcomes(Disconnecting(s))
  {
    var after := Disconnecting(s);
    forall other | other in after.callers ensures ResultMatches(after, other) {
      assert ResultMatches(s, other);
    }
  }

  lemma DisconnectingKeepsInv(s: System)
    requires Inv(s)
    ensures Inv(Disconnecting(s))
  {
    hide Structure, Progress, Outcomes;
    DisconnectingKeepsStructure(s);
    DisconnectingKeepsProgress(s);
    DisconnectingKeepsOutcomes(s);
  }

  lemma ConnectingKeepsInv(s: System)
    requires Inv(s)
    ensures Inv(s.(broker := s.broker.(connected := true)))
  {
    hide Structure, Progress, Outcomes;
    ConnectingKeepsStructure(s);
    ConnectingKeepsProgress(s);
    ConnectingKeepsOutcomes(s);
  }

  lemma ConnectingKeepsStructure(s: System)
    requires Structure(s)
    ensures Structure(s.(broker := s.broker.(connected := true)))
  {
    var after := s.(broker := s.broker.(connected := true));
    assert forall d: Dialog :: OwnedBy(s, d) ==> OwnedBy(after, d);
    assert forall caller | caller in s.callers :: OpensPromoted(s, caller) ==> OpensPromoted(after, caller);
    hide OwnedBy, OpensPromoted, InOrder;
  }

  lemma ConnectingKeepsProgress(s: System)
    requires Progress(s)
    ensures Progress(s.(broker := s.broker.(connected := true)))
  {
    var after := s.(broker := s.broker.(connected := true));
    forall other | other in after.callers && Ended(after.callers[other]).None? ensures Expected(after, other) {
      assert Expected(s, other);
    }
  }

  lemma ConnectingKeepsOutcomes(s: System)
    requires Outcomes(s)
    ensures Outcomes(s.(broker := s.broker.(connected := true)))
  {
    var after := s.(broker := s.broker.(connected := true));
    forall other | other in after.callers ensures ResultMatches(after, other) {
      assert ResultMatches(s, other);
    }
  }
}
