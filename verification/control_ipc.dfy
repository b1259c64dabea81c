/** The control channel of the running service: pending command bits, token comparison, handlers. */
module ControlIpc {
  import opened Wrappers

  // ---- command bits ----------------------------------------------------------------

  datatype Command = Reload | Stop

  const RELOAD_PENDING: bv8 := 1
  const STOP_PENDING: bv8 := 2

  function Bit(command: Command): bv8 {
    match command case Reload => RELOAD_PENDING case Stop => STOP_PENDING
  }

  function Decode(pending: bv8): Option<Command> {
    if pending & STOP_PENDING != 0 then Some(Stop)
    else if pending & RELOAD_PENDING != 0 then Some(Reload)
    else None
  }

  /** Connection handlers accept commands, the worker may report an error, the service polls. */
  datatype Step = Accept(command: Command) | WorkerError(message: string) | Poll

  datatype Server = Server(pending: bv8, error: Option<string>)

  datatype PollResult = Failed(message: string) | Polled(command: Option<Command>)

  function Polling(s: Server): (Server, PollResult) {
    if s.error.Some? then (s.(error := None), Failed(s.error.value))
    else (s.(pending := 0), Polled(Decode(s.pending)))
  }

  function After(steps: seq<Step>): Server {
    if steps == [] then Server(0, None)
    else
      var s := After(steps[..|steps| - 1]);
      match steps[|steps| - 1]
      case Accept(command) => s.(pending := s.pending | Bit(command))
      case WorkerError(message) => s.(error := Some(message))
      case Poll => Polling(s).0
  }

  /** The command was accepted and no poll has succeeded since. */
  function Outstanding(steps: seq<Step>, command: Command): bool {
    if steps == [] then false
    else
      var init := steps[..|steps| - 1];
      match steps[|steps| - 1]
      case Accept(accepted) => accepted == command || Outstanding(init, command)
      case WorkerError(_) => Outstanding(init, command)
      case Poll => After(init).error.Some? && Outstanding(init, command)
  }

  lemma OrKeepsBits(pending: bv8, command: Command, bit: Command)
    ensures (pending | Bit(command)) & Bit(bit) != 0 <==> command == bit || pending & Bit(bit) != 0
  {
  }

  lemma {:induction false} BitsAreOutstanding(steps: seq<Step>, command: Command)
    ensures After(steps).pending & Bit(command) != 0 <==> Outstanding(steps, command)
  {
    if steps != [] {
      var init := steps[..|steps| - 1];
      BitsAreOutstanding(init, command);
      if steps[|steps| - 1].Accept? {
        OrKeepsBits(After(init).pending, steps[|steps| - 1].command, command);
      }
    }
  }

  function Strongest(stop: bool, reload: bool): Option<Command> {
    if stop then Some(Stop) else if reload then Some(Reload) else None
  }

  /** A poll that does not fail returns Stop exactly when a Stop is outstanding, else Reload exactly when
      a Reload is; nothing is outstanding afterwards, so a Reload that shares a poll with a Stop is spent. */
  lemma PollReturnsWhatIsOutstanding(steps: seq<Step>, command: Command)
    ensures var (after, result) := Polling(After(steps));
            && (result.Polled? <==> After(steps).error.None?)
            && after.error.None?
            && (result.Failed? ==> Some(result.message) == After(steps).error && after.pending == After(steps).pending)
            && (result.Polled? ==> result.command == Strongest(Outstanding(steps, Stop), Outstanding(steps, Reload)))
            && (Outstanding(steps + [Poll], command) <==> result.Failed? && Outstanding(steps, command))
  {
    BitsAreOutstanding(steps, Stop);
    BitsAreOutstanding(steps, Reload);
    assert (steps + [Poll])[..|steps|] == steps;
  }

  /** The error of the worker's step `k` has not been reported: no poll has come since, and no other error. */
  ghost predicate Unreported(steps: seq<Step>, k: nat) {
    && k < |steps| && steps[k].WorkerError?
    && forall j :: k < j < |steps| ==> !steps[j].Poll? && !steps[j].WorkerError?
  }

  /** A poll fails exactly when the worker has failed since the poll before, with the latest error. */
  lemma {:induction false} PollReportsTheLatestError(steps: seq<Step>)
    ensures Polling(After(steps)).1.Failed? <==> exists k: nat :: Unreported(steps, k)
    ensures forall k: nat | Unreported(steps, k) :: Polling(After(steps)).1 == Failed(steps[k].message)
  {
    if steps != [] {
      var init, last := steps[..|steps| - 1], steps[|steps| - 1];
      PollReportsTheLatestError(init);
      forall k: nat | Unreported(steps, k) ensures last.WorkerError? <==> k == |init| {
      }
      if last.WorkerError? {
        assert Unreported(steps, |init|);
      } else if last.Accept? {
        forall k: nat ensures Unreported(steps, k) <==> Unreported(init, k) {
        }
      } else {
        forall k: nat ensures !Unreported(steps, k) {
          assert k < |init| ==> steps[|init|].Poll?;
        }
      }
    }
  }

  /** An accepted command stays outstanding whatever comes before the next poll that does not fail. */
  lemma {:induction false} AcceptedIsNotLost(steps: seq<Step>, command: Command, more: seq<Step>)
    requires forall i | 0 <= i < |more| && more[i].Poll? :: After(steps + [Accept(command)] + more[..i]).error.Some?
    ensures Outstanding(steps + [Accept(command)] + more, command)
  {
    var start := steps + [Accept(command)];
    if more == [] {
      assert start + more == start && start[..|steps|] == steps;
    } else {
      var init := more[..|more| - 1];
      assert (start + more)[..|start + more| - 1] == start + init;
      forall i | 0 <= i < |init| && init[i].Poll? ensures After(start + init[..i]).error.Some? {
        assert more[i].Poll? && init[..i] == more[..i];
      }
      AcceptedIsNotLost(steps, command, init);
      assert more[..|more| - 1] == init;
    }
  }

  class ServiceControlServer {
    var pending: bv8
    var workerError: Option<string>

    constructor ()
      ensures Server(pending, workerError) == After([])
    {
      pending, workerError := 0, None;
    }

    method AcceptCommand(command: Command)
      modifies this`pending
      ensures pending == old(pending) | Bit(command)
    {
      pending := pending | (match command case Reload => RELOAD_PENDING case Stop => STOP_PENDING);
    }

    method PollCommand() returns (r: Result<Option<Command>, string>)
      modifies this
      ensures var (after, result) := Polling(Server(old(pending), old(workerError)));
              && Server(pending, workerError) == after
              && r == (match result case Failed(message) => Err(message) case Polled(command) => Ok(command))
    {
      if workerError.Some? {
        var message := workerError.value;
        workerError := None;
        return Err(message);
      }
      var taken := pending;
      pending := 0;
      if taken & STOP_PENDING != 0 {
        return Ok(Some(Stop));
      } else if taken & RELOAD_PENDING != 0 {
        return Ok(Some(Reload));
      }
      return Ok(None);
    }
  }

  // ---- token comparison ------------------------------------------------------------

  /** `^` and `|` on machine words, bit by bit. */
  function Xor(a: nat, b: nat): nat {
    if a == 0 && b == 0 then 0 else 2 * Xor(a / 2, b / 2) + (if a % 2 == b % 2 then 0 else 1)
  }

  function Or(a: nat, b: nat): nat {
    if a == 0 && b == 0 then 0 else 2 * Or(a / 2, b / 2) + (if a % 2 == 0 && b % 2 == 0 then 0 else 1)
  }

  lemma {:induction false} XorIsZeroIff(a: nat, b: nat)
    ensures Xor(a, b) == 0 <==> a == b
  {
    if a != 0 || b != 0 {
      XorIsZeroIff(a / 2, b / 2);
    }
  }

  lemma {:induction false} OrIsZeroIff(a: nat, b: nat)
    ensures Or(a, b) == 0 <==> a == 0 && b == 0
  {
    if a != 0 || b != 0 {
      OrIsZeroIff(a / 2, b / 2);
    }
  }

  type Byte = b: nat | b < 256

  /** The difference of all lengths and bytes is gathered before it is judged. */
  method ConstantTimeEqual(left: seq<Byte>, right: seq<Byte>) returns (equal: bool)
    ensures equal <==> left == right
  {
    var difference := Xor(|left|, |right|);
    XorIsZeroIff(|left|, |right|);
    var index := 0;
    while index < |right|
      invariant 0 <= index <= |right|
      invariant difference == 0 <==> |left| == |right| && left[..index] == right[..index]
    {
      var byte := if index < |left| then left[index] else 0;
      XorIsZeroIff(byte, right[index]);
      OrIsZeroIff(difference, Xor(byte, right[index]));
      if |left| == |right| {
        assert left[..index + 1] == left[..index] + [left[index]];
        assert right[..index + 1] == right[..index] + [right[index]];
      }
      difference := Or(difference, Xor(byte, right[index]));
      index := index + 1;
    }
    assert right[..index] == right;
    assert |left| == |right| ==> left[..index] == left;
    equal := difference == 0;
  }

  // ---- handlers --------------------------------------------------------------------

  class Handlers<H(==, !new)> {
    var handlers: seq<H>

    constructor (handlers: seq<H>)
      ensures this.handlers == handlers
    {
      this.handlers := handlers;
    }

    /** Takes the handler at `index` out, the last one filling its place. */
    method SwapRemove(index: nat) returns (h: H)
      requires index < |handlers|
      modifies this
      ensures h == old(handlers)[index]
      ensures handlers == (old(handlers)[index := old(handlers)[|old(handlers)| - 1]])[..|old(handlers)| - 1]
    {
      h := handlers[index];
      handlers := (handlers[index := handlers[|handlers| - 1]])[..|handlers| - 1];
    }

    /** Asks every handler once whether it has finished, keeps those that had not and joins the others.
        `finished` answers by the number of the question, for a handler may finish meanwhile. */
    method ReapFinished(finished: (nat, H) -> bool) returns (joined: seq<H>, ghost asked: seq<H>)
      modifies this
      ensures multiset(asked) == multiset(old(handlers))
      ensures handlers == Answered(asked, finished, false) && joined == Answered(asked, finished, true)
      ensures multiset(handlers) + multiset(joined) == multiset(old(handlers))
    {
      hide Answered, Partition;
      joined, asked := [], [];
      var index, questions := 0, 0;
      NothingAsked(handlers, finished);
      while index < |handlers|
        invariant 0 <= index <= |handlers| && questions == |asked|
        invariant Partition(old(handlers), asked, handlers, index)
        invariant handlers[..index] == Answered(asked, finished, false) && joined == Answered(asked, finished, true)
        decreases |handlers| - index
      {
        var h := handlers[index];
        AnsweredOneMore(asked, finished, h, false);
        AnsweredOneMore(asked, finished, h, true);
        PartitionOneMore(old(handlers), asked, handlers, index);
        asked := asked + [h];
        if finished(questions, h) {
          PartitionSwapRemoved(old(handlers), asked, handlers, index);
          h := SwapRemove(index);
          joined := joined + [h];
        } else {
          index := index + 1;
        }
        questions := questions + 1;
      }
      AllAsked(old(handlers), asked, handlers);
      AnswersSplit(asked, finished);
    }
  }

  lemma NothingAsked<H>(handlers: seq<H>, finished: (nat, H) -> bool)
    ensures Partition(handlers, [], handlers, 0)
    ensures handlers[..0] == Answered([], finished, false) && [] == Answered([], finished, true)
  {
    assert handlers[0..] == handlers;
  }

  lemma AllAsked<H>(all: seq<H>, asked: seq<H>, handlers: seq<H>)
    requires Partition(all, asked, handlers, |handlers|)
    ensures multiset(asked) == multiset(all) && handlers[..|handlers|] == handlers
  {
  }

  /** The handlers that got this answer, in the order they were asked. */
  function Answered<H>(asked: seq<H>, finished: (nat, H) -> bool, answer: bool): seq<H> {
    if asked == [] then []
    else
      var n := |asked| - 1;
      Answered(asked[..n], finished, answer) + if finished(n, asked[n]) == answer then [asked[n]] else []
  }

  lemma {:induction false} AnswersSplit<H>(asked: seq<H>, finished: (nat, H) -> bool)
    ensures multiset(Answered(asked, finished, false)) + multiset(Answered(asked, finished, true)) == multiset(asked)
  {
    if asked != [] {
      hide Answered;
      var init, last := asked[..|asked| - 1], asked[|asked| - 1];
      AnswersSplit(init, finished);
      assert asked == init + [last];
      AnsweredOneMore(init, finished, last, false);
      AnsweredOneMore(init, finished, last, true);
      OneMoreSplit(Answered(init, finished, false), Answered(init, finished, true), init, last);
      hide *;
    } else {
      assert Answered(asked, finished, false) == [] && Answered(asked, finished, true) == [];
    }
  }

  lemma OneMoreSplit<H>(a: seq<H>, b: seq<H>, all: seq<H>, h: H)
    requires multiset(a) + multiset(b) == multiset(all)
    ensures multiset(a + [h]) + multiset(b + []) == multiset(all + [h])
    ensures multiset(a + []) + multiset(b + [h]) == multiset(all + [h])
  {
    assert a + [] == a && b + [] == b;
  }

  lemma AnsweredOneMore<H>(asked: seq<H>, finished: (nat, H) -> bool, h: H, answer: bool)
    ensures Answered(asked + [h], finished, answer)
         == Answered(asked, finished, answer) + if finished(|asked|, h) == answer then [h] else []
  {
    assert (asked + [h])[..|asked|] == asked;
  }

  /** Everything is asked or still waiting at `index` and behind. */
  ghost predicate Partition<H>(all: seq<H>, asked: seq<H>, handlers: seq<H>, index: nat) {
    index <= |handlers| && multiset(asked) + multiset(handlers[index..]) == multiset(all)
  }

  lemma PartitionOneMore<H>(all: seq<H>, asked: seq<H>, handlers: seq<H>, index: nat)
    requires Partition(all, asked, handlers, index) && index < |handlers|
    ensures Partition(all, asked + [handlers[index]], handlers, index + 1)
    ensures handlers[..index + 1] == handlers[..index] + [handlers[index]]
  {
    assert handlers[index..] == [handlers[index]] + handlers[index + 1..];
    assert multiset(asked + [handlers[index]]) == multiset(asked) + multiset{handlers[index]};
  }

  lemma PartitionSwapRemoved<H>(all: seq<H>, asked: seq<H>, handlers: seq<H>, index: nat)
    requires index < |handlers| && Partition(all, asked, handlers, index + 1)
    ensures var after := (handlers[index := handlers[|handlers| - 1]])[..|handlers| - 1];
            Partition(all, asked, after, index) && after[..index] == handlers[..index]
  {
    hide Partition;
    SwapRemovedBehind(handlers, index);
    SameBehind(all, asked, handlers, index + 1, (handlers[index := handlers[|handlers| - 1]])[..|handlers| - 1], index);
  }

  lemma SameBehind<H>(all: seq<H>, asked: seq<H>, a: seq<H>, i: nat, b: seq<H>, j: nat)
    requires Partition(all, asked, a, i) && j <= |b| && multiset(a[i..]) == multiset(b[j..])
    ensures Partition(all, asked, b, j)
  {
  }

  lemma SwapRemovedBehind<H>(handlers: seq<H>, index: nat)
    requires index < |handlers|
    ensures var after := (handlers[index := handlers[|handlers| - 1]])[..|handlers| - 1];
            && index <= |after| && after[..index] == handlers[..index]
            && multiset(after[index..]) == multiset(handlers[index + 1..])
  {
    var last := |handlers| - 1;
    var after := (handlers[index := handlers[last]])[..last];
    if index == last {
      assert after[index..] == handlers[index + 1..] == [];
    } else {
      assert after[index..] == [handlers[last]] + handlers[index + 1..last];
      assert handlers[index + 1..] == handlers[index + 1..last] + [handlers[last]];
    }
  }

  // ---- hexadecimal -----------------------------------------------------------------

  /** The digits are '0' to '9' and 'a' to 'f'. */
  function HexDigit(n: nat): char
    requires n < 16
  {
    if n < 10 then ('0' as int + n) as char else ('a' as int + n - 10) as char
  }

  function Hex(bytes: seq<Byte>): string {
    if bytes == [] then [] else [HexDigit(bytes[0] / 16), HexDigit(bytes[0] % 16)] + Hex(bytes[1..])
  }

  function Digit(c: char): nat {
    if '0' <= c <= '9' then c as int - '0' as int else if 'a' <= c <= 'f' then c as int - 'a' as int + 10 else 0
  }

  function Unhex(text: string): seq<nat> {
    if |text| < 2 then [] else [16 * Digit(text[0]) + Digit(text[1])] + Unhex(text[2..])
  }

  lemma DigitOfHex(n: nat)
    requires n < 16
    ensures Digit(HexDigit(n)) == n
  {
  }

  /** The token's text is twice as long as its bytes and determines them. */
  lemma {:induction false} HexRoundTrip(bytes: seq<Byte>)
    ensures |Hex(bytes)| == 2 * |bytes| && Unhex(Hex(bytes)) == bytes
  {
    if bytes != [] {
      hide HexDigit, Digit;
      HexRoundTrip(bytes[1..]);
      DigitOfHex(bytes[0] / 16);
      DigitOfHex(bytes[0] % 16);
      assert Hex(bytes)[2..] == Hex(bytes[1..]);
      assert bytes == [bytes[0]] + bytes[1..];
    }
  }

  lemma HexUnfolds(bytes: seq<Byte>)
    ensures bytes == [] ==> Hex(bytes) == []
    ensures bytes != [] ==> Hex(bytes) == [HexDigit(bytes[0] / 16), HexDigit(bytes[0] % 16)] + Hex(bytes[1..])
  {
    hide HexDigit;
  }

  lemma {:induction false} HexAppends(a: seq<Byte>, b: seq<Byte>)
    ensures Hex(a + b) == Hex(a) + Hex(b)
  {
    hide Hex, HexDigit;
    HexUnfolds(a);
    if a == [] {
      assert a + b == b;
    } else {
      HexUnfolds(a + b);
      HexAppends(a[1..], b);
      assert (a + b)[1..] == a[1..] + b;
    }
  }

  lemma HexOne(byte: Byte)
    ensures Hex([byte]) == [HexDigit(byte / 16), HexDigit(byte % 16)]
  {
    hide HexDigit;
    HexUnfolds([byte]);
    HexUnfolds([]);
  }

  method HexEncode(bytes: seq<Byte>) returns (encoded: string)
    ensures encoded == Hex(bytes)
  {
    hide Hex, HexDigit;
    encoded := "";
    HexUnfolds([]);
    var i := 0;
    while i < |bytes|
      invariant 0 <= i <= |bytes| && encoded == Hex(bytes[..i])
    {
      HexAppends(bytes[..i], [bytes[i]]);
      HexOne(bytes[i]);
      assert bytes[..i + 1] == bytes[..i] + [bytes[i]];
      encoded := encoded + [HexDigit(bytes[i] / 16)];
      encoded := encoded + [HexDigit(bytes[i] % 16)];
      i := i + 1;
    }
    assert bytes[..i] == bytes;
  }
}
